/**
 * `Give_QuickBooks_Admin`: the settings-page registration, the OAuth 2.0
 * authorize URL (section 4.1.1 of RFC 6749), the connection check behind the
 * connect button, and the admin notice chosen from the `give-message`
 * query value. Rendering of HTML is outside the model.
 */
module QuickBooksAdmin {
  import opened Php
  import opened Store
  import opened UrlEncoding
  import opened QuickBooksApi

  const QuickBooksSection: string := "quickbooks"
  const SettingsGroupId: string := "give_quickbooks_admin_settings"

  // ------------------------------------------------------- settings page

  /** One field descriptor of the platform's settings API, reduced to the
      attributes that decide what is stored: the option id (absent for the
      documentation link), the field type and the default value. */
  datatype SettingField = SettingField(id: Option<string>, fieldType: string, defaultValue: Option<string>)

  const ClientIdKey: string := "give_quickbooks_client_id"
  const ClientSecretKey: string := "give_quickbooks_client_secret"
  const AuthButtonKey: string := "give_quickbooks_auth_button"
  const MethodLabelKey: string := "quickbooks_payment_method_label"

  /** The fixed list of QuickBooks settings fields. The default payment
      method label comes from a helper outside the model. */
  function QuickBooksSettings(defaultLabel: string): (r: seq<SettingField>)
    ensures |r| == 8
    ensures r[0].fieldType == "title" && r[7].fieldType == "sectionend"
    ensures r[0].id == Some(SettingsGroupId) && r[7].id == Some(SettingsGroupId)
    ensures r[5].id == Some(MethodLabelKey) && r[5].defaultValue == Some(defaultLabel)
  {
    [ SettingField(Some(SettingsGroupId), "title", None),
      SettingField(Some(ClientIdKey), "text", Some("")),
      SettingField(Some(ClientSecretKey), "text", Some("")),
      SettingField(Some(AuthButtonKey), "quickbooks_auth_button", None),
      SettingField(Some(CollectBillingKey), "checkbox", None),
      SettingField(Some(MethodLabelKey), "text", Some(defaultLabel)),
      SettingField(None, "give_docs_link", None),
      SettingField(Some(SettingsGroupId), "sectionend", None) ]
  }

  /** `add_settings($settings)`: outside the QuickBooks section the list is
      returned as given; inside it the given list is replaced by the fixed
      QuickBooks list. */
  function AddSettings(currentSection: string, settings: seq<SettingField>, defaultLabel: string): (r: seq<SettingField>)
    ensures currentSection != QuickBooksSection ==> r == settings
    ensures currentSection == QuickBooksSection ==> r == QuickBooksSettings(defaultLabel)
  {
    if currentSection != QuickBooksSection then settings else QuickBooksSettings(defaultLabel)
  }

  /** The option names the fields store their values under: those of the
      `text` and `checkbox` fields, in order. */
  function StoredOptionIds(fields: seq<SettingField>): seq<string> {
    if fields == [] then []
    else
      var head := if fields[0].id.Some? && (fields[0].fieldType == "text" || fields[0].fieldType == "checkbox")
        then [fields[0].id.value] else [];
      head + StoredOptionIds(fields[1..])
  }

  /** The QuickBooks list opens with a `title` field and closes with a
      `sectionend` field of the same group, and stores exactly the client
      id, the client secret, the billing switch and the method label, the
      last defaulting to the given label. */
  lemma QuickBooksSettingsShape(defaultLabel: string)
    ensures var l := QuickBooksSettings(defaultLabel);
      && l[0] == SettingField(Some(SettingsGroupId), "title", None)
      && l[|l| - 1] == SettingField(Some(SettingsGroupId), "sectionend", None)
      && StoredOptionIds(l) == [ClientIdKey, ClientSecretKey, CollectBillingKey, MethodLabelKey]
      && l[5].defaultValue == Some(defaultLabel)
  {
    var l := QuickBooksSettings(defaultLabel);
    var t := l[7..];
    assert StoredOptionIds(t) == [] by { assert t[1..] == []; }
    assert StoredOptionIds(l[6..]) == [] by { assert l[6..][1..] == t; }
    assert StoredOptionIds(l[5..]) == [MethodLabelKey] by { assert l[5..][1..] == l[6..]; }
    assert StoredOptionIds(l[4..]) == [CollectBillingKey, MethodLabelKey] by { assert l[4..][1..] == l[5..]; }
    assert StoredOptionIds(l[3..]) == [CollectBillingKey, MethodLabelKey] by { assert l[3..][1..] == l[4..]; }
    assert StoredOptionIds(l[2..]) == [ClientSecretKey, CollectBillingKey, MethodLabelKey] by { assert l[2..][1..] == l[3..]; }
    assert StoredOptionIds(l[1..]) == [ClientIdKey, ClientSecretKey, CollectBillingKey, MethodLabelKey] by { assert l[1..][1..] == l[2..]; }
  }

  /** `add_section($sections)`: registers the QuickBooks section and leaves
      every other section as it was. */
  function AddSection(sections: map<string, string>): (r: map<string, string>)
    ensures r.Keys == sections.Keys + {QuickBooksSection}
    ensures r[QuickBooksSection] == "QuickBooks Settings"
    ensures forall k :: k in sections && k != QuickBooksSection ==> r[k] == sections[k]
  {
    sections[QuickBooksSection := "QuickBooks Settings"]
  }

  // ------------------------------------------------------ authorize URL

  /** The default arguments of the authorize URL, in order. The redirect
      URI, client id and nonce come from helpers outside the model. */
  function ConnectDefaults(redirectUri: string, clientId: string, nonce: string): seq<(string, string)> {
    [ ("redirect_uri", redirectUri),
      ("client_id", clientId),
      ("scope", "com.intuit.quickbooks.payment"),
      ("give_quickbooks_nonce", nonce),
      ("response_type", "code"),
      ("state", "RandomState") ]
  }

  /** The defaults with each value replaced by the caller's value for that key. */
  function Overridden(defaults: seq<(string, string)>, args: seq<(string, string)>): (r: seq<(string, string)>)
    ensures |r| == |defaults| && Keys(r) == Keys(defaults)
  {
    if defaults == [] then []
    else
      var k := defaults[0].0;
      [(k, match Get(args, k) case Some(v) => v case None => defaults[0].1)] + Overridden(defaults[1..], args)
  }

  /** `r` holds entries of `s` in the order `s` has them, possibly skipping some. */
  predicate SubsequenceOf<T(==)>(r: seq<T>, s: seq<T>)
    decreases |s|
  {
    if r == [] then true
    else if s == [] then false
    else if r[0] == s[0] then SubsequenceOf(r[1..], s[1..])
    else SubsequenceOf(r, s[1..])
  }

  /** The caller's entries whose keys have no default, in the caller's order. */
  function Extra(args: seq<(string, string)>, defaults: seq<(string, string)>): (r: seq<(string, string)>)
    ensures forall i :: 0 <= i < |r| ==> r[i] in args && r[i].0 !in Keys(defaults)
  {
    if args == [] then []
    else (if args[0].0 in Keys(defaults) then [] else [args[0]]) + Extra(args[1..], defaults)
  }

  /** `Extra` keeps every caller entry without a default, in the caller's
      order, and repeats no key the caller does not repeat. */
  lemma {:induction false} ExtraCharacterized(args: seq<(string, string)>, defaults: seq<(string, string)>)
    ensures var r := Extra(args, defaults);
      && (forall p :: p in args && p.0 !in Keys(defaults) ==> p in r)
      && SubsequenceOf(r, args)
      && (DistinctKeys(args) ==> DistinctKeys(r))
  {
    if args != [] {
      ExtraCharacterized(args[1..], defaults);
      var rest := Extra(args[1..], defaults);
      assert forall p :: p in args ==> p == args[0] || p in args[1..];
      if args[0].0 in Keys(defaults) {
        assert Extra(args, defaults) == rest;
        assert rest != [] ==> rest[0] != args[0];
      } else {
        var r := Extra(args, defaults);
        assert r == [args[0]] + rest;
        assert r[1..] == rest;
        if DistinctKeys(args) {
          forall i | 0 <= i < |rest| ensures rest[i].0 != args[0].0 {
            assert rest[i] in args[1..];
            var j :| 0 <= j < |args[1..]| && args[1..][j] == rest[i];
            assert args[j + 1] == rest[i];
          }
          forall i, j | 0 <= i < j < |r| ensures r[i].0 != r[j].0 {
            if i > 0 { assert r[i] == rest[i - 1] && r[j] == rest[j - 1]; }
            else { assert r[j] == rest[j - 1]; }
          }
        }
      }
    }
  }

  /** `wp_parse_args($args, $defaults)` for array arguments with
      non-numeric keys, which is `array_merge($defaults, $args)` (PHP would
      renumber decimal-integer keys): default keys first, in their order,
      each with the caller's value when the caller gives one, then the
      caller's other entries in the caller's order. A key appears at most
      once when it does so in both inputs. */
  function WpParseArgs(args: seq<(string, string)>, defaults: seq<(string, string)>): (r: seq<(string, string)>)
    ensures |r| >= |defaults| && Keys(r)[..|defaults|] == Keys(defaults)
    ensures r[|defaults|..] == Extra(args, defaults)
    ensures forall k :: k in Keys(r) <==> k in Keys(defaults) || k in Keys(args)
    ensures forall k :: Get(r, k) == (if Get(args, k).Some? then Get(args, k) else Get(defaults, k))
    ensures DistinctKeys(args) && DistinctKeys(defaults) ==> DistinctKeys(r)
  {
    var o, e := Overridden(defaults, args), Extra(args, defaults);
    MergedPrefix(o, e);
    MergedLookup(args, defaults);
    MergedDistinct(args, defaults);
    o + e
  }

  lemma MergedPrefix(o: seq<(string, string)>, e: seq<(string, string)>)
    ensures |o + e| >= |o| && Keys(o + e)[..|o|] == Keys(o) && (o + e)[|o|..] == e
  {
    KeysAppend(o, e);
  }

  lemma MergedLookup(args: seq<(string, string)>, defaults: seq<(string, string)>)
    ensures var r := Overridden(defaults, args) + Extra(args, defaults);
      && (forall k :: Get(r, k) == (if Get(args, k).Some? then Get(args, k) else Get(defaults, k)))
      && (forall k :: k in Keys(r) <==> k in Keys(defaults) || k in Keys(args))
  {
    var o, e := Overridden(defaults, args), Extra(args, defaults);
    forall k ensures Get(o + e, k) == (if Get(args, k).Some? then Get(args, k) else Get(defaults, k)) {
      GetAppend(o, e, k);
      GetOverridden(defaults, args, k);
      GetExtra(args, defaults, k);
    }
    forall k ensures k in Keys(o + e) <==> k in Keys(defaults) || k in Keys(args) {
      GetSomeIffKey(o + e, k);
      GetSomeIffKey(args, k);
      GetSomeIffKey(defaults, k);
    }
  }

  lemma MergedDistinct(args: seq<(string, string)>, defaults: seq<(string, string)>)
    ensures DistinctKeys(args) && DistinctKeys(defaults) ==> DistinctKeys(Overridden(defaults, args) + Extra(args, defaults))
  {
    var o, e := Overridden(defaults, args), Extra(args, defaults);
    var r := o + e;
    ExtraCharacterized(args, defaults);
    forall i, j | DistinctKeys(args) && DistinctKeys(defaults) && 0 <= i < j < |r| ensures r[i].0 != r[j].0 {
      if j < |o| {
        assert r[i].0 == Keys(o)[i] == defaults[i].0;
        assert r[j].0 == Keys(o)[j] == defaults[j].0;
      } else if i >= |o| {
        assert r[i] == e[i - |o|] && r[j] == e[j - |o|];
      } else {
        assert r[i].0 == Keys(o)[i] == Keys(defaults)[i];
        assert r[j] == e[j - |o|];
      }
    }
  }

  lemma {:induction false} KeysAppend<V>(a: seq<(string, V)>, b: seq<(string, V)>)
    ensures Keys(a + b) == Keys(a) + Keys(b)
  {
    if a != [] {
      assert (a + b)[1..] == a[1..] + b;
      KeysAppend(a[1..], b);
    } else {
      assert a + b == b;
    }
  }

  lemma {:induction false} GetAppend<V>(a: seq<(string, V)>, b: seq<(string, V)>, k: string)
    ensures Get(a + b, k) == if Get(a, k).Some? then Get(a, k) else Get(b, k)
  {
    if a != [] {
      assert (a + b)[1..] == a[1..] + b;
      GetAppend(a[1..], b, k);
    } else {
      assert a + b == b;
    }
  }

  lemma {:induction false} GetSomeIffKey<V>(a: seq<(string, V)>, k: string)
    ensures Get(a, k).Some? <==> k in Keys(a)
  {
    if a != [] {
      GetSomeIffKey(a[1..], k);
      assert Keys(a) == [a[0].0] + Keys(a[1..]);
    }
  }

  lemma {:induction false} GetOverridden(defaults: seq<(string, string)>, args: seq<(string, string)>, k: string)
    ensures Get(Overridden(defaults, args), k) ==
      if Get(defaults, k).None? then None
      else if Get(args, k).Some? then Get(args, k) else Get(defaults, k)
  {
    if defaults != [] {
      GetOverridden(defaults[1..], args, k);
    }
  }

  lemma {:induction false} GetExtra(args: seq<(string, string)>, defaults: seq<(string, string)>, k: string)
    ensures Get(Extra(args, defaults), k) == if Get(defaults, k).Some? then None else Get(args, k)
  {
    if args != [] {
      GetExtra(args[1..], defaults, k);
      GetSomeIffKey(defaults, k);
      GetSomeIffKey(defaults, args[0].0);
      var head := if args[0].0 in Keys(defaults) then [] else [args[0]];
      GetAppend(head, Extra(args[1..], defaults), k);
    }
  }

  /** `get_qb_connect_url($args)`: the OAuth base URL, `?`, and the RFC 1738
      query of the caller's arguments merged over the defaults. The base URL,
      redirect URI, client id and nonce come from helpers outside the model. */
  function ConnectUrl(args: seq<(string, string)>, oauthBase: string, redirectUri: string, clientId: string, nonce: string): (r: string)
    ensures |r| > |oauthBase| && r[..|oauthBase|] == oauthBase && r[|oauthBase|] == '?'
  {
    WithQuery(oauthBase, BuildQuery(WpParseArgs(args, ConnectDefaults(redirectUri, clientId, nonce))))
  }

  /** A URL with a query string: the base, `?`, then the query. */
  function WithQuery(base: string, query: string): (r: string)
    ensures |r| > |base| && r[..|base|] == base && r[|base|] == '?' && r[|base| + 1..] == query
  {
    base + "?" + query
  }

  /** A URL built as base, `?`, query reads back as the base and the merged arguments. */
  lemma MergedUrlQuery(base: string, args: seq<(string, string)>, defaults: seq<(string, string)>)
    ensures var r := WithQuery(base, BuildQuery(WpParseArgs(args, defaults)));
      && |r| > |base| && r[..|base|] == base && r[|base|] == '?'
      && ParseQuery(r[|base| + 1..]) == Some(WpParseArgs(args, defaults))
  {
    QueryRoundTrip(WpParseArgs(args, defaults));
  }

  /** For non-numeric caller keys, the authorize URL is the base URL and
      `?` followed by a query that reads back with the six default keys first, in order, then the
      caller's other entries in the caller's order; every key has the
      caller's value when the caller gives one and the default otherwise,
      and no key repeats when the caller's keys do not. */
  lemma ConnectUrlQuery(args: seq<(string, string)>, oauthBase: string, redirectUri: string, clientId: string, nonce: string)
    ensures var r := ConnectUrl(args, oauthBase, redirectUri, clientId, nonce);
      && |r| > |oauthBase| && r[..|oauthBase|] == oauthBase && r[|oauthBase|] == '?'
      && var q := ParseQuery(r[|oauthBase| + 1..]);
      && q.Some?
      && |q.value| >= 6
      && Keys(q.value)[..6] == ["redirect_uri", "client_id", "scope", "give_quickbooks_nonce", "response_type", "state"]
      && q.value[6..] == Extra(args, ConnectDefaults(redirectUri, clientId, nonce))
      && (forall k :: Get(q.value, k) ==
           (if Get(args, k).Some? then Get(args, k) else Get(ConnectDefaults(redirectUri, clientId, nonce), k)))
      && (DistinctKeys(args) ==> DistinctKeys(q.value))
  {
    var d := ConnectDefaults(redirectUri, clientId, nonce);
    MergedUrlQuery(oauthBase, args, d);
    ConnectDefaultKeys(redirectUri, clientId, nonce);
    ConnectDefaultsDistinct(redirectUri, clientId, nonce);
  }

  lemma ConnectDefaultsDistinct(redirectUri: string, clientId: string, nonce: string)
    ensures DistinctKeys(ConnectDefaults(redirectUri, clientId, nonce))
  {
    var d := ConnectDefaults(redirectUri, clientId, nonce);
    var lengths := [12, 9, 5, 21, 13, 5];
    assert forall i :: 0 <= i < 6 ==> |d[i].0| == lengths[i];
    assert d[2].0[1] != d[5].0[1];
  }

  lemma ConnectDefaultKeys(redirectUri: string, clientId: string, nonce: string)
    ensures Keys(ConnectDefaults(redirectUri, clientId, nonce)) ==
      ["redirect_uri", "client_id", "scope", "give_quickbooks_nonce", "response_type", "state"]
  {
    var d := ConnectDefaults(redirectUri, clientId, nonce);
    assert Keys(d[6..]) == [];
    assert Keys(d[5..]) == ["state"] by { assert d[5..][1..] == d[6..]; }
    assert Keys(d[4..]) == ["response_type", "state"] by { assert d[4..][1..] == d[5..]; }
    assert Keys(d[3..]) == ["give_quickbooks_nonce", "response_type", "state"] by { assert d[3..][1..] == d[4..]; }
    assert Keys(d[2..]) == ["scope", "give_quickbooks_nonce", "response_type", "state"] by { assert d[2..][1..] == d[3..]; }
    assert Keys(d[1..]) == ["client_id", "scope", "give_quickbooks_nonce", "response_type", "state"] by { assert d[1..][1..] == d[2..]; }
  }

  /** Without caller arguments the authorize URL carries exactly the six
      defaults, in order: `response_type=code`, the payments scope and the
      constant state `RandomState` among them. */
  lemma DefaultConnectUrl(oauthBase: string, redirectUri: string, clientId: string, nonce: string)
    ensures var r := ConnectUrl([], oauthBase, redirectUri, clientId, nonce);
      ParseQuery(r[|oauthBase| + 1..]) == Some(ConnectDefaults(redirectUri, clientId, nonce))
  {
    var d := ConnectDefaults(redirectUri, clientId, nonce);
    var merged := WpParseArgs([], d);
    assert merged == Overridden(d, []) + Extra([], d);
    OverriddenNothing(d);
    assert merged == d;
    MergedUrlQuery(oauthBase, [], d);
  }

  lemma {:induction false} OverriddenNothing(defaults: seq<(string, string)>)
    ensures Overridden(defaults, []) == defaults
  {
    if defaults != [] {
      OverriddenNothing(defaults[1..]);
    }
  }

  // ---------------------------------------------------- connection check

  /** The connection is checked only with a client id and an auth code on
      file, and only while the QuickBooks section is displayed. */
  predicate ChecksConnection(clientId: Option<string>, authCode: Option<string>, currentSection: string) {
    !IsEmpty(clientId) && !IsEmpty(authCode) && currentSection == QuickBooksSection
  }

  /** The connection status of `quickbooks_auth_button_callback`: when the
      check applies, a refresh request is sent, `give_qb_connected` is
      written false and then true on an HTTP 200 exactly; otherwise nothing
      is sent or written and the status is false. The response code is a
      parameter (`None` when the transport gave none). */
  method AuthButtonCallback(settings: GiveSettings, clientId: Option<string>, authCode: Option<string>,
                            currentSection: string, refreshToken: Option<string>, authorization: string,
                            responseCode: Option<int>)
    returns (connected: bool, sent: Option<HttpRequest>)
    modifies settings
    ensures connected <==> ChecksConnection(clientId, authCode, currentSection) && responseCode == Some(200)
    ensures ChecksConnection(clientId, authCode, currentSection) ==>
      && sent == Some(RefreshRequest(refreshToken, authorization))
      && settings.options == old(settings.options)[ConnectedKey := PBool(connected)]
    ensures !ChecksConnection(clientId, authCode, currentSection) ==>
      sent == None && settings.options == old(settings.options)
  {
    connected := false;
    sent := None;
    if ChecksConnection(clientId, authCode, currentSection) {
      sent := Some(RefreshRequest(refreshToken, authorization));
      settings.UpdateOption(ConnectedKey, PBool(false));
      if responseCode == Some(200) {
        settings.UpdateOption(ConnectedKey, PBool(true));
        connected := true;
      }
    }
  }

  /** The status text shown beside the connect button. */
  function StatusLabel(connected: bool): (text: string)
    ensures text == "Connected" <==> connected
    ensures !connected ==> text == "Not Connected"
  {
    if connected then "Connected" else "Not Connected"
  }

  // -------------------------------------------------------- admin notice

  datatype Notice = Notice(id: string, noticeType: string, description: string, show: bool)

  /** `quickbooks_render_admin_notice()`: the notice registered for the
      `give-message` query value, for a user who may manage settings. */
  function AdminNotice(message: Option<string>, canManageSettings: bool): (r: Option<Notice>)
    ensures r.Some? <==> canManageSettings && (message == Some("qb-auth-connected") || message == Some("qb-auth-rejected"))
    ensures message == Some("qb-auth-connected") && r.Some? ==> r.value.noticeType == "updated" && r.value.id == "qb-auth-connected"
    ensures message == Some("qb-auth-rejected") && r.Some? ==> r.value.noticeType == "error" && r.value.id == "qb-auth-rejected"
    ensures r.Some? ==> r.value.show
  {
    if IsEmpty(message) || !canManageSettings then None
    else if message.value == "qb-auth-connected" then
      Some(Notice("qb-auth-connected", "updated", "You have successfully authenticated with QuickBooks.", true))
    else if message.value == "qb-auth-rejected" then
      Some(Notice("qb-auth-rejected", "error", "You have not authenticated with QuickBooks.", true))
    else None
  }
}

/**
 * `Give_QuickBooks_API`: the request bodies the plugin sends to the
 * provider's OAuth 2.0 token endpoint and payments API, and the update of the
 * settings store after a refresh-token exchange.
 *
 * HTTP transport, JSON encoding and decoding are outside the model: a
 * request is the value handed to the transport (URL, headers, body as a PHP
 * array) and a response is the value the transport and `json_decode`
 * hand back.
 */
module QuickBooksApi {
  import opened Php
  import opened Store
  import opened UrlEncoding

  const TokenEndpoint: string := "https://oauth.platform.intuit.com/oauth2/v1/tokens/bearer"
  const SandboxBaseUrl: string := "https://sandbox.api.intuit.com"
  const ProductionBaseUrl: string := "https://api.intuit.com"
  const FormContentType: string := "application/x-www-form-urlencoded"
  const JsonContentType: string := "application/json"

  /** The request headers the plugin sets; an absent header is `None`. */
  datatype Headers = Headers(contentType: string, authorization: Option<string>, requestId: Option<string>)

  /** The grant a token-endpoint request carries. */
  datatype TokenGrant =
    | AuthorizationCode(code: string, redirectUri: string)
    | RefreshTokenGrant(refreshToken: Option<string>)

  /** The billing address of a card, named as the payments API names it. */
  datatype Address = Address(city: string, region: string, country: string, streetAddress: string, postalCode: string)

  /** The `card` block: expiry year and month, security code, number, holder
      name and, when billing collection is on, the address. */
  datatype Card = Card(expYear: string, expMonth: string, cvc: string, number: string, name: string, address: Option<Address>)

  datatype Context = Context(mobile: bool, isEcommerce: bool)

  /** A request body. Token requests are sent form-encoded, the others as JSON. */
  datatype Body =
    | TokenForm(grant: TokenGrant)
    | TokenizeBody(card: Card)
    | ChargeBody(amount: string, currency: string, context: Context, card: Card)
    | RefundBody(id: string, refundAmount: string)

  /** A POST handed to the transport. */
  datatype HttpRequest = Post(url: string, headers: Headers, body: Body)

  /** The payments API host, chosen by the platform's test-mode switch. */
  function BaseUrl(testMode: bool): string {
    if testMode then SandboxBaseUrl else ProductionBaseUrl
  }

  // ------------------------------------------------------ token endpoint

  /** The fields of a token-request body, in order, as the form encoder
      emits them: a null field (an absent refresh token) is skipped. */
  function FormFields(grant: TokenGrant): seq<(string, string)> {
    match grant
    case AuthorizationCode(code, uri) => [("grant_type", "authorization_code"), ("code", code), ("redirect_uri", uri)]
    case RefreshTokenGrant(None) => [("grant_type", "refresh_token")]
    case RefreshTokenGrant(Some(t)) => [("grant_type", "refresh_token"), ("refresh_token", t)]
  }

  /** The form-urlencoded payload of a token request. */
  function FormPayload(grant: TokenGrant): string {
    BuildQuery(FormFields(grant))
  }

  /** `get_auth_access_token($code)`: the authorization-code exchange
      (section 4.1.3 of RFC 6749). The Basic authorization value and the
      redirect URI come from helpers outside the model. */
  function AuthCodeRequest(code: string, redirectUri: string, authorization: string): (r: HttpRequest)
    ensures r.url == TokenEndpoint && r.headers == Headers(FormContentType, Some(authorization), None)
    ensures r.body.TokenForm? && FormFields(r.body.grant) == [("grant_type", "authorization_code"), ("code", code), ("redirect_uri", redirectUri)]
  {
    Post(TokenEndpoint, Headers(FormContentType, Some(authorization), None), TokenForm(AuthorizationCode(code, redirectUri)))
  }

  /** The authorization-code request's payload reads back as exactly the
      grant type, the code and the redirect URI, in that order. */
  lemma AuthCodePayload(code: string, redirectUri: string, authorization: string)
    ensures var r := AuthCodeRequest(code, redirectUri, authorization);
      ParseQuery(FormPayload(r.body.grant)) == Some([("grant_type", "authorization_code"), ("code", code), ("redirect_uri", redirectUri)])
  {
    QueryRoundTrip(FormFields(AuthorizationCode(code, redirectUri)));
  }

  /** `get_auth_refresh_access_token()`: the refresh-token exchange
      (section 6 of RFC 6749), carrying the stored refresh token. */
  function RefreshRequest(refreshToken: Option<string>, authorization: string): (r: HttpRequest)
    ensures r.url == TokenEndpoint && r.headers == Headers(FormContentType, Some(authorization), None)
    ensures r.body.TokenForm?
    ensures refreshToken.Some? ==> FormFields(r.body.grant) == [("grant_type", "refresh_token"), ("refresh_token", refreshToken.value)]
    ensures refreshToken.None? ==> FormFields(r.body.grant) == [("grant_type", "refresh_token")]
  {
    Post(TokenEndpoint, Headers(FormContentType, Some(authorization), None), TokenForm(RefreshTokenGrant(refreshToken)))
  }

  /** The refresh request's payload reads back as the grant type followed
      by the stored refresh token; an absent token is left out of the form. */
  lemma RefreshPayload(refreshToken: Option<string>, authorization: string)
    ensures var r := RefreshRequest(refreshToken, authorization);
      && (refreshToken.Some? ==>
           ParseQuery(FormPayload(r.body.grant)) == Some([("grant_type", "refresh_token"), ("refresh_token", refreshToken.value)]))
      && (refreshToken.None? ==> ParseQuery(FormPayload(r.body.grant)) == Some([("grant_type", "refresh_token")]))
  {
    QueryRoundTrip(FormFields(RefreshTokenGrant(refreshToken)));
  }

  /** The two token requests go to the same endpoint with the same headers;
      their payloads differ in the grant type, so neither can be taken for
      the other. */
  lemma TokenRequestsDiffer(code: string, redirectUri: string, refreshToken: Option<string>, authorization: string)
    ensures var a, b := AuthCodeRequest(code, redirectUri, authorization), RefreshRequest(refreshToken, authorization);
      a.url == b.url && a.headers == b.headers && FormPayload(a.body.grant) != FormPayload(b.body.grant)
  {
    var a, b := AuthCodeRequest(code, redirectUri, authorization), RefreshRequest(refreshToken, authorization);
    var fa, fb := FormFields(a.body.grant), FormFields(b.body.grant);
    QueryRoundTrip(fa);
    QueryRoundTrip(fb);
    assert fa[0].1 != fb[0].1 by {
      assert |fa[0].1| == 18 && |fb[0].1| == 13;
    }
  }

  // ------------------------------------------------ card and charge bodies

  /** The fields of a donation the request builders read
      (`$payment_data['post_data']`, `$payment_data['card_info']`, `$payment_data['price']`). */
  datatype PaymentData = PaymentData(
    price: string,
    cardExpiry: string,
    cardExpiryYear: string,
    cardCvc: string,
    cardName: string,
    cardNumber: string,
    cardCity: string,
    cardState: string,
    cardCountry: string,
    cardAddress: string,
    cardZip: string)

  /** `trim(explode('/', $card_expiry)[0])`: the trimmed text before the
      first `/`, or the whole trimmed text when there is no `/`. */
  function ExpiryMonth(cardExpiry: string): (m: string)
    ensures '/' !in m
    ensures '/' !in cardExpiry ==> m == Trim(cardExpiry)
    ensures forall i :: 0 <= i < |cardExpiry| && cardExpiry[i] == '/' && '/' !in cardExpiry[..i] ==>
      m == Trim(cardExpiry[..i])
  {
    var head := BeforeFirst(cardExpiry, '/');
    forall i | 0 <= i < |cardExpiry| && cardExpiry[i] == '/' && '/' !in cardExpiry[..i]
      ensures cardExpiry[..i] == head
    {
      assert forall j :: 0 <= j < i ==> cardExpiry[j] == cardExpiry[..i][j];
    }
    assert '/' !in cardExpiry ==> head == cardExpiry by {
      assert forall j :: 0 <= j < |cardExpiry| ==> cardExpiry[j] in cardExpiry;
    }
    TrimKeeps(head, '/');
    Trim(head)
  }

  /** Trimming never introduces a character. */
  lemma TrimKeeps(s: string, c: char)
    requires c !in s
    ensures c !in Trim(s)
  {
    var l, r := TrimLeft(s), Trim(s);
    assert l == s[|s| - |l|..] && r == l[..|r|];
    forall i | 0 <= i < |r| ensures r[i] != c {
      assert r[i] == s[|s| - |l| + i];
    }
  }

  /** The card block both the tokenize and the charge request send. */
  function CardOf(p: PaymentData, collectBilling: bool): (c: Card)
    ensures c.expYear == p.cardExpiryYear && c.cvc == p.cardCvc && c.number == p.cardNumber && c.name == p.cardName
    ensures c.expMonth == ExpiryMonth(p.cardExpiry)
    ensures c.address.Some? <==> collectBilling
    ensures collectBilling ==> c.address == Some(Address(p.cardCity, p.cardState, p.cardCountry, p.cardAddress, p.cardZip))
  {
    Card(p.cardExpiryYear, ExpiryMonth(p.cardExpiry), p.cardCvc, p.cardNumber, p.cardName,
      if collectBilling then Some(Address(p.cardCity, p.cardState, p.cardCountry, p.cardAddress, p.cardZip)) else None)
  }

  /** `get_access_token($payment_data)`: the card-tokenize request. */
  function TokenizeRequest(p: PaymentData, testMode: bool): (r: HttpRequest)
    ensures r.url == BaseUrl(testMode) + "/quickbooks/v4/payments/tokens"
    ensures r.headers == Headers(JsonContentType, None, None)
    ensures r.body.TokenizeBody? && r.body.card == CardOf(p, false)
  {
    Post(BaseUrl(testMode) + "/quickbooks/v4/payments/tokens", Headers(JsonContentType, None, None),
      TokenizeBody(CardOf(p, false)))
  }

  /** `quickbooks_payment_request($payment_data)`: the charge request. The
      currency, the billing switch, the stored access token, the test-mode
      switch and the request id come from helpers outside the model. */
  function ChargeRequest(p: PaymentData, currency: string, collectBilling: bool, accessToken: Option<string>,
                         testMode: bool, requestId: string): (r: HttpRequest)
    ensures r.url == BaseUrl(testMode) + "/quickbooks/v4/payments/charges"
    ensures r.headers == Headers(JsonContentType, Some("Bearer " + TextOf(accessToken)), Some(requestId))
    ensures r.body.ChargeBody? && r.body.amount == p.price && r.body.currency == currency
    ensures r.body.context == Context(false, true)
    ensures r.body.card == CardOf(p, collectBilling)
  {
    Post(BaseUrl(testMode) + "/quickbooks/v4/payments/charges",
      Headers(JsonContentType, Some("Bearer " + TextOf(accessToken)), Some(requestId)),
      ChargeBody(p.price, currency, Context(false, true), CardOf(p, collectBilling)))
  }

  /** The charge and tokenize requests send the same card; the charge adds
      the donor's billing fields as the address exactly when billing
      collection is on. */
  lemma ChargeCardMatchesTokenize(p: PaymentData, currency: string, collectBilling: bool,
                                  accessToken: Option<string>, testMode: bool, requestId: string)
    ensures var c, t := ChargeRequest(p, currency, collectBilling, accessToken, testMode, requestId).body.card,
                        TokenizeRequest(p, testMode).body.card;
      c.(address := None) == t
      && (collectBilling ==> c.address == Some(Address(p.cardCity, p.cardState, p.cardCountry, p.cardAddress, p.cardZip)))
  {
  }

  // --------------------------------------------------------------- refund

  const ChargesPath: string := "/quickbooks/v4/payments/charges/"
  const RefundsSuffix: string := "/refunds"

  /** `create_refund($charge_id, $payment_data)`: nothing is sent for an
      empty charge id; otherwise a refund of the payment total is posted to
      the charge's refunds path. */
  function CreateRefund(chargeId: Option<string>, paymentTotal: string, accessToken: Option<string>,
                        testMode: bool, requestId: string): (r: Option<HttpRequest>)
    ensures r.None? <==> IsEmpty(chargeId)
    ensures r.Some? ==>
      && r.value.url == BaseUrl(testMode) + ChargesPath + chargeId.value + RefundsSuffix
      && r.value.body == RefundBody(chargeId.value, paymentTotal)
      && r.value.headers == Headers(JsonContentType, Some("Bearer " + TextOf(accessToken)), Some(requestId))
  {
    if IsEmpty(chargeId) then None
    else
      var id := chargeId.value;
      Some(Post(BaseUrl(testMode) + ChargesPath + id + RefundsSuffix,
        Headers(JsonContentType, Some("Bearer " + TextOf(accessToken)), Some(requestId)),
        RefundBody(id, paymentTotal)))
  }

  /** The charge a refund is for can be read back from its URL, and it is
      the id its body names. */
  lemma RefundUrlNamesCharge(chargeId: Option<string>, paymentTotal: string, accessToken: Option<string>,
                             testMode: bool, requestId: string)
    requires !IsEmpty(chargeId)
    ensures var r := CreateRefund(chargeId, paymentTotal, accessToken, testMode, requestId).value;
      var start := |BaseUrl(testMode) + ChargesPath|;
      start + |RefundsSuffix| <= |r.url|
      && r.url[start..|r.url| - |RefundsSuffix|] == r.body.id
  {
    var r := CreateRefund(chargeId, paymentTotal, accessToken, testMode, requestId).value;
    var pre := BaseUrl(testMode) + ChargesPath;
    assert r.url == pre + chargeId.value + RefundsSuffix;
    assert r.url[|pre|..|r.url| - |RefundsSuffix|] == chargeId.value;
  }

  // ------------------------------------------------- refresh-token update

  /** A decoded token-endpoint response: each field is absent (or null)
      when the provider did not send it. */
  datatype TokenResponse = TokenResponse(
    error: Option<string>,
    accessToken: Option<string>,
    refreshToken: Option<string>,
    refreshExpiresIn: Option<int>)

  function IntOrNull(v: Option<int>): PhpValue {
    match v
    case None => PNull
    case Some(i) => PInt(i)
  }

  /** The four options a successful refresh writes. */
  const TokenKeys: set<string> := {AccessTokenKey, RefreshTokenKey, ConnectedTimeKey, RefreshExpiresKey}

  /** Whether `looking_for_access_token` writes the store: the stored
      refresh token is not empty, a body was decoded, and its error is not
      exactly `invalid_grant`. */
  predicate RefreshWrites(storedRefresh: Option<string>, response: Option<TokenResponse>) {
    !IsEmpty(storedRefresh) && response.Some? && TextOf(response.value.error) != "invalid_grant"
  }

  /** The settings after `looking_for_access_token`, given the old settings,
      the stored refresh token, the decoded response and the current time. */
  function RefreshedOptions(options: map<string, PhpValue>, storedRefresh: Option<string>,
                            response: Option<TokenResponse>, now: int): (r: map<string, PhpValue>)
    ensures !RefreshWrites(storedRefresh, response) ==> r == options
    ensures RefreshWrites(storedRefresh, response) ==>
      && r.Keys == options.Keys + TokenKeys
      && r[AccessTokenKey] == StrOrNull(response.value.accessToken)
      && r[RefreshTokenKey] == StrOrNull(response.value.refreshToken)
      && r[ConnectedTimeKey] == PInt(now + 3600)
      && r[RefreshExpiresKey] == IntOrNull(response.value.refreshExpiresIn)
    ensures forall k :: k !in TokenKeys ==> (k in r <==> k in options) && (k in r ==> r[k] == options[k])
  {
    if RefreshWrites(storedRefresh, response) then
      var t := response.value;
      options[AccessTokenKey := StrOrNull(t.accessToken)]
             [RefreshTokenKey := StrOrNull(t.refreshToken)]
             [ConnectedTimeKey := PInt(now + 3600)]
             [RefreshExpiresKey := IntOrNull(t.refreshExpiresIn)]
    else options
  }

  /** The access token and the refresh token change together: after a
      refresh either both hold the values of one response or the settings
      are what they were. */
  lemma TokensWrittenTogether(options: map<string, PhpValue>, storedRefresh: Option<string>,
                              response: Option<TokenResponse>, now: int)
    ensures var r := RefreshedOptions(options, storedRefresh, response, now);
      r == options ||
      (response.Some? && AccessTokenKey in r && RefreshTokenKey in r
       && r[AccessTokenKey] == StrOrNull(response.value.accessToken)
       && r[RefreshTokenKey] == StrOrNull(response.value.refreshToken))
  {
  }

  /** A decoded body that carries no error and no tokens still overwrites
      both stored tokens (with null): the code does not check that the
      response holds a token pair. */
  lemma EmptyBodyOverwritesTokens(options: map<string, PhpValue>, stored: string, now: int)
    requires !IsEmpty(Some(stored))
    ensures var r := RefreshedOptions(options, Some(stored), Some(TokenResponse(None, None, None, None)), now);
      r[AccessTokenKey] == PNull && r[RefreshTokenKey] == PNull && r[ConnectedTimeKey] == PInt(now + 3600)
  {
  }

  /** `looking_for_access_token()`: with an empty stored refresh token it
      returns false and sends nothing; otherwise it sends the refresh request
      and, from the decoded response, rewrites the four token options in
      order. The response and the clock are parameters. */
  method LookingForAccessToken(settings: GiveSettings, storedRefresh: Option<string>, authorization: string,
                               response: Option<TokenResponse>, now: int)
    returns (result: Option<bool>, sent: Option<HttpRequest>)
    modifies settings
    ensures IsEmpty(storedRefresh) ==> result == Some(false) && sent == None
    ensures !IsEmpty(storedRefresh) ==> result == None && sent == Some(RefreshRequest(storedRefresh, authorization))
    ensures settings.options == RefreshedOptions(old(settings.options), storedRefresh, response, now)
  {
    if IsEmpty(storedRefresh) {
      return Some(false), None;
    }
    sent := Some(RefreshRequest(storedRefresh, authorization));
    result := None;
    if response.Some? {
      var error := TextOf(response.value.error);
      if error != "invalid_grant" {
        var t := response.value;
        settings.UpdateOption(AccessTokenKey, StrOrNull(t.accessToken));
        settings.UpdateOption(RefreshTokenKey, StrOrNull(t.refreshToken));
        settings.UpdateOption(ConnectedTimeKey, PInt(now + 3600));
        settings.UpdateOption(RefreshExpiresKey, IntOrNull(t.refreshExpiresIn));
      }
    }
  }
}

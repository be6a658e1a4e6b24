/**
 * The uninstall cleanup of the platform's settings map: every setting whose
 * name is on the plugin's list, or whose first 15 characters are
 * `give_quickbooks`, is removed, and the map is saved back.
 */
module Uninstall {
  import opened Php
  import opened Store
  import QuickBooksAdmin

  const SettingsPrefix: string := "give_quickbooks"

  /** The plugin's own list of global setting names. */
  const PluginSettings: seq<string> := [
    "give_quickbooks_client_id",
    "give_quickbooks_client_secret",
    "give_quickbooks_collect_billing",
    "give_quickbooks_payment_method_label",
    "give_quickbooks_access_token",
    "give_quickbooks_refresh_token",
    "give_quickbooks_connected",
    "give_quickbooks_realm_id",
    "give_quickbooks_auth_code"
  ]

  /** The removal test applied to each setting name: listed, or with the
      `give_quickbooks` prefix. Every listed name already has the prefix,
      so the list adds nothing to the prefix test. */
  function ShouldRemove(k: string): (remove: bool)
    ensures remove <==> Prefix(k, 15) == SettingsPrefix
  {
    forall n | n in PluginSettings
      ensures Prefix(n, 15) == SettingsPrefix
    {
      assert n[..15] == SettingsPrefix;
    }
    k in PluginSettings || Prefix(k, 15) == SettingsPrefix
  }

  /** The settings map once the cleanup has run: exactly the settings that
      fail the removal test, each with its original value. */
  function Purged(m: map<string, PhpValue>): (r: map<string, PhpValue>)
    ensures forall k :: k in r <==> k in m && !ShouldRemove(k)
    ensures forall k :: k in r ==> r[k] == m[k]
  {
    map k | k in m && !ShouldRemove(k) :: m[k]
  }

  /** The cleanup loop: one setting at a time, in no particular order,
      unset when it passes the removal test. */
  method PurgeSettings(settings: map<string, PhpValue>) returns (kept: map<string, PhpValue>)
    ensures forall k :: k in kept <==> k in settings && !ShouldRemove(k)
    ensures forall k :: k in kept ==> kept[k] == settings[k]
    ensures kept == Purged(settings)
  {
    kept := settings;
    var todo := settings.Keys;
    while todo != {}
      invariant todo <= settings.Keys
      invariant forall k :: k in kept ==> k in settings && kept[k] == settings[k]
      invariant forall k :: k in todo ==> k in kept
      invariant forall k :: k in settings && k !in todo ==> (k in kept <==> !ShouldRemove(k))
      decreases todo
    {
      var k :| k in todo;
      if ShouldRemove(k) {
        kept := kept - {k};
      }
      todo := todo - {k};
    }
  }

  /** The whole uninstall step on the store: purge, then save back. */
  method UninstallSettings(settings: GiveSettings)
    modifies settings
    ensures settings.options == Purged(old(settings.options))
  {
    var kept := PurgeSettings(settings.options);
    settings.SaveAll(kept);
  }

  /** A name shorter than the prefix is never removed. */
  lemma ShortNamesSurvive(m: map<string, PhpValue>, k: string)
    requires k in m && |k| < 15
    ensures k in Purged(m) && Purged(m)[k] == m[k]
  {
  }

  /** Running the cleanup a second time changes nothing. */
  lemma PurgeIdempotent(m: map<string, PhpValue>)
    ensures Purged(Purged(m)) == Purged(m)
  {
  }

  /** The options the plugin writes under names without the prefix survive
      the cleanup with their values: the connection timestamp, the refresh
      expiry, the connection flag, and the billing and label settings of the
      settings page (the list names those two with a `give_` prefix the
      settings page does not use). The tokens and the credentials are removed. */
  lemma UnprefixedOptionsSurvive(m: map<string, PhpValue>)
    ensures forall k :: k in m && k in {ConnectedTimeKey, RefreshExpiresKey, ConnectedKey, CollectBillingKey, QuickBooksAdmin.MethodLabelKey} ==>
      k in Purged(m) && Purged(m)[k] == m[k]
    ensures forall k :: k in {AccessTokenKey, RefreshTokenKey, QuickBooksAdmin.ClientIdKey, QuickBooksAdmin.ClientSecretKey} ==> k !in Purged(m)
  {
    forall k | k in {ConnectedTimeKey, RefreshExpiresKey, ConnectedKey, CollectBillingKey, QuickBooksAdmin.MethodLabelKey}
      ensures !ShouldRemove(k)
    {
      assert SettingsPrefix[0] == 'g' && SettingsPrefix[6] == 'u';
      assert k[0] != 'g' || k[6] != 'u';
    }
    forall k | k in {AccessTokenKey, RefreshTokenKey, QuickBooksAdmin.ClientIdKey, QuickBooksAdmin.ClientSecretKey}
      ensures ShouldRemove(k)
    {
      assert k[..15] == SettingsPrefix;
    }
  }
}

/**
 * The donation platform's settings store (`give_get_option` /
 * `give_update_option`): one map from option name to value, shared by every
 * part of the plugin and changed in place.
 */
module Store {
  import opened Php

  /** Option names the plugin reads and writes. */
  const AccessTokenKey: string := "give_quickbooks_access_token"
  const RefreshTokenKey: string := "give_quickbooks_refresh_token"
  const ConnectedTimeKey: string := "qb_auth_connected_time"
  const RefreshExpiresKey: string := "qb_auth_x_refresh_token_expires_in"
  const ConnectedKey: string := "give_qb_connected"
  const CollectBillingKey: string := "quickbooks_collect_billing"

  class GiveSettings {
    var options: map<string, PhpValue>

    constructor (initial: map<string, PhpValue>)
      ensures options == initial
    {
      options := initial;
    }

    /** `give_update_option($key, $value)`: stores `value` under `key`. */
    method UpdateOption(key: string, value: PhpValue)
      modifies this
      ensures options == old(options)[key := value]
    {
      options := options[key := value];
    }

    /** `update_option('give_settings', $all)`: replaces the whole map. */
    method SaveAll(all: map<string, PhpValue>)
      modifies this
      ensures options == all
    {
      options := all;
    }
  }
}

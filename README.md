# Give QuickBooks Payments: a verified model of the gateway's logic

This project models the logic of the Give QuickBooks Payments plugin for
WordPress. The plugin connects the Give donation platform to the QuickBooks
Payments API. The host platform stays abstract: its getters, the clock, the
random draws and the HTTP responses are parameters. The model covers:

- **OAuth token handling** (`Give_QuickBooks_API`). It covers the
  authorization-code and refresh-token requests (sections 4.1.3 and 6 of
  RFC 6749) and their form-encoded payloads. It also covers the store
  update made after a refresh (`looking_for_access_token`): access token,
  refresh token, connection time and refresh expiry are rewritten together
  in the platform's settings store.
- **Payment requests.** These are the card-tokenize request and the charge
  request, including parsing the expiry month from `card_expiry` and the
  optional billing address. The refund request is modelled with its
  empty-charge-id guard.
- **The request id** (`generate_unique_request_id`). It is a function of
  eight random draws. It has the UUID layout, but not the layout of
  section 4.4 of RFC 4122. The literal `4` is the last digit of the third
  group. The forced bits `01` are characters 6 and 7 of the fourth
  draw's `%016b` form (bits 9 and 8 of the value), so that group's second
  digit is one of `1`, `5`, `9`, `d`.
- **The admin side** (`Give_QuickBooks_Admin`):
  - section gating of the settings list, and the section entry;
  - the OAuth authorize URL (section 4.1.1 of RFC 6749): caller arguments
    merged over the defaults as `wp_parse_args` does, then encoded by
    `http_build_query` in RFC 1738 mode;
  - the connection check behind the connect button;
  - the choice of admin notice.
- **The uninstall cleanup**: a loop that removes plugin settings from the
  settings map, after which the map is saved.

Modules:

- `Php` (php.dfy): the PHP facilities the logic depends on: `empty()`,
  `trim()`, `explode()[0]`, `substr($s, 0, $n)`, and PHP values and arrays.
- `UrlEncoding` (url_encoding.dfy): UTF-8, `urlencode`, `http_build_query`,
  and a reader for the query strings they produce. Every encoding is proved
  to round-trip.
- `RequestId` (request_id.dfy): `sprintf('%04x')`, `sprintf('%016b')`,
  `substr_replace`, `bindec`, and the request-id formatter.
- `Store` (store.dfy): the settings store as a class. Its one map is
  changed in place.
- `QuickBooksApi` (api.dfy): the API class.
- `QuickBooksAdmin` (admin.dfy): the admin class.
- `Uninstall` (uninstall.dfy): the uninstall script.

Three behaviours of the code are easy to overlook; the model states each:

- The refresh step writes the token options for any decoded response whose
  `error` is not exactly `invalid_grant`. This includes a body that carries
  no token at all: the tokens are then overwritten with null (see
  `EmptyBodyOverwritesTokens`).
- The OAuth `state` parameter is the constant `RandomState`, and nothing
  verifies it.
- The uninstall cleanup keeps `qb_auth_connected_time` and
  `qb_auth_x_refresh_token_expires_in`, because their names have no
  `give_quickbooks` prefix and are not on the list. It also keeps the
  billing and label settings: the list names them
  `give_quickbooks_collect_billing` and
  `give_quickbooks_payment_method_label`, but the settings page stores them
  as `quickbooks_collect_billing` and `quickbooks_payment_method_label`.
  `UnprefixedOptionsSurvive` states this.

## Model

| member | source | states |
|---|---|---|
| Php.Trim | includes/give-quickbooks-api.php:77 | `trim()` is the input with a leading and a trailing run of space, tab, newline, carriage return, NUL or vertical tab removed; neither end of the result is such a character, and the result is empty exactly when the input is made only of them |
| Php.TrimIdempotent | includes/give-quickbooks-api.php:77 | trimming a trimmed string changes nothing |
| Php.BeforeFirst | includes/give-quickbooks-api.php:76 | `explode('/', $s)[0]` is a prefix of `$s` without the separator, and it ends exactly where the first separator is |
| Php.Prefix | uninstall.php:35 | `substr($k, 0, 15)` is a prefix of `$k` of length 15, or all of `$k` when it is shorter |
| UrlEncoding.Utf8RoundTrip | includes/admin/give-quickbooks-admin.php:209 | decoding the UTF-8 bytes of any string gives that string back |
| UrlEncoding.Utf8Injective | includes/admin/give-quickbooks-admin.php:209 | two strings with the same UTF-8 bytes are equal |
| UrlEncoding.EncodedAlphabet | includes/admin/give-quickbooks-admin.php:209 | `urlencode` output is made only of letters, digits, `-`, `_`, `.`, `+` and `%` |
| UrlEncoding.UrlEncode | includes/admin/give-quickbooks-admin.php:209 | `urlencode` of the UTF-8 bytes of a string uses only letters, digits, `-`, `_`, `.`, `+` and `%` |
| UrlEncoding.NoSeparators | includes/admin/give-quickbooks-admin.php:209 | an encoded key or value contains neither `&` nor `=` |
| UrlEncoding.UrlRoundTrip | includes/admin/give-quickbooks-admin.php:209 | percent-decoding `urlencode($s)` gives `$s` back, for every string |
| UrlEncoding.ParseEncodedPair | includes/admin/give-quickbooks-admin.php:209 | one encoded `key=value` piece reads back as its key and value |
| UrlEncoding.BuildQuery | includes/admin/give-quickbooks-admin.php:209 | `http_build_query` gives the empty string exactly when there are no pairs |
| UrlEncoding.QueryRoundTrip | includes/admin/give-quickbooks-admin.php:209 | reading an `http_build_query` result (RFC 1738 mode) gives back exactly the pairs, in order |
| RequestId.HexPad | includes/give-quickbooks-helpers.php:23 | `%0Nx` of a value below 16^N has exactly N lower-case hex digits |
| RequestId.ParseHexPad | includes/give-quickbooks-helpers.php:23 | parsing a `%0Nx` group back as hex gives the value that was formatted |
| RequestId.BinDecPad | includes/give-quickbooks-helpers.php:27 | `bindec(sprintf('%0Nb', $n))` is `$n` |
| RequestId.SubstrReplace | includes/give-quickbooks-helpers.php:27 | `substr_replace` keeps what comes before and after the replaced span and puts the replacement in between |
| RequestId.Forced | includes/give-quickbooks-helpers.php:27 | replacing characters 6 and 7 of a draw's `%016b` form (bits 9 and 8 of the value) with `01` keeps the low byte and the top six bits, and sets bits 9..8 of the value to `01` |
| RequestId.ForcedDetermined | includes/give-quickbooks-helpers.php:27 | two forced values that agree in the low byte and the top six bits are equal |
| RequestId.GenerateUniqueRequestId | includes/give-quickbooks-helpers.php:22-32 | for draws in their ranges: 36 characters, `-` at 8, 13, 18 and 23, lower-case hex elsewhere, `4` at 17, and one of `1`, `5`, `9`, `d` at 20 |
| RequestId.GroupsRoundTrip | includes/give-quickbooks-helpers.php:23-28 | each unforced group parses back to its draw, and the fourth group parses back to the forced value of the fifth draw |
| RequestId.IdentifiesDraws | includes/give-quickbooks-helpers.php:23-28 | two ids are equal exactly when their draws are equal, except the fifth draw, for which only the low byte and the top six bits count |
| Store.GiveSettings.UpdateOption | includes/give-quickbooks-api.php:140-146 | `give_update_option` stores the value under the key and leaves every other option as it was |
| Store.GiveSettings.SaveAll | uninstall.php:41 | saving the settings replaces the whole map |
| QuickBooksApi.AuthCodeRequest | includes/give-quickbooks-api.php:22-40 | the code exchange is a form POST to the token endpoint with Basic authorization, whose fields are `grant_type=authorization_code`, the code and the redirect URI, in that order |
| QuickBooksApi.RefreshRequest | includes/give-quickbooks-api.php:49-63 | the refresh request is a form POST to the token endpoint with Basic authorization, whose fields are `grant_type=refresh_token` and the stored refresh token, the latter left out when null |
| QuickBooksApi.AuthCodePayload | includes/give-quickbooks-api.php:22-40 | the encoded payload of the code exchange reads back as exactly `grant_type=authorization_code`, the code and the redirect URI |
| QuickBooksApi.RefreshPayload | includes/give-quickbooks-api.php:49-63 | the encoded payload of the refresh request reads back as `grant_type=refresh_token` and the stored refresh token; a null token is left out of the form |
| QuickBooksApi.TokenRequestsDiffer | includes/give-quickbooks-api.php:22-63 | both token requests use the same endpoint and headers, and their payloads always differ |
| QuickBooksApi.ExpiryMonth | includes/give-quickbooks-api.php:76-77 | the expiry month has no `/` in it; it is the trimmed text before the first `/`, or the whole trimmed text when there is no `/` |
| QuickBooksApi.CardOf | includes/give-quickbooks-api.php:162-189 | the card block carries the donor's expiry year, CVC, number and name, and the parsed expiry month; it has an address exactly when billing collection is on, and then the address holds the donor's city, state, country, street and zip |
| QuickBooksApi.TokenizeRequest | includes/give-quickbooks-api.php:74-96 | the tokenize request goes to the base URL's `/quickbooks/v4/payments/tokens` as JSON without authorization, and carries the card block of the donation without an address |
| QuickBooksApi.ChargeRequest | includes/give-quickbooks-api.php:160-205 | the charge request goes to `/quickbooks/v4/payments/charges` with `Bearer` + the stored token and a request id; it carries the price, the currency, context {mobile false, e-commerce true}, and the donation's card block, with an address exactly when billing collection is on |
| QuickBooksApi.ChargeCardMatchesTokenize | includes/give-quickbooks-api.php:162-189 | without its address, the charge card equals the tokenize card; with billing on, the address holds the donor's city, state, country, street and zip in that mapping |
| QuickBooksApi.CreateRefund | includes/give-quickbooks-api.php:231-256 | no request is made exactly when the charge id is PHP-empty; otherwise the refund of the payment total for that id is posted to `charges/<id>/refunds` with bearer authorization |
| QuickBooksApi.RefundUrlNamesCharge | includes/give-quickbooks-api.php:241-249 | the charge id read back from the refund URL is the id in the body |
| QuickBooksApi.RefreshedOptions | includes/give-quickbooks-api.php:120-149 | the store is unchanged with an empty stored token, with no decoded body, or with error `invalid_grant`; otherwise the two tokens come from the response, the connection time is now + 3600 and the expiry is the response's value; no other option changes |
| QuickBooksApi.TokensWrittenTogether | includes/give-quickbooks-api.php:136-141 | the access token and the refresh token are never written one without the other: either the store is unchanged or both hold the same response's values |
| QuickBooksApi.EmptyBodyOverwritesTokens | includes/give-quickbooks-api.php:133-146 | a decoded body with no error and no tokens overwrites both tokens with null and still sets the connection time |
| QuickBooksApi.LookingForAccessToken | includes/give-quickbooks-api.php:120-149 | with an empty stored refresh token it returns false and sends nothing; otherwise it sends the refresh request, returns nothing, and leaves the store as `RefreshedOptions` describes |
| QuickBooksAdmin.QuickBooksSettings | includes/admin/give-quickbooks-admin.php:65-113 | the fixed list has eight fields, opens with a `title` field and closes with a `sectionend` field of group `give_quickbooks_admin_settings`, and the label field defaults to the given label |
| QuickBooksAdmin.AddSettings | includes/admin/give-quickbooks-admin.php:58-114 | outside the `quickbooks` section the settings are returned unchanged; inside it they are replaced by the fixed QuickBooks list |
| QuickBooksAdmin.QuickBooksSettingsShape | includes/admin/give-quickbooks-admin.php:65-113 | the fixed list opens with a `title` field and closes with a `sectionend` field, both of group `give_quickbooks_admin_settings`; it stores exactly the client id, the client secret, `quickbooks_collect_billing` and `quickbooks_payment_method_label`, the last with the default label |
| QuickBooksAdmin.AddSection | includes/admin/give-quickbooks-admin.php:125-129 | the `quickbooks` section is added with its title, and every other section is kept with its title |
| QuickBooksAdmin.Extra | includes/admin/give-quickbooks-admin.php:200 | every entry kept is one of the caller's entries, and its key has no default |
| QuickBooksAdmin.ExtraCharacterized | includes/admin/give-quickbooks-admin.php:200 | every caller entry whose key has no default is kept; the kept entries are in the caller's order; no key is repeated unless the caller repeated it |
| QuickBooksAdmin.WpParseArgs | includes/admin/give-quickbooks-admin.php:200-207 | `array_merge($defaults, $args)` for non-numeric caller keys: the default keys first in their order, then the caller's other entries in the caller's order; the keys are those of either input; each key has the caller's value if the caller gives one, and the default otherwise; no key repeats when none repeats in the inputs |
| QuickBooksAdmin.ConnectUrl | includes/admin/give-quickbooks-admin.php:198-212 | the authorize URL starts with the OAuth base URL followed by `?` |
| QuickBooksAdmin.MergedUrlQuery | includes/admin/give-quickbooks-admin.php:209 | a URL built as base + `?` + query reads back as the base and exactly the merged arguments |
| QuickBooksAdmin.ConnectDefaultKeys | includes/admin/give-quickbooks-admin.php:200-207 | the defaults are `redirect_uri`, `client_id`, `scope`, `give_quickbooks_nonce`, `response_type` and `state`, in that order |
| QuickBooksAdmin.ConnectDefaultsDistinct | includes/admin/give-quickbooks-admin.php:200-207 | no default key repeats |
| QuickBooksAdmin.ConnectUrlQuery | includes/admin/give-quickbooks-admin.php:198-212 | for non-numeric caller keys, the authorize URL is the OAuth base + `?` + a query whose first six keys are the defaults, followed by the caller's other entries in the caller's order; every key reads back with the caller's value if given, else the default; no key repeats when the caller's keys do not |
| QuickBooksAdmin.DefaultConnectUrl | includes/admin/give-quickbooks-admin.php:200-209 | with no caller arguments, the query reads back as exactly the six defaults, including `scope=com.intuit.quickbooks.payment`, `response_type=code` and `state=RandomState` |
| QuickBooksAdmin.AuthButtonCallback | includes/admin/give-quickbooks-admin.php:143-158 | the refresh request and the store write happen only with a non-empty client id, a non-empty auth code and the `quickbooks` section; then `give_qb_connected` ends true exactly on response code 200; otherwise nothing is sent or written and the status is false |
| QuickBooksAdmin.StatusLabel | includes/admin/give-quickbooks-admin.php:169-180 | the status reads "Connected" exactly when connected, and "Not Connected" otherwise |
| QuickBooksAdmin.AdminNotice | includes/admin/give-quickbooks-admin.php:220-246 | a user who may manage settings gets an `updated` notice for `qb-auth-connected` and an `error` notice for `qb-auth-rejected`; any other message, an empty message, or another user gets no notice |
| Uninstall.Purged | uninstall.php:33-39 | after the cleanup, a setting remains exactly when it is neither listed nor `give_quickbooks`-prefixed, and it keeps its value |
| Uninstall.PurgeSettings | uninstall.php:33-39 | the loop removes exactly the settings that pass the removal test, keeps the others with their values, and adds none |
| Uninstall.UninstallSettings | uninstall.php:18-41 | the saved settings map is the purged one |
| Uninstall.ShouldRemove | uninstall.php:21-35 | a setting is removed exactly when its first 15 characters are `give_quickbooks`: every listed name has that prefix, so the list adds nothing to the prefix test |
| Uninstall.PurgeIdempotent | uninstall.php:33-39 | running the cleanup on its own result changes nothing |
| Uninstall.ShortNamesSurvive | uninstall.php:35 | a setting whose name is shorter than 15 characters is never removed |
| Uninstall.UnprefixedOptionsSurvive | uninstall.php:21-39 | these settings survive with their values: `qb_auth_connected_time`, `qb_auth_x_refresh_token_expires_in`, `give_qb_connected`, `quickbooks_collect_billing` and `quickbooks_payment_method_label`; the tokens and the credentials are removed |

## Left out

- HTTP transport (`wp_remote_post`), JSON encoding and decoding, and the
  transport-error abort path (`give_set_error`, `give_send_back_to_checkout`,
  `exit`). A request is a value handed to the transport; a response is an
  abstract decoded value or an HTTP status code passed in as a parameter.
- Helpers whose code is not part of this model are parameters:
  `give_qb_authorization_header`, the `give_qb_get_*` getters,
  `give_qb_generate_unique_request_id`, `give_is_test_mode`,
  `give_get_currency`, `give_is_setting_enabled`, `give_qb_payment_method_label`,
  `wp_create_nonce`, `current_time` and the OAuth base URL constant.
- PHP strings are byte strings; the model uses Unicode text and takes its
  UTF-8 encoding wherever `urlencode` sees bytes.
- QuickBooksApi.RefreshedOptions: the response's `error` is taken to be a
  string or absent; PHP's loose `!=` would also treat a JSON `true` as equal
  to `invalid_grant`, and that case is not captured.
- QuickBooksAdmin.ConnectDefaults: the client id is a string in the
  authorize URL, while the connection check reads it as possibly null;
  `http_build_query` drops a null value, so a null client id in the URL is
  not captured.
- QuickBooksAdmin.WpParseArgs: caller keys are taken to be non-numeric
  strings. PHP stores a decimal-integer key such as `'5'` as an integer, and
  `array_merge` renumbers integer keys from 0; that renumbering is not
  captured, so for such a key the model keeps `5` where PHP yields `0`.
- QuickBooksAdmin.ConnectUrlQuery: stated for non-numeric caller keys only,
  as for `WpParseArgs`; a decimal-integer caller key reads back in PHP as a
  renumbered integer key, not with the caller's key. The only call site passes
  no arguments.
- `mt_rand`: the eight random draws are parameters with range preconditions.
- Store.GiveSettings.UpdateOption: the host's `give_update_option` is modelled
  as a plain store, because its code is not part of this model; any special
  handling of empty values by the host is not captured.
- Amounts (`price`, `give-payment-total`) are opaque strings; no arithmetic
  or float formatting is modelled.
- Translation (`__()`, `_e()`), `esc_url`, and field descriptions, names and
  help texts of the settings list; a settings field keeps only its id, type
  and default.
- HTML, JavaScript and form rendering (the connect button markup, the credit
  card form, `admin_payment_js`); the status label is modelled without its
  markup.
- QuickBooksAdmin.AddSection: PHP arrays are ordered, but the sections are
  modelled as a map, so the position of the new section is not captured.
- Option values are PHP strings, integers, booleans or null; floats, arrays
  and objects are not modelled.
- Missing keys in `$payment_data`: every field the builders read is assumed
  present as a string.
- Cron scheduling and clearing, plugin bootstrap, hook registration,
  version checks, activation banners, action links, and the gateway class,
  which is empty.
- Concurrency: there is none in this code, and none of a refresh margin,
  locked refresh, retry on 401, state verification, or interpretation of
  refund responses exists in it.

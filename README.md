# Custody MPT demo dashboard — a Dafny model

This project models the core of a Next.js dashboard that drives a custody
service for XRPL Multi-Purpose Tokens (MPTs). The dashboard has two halves.

- **Route handlers.** Each one validates a JSON request body and turns it
  into a "Propose" intent envelope for the custody service. The envelope holds
  an author, an expiry one day ahead, a target domain, an id, a payload, a
  description and custom properties. The handlers covered are:
  - account creation and user creation;
  - MPT issuance create, set and destroy;
  - MPT payment and MPT authorize;
  - release of quarantined transfers.

  The model keeps the order in which the guards run and the exact error
  messages. It keeps the key order of every object literal. Conditional
  spreads (`...(x && { x })`) leave a key out; the model does the same.
- **Form components.** These build the request bodies:
  - the account-creation tab (ledger checkboxes, custom ledgers);
  - the user-creation tab (role checkboxes, the custom-role box, login-id rows);
  - the MPT issuance-create tab (flag checkboxes combined by bitwise OR,
    clamped number inputs, and the token metadata editor);
  - the issuance-set tab (lock or unlock, all holders or one holder).

  The metadata editor follows the XLS-89 schema of the XRPL Standards. It
  builds a sparse record with short keys, or reads raw JSON text. It writes
  the record with `JSON.stringify`, encodes the text as UTF-8 and renders the
  bytes as upper-case hex. The model also covers the browser-side log of
  submitted intents, kept in `localStorage`.

The pure parts (handlers, forms, metadata) are datatypes, functions and
lemmas. Three parts are imperative, because the source is:
- The intent log is a class. Its field is the stored list and its methods
  rewrite that field.
- The metadata builder is a method that assigns keys one by one. It is proved
  equal to a slot-by-slot specification function.
- The row editors copy the list into an array and assign one element.

Inputs the program takes from outside are parameters of the model:
- the clock (`Environment.now`, in epoch milliseconds);
- the sequence of `uuidv4()` results (`Environment.newId`);
- `getCurrentUser`;
- `JSON.parse` (`string -> ParseOutcome`);
- `Date.now()` and `Math.random()` for the intent log.

The shared modules model the JavaScript behaviour the core relies on:
- `JsSemantics`: truthiness, `trim`, ASCII case mapping, decimal rendering
  and `parseInt`;
- `Json`: insertion-ordered objects and `JSON.stringify` for strings,
  integers, arrays and objects;
- `Encoding`: UTF-8 and hex;
- `IsoTime`: `toISOString`;
- `BitFlags`: bitwise OR on non-negative integers.

Points where the code does something a reader of the forms might not
expect, and which the model keeps as the code has them:
- **Custom properties.** The MPT, payment and authorize handlers do not take
  custom properties from the caller. They hard-code `property1` values, and
  the model does too.
- **Validation of assetScale and transferFee.** Only the form clamps these
  numbers, to 0–255 and 0–50000. The create handler checks no range: it
  sends assetScale whenever it is present and transferFee whenever it is
  positive.
- **Blank url rows.** The builder writes `us` whenever the url editor has a
  row, even when no row has a url. `MptCreateTab.UrlAddedShowsUrls` shows
  that adding a blank url row to an empty record produces `{"us":[]}`.
- **No decoder.** The code only encodes metadata; it has no hex decoder, and
  `JSON.parse` is an opaque parameter here. The model proves that the
  encoding can be undone: the hex decodes to the record's UTF-8 bytes, and
  those decode to the record's JSON text (`MptMetadata.MetadataToHex`).

## Model

| member | source | states |
|---|---|---|
| Json.Keys | app/components/MPTCreateTab.tsx:133 | `Object.keys`: one key per member, in member order |
| Json.KeysAppend | app/components/MPTCreateTab.tsx:109-133 | the keys of two member lists joined are the two key lists joined |
| Json.Lookup | app/components/MPTCreateTab.tsx:124-127 | a property read: none exactly when the key is absent, and a value found belongs to a member under that key |
| Json.LookupDistinct | app/components/MPTCreateTab.tsx:109-133 | in an object without repeated keys, reading a member's key gives that member's value |
| Json.LookupFirstAt | app/components/MPTCreateTab.tsx:124-127 | a member whose key no earlier member has is what a read of that key finds |
| Json.Put | app/components/MPTCreateTab.tsx:126 | `ai[key] = value` adds at most one member, and every member afterwards is the assigned one or was there before |
| Json.PutKeys | app/components/MPTCreateTab.tsx:126 | assigning an existing key keeps every key in place; a new key is appended last |
| Json.PutLookup | app/components/MPTCreateTab.tsx:126 | after the assignment, the key reads as the new value and every other key reads as before |
| Json.PutNewKey | app/components/MPTCreateTab.tsx:111-117 | assigning a key the object lacks appends exactly that member |
| Json.Quote | app/components/MPTCreateTab.tsx:139 | a stringified string is wrapped in double quotes, and reading the text between them as a JSON string body gives the string back |
| Json.EscapeChar | app/components/MPTCreateTab.tsx:139 | the escape of one code point has no character below U+0020 |
| Json.Escape | app/components/MPTCreateTab.tsx:139 | the escaped body of a string leaves no control character raw |
| Json.HexValue | app/components/MPTCreateTab.tsx:139 | a hex digit of a `\u` escape reads as a value below 16 |
| Json.HexOfLowerDigit | app/components/MPTCreateTab.tsx:139 | the lower-case digit `JSON.stringify` writes reads back as its value |
| Json.UnescapeShort | app/components/MPTCreateTab.tsx:139 | a two-character escape reads back as the character it names |
| Json.UnescapeUnicode | app/components/MPTCreateTab.tsx:139 | a `\u00xx` escape of a control character reads back as that character |
| Json.UnescapePlain | app/components/MPTCreateTab.tsx:139 | a character written as itself reads back as itself |
| Json.UnescapeChar | app/components/MPTCreateTab.tsx:139 | reading back the escape of any one code point gives that code point |
| Json.EscapeRoundTrip | app/components/MPTCreateTab.tsx:139 | reading back the escaped body of any string gives the string |
| Json.Stringify | app/components/MPTCreateTab.tsx:139 | the JSON text of any value is non-empty |
| JsSemantics.Truthy | app/api/accounts/create/route.ts:20-43 | a guard `!x` fires exactly for a missing field and for the empty string |
| JsSemantics.OrElse | app/api/intents/payment/route.ts:105 | `description` or its default: a non-empty value is kept as it is, otherwise the fallback is used, so the result is never empty when the fallback is not |
| JsSemantics.NonEmptyArray | app/api/users/create/route.ts:31 | the roles and transferIds guard rejects exactly a missing value, a non-array and an empty array |
| JsSemantics.IntToDecimal | app/api/mpt/create/route.ts:66 | `String(n)` starts with a minus sign exactly for a negative n, followed by digits without a leading zero (only 0 itself starts with 0) |
| JsSemantics.Spread | app/api/mpt/set/route.ts:71 | a conditional spread writes the field exactly when it is a non-empty string, and then writes it unchanged |
| JsSemantics.TrimStart | app/components/UserCreateTab.tsx:293 | the result is a suffix of the input, what it drops is all whitespace, and it does not start with whitespace |
| JsSemantics.TrimEnd | app/components/UserCreateTab.tsx:293 | the result is a prefix of the input, what it drops is all whitespace, and it does not end with whitespace |
| JsSemantics.Trim | app/components/UserCreateTab.tsx:293 | the result is the input with a blank prefix and a blank suffix cut off, and neither of its ends is whitespace |
| JsSemantics.BlankCuts | app/components/UserCreateTab.tsx:293 | cutting a blank prefix and then a blank suffix keeps one slice of the input between two blank ends |
| JsSemantics.TrimCuts | app/components/UserCreateTab.tsx:293 | names the two cut points of `trim`, with blank text before the first and after the second |
| JsSemantics.TrimEmptyIffBlank | app/components/MPTCreateTab.tsx:145 | `!raw.trim()` holds exactly when the text is all whitespace |
| JsSemantics.ToLowerAscii | app/components/UserCreateTab.tsx:293 | same length; each capital A–Z becomes its small letter, 32 code points up, every other character stays; no capital is left |
| JsSemantics.LowerOfSlice | app/components/UserCreateTab.tsx:293 | lower-casing works character by character, so it commutes with taking a slice |
| JsSemantics.BlankOfLower | app/components/UserCreateTab.tsx:293 | lower-casing neither creates nor removes blank text |
| JsSemantics.LowerCuts | app/components/UserCreateTab.tsx:293 | blank ends of the lower-cased text are blank ends of the original, and the slice between them is the lower-cased slice |
| JsSemantics.ToUpperAscii | app/components/MPTCreateTab.tsx:594 | same length; each small a–z becomes its capital, 32 code points down, every other character stays; no small letter is left |
| JsSemantics.ParseInt | app/components/MPTCreateTab.tsx:365 | `parseInt` of blank text is NaN, and a negative result needs a minus sign after the leading whitespace |
| JsSemantics.NatToDecimal | app/api/intents/release-transfers/route.ts:65 | a count renders as a non-empty run of digits with no leading zero unless it is 0 |
| JsSemantics.DecimalRoundTrip | app/api/intents/release-transfers/route.ts:65 | reading the digits back gives the count |
| JsSemantics.DigitPrefixLength | app/components/MPTCreateTab.tsx:365 | `parseInt` reads the longest run of digits at the front and stops at the first non-digit |
| JsSemantics.ParseIntOfDecimal | app/components/MPTCreateTab.tsx:365 | `parseInt` of a rendered integer, negative ones included, gives the integer back |
| JsSemantics.ParseIntOfDecimalPrefix | app/api/intents/release-transfers/route.ts:65 | `parseInt` of a rendered count followed by a space and more text gives the count |
| ListEdits.Without | app/components/AccountCreateTab.tsx:133-135 | `filter(l => l !== x)`: x is gone, every other element stays, nothing is added |
| ListEdits.Toggle | app/components/AccountCreateTab.tsx:131-137 | x ends up present exactly when it was absent; no other element changes membership |
| ListEdits.RemoveAt | app/components/UserCreateTab.tsx:52-54 | `filter((_, i) => i !== index)`: the element at index is cut out; an index with no element changes nothing |
| ListEdits.AppendIfNew | app/components/AccountCreateTab.tsx:139-144 | appends x when it is admitted and not listed yet, otherwise leaves the list alone |
| ListEdits.WithoutKeepsNoDup | app/components/AccountCreateTab.tsx:133-135 | filtering out an element keeps a list free of duplicates |
| ListEdits.WithoutAbsent | app/components/AccountCreateTab.tsx:133-135 | filtering out an element that is not there changes nothing |
| ListEdits.ToggleKeepsNoDup | app/components/AccountCreateTab.tsx:131-137 | toggling keeps a list free of duplicates |
| ListEdits.ToggleTwiceSameMembers | app/components/MPTCreateTab.tsx:173-179 | toggling twice restores the set of members |
| ListEdits.ToggleTwiceRestores | app/components/AccountCreateTab.tsx:131-137 | ticking a new element and unticking it restores the list exactly |
| ListEdits.WithoutAppended | app/components/AccountCreateTab.tsx:131-144 | removing an element just appended restores the list |
| BitFlags.BitOrHasBit | app/components/MPTCreateTab.tsx:103-105 | bit k of `a | b` is set exactly when it is set in a or in b |
| BitFlags.ZeroHasNoBit | app/components/MPTCreateTab.tsx:104 | the fold's start value 0 has no bit set |
| BitFlags.Pow2HasBit | app/components/MPTCreateTab.tsx:12-43 | a power of two has exactly one bit set |
| BitFlags.BitOrDisjoint | app/components/MPTCreateTab.tsx:103-105 | OR of values with no common bit is their sum |
| BitFlags.BitOrBelow | app/components/MPTCreateTab.tsx:103-105 | OR of values below 2^n stays below 2^n |
| BitFlags.BitOrEven | app/components/MPTCreateTab.tsx:103-105 | OR of even values is even |
| BitFlags.BitOrZero | app/components/MPTCreateTab.tsx:103-105 | `a | b` is 0 exactly when both are 0 |
| BitFlags.SameBitsEqual | app/components/MPTCreateTab.tsx:103-105 | two numbers with the same bits are equal |
| Encoding.EncodeScalar | app/components/MPTCreateTab.tsx:140 | UTF-8 writes every code point in one to four bytes |
| Encoding.Utf8Encode | app/components/MPTCreateTab.tsx:140 | `Buffer.from(text, "utf-8")` has between one and four bytes per code point |
| Encoding.HexLower | app/components/MPTCreateTab.tsx:140 | `toString("hex")` writes two lower-case hex digits per byte |
| Encoding.DecodeFirst | app/components/MPTCreateTab.tsx:140 | a decoded code point consumes between one byte and the whole input |
| Encoding.DecodeFirstOfEncode | app/components/MPTCreateTab.tsx:140 | decoding the front of an encoded code point gives it back with its byte length |
| Encoding.Utf8RoundTrip | app/components/MPTCreateTab.tsx:140 | UTF-8 decoding of `Buffer.from(text, "utf-8")` gives the text back |
| Encoding.HexUpper | app/components/MPTCreateTab.tsx:140 | two upper-case hex digits per byte |
| Encoding.HexRoundTrip | app/components/MPTCreateTab.tsx:140 | decoding the upper-case hex gives the bytes back |
| Encoding.UpperOfHexLower | app/components/MPTCreateTab.tsx:140 | `toString("hex").toUpperCase()` equals the upper-case hex of the bytes |
| IsoTime.DateOfDay | app/api/mpt/create/route.ts:44 | a day count since the epoch maps to a valid calendar date whose day number is that count |
| IsoTime.Pad | app/api/mpt/create/route.ts:44 | a zero-padded field has exactly the requested width and only digits |
| IsoTime.PadValue | app/api/mpt/create/route.ts:44 | a padded field reads back as its number |
| IsoTime.IsoInstant | app/utils/intentStorage.ts:18 | `toISOString` of an instant in years 1970–9999 has 24 characters |
| IsoTime.IsoRoundTrip | app/utils/intentStorage.ts:18 | the text has the `YYYY-MM-DDTHH:mm:ss.sssZ` layout and parses back to the same instant |
| Envelope.ExpiryAt | app/api/mpt/create/route.ts:44 | the expiry is an ISO text of at least 24 characters ending in `Z`, so in UTC |
| Envelope.ExpiryIsOneDayLater | app/api/mpt/create/route.ts:44 | the expiry text denotes exactly now plus 86 400 000 ms |
| Envelope.TransactionOrder | app/api/mpt/create/route.ts:38-50 | author is the fixed user in the request's domain, the target is that domain, and the first uuid goes to the envelope, the second to the payload |
| Envelope.Strings | app/api/users/create/route.ts:55 | a string list is written as an array of the same strings in order |
| Envelope.Optional | app/api/mpt/create/route.ts:61-70 | a present field becomes one member, an absent one none |
| Envelope.OperationJson | app/api/mpt/create/route.ts:59-71 | every ledger operation is an object tagged with its own `type` |
| Envelope.PayloadJson | app/api/accounts/create/route.ts:58-71 | every payload is an object whose last member is its `type` tag; it starts with its own id, except the release of transfers, which has no id |
| Envelope.ProposeBodyJson | app/api/accounts/create/route.ts:49-76 | the body has the single key `request`, whose object holds the payload and the type "Propose" |
| Envelope.LoginIdsJson | app/api/users/create/route.ts:59-67 | each login becomes one `{id, providerId}` element, in order |
| Envelope.KeysOfOptional | app/api/mpt/create/route.ts:61-70 | the spread contributes the key exactly when the field is present |
| Envelope.CreateAccountKeys | app/api/accounts/create/route.ts:57-70 | the account payload's keys, in order, with description and ledgerIds only when present |
| Envelope.CreateUserKeys | app/api/users/create/route.ts:50-68 | the user payload's keys, in order, with description and loginIds only when present |
| Envelope.IssuanceCreateKeys | app/api/mpt/create/route.ts:59-71 | the create operation's keys: type, then each optional field only when present |
| Envelope.TransactionOrderKeys | app/api/mpt/create/route.ts:46-78 | a transaction order's keys are id, ledgerId, accountId, parameters, description, customProperties, type |
| Envelope.TransactionOrderFixedFields | app/api/mpt/create/route.ts:49-59 | the order reads back the testnet ledger, the account, its type and the fixed XRPL parameters around the operation |
| Envelope.ProposeBodyShape | app/api/mpt/create/route.ts:38-85 | the body is `{request}` with its eight keys in order, type "Propose", and the payload and target read back |
| Envelope.RequestShape | app/api/intents/payment/route.ts:71-116 | the request object's keys in order, with type, payload and target reading back |
| Envelope.IssuanceSetKeys | app/api/mpt/set/route.ts:65-72 | the set operation's keys: type, issuanceId, flags, then holder only when present |
| IntentStorage.RecordId | app/utils/intentStorage.ts:17 | the id is the clock reading in decimal, a dash, then the random characters |
| IntentStorage.FindIndex | app/utils/intentStorage.ts:33 | `findIndex`: -1 exactly when no record has the id, otherwise the first such record |
| IntentStorage.WithIntentId | app/utils/intentStorage.ts:33-35 | only the first record with the id gains the intent id; nothing changes when there is none |
| IntentStorage.IntentStore.constructor | app/utils/intentStorage.ts:27-28 | a fresh browser has no stored key |
| IntentStorage.IntentStore.Intents | app/utils/intentStorage.ts:25-29 | the list last written, or `[]` when nothing is stored |
| IntentStorage.IntentStore.Save | app/utils/intentStorage.ts:11-23 | the returned record carries the new id and timestamp and the caller's optional intent id, and the stored list is it followed by the old list |
| IntentStorage.IntentStore.UpdateIntentId | app/utils/intentStorage.ts:31-38 | with a matching record the stored list is updated; without one nothing is written |
| IntentStorage.IntentStore.Clear | app/utils/intentStorage.ts:40-43 | the key is removed and the list reads as empty |
| IntentStorage.SaveKeepsHistory | app/utils/intentStorage.ts:20 | `unshift` keeps every older record, in order, one place later |
| IntentStorage.UpdateAfterSave | app/utils/intentStorage.ts:20-35 | an update with the id just saved reaches that record, now first, and leaves the rest alone |
| IntentStorage.WithIntentIdTwice | app/utils/intentStorage.ts:31-38 | a second update on the same record overrides the first |
| AccountsCreateRoute.Post | app/api/accounts/create/route.ts:7-93 | guards run in the order domainId, alias, vaultId, keyStrategy, each with its message; success exactly when all four are present; the envelope carries the current user, the domain, "Unlocked" by default, description and ledgerIds only when given, and "Create account: alias" as the default description |
| AccountsCreateRoute.CreateAccountPayloadKeys | app/api/accounts/create/route.ts:57-70 | an accepted account payload has exactly the expected keys in order |
| UsersCreateRoute.ProjectLogins | app/api/users/create/route.ts:59-67 | each login row is reduced to its id and provider id, in order |
| UsersCreateRoute.Post | app/api/users/create/route.ts:7-90 | guards run in the order domainId, alias, publicKey, roles (a non-empty array); success exactly when all pass; roles are sent verbatim, logins only when there are some, and "Create user: alias" is the default description |
| UsersCreateRoute.CreateUserPayloadKeys | app/api/users/create/route.ts:50-68 | an accepted user payload has exactly the expected keys in order |
| MptCreateRoute.AmountString | app/api/mpt/create/route.ts:66 | `String(maximumAmount)`: text is sent as typed; a number is sent as decimal text that `parseInt` reads back as the number |
| MptCreateRoute.IfPositive | app/api/mpt/create/route.ts:64 | a number is kept exactly when it is present and positive |
| MptCreateRoute.IssuanceOperation | app/api/mpt/create/route.ts:59-71 | assetScale is kept whenever present; transferFee and flags only when positive; maximumAmount only when truthy, as a string; metadata only when non-empty |
| MptCreateRoute.Post | app/api/mpt/create/route.ts:9-91 | accountId is checked, then domainId; success exactly when both are present; the order carries that operation and the create descriptions and properties |
| MptCreateRoute.IssuanceOperationKeys | app/api/mpt/create/route.ts:59-71 | the operation's keys are type and then exactly the kept optional fields, in order |
| MptDestroyRoute.Post | app/api/mpt/destroy/route.ts:9-81 | guards accountId, domainId, issuanceId in order; success exactly when all three are present; a destroy operation with its descriptions and properties |
| MptDestroyRoute.DestroyShape | app/api/mpt/destroy/route.ts:46-67 | the destroy operation has keys type and issuanceId inside a seven-key order |
| MptSetRoute.FlagAccepted | app/api/mpt/set/route.ts:35 | the guard `!flags || (flags !== 1 && flags !== 2)` rejects exactly the flags other than 1 and 2 |
| MptSetRoute.Action | app/api/mpt/set/route.ts:74 | "Lock" exactly for flag 1, "Unlock" for any other flag |
| MptSetRoute.OrderDescription | app/api/mpt/set/route.ts:74 | the order's description names the action |
| MptSetRoute.IntentDescription | app/api/mpt/set/route.ts:80 | the intent's description names the action |
| MptSetRoute.Post | app/api/mpt/set/route.ts:9-92 | guards accountId, domainId, issuanceId, then flags in {1, 2}; success exactly when all pass; the holder is sent only when non-empty |
| MptSetRoute.SetOperationKeys | app/api/mpt/set/route.ts:65-72 | the set operation's keys, with holder only when given |
| PaymentRoute.Post | app/api/intents/payment/route.ts:31-123 | guards accountId, destinationAddress, amount, issuanceId in order; success exactly when all four are present; the payment is authored in the configured domain, with description "MPT Payment" unless one is given |
| ProposeRoute.Post | app/api/intents/propose/route.ts:31-95 | issuanceId is checked before accountId; success exactly when both are present; an MPT authorize order in the configured domain |
| ReleaseTransfersRoute.ReleaseDescription | app/api/intents/release-transfers/route.ts:65 | the description ends in "s" exactly when more than one transfer is released |
| ReleaseTransfersRoute.Post | app/api/intents/release-transfers/route.ts:31-75 | accountId, then a non-empty transferIds array; success exactly when both hold; the payload carries the ids verbatim, custom properties are empty |
| ReleaseTransfersRoute.DescriptionCount | app/api/intents/release-transfers/route.ts:65 | the number in "Release n quarantined transfer(s)" reads back as n |
| ReleaseTransfersRoute.ReleasePayloadShape | app/api/intents/release-transfers/route.ts:60-64 | the payload's keys are accountId, transferIds, type, and the ids are written as the same strings |
| AccountCreateTab.KeyStrategyName | app/components/AccountCreateTab.tsx:81-83 | every key strategy is sent as a non-empty name |
| AccountCreateTab.InitialForm | app/components/AccountCreateTab.tsx:79-88 | the form opens with "xrpl-devnet" ticked, VaultSoft and Unlocked |
| AccountCreateTab.ToggleLedger | app/components/AccountCreateTab.tsx:131-137 | the ledger flips between ticked and unticked; nothing else in the form changes |
| AccountCreateTab.AddCustomLedger | app/components/AccountCreateTab.tsx:139-144 | a new non-empty custom ledger is appended and the box cleared; otherwise the form is unchanged |
| AccountCreateTab.LedgerEditsKeepDistinct | app/components/AccountCreateTab.tsx:131-144 | neither edit lists a ledger twice |
| AccountCreateTab.AddThenUntick | app/components/AccountCreateTab.tsx:131-144 | unticking a custom ledger just added restores the ledger list |
| AccountCreateTab.RequestOf | app/components/AccountCreateTab.tsx:156-164 | ledgerIds sent exactly when some ledger is ticked, description exactly when typed |
| AccountCreateTab.SubmitEnabled | app/components/AccountCreateTab.tsx:882 | the button is enabled exactly when no request is in flight and the request it would send passes every guard of the route |
| AccountCreateTab.EnabledIffRouteAccepts | app/components/AccountCreateTab.tsx:882 | when no request is in flight, the button is enabled exactly when the route's guards all pass |
| AccountCreateTab.SubmittedAccount | app/components/AccountCreateTab.tsx:146-164 | an enabled submit is accepted and proposes the typed alias, vault, strategy, lock, ledgers and description |
| UserCreateTab.CustomRole | app/components/UserCreateTab.tsx:293 | a custom role is the typed text lower-cased and then trimmed, and has no upper-case ASCII letter |
| UserCreateTab.CustomRoleOfInput | app/components/UserCreateTab.tsx:293 | the custom role is a slice of the typed text between two blank ends, lower-cased |
| UserCreateTab.EnterCustomRole | app/components/UserCreateTab.tsx:289-298 | a new non-empty role is appended and the box cleared; otherwise nothing changes |
| UserCreateTab.ToggleRole | app/components/UserCreateTab.tsx:40-46 | the role flips between ticked and unticked; other roles and the box stay |
| UserCreateTab.RoleEditsKeepDistinct | app/components/UserCreateTab.tsx:40-46 | neither role edit lists a role twice |
| UserCreateTab.SameCustomRoleOnce | app/components/UserCreateTab.tsx:294-297 | entering the same custom role again adds nothing |
| UserCreateTab.AddLoginId | app/components/UserCreateTab.tsx:48-50 | a row with no id and the default provider is appended |
| UserCreateTab.UpdateLoginId | app/components/UserCreateTab.tsx:56-64 | one field of one row changes; every other row stays |
| UserCreateTab.WithIds | app/components/UserCreateTab.tsx:90 | exactly the rows with an id are kept |
| UserCreateTab.WithIdsAppend | app/components/UserCreateTab.tsx:90 | the filter keeps the rows' order |
| UserCreateTab.AddLoginIdSendsNothingNew | app/components/UserCreateTab.tsx:48-50 | a freshly added row is not sent |
| UserCreateTab.RemoveBlankLoginIdSendsSame | app/components/UserCreateTab.tsx:52-54 | removing a row with no id does not change what is sent |
| UserCreateTab.InitialForm | app/components/UserCreateTab.tsx:22-29 | the form opens with role "user", Unlocked and no login rows |
| UserCreateTab.SentLogins | app/components/UserCreateTab.tsx:89-90 | nothing is sent without rows; otherwise the rows with an id, in order |
| UserCreateTab.SubmitEnabled | app/components/UserCreateTab.tsx:506-512 | the button is enabled exactly when no request is in flight, the form's role check passes, and the request it builds passes every guard of the route |
| UserCreateTab.Submit | app/components/UserCreateTab.tsx:72-91 | no ticked role stops with the error; otherwise the ticked roles, the description when typed and the logins when there are rows |
| UserCreateTab.SubmittedUser | app/components/UserCreateTab.tsx:80-91 | an enabled submit is accepted and proposes the typed user with exactly the ticked roles and the rows that have an id |
| MptCreateTab.MptFlagsArePowers | app/components/MPTCreateTab.tsx:12-43 | the six offered flags are 2^1 to 2^6 |
| MptCreateTab.CombinedFlags | app/components/MPTCreateTab.tsx:103-105 | the OR of the selected flags is 0 exactly when every selected value is 0 |
| MptCreateTab.CombinedFlagsHasBit | app/components/MPTCreateTab.tsx:103-105 | a bit of the combined value is set exactly when some selected flag has it |
| MptCreateTab.FlagSelectedIffBitSet | app/components/MPTCreateTab.tsx:103-105 | an offered flag's bit is set exactly when that flag is selected |
| MptCreateTab.CombinedFlagsOfSameMembers | app/components/MPTCreateTab.tsx:103-105 | the combined value depends only on which flags are selected |
| MptCreateTab.CombinedFlagsSum | app/components/MPTCreateTab.tsx:103-105 | for a valid selection the OR is the sum of the values |
| MptCreateTab.CombinedFlagsBound | app/components/MPTCreateTab.tsx:103-105 | the combined value is even and at most 126 |
| MptCreateTab.CombinedFlagsZero | app/components/MPTCreateTab.tsx:103-105 | the combined value is 0 exactly when nothing is selected |
| MptCreateTab.ToggleFlagKeepsSelection | app/components/MPTCreateTab.tsx:173-179 | a checkbox click keeps the selection valid and flips only that flag |
| MptCreateTab.ToggleFlagTwiceSameValue | app/components/MPTCreateTab.tsx:173-179 | two clicks on one checkbox restore the combined value |
| MptCreateTab.ClampInput | app/components/MPTCreateTab.tsx:363-366 | the value is at most the bound; a number in range is kept, one above is the bound, anything else is 0 |
| MptCreateTab.ClampOfRendered | app/components/MPTCreateTab.tsx:363-366 | a shown value read back is unchanged |
| MptCreateTab.ClampStable | app/components/MPTCreateTab.tsx:390-393 | clamping the rendered clamped value changes nothing |
| MptCreateTab.AddUrl | app/components/MPTCreateTab.tsx:181-183 | a blank row is appended, and the urls kept for the record do not change |
| MptCreateTab.AddAdditionalInfo | app/components/MPTCreateTab.tsx:199-201 | a blank row is appended, and the extras do not change |
| MptCreateTab.UpdateUrl | app/components/MPTCreateTab.tsx:189-197 | one field of one url row changes; every other row stays |
| MptCreateTab.UpdateAdditionalInfo | app/components/MPTCreateTab.tsx:207-215 | one field of one info row changes; every other row stays |
| MptCreateTab.KeptUrlsIgnoresLabels | app/components/MPTCreateTab.tsx:189-197 | editing a row's category or title keeps the number of kept urls |
| MptCreateTab.InitialForm | app/components/MPTCreateTab.tsx:69-90 | the form opens clamped, with flags worth 32, no metadata, in structured mode |
| MptCreateTab.Step | app/components/MPTCreateTab.tsx:594 | no event touches the account, mode or raw text; a typed ticker is stored as the upper-cased text, and no other field changes |
| MptCreateTab.StepKeepsInvariant | app/components/MPTCreateTab.tsx:363-393 | every event keeps the numbers clamped and the flag selection valid |
| MptCreateTab.InfoAddedKeepsMetadata | app/components/MPTCreateTab.tsx:199-201 | adding a blank info row leaves the record unchanged |
| MptCreateTab.UrlAddedShowsUrls | app/components/MPTCreateTab.tsx:119-121 | after adding a url row, `us` is present and holds the urls kept before |
| MptCreateTab.MetadataHex | app/components/MPTCreateTab.tsx:168-171 | the hex is empty exactly when the chosen mode yields no record (nothing filled in, blank raw text, a raw error); otherwise it decodes to the record's bytes |
| MptCreateTab.RequestOf | app/components/MPTCreateTab.tsx:229-237 | maximumAmount sent exactly when typed; metadata exactly when there is a record, as hex of its bytes |
| MptCreateTab.SubmitEnabled | app/components/MPTCreateTab.tsx:942 | the button is enabled unless a request is in flight, no domain is set or there is no account; it has no contract of its own, and `MptCreateTab.SubmittedIssuance` states what an enabled submit sends |
| MptCreateTab.SubmittedIssuance | app/components/MPTCreateTab.tsx:229-237 | an enabled submit proposes the scale, the fee when positive, flags as the sum when any is ticked, and the metadata hex |
| MptMetadata.KeptUrls | app/components/MPTCreateTab.tsx:120 | exactly the url rows with a url |
| MptMetadata.UrlsJson | app/components/MPTCreateTab.tsx:120 | one object per url row, in order |
| MptMetadata.SlotsAt | app/components/MPTCreateTab.tsx:109-133 | the nine slots carry the keys t, n, d, i, ac, as, in, us, ai in that order |
| MptMetadata.AssignIfSet | app/components/MPTCreateTab.tsx:111-117 | `if (v) metadata.k = v` is one more slot of the specification |
| MptMetadata.Extras | app/components/MPTCreateTab.tsx:123-127 | `ai` has at most one member per row, each with a non-empty key and a non-empty string value |
| MptMetadata.CollectExtras | app/components/MPTCreateTab.tsx:123-127 | the loop over info rows builds exactly the extras |
| MptMetadata.BuildMetadata | app/components/MPTCreateTab.tsx:108-134 | the method returns exactly the slot-by-slot record, or null |
| MptMetadata.FillKeys | app/components/MPTCreateTab.tsx:109-133 | a key is in the record exactly when some slot assigns it |
| MptMetadata.FillDistinct | app/components/MPTCreateTab.tsx:109-133 | the record never repeats a key |
| MptMetadata.FillLookup | app/components/MPTCreateTab.tsx:109-133 | with distinct slot keys, a key reads as its slot's value when set, and absent when not |
| MptMetadata.FillAppends | app/components/MPTCreateTab.tsx:109-133 | with distinct slot keys, each set slot appends its member at the end |
| MptMetadata.FillEmpty | app/components/MPTCreateTab.tsx:133 | the record is empty exactly when no slot is set |
| MptMetadata.SlotKeysDistinct | app/components/MPTCreateTab.tsx:109-133 | the nine slot keys are pairwise distinct |
| MptMetadata.ShortKeyValues | app/components/MPTCreateTab.tsx:111-117 | each short key reads as its field when non-empty and is absent otherwise |
| MptMetadata.UrlsValue | app/components/MPTCreateTab.tsx:119-121 | `us` is present exactly when there are url rows, and holds the kept urls |
| MptMetadata.ExtrasValue | app/components/MPTCreateTab.tsx:123-131 | `ai` is present exactly when some row is admitted, and holds the extras |
| MptMetadata.RecordDistinct | app/components/MPTCreateTab.tsx:108-134 | the built record has no repeated key |
| MptMetadata.RecordOrder | app/components/MPTCreateTab.tsx:108-134 | the record's keys follow the builder's order |
| MptMetadata.StructuredMetadata | app/components/MPTCreateTab.tsx:108-134 | buildMetadata returns null exactly when nothing is filled in, and the assigned members otherwise |
| MptMetadata.RecordEmptyIffBlank | app/components/MPTCreateTab.tsx:133 | the builder assigns no member exactly when every field is empty and both editors have no qualifying rows |
| MptMetadata.FillOrder | app/components/MPTCreateTab.tsx:108-134 | members appear in the order of their slots |
| MptMetadata.FillSource | app/components/MPTCreateTab.tsx:108-134 | every member comes from a slot |
| MptMetadata.LastValue | app/components/MPTCreateTab.tsx:125-126 | the value kept for a key comes from an admitted row with that key after which no admitted row has the key; none means no admitted row has that key |
| MptMetadata.ExtrasLookup | app/components/MPTCreateTab.tsx:124-127 | in `ai`, a repeated key reads as its last admitted value |
| MptMetadata.ExtrasDistinct | app/components/MPTCreateTab.tsx:124-127 | `ai` never repeats a key |
| MptMetadata.KeptUrlsAppend | app/components/MPTCreateTab.tsx:120 | the url filter keeps the rows' order |
| MptMetadata.ExtrasOfBlankRow | app/components/MPTCreateTab.tsx:199-201 | a blank info row adds nothing to `ai` |
| MptMetadata.ParseRawMetadata | app/components/MPTCreateTab.tsx:144-157 | blank text gives neither record nor error; an object is the record; another JSON value gives the "must be a JSON object" error; a thrown parse gives its message or "Invalid JSON"; never both |
| MptMetadata.FinalMetadata | app/components/MPTCreateTab.tsx:160-166 | raw mode gives the parsed object, or nothing on an error or blank text; structured mode gives the built record |
| MptMetadata.MetadataBytes | app/components/MPTCreateTab.tsx:139-140 | the UTF-8 bytes of the record's JSON text decode back to that text |
| MptMetadata.MetadataToHex | app/components/MPTCreateTab.tsx:137-141 | "" exactly when there is no record; otherwise upper-case hex, two digits per byte, decoding to the UTF-8 bytes of the record's JSON text, which decode back to that text |
| MptSetTab.InitialForm | app/components/MPTSetTab.tsx:35-40 | the form opens for all holders with no flag chosen |
| MptSetTab.Step | app/components/MPTSetTab.tsx:247-312 | events keep the flag one of the two radio values; choosing all holders clears the holder, choosing one holder keeps the typed address |
| MptSetTab.SubmitEnabled | app/components/MPTSetTab.tsx:400 | the button is enabled exactly when nothing is loading, a domain and an account exist, the form's flag check passes and a chosen single holder is non-empty; the request then carries the domain |
| MptSetTab.Submit | app/components/MPTSetTab.tsx:56-74 | no flag stops with the error; otherwise the chosen flag, with the holder only for one holder |
| MptSetTab.SentFlagAccepted | app/components/MPTSetTab.tsx:73 | any flag the form sends passes the route's flag check |
| MptSetTab.ScopeRoundTripNeedsHolder | app/components/MPTSetTab.tsx:283-286 | switching to all holders and back leaves no holder and a disabled button |
| MptSetTab.SubmittedSet | app/components/MPTSetTab.tsx:400 | an enabled submit, with account and issuance filled in, proposes that flag for the chosen scope with the Lock or Unlock description |
| MptSetTab.MissingIssuanceRejected | app/components/MPTSetTab.tsx:400 | the button does not check the issuance id, so an enabled submit without one is turned down by the route |

## Left out

- Network and SDK calls are not modelled: `getCustodySDK`, `custody.intents.propose` and the other client calls. Each handler's result is the envelope it would propose.
- The 500 path for SDK errors is not modelled, and neither is the `NextResponse` wrapper with its status codes. A validation error is a `Failure` holding its message.
- Request fields of the wrong JSON type (a number where a string is expected, `null`) cannot be represented. The exception is the `Array.isArray` checks on `roles` and `transferIds`.
- `getCurrentUser`, `uuidv4`, `Date.now`, `Math.random` and `JSON.parse` are parameters of the model, because their behaviour lies outside the core.
- dayjs is taken to run on a UTC server. Local-zone handling and leap seconds are not modelled.
- Envelope.ExpiryIsOneDayLater: stated only for expiries in years up to 9999, because the `+YYYYYY` extended-year form is not parsed back.
- Json.Stringify: its own contract only says the text is non-empty. What the metadata path needs is proved about the bytes instead (`MptMetadata.MetadataToHex`).
- `JSON.stringify` of floating-point numbers is not modelled; numbers are integers. JavaScript's rule that array-index keys come first in an object is not modelled either, and neither is a `__proto__` key.
- The `JSON.stringify`/`JSON.parse` round trip of the intent log is not modelled; the store holds the parsed list.
- Characters are Dafny `char`s, so lone surrogates in UTF-8 encoding are not modelled.
- UserCreateTab.CustomRole: only ASCII letters are lower-cased, because Unicode case mapping is not modelled.
- JsSemantics.ToLowerAscii: maps only A–Z; `toLowerCase` on other scripts is not modelled.
- JsSemantics.ToUpperAscii: maps only a–z (the ticker box); `toUpperCase` on other scripts is not modelled.
- MptCreateTab.UpdateUrl, MptCreateTab.UpdateAdditionalInfo, UserCreateTab.UpdateLoginId:
  - the spread copy is shallow, and the row objects it shares are not modelled;
  - for an index with no row, JavaScript throws a TypeError before any state is stored, and the model returns the rows unchanged.
- MptCreateRoute.AmountString: a number is an unbounded integer, so `String(maximumAmount)` is always plain decimal. JavaScript switches to exponent form from 1e21 and rounds values above 2^53 to the nearest double; neither is modelled.
- MptCreateTab.SubmitEnabled: the button's three conditions carry no contract of their own; what an enabled submit sends is stated by `MptCreateTab.SubmittedIssuance`.
- The ticker input's `maxLength` of 10 is a browser limit and is not modelled.
- Not modelled: the metadata preview (pretty-printed JSON and hex byte count, MPTCreateTab.tsx:896) and copying the built record into the raw box.
- The combined-flags hex display at MPTCreateTab.tsx:440 is not modelled.
- `combinedFlags` uses JavaScript's 32-bit `|`. The model uses unbounded bitwise OR, which agrees with it because every offered flag is below 128. Selected flags are non-negative integers.
- The intent log assumes a browser: the `typeof window === "undefined"` branches are not modelled.
- The tabs call `saveSubmittedIntent` after a response arrives, with the request id taken from that response. That call is not modelled.
- The second clock reading behind `submittedAt` is a separate parameter of `IntentStore.Save`.
- `DEFAULT_ACCOUNT_ID` and the default domain from the domain context are parameters of the forms.
- Loading flags, async state updates and rendering are not modelled.
- The thin pass-through routes (lists, gets, balances) and the other tabs are outside the core.

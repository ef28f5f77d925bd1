# Storefront cart grouping and checkout shipping-address rules, in Dafny

This project models four pieces of a Next.js storefront and its checkout:

- **Cart line grouping** (`src/lib/cart-utils.ts`). `groupCartItems` takes
  the checkout lines. A line whose metadata carries a non-empty `pack_id`
  joins the "pack" with that id; every other line becomes a "single" item.
  The packs come first, in the order their id first appears, and each
  carries its lines, its size label, its first line's product details and
  the sum of its lines' gross amounts. The singles follow, in input order.
  The model keeps the source's three loops as loops: `CartUtils.GroupCartItems`
  and its three loop methods are proved against the function
  `GroupedCart`. Lemmas then describe `GroupedCart` declaratively:
  - the item at each position;
  - packs before singles;
  - pack order and distinct ids;
  - pack contents and totals;
  - every input line in exactly one output item (a multiset partition).
- **Address-form conversions** (`src/checkout/components/AddressForm/utils.ts`).
  These convert between three shapes:
  - the API's address: fields, `id`, `country: { code, country }`, `metadata`;
  - the form data: string fields, `countryCode`, `vatNumber`;
  - the mutation input: fields, `country` as a code, optional `metadata`.

  The VAT number travels as a `vat_number` metadata item. The same file
  holds address matching and the ordering and filtering of the
  address-field lists. JavaScript objects are maps from a closed set of
  property names to values. An absent key stands for `undefined`. lodash's
  `pick`, `omit`, `uniq` and `isEqual` are modelled by their meaning:
  restriction, removal, first-occurrence deduplication and `==`.
- **The guest shipping-address form**
  (`useGuestShippingAddressForm.tsx`). `parse` builds the mutation
  variables of an auto-saved form, and `onSuccess` takes the form values
  back from the saved address.
- **The signed-in customer's shipping-address form**
  (`useUserShippingAddressForm.ts`):
  - `shouldAbort` skips the update when no address is picked or the
    checkout already has it;
  - `parse` sends the picked saved address;
  - `onSuccess` resets the form.

  Both hooks share one `onError` rule. All `INSUFFICIENT_STOCK` errors
  collapse into one out-of-stock alert, which is shown first. Every other
  error becomes one alert, in order, labelled with its camelCase field name
  spelled out (`postalCode` becomes `Postal Code`).

Files:

| file | contents |
|---|---|
| `JsValues.dfy` | JavaScript values and records, truthiness, `Array.prototype.find` |
| `Lodash.dfy` | `pick`, `omit`, `uniq`, and array `filter`/`map`/`flatMap`, with their lemmas |
| `CartUtils.dfy` | `cart-utils.ts` |
| `AddressFormUtils.dfy` | `utils.ts` |
| `ShippingAddressSubmit.dfy` | the mutation variables and the shared `onError` rule |
| `GuestShippingAddressForm.dfy` | the guest hook |
| `UserShippingAddressForm.dfy` | the signed-in customer's hook, with the form state as a class |

`onError` reports alerts through the `showCustomErrors` side effect. Here it
is a method that returns the sequence of alert texts, in the order they
would be shown.

## Model

| member | source | states |
|---|---|---|
| CartUtils.GetMetadataValue | src/lib/cart-utils.ts:61-68 | none when the metadata is null or undefined, or no entry has the key; otherwise the value of the first entry with that key |
| CartUtils.PackKey | src/lib/cart-utils.ts:76-78 | the pack of a line: its `pack_id` when that is present and non-empty, none otherwise; `LinesInPackTagged`, `UnpackedLinesUntagged` and `PackContents` state what the grouping does with it |
| CartUtils.PackSizeOf | src/lib/cart-utils.ts:95 | the first `pack_size` value of a line, or "Unknown" when it has none; `PackSummary` states that each pack's size is this of its first line |
| CartUtils.SumGross | src/lib/cart-utils.ts:98 | the left-to-right sum, from 0, of the lines' gross amounts; `PackSummary` states that each pack's total is this sum over its lines |
| CartUtils.MakePack | src/lib/cart-utils.ts:94-116 | the pack object built from a non-empty group, as `EmitPacks` builds it; `PackSummary` states its fields |
| CartUtils.GroupedCart | src/lib/cart-utils.ts:70-128 | what `groupCartItems` returns, as the packs of the collected groups followed by the collected singles; `GroupCartItems` is proved to compute it and `GroupedCartShape`, `PackOrder`, `PackContents` and `GroupedCartPartition` characterise it |
| CartUtils.GroupCartItems | src/lib/cart-utils.ts:70-128 | the result of the three loops is `GroupedCart(lines)`, which the lemmas below characterise |
| CartUtils.CollectLines | src/lib/cart-utils.ts:75-86 | the first loop: a line with a truthy `pack_id` is pushed onto its group, and the group is created, with its id recorded in insertion order, the first time the id is seen; every other line is pushed onto `singleItems` |
| CartUtils.EmitPacks | src/lib/cart-utils.ts:91-117 | the second loop emits one pack per id in insertion order, skipping empty groups, with size, product, lines and total computed from the group |
| CartUtils.EmitSingles | src/lib/cart-utils.ts:120-125 | the third loop appends one single item per collected line, in order, after the packs |
| CartUtils.CollectPackIds | src/lib/cart-utils.ts:71-82 | the recorded pack ids are the lines' truthy `pack_id`s deduplicated in first-occurrence order (`Map` insertion order), and they are exactly the map's keys |
| CartUtils.CollectPackLines | src/lib/cart-utils.ts:78-82 | under each id the map holds exactly the lines tagged with that id, in input order; an id not in the map tags no line |
| CartUtils.CollectSingles | src/lib/cart-utils.ts:83-85 | `singleItems` is exactly the lines without a truthy `pack_id`, in input order |
| CartUtils.LinesInPackNonEmpty | src/lib/cart-utils.ts:79-82 | a pack id that occurs on some line has a non-empty group |
| CartUtils.LinesInPackTagged | src/lib/cart-utils.ts:76-82 | every line of a group is an input line tagged with that group's id |
| CartUtils.UnpackedLinesUntagged | src/lib/cart-utils.ts:76-85 | every single is an input line with no truthy `pack_id` |
| CartUtils.PackItemsAt | src/lib/cart-utils.ts:91-117 | with no empty group, the second loop emits exactly one pack per id, the i-th built from the i-th id's group |
| CartUtils.SingleItemsAt | src/lib/cart-utils.ts:120-125 | the third loop emits one single per line, the i-th holding the i-th line |
| CartUtils.GroupedCartShape | src/lib/cart-utils.ts:88-127 | the output is one pack per distinct pack id (first-occurrence order), each holding the non-empty list of lines tagged with it, followed by one single per untagged line in input order; its length is their sum |
| CartUtils.GroupedCartAt | src/lib/cart-utils.ts:88-127 | the output item at any position: the pack of the i-th distinct id, or the single holding the matching untagged line |
| CartUtils.PacksBeforeSingles | src/lib/cart-utils.ts:88-125 | no pack item comes after a single item |
| CartUtils.PackOrder | src/lib/cart-utils.ts:71-117 | packs appear in strictly increasing order of their id's first occurrence among the lines, so pack ids are pairwise distinct |
| CartUtils.PackContents | src/lib/cart-utils.ts:82-110 | each pack holds, in input order, exactly the input lines tagged with its id, and at least one |
| CartUtils.SingleContents | src/lib/cart-utils.ts:83-84 | each single item holds an input line that has no truthy `pack_id` |
| CartUtils.PackSummary | src/lib/cart-utils.ts:94-114 | a pack's total is the sum of its lines' gross amounts in its first line's currency; its size is the first line's `pack_size` or "Unknown"; product id, name, slug and thumbnail come from its first line |
| CartUtils.AddLineHolding | src/lib/cart-utils.ts:78-85 | one iteration of the first loop files the line exactly once |
| CartUtils.CollectPartition | src/lib/cart-utils.ts:75-86 | after the first loop the groups and `singleItems` together hold every input line exactly once |
| CartUtils.FlattenPackItems | src/lib/cart-utils.ts:91-117 | the packs emitted hold exactly the lines of the listed groups |
| CartUtils.FlattenSingles | src/lib/cart-utils.ts:120-125 | the singles emitted hold exactly the collected lines, in order |
| CartUtils.GroupedCartPartition | src/lib/cart-utils.ts:70-128 | every input line appears in exactly one output item, so the lines of the packs plus the singles number as many as the input |
| AddressFormUtils.KeyListsMembership | src/checkout/components/AddressForm/utils.ts:49-62 | the form keys are the address fields plus `vatNumber`, and the address-field lists hold exactly the address fields |
| AddressFormUtils.EmptyAddressFormData | src/checkout/components/AddressForm/utils.ts:49-62 | the empty form has every address field and `vatNumber`, all `""` except `countryCode`, which is "US" |
| AddressFormUtils.EmptyAddress | src/checkout/components/AddressForm/utils.ts:64-75 | the empty form without `countryCode`, with an empty id and the "US" country named by the locale |
| AddressFormUtils.AllAddressFieldKeys | src/checkout/components/AddressForm/utils.ts:77-78 | the empty form's keys in literal order, without `vatNumber`, are the eleven address fields |
| AddressFormUtils.AddressFieldKeysFacts | src/checkout/components/AddressForm/utils.ts:77-78 | those keys are exactly the empty form's keys other than `vatNumber`, eleven of them without repeats, `countryCode` among them |
| AddressFormUtils.GetAddressInputData | src/checkout/components/AddressForm/utils.ts:80-102 | copies exactly the address fields other than `countryCode`; `country` is `countryCode` when truthy and `country.code` otherwise; `vat_number` metadata exactly when the VAT number is non-empty; no other key |
| AddressFormUtils.StripMetadata | src/checkout/components/AddressForm/utils.ts:121-126 | metadata items keep their order, `key` and `value`, and lose `__typename` |
| AddressFormUtils.GetAddressInputDataFromAddress | src/checkout/components/AddressForm/utils.ts:104-129 | `{}` for a missing address; otherwise the address fields copied, phone read as `""` when falsy, `country` as the country's code, and the metadata stripped when present |
| AddressFormUtils.VatNumberOf | src/checkout/components/AddressForm/utils.ts:147 | the first `vat_number` metadata value, or `""` when there is no metadata or no such item |
| AddressFormUtils.GetAddressFormDataFromAddress | src/checkout/components/AddressForm/utils.ts:131-159 | the empty form for a missing address; otherwise exactly the address fields present plus `countryCode` and `vatNumber`, each falsy value read as `""`, `countryCode` from `country.code`, `vatNumber` from the metadata |
| AddressFormUtils.IsMatchingAddressData | src/checkout/components/AddressForm/utils.ts:179-182 | `pick` of both addresses on the address-field keys are equal, a missing address picking `{}`; `MatchingAddressDataMeaning` states its meaning |
| AddressFormUtils.IsMatchingAddress | src/checkout/components/AddressForm/utils.ts:162-176 | both ids are the same string, or else the address data match; `MatchingAddressProperties` and `MatchingAddressNotTransitive` state its properties |
| AddressFormUtils.IsMatchingAddressFormData | src/checkout/components/AddressForm/utils.ts:188-195 | equal once `id`, `autoSave` and `__typename` are omitted; `MatchingFormDataMeaning` states its meaning |
| AddressFormUtils.GetByMatchingAddress | src/checkout/components/AddressForm/utils.ts:184-186 | the predicate holds of an address exactly when it matches the given one |
| AddressFormUtils.GetAddressValidationRulesVariables | src/checkout/components/AddressForm/utils.ts:197-204 | `checkRequiredFields` is set, to false, exactly for auto-saved forms |
| AddressFormUtils.DefaultAddressValidationRules | src/checkout/components/AddressForm/utils.ts:197-198 | with the default argument the rules are the empty object |
| AddressFormUtils.GetFilteredAddressFields | src/checkout/components/AddressForm/utils.ts:237-243 | never "name", no repeats, always firstName, lastName and phone, exactly the reported fields other than "name" plus those three, and every field appears in the order of its first occurrence in the reported fields without "name" followed by firstName, lastName, phone, which fixes the list |
| AddressFormUtils.GetOrderedAddressFields | src/checkout/components/AddressForm/utils.ts:221-227 | exactly the fields of `addressFieldsOrder` that survive filtering, in that order, without repeats, firstName, lastName and phone always among them |
| AddressFormUtils.GetRequiredAddressFields | src/checkout/components/AddressForm/utils.ts:229-233 | the given fields unchanged, then firstName and lastName, two longer and not deduplicated |
| AddressFormUtils.FormDataRoundTrip | src/checkout/components/AddressForm/utils.ts:80-159 | form data sent with `getAddressInputData` and read back with `getAddressFormDataFromAddress` is the form data sent, VAT number included |
| AddressFormUtils.SavedFormData | src/checkout/components/AddressForm/utils.ts:91-98 | the saved address of such an input carries the form's fields, country code and VAT metadata |
| AddressFormUtils.ReadBack | src/checkout/components/AddressForm/utils.ts:139-158 | an address carrying a form's fields, country code and VAT metadata reads back as that form |
| AddressFormUtils.ReadBackAt | src/checkout/components/AddressForm/utils.ts:139-158 | the same, one property at a time |
| AddressFormUtils.InputOfFormData | src/checkout/components/AddressForm/utils.ts:80-102 | for well-typed form data with a country code, the input has the fields, that country code and VAT metadata exactly for a non-empty VAT number |
| AddressFormUtils.InputDataDependsOnFormKeys | src/checkout/components/AddressForm/utils.ts:80-102 | with a truthy `countryCode`, only the address fields and the VAT number affect the input |
| AddressFormUtils.VatNumberReadBack | src/checkout/components/AddressForm/utils.ts:97-98 | the VAT number written into metadata at line 98 is the one line 147 reads back |
| AddressFormUtils.EmptyAddressRoundTrip | src/checkout/components/AddressForm/utils.ts:64-75 | the empty address reads back as the empty form |
| AddressFormUtils.InputFromAddressMatchesData | src/checkout/components/AddressForm/utils.ts:104-118 | an address and its input have the same address data exactly when its phone is truthy or `""` |
| AddressFormUtils.MatchingAddressDataMeaning | src/checkout/components/AddressForm/utils.ts:179-182 | `isMatchingAddressData` holds exactly when the two agree on presence and value of every address field |
| AddressFormUtils.MatchingIgnoresOtherKeys | src/checkout/components/AddressForm/utils.ts:179-182 | changing or removing a non-address-field property never affects the data match |
| AddressFormUtils.MatchingAddressProperties | src/checkout/components/AddressForm/utils.ts:162-176 | `isMatchingAddress` is reflexive and symmetric, holds of two missing addresses, of equal string ids and of matching data |
| AddressFormUtils.MatchingAddressNotTransitive | src/checkout/components/AddressForm/utils.ts:162-176 | matching by id does not chain: a matches b by id, b matches c by data, a does not match c |
| AddressFormUtils.MatchingFormDataMeaning | src/checkout/components/AddressForm/utils.ts:188-195 | `isMatchingAddressFormData` holds exactly when the two agree on every property other than `id`, `autoSave` and `__typename` |
| AddressFormUtils.AddressFieldsOrderFacts | src/checkout/components/AddressForm/utils.ts:206-218 | `addressFieldsOrder` lists every address field exactly once |
| AddressFormUtils.FilteredAddressFieldsIdempotent | src/checkout/components/AddressForm/utils.ts:237-243 | filtering a filtered list changes nothing |
| AddressFormUtils.OrderedAddressFieldsIdempotent | src/checkout/components/AddressForm/utils.ts:221-227 | ordering an ordered list changes nothing |
| AddressFormUtils.OrderedAddressFieldsAreFields | src/checkout/components/AddressForm/utils.ts:221-227 | the ordered list holds only address fields and every address field reported |
| ShippingAddressSubmit.ToUpperChar | src/checkout/sections/GuestShippingAddressSection/useGuestShippingAddressForm.tsx:63 | a lower-case ASCII letter becomes its capital; any other character is unchanged |
| ShippingAddressSubmit.SpaceBeforeCapitals | src/checkout/sections/GuestShippingAddressSection/useGuestShippingAddressForm.tsx:63 | the replacement of every capital letter by a space and that letter; the lemmas below state what it adds and where |
| ShippingAddressSubmit.SpaceBeforeCapitalsLength | src/checkout/sections/GuestShippingAddressSection/useGuestShippingAddressForm.tsx:63 | the replacement adds exactly one character per capital |
| ShippingAddressSubmit.SpaceBeforeCapitalsAddsOnlySpaces | src/checkout/sections/GuestShippingAddressSection/useGuestShippingAddressForm.tsx:63 | with spaces removed, the replaced string equals the original |
| ShippingAddressSubmit.CapitalsFollowSpaces | src/checkout/sections/GuestShippingAddressSection/useGuestShippingAddressForm.tsx:63 | in the replaced string every capital follows a space |
| ShippingAddressSubmit.SpaceBeforeCapitalsAppend | src/checkout/sections/GuestShippingAddressSection/useGuestShippingAddressForm.tsx:63 | the replacement works character by character, so it commutes with concatenation |
| ShippingAddressSubmit.SpaceBeforeCapitalsNoCapitals | src/checkout/sections/GuestShippingAddressSection/useGuestShippingAddressForm.tsx:63 | a string without capitals is unchanged |
| ShippingAddressSubmit.CamelCaseLabel | src/checkout/sections/GuestShippingAddressSection/useGuestShippingAddressForm.tsx:62-64 | a two-part camelCase word gets exactly one space, before its capital |
| ShippingAddressSubmit.PostalCodeLabel | src/checkout/sections/GuestShippingAddressSection/useGuestShippingAddressForm.tsx:62-64 | "postalCode" is labelled "Postal Code" |
| ShippingAddressSubmit.FieldLabel | src/checkout/sections/GuestShippingAddressSection/useGuestShippingAddressForm.tsx:62-64 | `""` without a field or with an empty one, otherwise the field's first character upper-cased followed by the spaced rest; `FieldLabelMeaning` and `PostalCodeLabel` state its properties |
| ShippingAddressSubmit.FieldLabelMeaning | src/checkout/sections/GuestShippingAddressSection/useGuestShippingAddressForm.tsx:62-64 | the label is empty exactly when the field is missing or empty; otherwise it is the field's first character upper-cased, a space only if the field starts with one, then the spaced rest |
| ShippingAddressSubmit.MessageText | src/checkout/sections/GuestShippingAddressSection/useGuestShippingAddressForm.tsx:66-67 | never empty; the error's own message when non-empty, and "An error occurred" when the message is missing or empty |
| ShippingAddressSubmit.ErrorMessage | src/checkout/sections/GuestShippingAddressSection/useGuestShippingAddressForm.tsx:65-67 | "label: text" when the label is non-empty, the bare text otherwise; `ErrorMessageMeaning` states its properties |
| ShippingAddressSubmit.ErrorMessageMeaning | src/checkout/sections/GuestShippingAddressSection/useGuestShippingAddressForm.tsx:65-67 | the alert ends with the message text; it is "label: text" for a non-empty field and the bare text exactly otherwise |
| ShippingAddressSubmit.ErrorAlerts | src/checkout/sections/GuestShippingAddressSection/useGuestShippingAddressForm.tsx:46-70 | the alerts of `onError` in order: one out-of-stock alert when the stock filter is non-empty, then the message of each other error; `OnError` computes it and `AlertCount`, `StockAlertCollapses` and `MessagesMeaning` state its properties |
| ShippingAddressSubmit.OnError | src/checkout/sections/GuestShippingAddressSection/useGuestShippingAddressForm.tsx:46-70 | the alerts shown are one out-of-stock alert when any error is a stock error, then each other error's message in order |
| ShippingAddressSubmit.MessagesOfPrefix | src/checkout/sections/GuestShippingAddressSection/useGuestShippingAddressForm.tsx:61-69 | each step of the `forEach` adds one message, at the end |
| ShippingAddressSubmit.FiltersAppend | src/checkout/sections/GuestShippingAddressSection/useGuestShippingAddressForm.tsx:48-49 | both filters split at concatenation, so they keep input order |
| ShippingAddressSubmit.FiltersMembership | src/checkout/sections/GuestShippingAddressSection/useGuestShippingAddressForm.tsx:48-49 | stock errors land in the first filter and every other error in the second |
| ShippingAddressSubmit.FiltersLength | src/checkout/sections/GuestShippingAddressSection/useGuestShippingAddressForm.tsx:48-49 | the two filters together are as long as the errors |
| ShippingAddressSubmit.StockErrorsNonEmpty | src/checkout/sections/GuestShippingAddressSection/useGuestShippingAddressForm.tsx:48-51 | one stock error makes the stock filter non-empty |
| ShippingAddressSubmit.AlertCount | src/checkout/sections/UserShippingAddressSection/useUserShippingAddressForm.ts:44-68 | with a stock error: one out-of-stock alert first, whatever the count, then one per other error; without: exactly one message per error, in order |
| ShippingAddressSubmit.NoStockErrorsKept | src/checkout/sections/UserShippingAddressSection/useUserShippingAddressForm.ts:47 | with no stock errors the second filter keeps every error |
| ShippingAddressSubmit.MessagesAppend | src/checkout/sections/UserShippingAddressSection/useUserShippingAddressForm.ts:59-67 | the messages of two error lists, one after the other |
| ShippingAddressSubmit.MessagesMeaning | src/checkout/sections/UserShippingAddressSection/useUserShippingAddressForm.ts:59-67 | one message per error, each in its error's position |
| ShippingAddressSubmit.StockAlertCollapses | src/checkout/sections/UserShippingAddressSection/useUserShippingAddressForm.ts:46-57 | once a stock error is present, more errors add only the messages of the non-stock ones, at the end |
| GuestShippingAddressForm.Parse | src/checkout/sections/GuestShippingAddressSection/useGuestShippingAddressForm.tsx:34-39 | `languageCode` and `checkoutId` pass through; required fields go unchecked; the address is `getAddressInputData` of the rest without `channel`: the address fields other than `countryCode` copied, `country` from `countryCode` when truthy and from `country.code` otherwise, `vat_number` metadata holding the VAT number exactly when it is non-empty, and no other key, so `languageCode`, `checkoutId`, `channel` and `autoSave` stay out |
| GuestShippingAddressForm.OnSuccessValues | src/checkout/sections/GuestShippingAddressSection/useGuestShippingAddressForm.tsx:40-45 | the empty form for a checkout without shipping address; otherwise the address's country code and VAT number |
| GuestShippingAddressForm.ParseIgnoresChannel | src/checkout/sections/GuestShippingAddressSection/useGuestShippingAddressForm.tsx:37 | the submitted `channel` never changes the variables |
| GuestShippingAddressForm.SubmitRoundTrip | src/checkout/sections/GuestShippingAddressSection/useGuestShippingAddressForm.tsx:34-45 | a complete auto-saved form, echoed back by the API, resets the form to what the guest entered |
| UserShippingAddressForm.GetById | src/checkout/sections/UserShippingAddressSection/useUserShippingAddressForm.ts:34 | the predicate holds exactly of records with that id |
| UserShippingAddressForm.Parse | src/checkout/sections/UserShippingAddressSection/useUserShippingAddressForm.ts:35-42 | `languageCode` and `checkoutId` pass through; the default (empty) validation rules; `{}` when no entry matches; only address fields, `country` and `metadata` in the address |
| UserShippingAddressForm.MatchingIdRecordIsById | src/checkout/sections/UserShippingAddressSection/useUserShippingAddressForm.ts:40 | when every entry has an address field, matching `{ id }` finds the same entry as finding by id |
| UserShippingAddressForm.BareEntryMatchesAnyId | src/checkout/sections/UserShippingAddressSection/useUserShippingAddressForm.ts:40 | an entry without address fields matches `{ id }` whatever its own id |
| UserShippingAddressForm.ParseSendsSelectedEntry | src/checkout/sections/UserShippingAddressSection/useUserShippingAddressForm.ts:35-42 | for a list of real addresses, `parse` sends the entry picked by id |
| UserShippingAddressForm.ShouldAbort | src/checkout/sections/UserShippingAddressSection/useUserShippingAddressForm.ts:32-34 | no truthy `selectedAddressId`, or the checkout's shipping address matches the list entry found by that id; `ShouldAbortCases` and `ShouldAbortUnlisted` state when it holds and when it does not |
| UserShippingAddressForm.ShouldAbortCases | src/checkout/sections/UserShippingAddressSection/useUserShippingAddressForm.ts:32-34 | abort without a picked address, and when the checkout's address has the picked id held by the list; go ahead when the picked entry differs from it in id and data |
| UserShippingAddressForm.ShouldAbortUnlisted | src/checkout/sections/UserShippingAddressSection/useUserShippingAddressForm.ts:32-41 | for a picked id no saved address has, abort exactly when the checkout has no shipping address or one without address fields (`pick(undefined)` is `{}`); then, with every entry a real address, `parse` sends `{}` |
| UserShippingAddressForm.AddressListForm.ResetForm | src/checkout/sections/UserShippingAddressSection/useUserShippingAddressForm.ts:43 | the form's values become exactly the given values |
| UserShippingAddressForm.OnSuccess | src/checkout/sections/UserShippingAddressSection/useUserShippingAddressForm.ts:43 | the form is reset to exactly the submitted form data |

## Left out

- `EU_COUNTRIES` and the other constants of `utils.ts` that none of the modelled functions reads are not modelled.
- `getCountryName` is a function parameter (`countryName`), since the locale tables are not part of this model.
- `getById` lives in `src/checkout/lib/utils/common.ts`, which is not part of this model. `UserShippingAddressForm.GetById` assumes it is `item.id === id`.
- ShippingAddressSubmit.ToUpperChar: covers ASCII letters only. JavaScript's `toUpperCase` and the `[A-Z]` class are applied to ASCII; Unicode case mapping (for example `ß` becoming `SS`) is not modelled.
- JavaScript objects are maps over a closed set of property names (`JsValues.Key`). An `undefined` property value is an absent key.
- Money amounts are integers in minor units. The source's IEEE floating-point sum is not modelled.
- `CartUtils.Variant` collapses `pricing?.price?.gross` into one optional amount, since no modelled code reads it.
- `groupCartItems` keeps its three loops, each as its own method (`CollectLines`, `EmitPacks`, `EmitSingles`). The `packMap` Map is a `map` value with the list of its keys in insertion order beside it, not a mutable object.
- The React hooks themselves are not modelled: `useFormSubmit`, `useMemo`, the mutation call, `useAutoSaveAddressForm` and `useAddressListForm`. The `parse`, `shouldAbort`, `onSuccess` and `onError` closures are modelled on their own.
- `showCustomErrors` (an alert side effect) is modelled by the returned sequence of alert texts.
- GuestShippingAddressForm.OnSuccessValues: states the country code and VAT number of the new values only; the other fields follow from `AddressFormUtils.GetAddressFormDataFromAddress`. `setCheckoutFormValidationState` and the form helpers it receives are not part of this model.
- `AddressFormUtils.SavedAddress` is not source code: it is an assumption about the commerce API, namely that it stores the submitted address verbatim and only adds an id and a country display. `FormDataRoundTrip` and `GuestShippingAddressForm.SubmitRoundTrip` hold only for an address stored that way; a backend that normalises postal codes, city names or phone numbers falls outside them. `AddressFormUtils.ReadBack` needs no such assumption: it states which saved addresses read back as a given form.
- UserShippingAddressForm.Parse: demands that every saved address is an `AddressFragment`, as the source's types do.
- `AddressFormUtils.ValidationRules` holds only `checkRequiredFields`, the one rule this code sets.

/** Conversions between the three address shapes of the checkout
    (src/checkout/components/AddressForm/utils.ts): the API's address
    (`AddressFragment`: `id`, `country: { code, country }`, the address
    fields, `metadata`), the form data (`AddressFormData`: the address
    fields, `countryCode` and `vatNumber`, all strings) and the mutation
    input (`AddressInput`: the address fields, `country` as a code, and
    optional `metadata`). The VAT number travels in a `vat_number` metadata
    item. Also: address matching, and the ordering and filtering of the
    address-field lists the API reports. */
module AddressFormUtils {
  import opened JsValues
  import opened Lodash

  const VatNumberMetadataKey := "vat_number"
  const DefaultCountryCode := "US"

  /** The keys of the empty form data, in the order of its object literal
      (which is the order `Object.keys` reports). */
  const FormDataKeys: seq<Key> := [
    Field(FirstName), Field(LastName), Field(StreetAddress1), Field(StreetAddress2),
    Field(CompanyName), Field(City), Field(CityArea), Field(CountryArea),
    Field(PostalCode), Field(Phone), Field(CountryCode), VatNumber]

  /** The address-field keys in the same order. `AllAddressFieldKeys`
      derives this list the way the source does; the conversions below use
      it through this constant. */
  const AddressFieldKeys: seq<Key> := [
    Field(FirstName), Field(LastName), Field(StreetAddress1), Field(StreetAddress2),
    Field(CompanyName), Field(City), Field(CityArea), Field(CountryArea),
    Field(PostalCode), Field(Phone), Field(CountryCode)]

  /** `addressFieldsOrder` */
  const AddressFieldsOrder: seq<Key> := [
    Field(FirstName), Field(LastName), Field(CompanyName), Field(StreetAddress1),
    Field(StreetAddress2), Field(City), Field(CountryCode), Field(PostalCode),
    Field(CityArea), Field(CountryArea), Field(Phone)]

  /** Which keys the three key lists hold, and that none holds one twice. */
  lemma KeyListsMembership()
    ensures forall k: Key :: k in AddressFieldKeys <==> k.Field?
    ensures forall k: Key :: k in FormDataKeys <==> k.Field? || k == VatNumber
    ensures forall k: Key :: k in AddressFieldsOrder <==> k.Field?
  {
    forall k: Key | k.Field?
      ensures k in AddressFieldKeys && k in FormDataKeys && k in AddressFieldsOrder
    {
      match k.field
      case FirstName =>
      case LastName =>
      case StreetAddress1 =>
      case StreetAddress2 =>
      case CompanyName =>
      case City =>
      case CityArea =>
      case CountryArea =>
      case PostalCode =>
      case Phone =>
      case CountryCode =>
    }
  }

  /** `getEmptyAddressFormData` */
  function EmptyAddressFormData(): (r: Record)
    ensures forall k: Key :: k in r <==> k.Field? || k == VatNumber
    ensures r[Field(CountryCode)] == Str(DefaultCountryCode)
    ensures forall k: Key :: k in r && k != Field(CountryCode) ==> r[k] == Str("")
  {
    KeyListsMembership();
    map k | k in FormDataKeys :: if k == Field(CountryCode) then Str(DefaultCountryCode) else Str("")
  }

  /** `getEmptyAddress`, with the locale's `getCountryName` as a parameter:
      the empty form data without `countryCode`, plus an empty `id` and the
      default country as a `CountryDisplay`. */
  function EmptyAddress(countryName: string -> string): (r: Record)
    ensures forall k: Key :: k in r <==> (k.Field? && k != Field(CountryCode)) || k == VatNumber || k == Id || k == Country
    ensures r[Country] == CountryDisplay(DefaultCountryCode, countryName(DefaultCountryCode))
    ensures r[Id] == Str("")
    ensures forall k: Key :: k in r && k != Id && k != Country ==> r[k] == Str("")
  {
    var empty := EmptyAddressFormData();
    var code := empty[Field(CountryCode)].s;
    Omit(empty, [Field(CountryCode)])[Id := Str("")][Country := CountryDisplay(code, countryName(code))]
  }

  /** `getAllAddressFieldKeys`: the keys of the empty form data, in order,
      without `vatNumber`. */
  function AllAddressFieldKeys(): (keys: seq<Key>)
    ensures keys == AddressFieldKeys
  {
    var keys := Without(FormDataKeys, VatNumber);
    assert FormDataKeys == AddressFieldKeys + [VatNumber];
    WithoutAppend(AddressFieldKeys, [VatNumber], VatNumber);
    KeyListsMembership();
    WithoutAbsent(AddressFieldKeys, VatNumber);
    keys
  }

  /** `getAllAddressFieldKeys` lists the keys of the empty form data other
      than `vatNumber`, each once: eleven keys, `countryCode` among them. */
  lemma AddressFieldKeysFacts()
    ensures forall k: Key :: k in AddressFieldKeys <==> k in EmptyAddressFormData() && k != VatNumber
    ensures Field(CountryCode) in AddressFieldKeys
    ensures |AddressFieldKeys| == 11 && NoDuplicates(AddressFieldKeys)
  {
    KeyListsMembership();
    forall i | 0 <= i < |AddressFieldKeys|
      ensures FormPosition(AddressFieldKeys[i]) == i
    {
    }
    DistinctByRank(AddressFieldKeys, FormPosition);
  }

  /** Position of an address field in the empty form data's literal. */
  function FormPosition(k: Key): int {
    match k
    case Field(f) =>
      (match f
       case FirstName => 0 case LastName => 1 case StreetAddress1 => 2 case StreetAddress2 => 3
       case CompanyName => 4 case City => 5 case CityArea => 6 case CountryArea => 7
       case PostalCode => 8 case Phone => 9 case CountryCode => 10)
    case _ => -1
  }

  /** A well-typed `AddressFormData`: exactly the form keys, every value a string. */
  ghost predicate IsAddressFormData(f: Record) {
    (forall k: Key :: k in f <==> k.Field? || k == VatNumber) && forall k: Key :: k in f ==> f[k].Str?
  }

  /** The VAT number of a form-like record is a string, when there is one. */
  predicate VatIsString(data: Record) {
    VatNumber in data ==> data[VatNumber].Str?
  }

  /** The metadata written for a VAT number. */
  function VatMetadata(vatNumber: string): Value {
    Items([MetadataItem(VatNumberMetadataKey, vatNumber, None)])
  }

  /** `getAddressInputData`: the address fields other than `countryCode`
      (which is destructured away), `country` from `countryCode` when it is
      truthy and from `country.code` otherwise, and a `vat_number` metadata
      item exactly when the VAT number is non-empty. */
  function GetAddressInputData(data: Record): (input: Record)
    requires VatIsString(data)
    ensures forall k: Key :: k.Field? && k != Field(CountryCode) ==>
              (k in input <==> k in data) && (k in data ==> input[k] == data[k])
    ensures forall k: Key :: k in input ==> (k.Field? && k != Field(CountryCode)) || k == Country || k == Metadata
    ensures TruthyAt(data, Field(CountryCode)) ==> Country in input && input[Country] == data[Field(CountryCode)]
    ensures !TruthyAt(data, Field(CountryCode)) ==>
              (Country in input <==> Country in data && data[Country].CountryDisplay?)
              && (Country in input ==> input[Country] == Str(data[Country].code))
    ensures Metadata in input <==> TruthyAt(data, VatNumber)
    ensures Metadata in input ==> input[Metadata] == VatMetadata(data[VatNumber].s)
  {
    KeyListsMembership();
    var rest := Omit(data, [Field(CountryCode), Country, VatNumber]);
    var fields := Pick(rest, AddressFieldKeys);
    var addressData :=
      if TruthyAt(data, Field(CountryCode)) then fields[Country := data[Field(CountryCode)]]
      else if Country in data && data[Country].CountryDisplay? then fields[Country := Str(data[Country].code)]
      else fields;
    if TruthyAt(data, VatNumber) then addressData[Metadata := VatMetadata(data[VatNumber].s)]
    else addressData
  }

  /** Metadata as `AddressInput` takes it: only `key` and `value` of each item. */
  function StripMetadata(items: seq<MetadataItem>): (r: seq<MetadataItem>)
    ensures |r| == |items|
    ensures forall i :: 0 <= i < |items| ==> r[i] == MetadataItem(items[i].key, items[i].value, None)
  {
    seq(|items|, i requires 0 <= i < |items| => MetadataItem(items[i].key, items[i].value, None))
  }

  /** An address's metadata is an array or null, as `AddressFragment` types it. */
  predicate MetadataIsList(address: Record) {
    Metadata in address ==> address[Metadata].Items? || address[Metadata].Null?
  }

  /** `getAddressInputDataFromAddress`: `{}` for a missing address; otherwise
      the address fields other than `phone`, `country` as the country's code,
      `phone` with null or empty read as `""`, and the metadata items (when
      there is a metadata array) reduced to `key` and `value`, in order. */
  function GetAddressInputDataFromAddress(address: Option<Record>): (input: Record)
    requires address.Some? ==> MetadataIsList(address.value)
    ensures address.None? ==> input == map[]
    ensures address.Some? ==>
              forall k: Key :: k.Field? && k != Field(Phone) ==>
                (k in input <==> k in address.value) && (k in address.value ==> input[k] == address.value[k])
    ensures forall k: Key :: k in input ==> k.Field? || k == Country || k == Metadata
    ensures address.Some? ==>
              Field(Phone) in input && input[Field(Phone)] == (if TruthyAt(address.value, Field(Phone)) then address.value[Field(Phone)] else Str(""))
    ensures address.Some? ==>
              (Country in input <==> Country in address.value && address.value[Country].CountryDisplay?)
              && (Country in input ==> input[Country] == Str(address.value[Country].code))
    ensures address.Some? ==>
              (Metadata in input <==> Metadata in address.value && address.value[Metadata].Items?)
              && (Metadata in input ==> input[Metadata] == Items(StripMetadata(address.value[Metadata].items)))
  {
    match address
    case None => map[]
    case Some(a) =>
      KeyListsMembership();
      var rest := Omit(a, [Country, Field(Phone)]);
      var fields := Pick(rest, AddressFieldKeys);
      assert Country !in fields && Metadata !in fields && Field(Phone) !in fields;
      var withCountry := if Country in a && a[Country].CountryDisplay? then fields[Country := Str(a[Country].code)] else fields;
      var addressInput := withCountry[Field(Phone) := if TruthyAt(a, Field(Phone)) then a[Field(Phone)] else Str("")];
      if TruthyAt(a, Metadata) then addressInput[Metadata := Items(StripMetadata(a[Metadata].items))]
      else addressInput
  }

  /** The `vat_number` metadata value of an address, or `""` when there is
      no metadata array or no such item. */
  function VatNumberOf(address: Record): (vat: string)
    requires MetadataIsList(address)
    ensures (Metadata !in address || address[Metadata].Null?) ==> vat == ""
    ensures Metadata in address && address[Metadata].Items? ==>
              vat == match FindValue(address[Metadata].items, VatNumberMetadataKey)
                     case Some(v) => v
                     case None => ""
  {
    if Metadata in address && address[Metadata].Items? then
      match FindValue(address[Metadata].items, VatNumberMetadataKey)
      case Some(v) => v
      case None => ""
    else ""
  }

  /** An API address, as `AddressFragment` types it: its country is a
      `CountryDisplay` and its metadata a list or null. */
  predicate IsAddressFragment(address: Record) {
    Country in address && address[Country].CountryDisplay? && MetadataIsList(address)
  }

  /** `getAddressFormDataFromAddress`: the empty form (country "US") for a
      missing address; otherwise every address field present, its falsy
      value read as `""`, `countryCode` from `country.code`, and `vatNumber`
      from the first `vat_number` metadata item. */
  function GetAddressFormDataFromAddress(address: Option<Record>): (f: Record)
    requires address.Some? ==> IsAddressFragment(address.value)
    ensures address.None? ==> f == EmptyAddressFormData()
    ensures address.Some? ==>
              forall k: Key :: k in f <==> k == Field(CountryCode) || k == VatNumber || (k.Field? && k in address.value)
    ensures address.Some? ==>
              forall k: Key :: k in f && k != Field(CountryCode) && k != VatNumber ==>
                f[k] == (if Truthy(address.value[k]) then address.value[k] else Str(""))
    ensures address.Some? ==> Field(CountryCode) in f && f[Field(CountryCode)] == Str(address.value[Country].code)
    ensures address.Some? ==> VatNumber in f && f[VatNumber] == Str(VatNumberOf(address.value))
  {
    match address
    case None =>
      var empty := EmptyAddressFormData();
      assert empty[Field(CountryCode) := Str(DefaultCountryCode)] == empty;
      empty[Field(CountryCode) := Str(DefaultCountryCode)]
    case Some(a) =>
      KeyListsMembership();
      var rest := Omit(a, [Country]);
      var parsedAddressBase := map k | k in rest :: if Truthy(rest[k]) then rest[k] else Str("");
      var withCode := parsedAddressBase[Field(CountryCode) := Str(a[Country].code)];
      assert VatNumber !in AddressFieldKeys;
      Pick(withCode, AddressFieldKeys)[VatNumber := Str(VatNumberOf(a))]
  }

  /** The id of an address when it is a string (`typeof address?.id === "string"`). */
  function StringId(address: Option<Record>): Option<string> {
    if address.Some? && Id in address.value && address.value[Id].Str? then Some(address.value[Id].s) else None
  }

  /** `isMatchingAddressData`: the two addresses agree on the address-field
      keys (`pick` of a missing address is `{}`). */
  predicate IsMatchingAddressData(address: Option<Record>, addressToMatch: Option<Record>) {
    PickOf(address, AddressFieldKeys) == PickOf(addressToMatch, AddressFieldKeys)
  }

  /** `isMatchingAddress`: the same string id, or else the same address data. */
  predicate IsMatchingAddress(address: Option<Record>, addressToMatch: Option<Record>) {
    (StringId(address).Some? && StringId(address) == StringId(addressToMatch))
    || IsMatchingAddressData(address, addressToMatch)
  }

  /** `getByMatchingAddress(addressToMatch)`: the predicate handed to `find`. */
  function GetByMatchingAddress(addressToMatch: Option<Record>): (matches: Record -> bool)
    ensures forall a :: matches(a) == IsMatchingAddress(Some(a), addressToMatch)
  {
    (address: Record) => IsMatchingAddress(Some(address), addressToMatch)
  }

  const FormPropsToOmit: seq<Key> := [Id, AutoSave, Typename]

  /** `isMatchingAddressFormData`: equal once `id`, `autoSave` and `__typename` are dropped. */
  predicate IsMatchingAddressFormData(address: Option<Record>, addressToMatch: Option<Record>) {
    OmitOf(address, FormPropsToOmit) == OmitOf(addressToMatch, FormPropsToOmit)
  }

  /** `CheckoutAddressValidationRules`, reduced to the one rule this code sets. */
  datatype ValidationRules = ValidationRules(checkRequiredFields: Option<bool>)

  /** `getAddressValidationRulesVariables({ autoSave })`: required fields go
      unchecked exactly for auto-saved forms. */
  function GetAddressValidationRulesVariables(autoSave: bool): (rules: ValidationRules)
    ensures rules.checkRequiredFields.Some? <==> autoSave
    ensures autoSave ==> rules.checkRequiredFields == Some(false)
  {
    if autoSave then ValidationRules(Some(false)) else ValidationRules(None)
  }

  /** `getAddressValidationRulesVariables()`, whose default argument is `{ autoSave: false }`. */
  function DefaultAddressValidationRules(): (rules: ValidationRules)
    ensures rules.checkRequiredFields.None?
  {
    GetAddressValidationRulesVariables(false)
  }

  /** The fields `getFilteredAddressFields` always appends. */
  const AlwaysShownFields: seq<Key> := [Field(FirstName), Field(LastName), Field(Phone)]

  /** `getFilteredAddressFields`: the reported fields without "name" (which
      the API uses but the form does not), then "firstName", "lastName" and
      "phone", each field kept at its first occurrence only, in the order of
      that first occurrence. */
  function GetFilteredAddressFields(addressFields: seq<Key>): (r: seq<Key>)
    ensures Name !in r && NoDuplicates(r)
    ensures forall f: Key :: f in AlwaysShownFields ==> f in r
    ensures forall f: Key :: f in r <==> (f in addressFields && f != Name) || f in AlwaysShownFields
    ensures Uniq(Without(addressFields, Name)) <= r
    ensures forall i, j :: 0 <= i < j < |r| ==>
      IndexOf(Without(addressFields, Name) + AlwaysShownFields, r[i]) < IndexOf(Without(addressFields, Name) + AlwaysShownFields, r[j])
  {
    var filtered := Without(addressFields, Name);
    UniqPrefix(filtered, AlwaysShownFields);
    UniqFirstOccurrenceOrder(filtered + AlwaysShownFields);
    Uniq(filtered + AlwaysShownFields)
  }

  /** `getOrderedAddressFields`: the fields of `addressFieldsOrder` that
      survive `getFilteredAddressFields`, in that order. */
  function GetOrderedAddressFields(addressFields: seq<Key>): (r: seq<Key>)
    ensures forall f: Key :: f in r <==> f in AddressFieldsOrder && f in GetFilteredAddressFields(addressFields)
    ensures forall i, j :: 0 <= i < j < |r| ==> IndexOf(AddressFieldsOrder, r[i]) < IndexOf(AddressFieldsOrder, r[j])
    ensures NoDuplicates(r)
    ensures forall f: Key :: f in AlwaysShownFields ==> f in r
  {
    var filtered := GetFilteredAddressFields(addressFields);
    KeepIfInOrdered(AddressFieldsOrder, filtered);
    var r := KeepIfIn(AddressFieldsOrder, filtered);
    forall i, j | 0 <= i < j < |r|
      ensures r[i] != r[j]
    {
      assert IndexOf(AddressFieldsOrder, r[i]) < IndexOf(AddressFieldsOrder, r[j]);
    }
    r
  }

  /** `getRequiredAddressFields`: the given fields, then "firstName" and
      "lastName", with no deduplication. */
  function GetRequiredAddressFields(requiredFields: seq<Key>): (r: seq<Key>)
    ensures |r| == |requiredFields| + 2
    ensures r[..|requiredFields|] == requiredFields
    ensures r[|requiredFields|..] == [Field(FirstName), Field(LastName)]
  {
    requiredFields + [Field(FirstName), Field(LastName)]
  }

  // ---------------------------------------------------------------------
  // Round trips between the shapes

  /** The address the commerce API hands back for an accepted `AddressInput`:
      the same fields, an id, and the country code expanded to a
      `CountryDisplay` (named by the locale's `getCountryName`). This is the
      shape `getAddressFormDataFromAddress` later reads. */
  function SavedAddress(input: Record, id: string, countryName: string -> string): (a: Record)
    requires Country in input && input[Country].Str?
    ensures IsAddressFragment(a) <==> MetadataIsList(input)
    ensures Country in a && a[Country] == CountryDisplay(input[Country].s, countryName(input[Country].s))
    ensures forall k: Key :: k != Id && k != Country ==> (k in a <==> k in input) && (k in a ==> a[k] == input[k])
  {
    var code := input[Country].s;
    input[Id := Str(id)][Country := CountryDisplay(code, countryName(code))]
  }

  /** Form data sent with `getAddressInputData` and read back with
      `getAddressFormDataFromAddress` is the form data that was sent, VAT
      number included, whatever id and country name the API adds. */
  lemma FormDataRoundTrip(f: Record, id: string, countryName: string -> string)
    requires IsAddressFormData(f) && f[Field(CountryCode)].s != ""
    ensures VatIsString(f)
    ensures var input := GetAddressInputData(f);
            Country in input && input[Country].Str? && MetadataIsList(input)
            && GetAddressFormDataFromAddress(Some(SavedAddress(input, id, countryName))) == f
  {
    InputOfFormData(f);
    var input := GetAddressInputData(f);
    SavedFormData(f, input, id, countryName);
    ReadBack(f, SavedAddress(input, id, countryName));
  }

  /** The saved address of `getAddressInputData(f)` carries `f`'s fields,
      its country code and its VAT metadata. */
  lemma SavedFormData(f: Record, input: Record, id: string, countryName: string -> string)
    requires IsAddressFormData(f)
    requires forall k: Key :: k.Field? && k != Field(CountryCode) ==> k in input && input[k] == f[k]
    requires Country in input && input[Country] == f[Field(CountryCode)]
    requires Metadata in input <==> f[VatNumber].s != ""
    requires Metadata in input ==> input[Metadata] == VatMetadata(f[VatNumber].s)
    ensures var a := SavedAddress(input, id, countryName);
            && IsAddressFragment(a)
            && (forall k: Key :: k.Field? && k != Field(CountryCode) ==> k in a && a[k] == f[k])
            && a[Country].code == f[Field(CountryCode)].s
            && (Metadata in a <==> f[VatNumber].s != "")
            && (Metadata in a ==> a[Metadata] == VatMetadata(f[VatNumber].s))
  {
    var a := SavedAddress(input, id, countryName);
    forall j: Key | j.Field? && j != Field(CountryCode)
      ensures j in a && a[j] == f[j]
    {
      assert j != Id && j != Country;
    }
  }

  /** `getAddressFormDataFromAddress` recovers `f` from an address that
      carries `f`'s fields, its country code and its VAT metadata. */
  lemma ReadBack(f: Record, a: Record)
    requires IsAddressFormData(f) && IsAddressFragment(a)
    requires forall k: Key :: k.Field? && k != Field(CountryCode) ==> k in a && a[k] == f[k]
    requires a[Country].code == f[Field(CountryCode)].s
    requires Metadata in a <==> f[VatNumber].s != ""
    requires Metadata in a ==> a[Metadata] == VatMetadata(f[VatNumber].s)
    ensures GetAddressFormDataFromAddress(Some(a)) == f
  {
    var back := GetAddressFormDataFromAddress(Some(a));
    assert forall k: Key :: k in back <==> k.Field? || k == VatNumber;
    forall k: Key | k in back
      ensures back[k] == f[k]
    {
      ReadBackAt(f, a, k);
    }
  }

  /** `getAddressFormDataFromAddress` recovers property `k` of `f` from an
      address that carries `f`'s fields, its country code and its VAT metadata. */
  lemma ReadBackAt(f: Record, a: Record, k: Key)
    requires IsAddressFormData(f) && IsAddressFragment(a) && (k.Field? || k == VatNumber)
    requires forall k: Key :: k.Field? && k != Field(CountryCode) ==> k in a && a[k] == f[k]
    requires a[Country].code == f[Field(CountryCode)].s
    requires Metadata in a <==> f[VatNumber].s != ""
    requires Metadata in a ==> a[Metadata] == VatMetadata(f[VatNumber].s)
    ensures var back := GetAddressFormDataFromAddress(Some(a)); k in back && back[k] == f[k]
  {
    if k == VatNumber {
      if Metadata in a {
        assert FindValue(a[Metadata].items, VatNumberMetadataKey) == Some(f[VatNumber].s);
      }
    } else if k != Field(CountryCode) {
      assert k.Field?;
    }
  }

  /** What `getAddressInputData` makes of well-typed form data with a country code. */
  lemma InputOfFormData(f: Record)
    requires IsAddressFormData(f) && f[Field(CountryCode)].s != ""
    ensures VatIsString(f)
    ensures var input := GetAddressInputData(f);
            && (forall k: Key :: k.Field? && k != Field(CountryCode) ==> k in input && input[k] == f[k])
            && Country in input && input[Country] == f[Field(CountryCode)]
            && (Metadata in input <==> f[VatNumber].s != "")
            && (Metadata in input ==> input[Metadata] == VatMetadata(f[VatNumber].s))
  {
    KeyListsMembership();
  }

  /** `getAddressInputData` reads only the address fields and the VAT
      number of a form whose country code is set: any other property
      (`autoSave`, a stale `country`, ...) makes no difference. */
  lemma InputDataDependsOnFormKeys(a: Record, b: Record)
    requires VatIsString(a) && VatIsString(b)
    requires forall k: Key :: k.Field? || k == VatNumber ==> (k in a <==> k in b) && (k in a ==> a[k] == b[k])
    requires TruthyAt(a, Field(CountryCode))
    ensures GetAddressInputData(a) == GetAddressInputData(b)
  {
    var p, q := GetAddressInputData(a), GetAddressInputData(b);
    forall k: Key
      ensures (k in p <==> k in q) && (k in p ==> p[k] == q[k])
    {
      if k == Country {
      } else if k == Metadata {
      }
    }
    assert p.Keys == q.Keys;
  }

  /** The VAT number `getAddressInputData` writes into metadata is the one
      `getAddressFormDataFromAddress` reads back out of it. */
  lemma VatNumberReadBack(data: Record)
    requires VatIsString(data)
    ensures MetadataIsList(GetAddressInputData(data))
    ensures VatNumberOf(GetAddressInputData(data)) == if VatNumber in data then data[VatNumber].s else ""
  {
    var input := GetAddressInputData(data);
    if Metadata in input {
      assert FindValue(input[Metadata].items, VatNumberMetadataKey) == Some(data[VatNumber].s);
    }
  }

  /** The empty address reads back as the empty form. */
  lemma EmptyAddressRoundTrip(countryName: string -> string)
    ensures IsAddressFragment(EmptyAddress(countryName))
    ensures GetAddressFormDataFromAddress(Some(EmptyAddress(countryName))) == EmptyAddressFormData()
  {
    var f, a := EmptyAddressFormData(), EmptyAddress(countryName);
    forall k: Key | k.Field? && k != Field(CountryCode)
      ensures k in a && a[k] == f[k]
    {
      assert k != Id && k != Country;
    }
    ReadBack(f, a);
  }

  /** Converting an API address to an `AddressInput` keeps its address data
      exactly when its phone is a truthy value or the empty string (a null
      or missing phone becomes `""`). */
  lemma InputFromAddressMatchesData(a: Record)
    requires MetadataIsList(a)
    ensures IsMatchingAddressData(Some(GetAddressInputDataFromAddress(Some(a))), Some(a))
            <==> Field(Phone) in a && (Truthy(a[Field(Phone)]) || a[Field(Phone)] == Str(""))
  {
    var input := GetAddressInputDataFromAddress(Some(a));
    MatchingAddressDataMeaning(input, a);
    if Field(Phone) in a && (Truthy(a[Field(Phone)]) || a[Field(Phone)] == Str("")) {
      forall k: Key | k.Field?
        ensures (k in input <==> k in a) && (k in input ==> input[k] == a[k])
      {
        if k == Field(Phone) {
        }
      }
    } else {
      assert Field(Phone) in input;
    }
  }

  // ---------------------------------------------------------------------
  // Matching

  /** `isMatchingAddressData` compares exactly the address-field keys:
      presence and value of each, and nothing else. */
  lemma MatchingAddressDataMeaning(a: Record, b: Record)
    ensures IsMatchingAddressData(Some(a), Some(b))
            <==> forall k: Key :: k.Field? ==> (k in a <==> k in b) && (k in a ==> a[k] == b[k])
  {
    KeyListsMembership();
    var p, q := Pick(a, AddressFieldKeys), Pick(b, AddressFieldKeys);
    if forall k: Key :: k.Field? ==> (k in a <==> k in b) && (k in a ==> a[k] == b[k]) {
      assert p.Keys == q.Keys;
    } else {
      var k: Key :| k.Field? && !((k in a <==> k in b) && (k in a ==> a[k] == b[k]));
      assert !(k in p <==> k in q) || p[k] != q[k];
    }
  }

  /** A property outside the address fields (the id, the API's `country`
      object, the metadata, ...) never affects `isMatchingAddressData`. */
  lemma MatchingIgnoresOtherKeys(a: Record, k: Key, v: Value)
    requires !k.Field?
    ensures IsMatchingAddressData(Some(a[k := v]), Some(a))
    ensures IsMatchingAddressData(Some(a - {k}), Some(a))
  {
    MatchingAddressDataMeaning(a[k := v], a);
    MatchingAddressDataMeaning(a - {k}, a);
  }

  /** `isMatchingAddress` is reflexive and symmetric, holds of two missing
      addresses, and holds whenever both ids are the same string. */
  lemma MatchingAddressProperties(a: Option<Record>, b: Option<Record>)
    ensures IsMatchingAddress(a, a)
    ensures IsMatchingAddress(a, b) <==> IsMatchingAddress(b, a)
    ensures IsMatchingAddress(None, None)
    ensures StringId(a).Some? && StringId(a) == StringId(b) ==> IsMatchingAddress(a, b)
    ensures IsMatchingAddressData(a, b) ==> IsMatchingAddress(a, b)
  {
  }

  /** Matching by id does not chain: `isMatchingAddress` is not transitive. */
  lemma MatchingAddressNotTransitive()
    ensures var a, b, c := map[Id := Str("1"), Field(City) := Str("Oslo")], map[Id := Str("1"), Field(City) := Str("Bergen")], map[Field(City) := Str("Bergen")];
            IsMatchingAddress(Some(a), Some(b)) && IsMatchingAddress(Some(b), Some(c)) && !IsMatchingAddress(Some(a), Some(c))
  {
    var a, b, c := map[Id := Str("1"), Field(City) := Str("Oslo")], map[Id := Str("1"), Field(City) := Str("Bergen")], map[Field(City) := Str("Bergen")];
    assert Pick(b, AddressFieldKeys) == Pick(c, AddressFieldKeys);
    assert Pick(a, AddressFieldKeys)[Field(City)] != Pick(c, AddressFieldKeys)[Field(City)];
  }

  /** `isMatchingAddressFormData` ignores `id`, `autoSave` and `__typename`
      and compares every other property. */
  lemma MatchingFormDataMeaning(a: Record, b: Record)
    ensures IsMatchingAddressFormData(Some(a), Some(b))
            <==> forall k: Key :: k !in FormPropsToOmit ==> (k in a <==> k in b) && (k in a ==> a[k] == b[k])
  {
    var p, q := Omit(a, FormPropsToOmit), Omit(b, FormPropsToOmit);
    if forall k: Key :: k !in FormPropsToOmit ==> (k in a <==> k in b) && (k in a ==> a[k] == b[k]) {
      assert p.Keys == q.Keys;
    } else {
      var k: Key :| k !in FormPropsToOmit && !((k in a <==> k in b) && (k in a ==> a[k] == b[k]));
      assert !(k in p <==> k in q) || p[k] != q[k];
    }
  }

  // ---------------------------------------------------------------------
  // Field lists

  /** `addressFieldsOrder` lists every address field exactly once. */
  lemma AddressFieldsOrderFacts()
    ensures NoDuplicates(AddressFieldsOrder) && |AddressFieldsOrder| == 11
    ensures forall k: Key :: k in AddressFieldsOrder <==> k.Field?
  {
    KeyListsMembership();
  }

  /** Filtering an already filtered list changes nothing. */
  lemma {:induction false} FilteredAddressFieldsIdempotent(addressFields: seq<Key>)
    ensures GetFilteredAddressFields(GetFilteredAddressFields(addressFields)) == GetFilteredAddressFields(addressFields)
  {
    var r := GetFilteredAddressFields(addressFields);
    WithoutAbsent(r, Name);
    UniqAbsorbs(r, AlwaysShownFields);
  }

  /** Ordering an already ordered list changes nothing. */
  lemma {:induction false} OrderedAddressFieldsIdempotent(addressFields: seq<Key>)
    ensures GetOrderedAddressFields(GetOrderedAddressFields(addressFields)) == GetOrderedAddressFields(addressFields)
  {
    var r := GetOrderedAddressFields(addressFields);
    var filtered := GetFilteredAddressFields(addressFields);
    assert Name !in r;
    WithoutAbsent(r, Name);
    UniqAbsorbs(r, AlwaysShownFields);
    assert GetFilteredAddressFields(r) == r;
    KeepIfInSameMembers(AddressFieldsOrder, r, filtered);
  }

  /** The ordered fields are address fields: "name", "vatNumber" and any
      other reported key outside `addressFieldsOrder` are dropped. */
  lemma OrderedAddressFieldsAreFields(addressFields: seq<Key>)
    ensures forall f: Key :: f in GetOrderedAddressFields(addressFields) ==> f.Field?
    ensures forall f: Key :: f.Field? && f in addressFields ==> f in GetOrderedAddressFields(addressFields)
  {
    KeyListsMembership();
  }
}

/** The guest checkout's shipping-address form
    (useGuestShippingAddressForm.tsx): what it submits when the form
    auto-saves, and the form values it takes back from the updated checkout. */
module GuestShippingAddressForm {
  import opened JsValues
  import opened Lodash
  import opened AddressFormUtils
  import opened ShippingAddressSubmit

  /** A submitted `AutoSaveAddressFormData`: the address form data together
      with the checkout's `languageCode` and `checkoutId` strings (and
      possibly a `channel`). */
  predicate IsSubmittedFormData(data: Record) {
    && LanguageCode in data && data[LanguageCode].Str?
    && CheckoutId in data && data[CheckoutId].Str?
    && VatIsString(data)
  }

  /** `parse`: `languageCode` and `checkoutId` pass through, the rest of the
      form data without `channel` becomes the `AddressInput`, and required
      fields go unchecked (an auto-saved form may be incomplete). */
  function Parse(data: Record): (vars: ShippingAddressUpdateVars)
    requires IsSubmittedFormData(data)
    ensures vars.languageCode == data[LanguageCode].s && vars.checkoutId == data[CheckoutId].s
    ensures vars.validationRules.checkRequiredFields == Some(false)
    ensures forall k: Key :: k.Field? && k != Field(CountryCode) ==>
              (k in vars.shippingAddress <==> k in data)
              && (k in data ==> vars.shippingAddress[k] == data[k])
    ensures LanguageCode !in vars.shippingAddress && CheckoutId !in vars.shippingAddress
            && Channel !in vars.shippingAddress
    ensures TruthyAt(data, Field(CountryCode)) ==>
              Country in vars.shippingAddress && vars.shippingAddress[Country] == data[Field(CountryCode)]
    ensures !TruthyAt(data, Field(CountryCode)) ==>
              (Country in vars.shippingAddress <==> Country in data && data[Country].CountryDisplay?)
              && (Country in vars.shippingAddress ==> vars.shippingAddress[Country] == Str(data[Country].code))
    ensures Metadata in vars.shippingAddress <==> TruthyAt(data, VatNumber)
    ensures Metadata in vars.shippingAddress ==> vars.shippingAddress[Metadata] == VatMetadata(data[VatNumber].s)
    ensures forall k: Key :: k in vars.shippingAddress ==>
              (k.Field? && k != Field(CountryCode)) || k == Country || k == Metadata
    ensures vars.shippingAddress == GetAddressInputData(Omit(Omit(data, [LanguageCode, CheckoutId]), [Channel]))
  {
    var rest := Omit(data, [LanguageCode, CheckoutId]);
    ShippingAddressUpdateVars(
      data[LanguageCode].s,
      data[CheckoutId].s,
      GetAddressInputData(Omit(rest, [Channel])),
      GetAddressValidationRulesVariables(true))
  }

  /** `onSuccess`: the form values are reset from the shipping address of
      the updated checkout. */
  function OnSuccessValues(shippingAddress: Option<Record>): (values: Record)
    requires shippingAddress.Some? ==> IsAddressFragment(shippingAddress.value)
    ensures shippingAddress.None? ==> values == EmptyAddressFormData()
    ensures shippingAddress.Some? ==>
              && Field(CountryCode) in values && values[Field(CountryCode)] == Str(shippingAddress.value[Country].code)
              && VatNumber in values && values[VatNumber] == Str(VatNumberOf(shippingAddress.value))
  {
    GetAddressFormDataFromAddress(shippingAddress)
  }

  /** The `channel` of the submitted data never reaches the mutation. */
  lemma ParseIgnoresChannel(data: Record, channel: Value)
    requires IsSubmittedFormData(data)
    ensures IsSubmittedFormData(data[Channel := channel])
    ensures Parse(data[Channel := channel]) == Parse(data)
  {
    var with := data[Channel := channel];
    assert Omit(Omit(with, [LanguageCode, CheckoutId]), [Channel]) == Omit(Omit(data, [LanguageCode, CheckoutId]), [Channel]);
  }

  /** A complete form auto-saved by the guest form, echoed back by the API
      as the checkout's shipping address, resets the form to the values the
      guest entered. */
  lemma SubmitRoundTrip(data: Record, f: Record, id: string, countryName: string -> string)
    requires IsAddressFormData(f) && f[Field(CountryCode)].s != ""
    requires IsSubmittedFormData(data)
    requires forall k: Key :: k.Field? || k == VatNumber ==> k in data && data[k] == f[k]
    ensures var input := Parse(data).shippingAddress;
            Country in input && input[Country].Str? && MetadataIsList(input)
            && OnSuccessValues(Some(SavedAddress(input, id, countryName))) == f
  {
    var rest := Omit(Omit(data, [LanguageCode, CheckoutId]), [Channel]);
    InputDataDependsOnFormKeys(rest, f);
    FormDataRoundTrip(f, id, countryName);
  }
}

/** The signed-in customer's shipping-address form
    (useUserShippingAddressForm.ts): the customer picks one of their saved
    addresses; the form skips the update when nothing was picked or the
    checkout already has that address, otherwise submits the picked address,
    and on success resets the form to what was submitted. */
module UserShippingAddressForm {
  import opened JsValues
  import opened Lodash
  import opened AddressFormUtils
  import opened ShippingAddressSubmit

  /** `AddressListFormData` as submitted: the customer's saved addresses,
      the id of the picked one (if any), and the checkout's `languageCode`
      and `checkoutId`. */
  datatype AddressListFormData = AddressListFormData(
    languageCode: string, checkoutId: string,
    selectedAddressId: Option<string>, addressList: seq<Record>)

  /** `getById(id)`: the predicate "has this id" handed to `find`. */
  function GetById(id: string): (matches: Record -> bool)
    ensures forall a :: matches(a) <==> Id in a && a[Id] == Str(id)
  {
    (a: Record) => Id in a && a[Id] == Str(id)
  }

  /** `selectedAddressId` is truthy. */
  predicate IsSelected(selectedAddressId: Option<string>) {
    selectedAddressId.Some? && selectedAddressId.value != ""
  }

  /** `{ id: selectedAddressId }`: an undefined id is an absent property. */
  function IdRecord(selectedAddressId: Option<string>): Record {
    if selectedAddressId.Some? then map[Id := Str(selectedAddressId.value)] else map[]
  }

  /** `shouldAbort`: nothing to do when no address is picked, or when the
      checkout's shipping address already matches the picked entry. */
  predicate ShouldAbort(shippingAddress: Option<Record>, formData: AddressListFormData) {
    !IsSelected(formData.selectedAddressId)
    || IsMatchingAddress(shippingAddress, Find(formData.addressList, GetById(formData.selectedAddressId.value)))
  }

  /** Every saved address is an `AddressFragment`. */
  predicate IsAddressList(addressList: seq<Record>) {
    forall i :: 0 <= i < |addressList| ==> IsAddressFragment(addressList[i])
  }

  /** `parse`: `languageCode` and `checkoutId` pass through, the default
      validation rules are sent, and the entry matching `{ id:
      selectedAddressId }` is converted to an `AddressInput` (`{}` when no
      entry matches). */
  function Parse(formData: AddressListFormData): (vars: ShippingAddressUpdateVars)
    requires IsAddressList(formData.addressList)
    ensures vars.languageCode == formData.languageCode && vars.checkoutId == formData.checkoutId
    ensures vars.validationRules.checkRequiredFields.None?
    ensures (forall i :: 0 <= i < |formData.addressList| ==>
               !IsMatchingAddress(Some(formData.addressList[i]), Some(IdRecord(formData.selectedAddressId))))
            ==> vars.shippingAddress == map[]
    ensures forall k :: k in vars.shippingAddress ==> k.Field? || k == Country || k == Metadata
  {
    var selected := Find(formData.addressList, GetByMatchingAddress(Some(IdRecord(formData.selectedAddressId))));
    ShippingAddressUpdateVars(
      formData.languageCode,
      formData.checkoutId,
      GetAddressInputDataFromAddress(selected),
      DefaultAddressValidationRules())
  }

  /** An entry carries at least one address field. */
  predicate HasAddressField(a: Record) {
    exists k: Key :: k.Field? && k in a
  }

  /** Matching `{ id }` finds the entry with that id, provided every entry
      carries some address field: an entry without any would match any id,
      its address data being as empty as that of `{ id }`. */
  lemma MatchingIdRecordIsById(addressList: seq<Record>, id: string)
    requires forall i :: 0 <= i < |addressList| ==> HasAddressField(addressList[i])
    ensures Find(addressList, GetByMatchingAddress(Some(IdRecord(Some(id))))) == Find(addressList, GetById(id))
  {
    var byId := IdRecord(Some(id));
    KeyListsMembership();
    forall i | 0 <= i < |addressList|
      ensures GetByMatchingAddress(Some(byId))(addressList[i]) == GetById(id)(addressList[i])
    {
      var a := addressList[i];
      var k: Key :| k.Field? && k in a;
      assert k in Pick(a, AddressFieldKeys) && k !in Pick(byId, AddressFieldKeys);
    }
    FindAgrees(addressList, GetByMatchingAddress(Some(byId)), GetById(id));
  }

  /** An entry without address fields matches `{ id }` whatever its own id. */
  lemma BareEntryMatchesAnyId()
    ensures GetByMatchingAddress(Some(IdRecord(Some("a"))))(map[Id := Str("b")])
  {
    assert Pick(map[Id := Str("b")], AddressFieldKeys) == map[];
    assert Pick(IdRecord(Some("a")), AddressFieldKeys) == map[];
  }

  /** So, for a list of real addresses, `parse` sends the entry picked by id. */
  lemma ParseSendsSelectedEntry(formData: AddressListFormData)
    requires IsAddressList(formData.addressList)
    requires forall i :: 0 <= i < |formData.addressList| ==> HasAddressField(formData.addressList[i])
    requires formData.selectedAddressId.Some?
    ensures Parse(formData).shippingAddress
            == GetAddressInputDataFromAddress(Find(formData.addressList, GetById(formData.selectedAddressId.value)))
  {
    MatchingIdRecordIsById(formData.addressList, formData.selectedAddressId.value);
  }

  /** The update is skipped without a picked address, and when the
      checkout's shipping address has the picked id and the list holds it;
      it goes ahead when an address is picked whose entry differs from the
      checkout's shipping address both in id and in address data. */
  lemma ShouldAbortCases(shippingAddress: Option<Record>, formData: AddressListFormData)
    ensures !IsSelected(formData.selectedAddressId) ==> ShouldAbort(shippingAddress, formData)
    ensures IsSelected(formData.selectedAddressId)
            && StringId(shippingAddress) == formData.selectedAddressId
            && (exists i :: 0 <= i < |formData.addressList| && GetById(formData.selectedAddressId.value)(formData.addressList[i]))
            ==> ShouldAbort(shippingAddress, formData)
    ensures IsSelected(formData.selectedAddressId)
            && StringId(shippingAddress) != formData.selectedAddressId
            && (var entry := Find(formData.addressList, GetById(formData.selectedAddressId.value));
                entry.Some? && !IsMatchingAddressData(shippingAddress, entry))
            ==> !ShouldAbort(shippingAddress, formData)
  {
    if IsSelected(formData.selectedAddressId) {
      var id := formData.selectedAddressId.value;
      var entry := Find(formData.addressList, GetById(id));
      if exists i :: 0 <= i < |formData.addressList| && GetById(id)(formData.addressList[i]) {
        assert entry.Some?;
        assert StringId(entry) == Some(id);
      }
      if entry.Some? {
        assert StringId(entry) == Some(id);
      }
    }
  }

  /** A picked id that no saved address has: `find` gives `undefined`,
      whose `pick` is `{}`, so the update is skipped exactly when the
      checkout has no shipping address or one without address fields; when
      it goes ahead and every entry is a real address, `parse` sends `{}`. */
  lemma ShouldAbortUnlisted(shippingAddress: Option<Record>, formData: AddressListFormData)
    requires IsSelected(formData.selectedAddressId)
    requires forall i :: 0 <= i < |formData.addressList| ==>
               !GetById(formData.selectedAddressId.value)(formData.addressList[i])
    ensures ShouldAbort(shippingAddress, formData)
            <==> shippingAddress.None? || !HasAddressField(shippingAddress.value)
    ensures IsAddressList(formData.addressList)
            && (forall i :: 0 <= i < |formData.addressList| ==> HasAddressField(formData.addressList[i]))
            ==> Parse(formData).shippingAddress == map[]
  {
    var id := formData.selectedAddressId.value;
    var entry := Find(formData.addressList, GetById(id));
    assert entry.None?;
    if shippingAddress.Some? {
      var p := Pick(shippingAddress.value, AddressFieldKeys);
      KeyListsMembership();
      if HasAddressField(shippingAddress.value) {
        var k: Key :| k.Field? && k in shippingAddress.value;
        assert k in p;
      }
    }
    if IsAddressList(formData.addressList)
       && (forall i :: 0 <= i < |formData.addressList| ==> HasAddressField(formData.addressList[i])) {
      ParseSendsSelectedEntry(formData);
    }
  }

  /** The address-list form's state, as far as this hook changes it. */
  class AddressListForm {
    var values: AddressListFormData

    constructor(initialValues: AddressListFormData)
      ensures values == initialValues
    {
      values := initialValues;
    }

    /** `resetForm({ values })` */
    method ResetForm(newValues: AddressListFormData)
      modifies this
      ensures values == newValues
    {
      values := newValues;
    }
  }

  /** `onSuccess`: the form is reset to exactly the submitted form data. */
  method OnSuccess(form: AddressListForm, formData: AddressListFormData)
    modifies form
    ensures form.values == formData
  {
    form.ResetForm(formData);
  }
}

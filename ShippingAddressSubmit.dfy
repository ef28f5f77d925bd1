/** What the two shipping-address forms (useGuestShippingAddressForm.tsx
    and useUserShippingAddressForm.ts) share: the variables of the
    `checkoutShippingAddressUpdate` mutation they submit, and how they turn
    the errors of a rejected update into alert messages (their `onError`
    callbacks are identical): all `INSUFFICIENT_STOCK` errors collapse into
    one out-of-stock alert, shown first, and every other error becomes one
    alert, in order, prefixed with a readable label made from its camelCase
    field name. */
module ShippingAddressSubmit {
  import opened JsValues
  import opened Lodash
  import opened AddressFormUtils

  /** The variables of `checkoutShippingAddressUpdate`. */
  datatype ShippingAddressUpdateVars = ShippingAddressUpdateVars(
    languageCode: string, checkoutId: string, shippingAddress: Record, validationRules: ValidationRules)

  /** One error of the mutation's response: its code, the input field it
      concerns (`null` when none) and its message (`null` when none). */
  datatype ApiError = ApiError(code: string, field: Option<string>, message: Option<string>)

  const InsufficientStockCode := "INSUFFICIENT_STOCK"
  const OutOfStockAlert :=
    "Some items in your cart are out of stock. Please review your cart and remove unavailable items."
  const DefaultErrorMessage := "An error occurred"

  predicate IsStockError(e: ApiError) {
    e.code == InsufficientStockCode
  }

  predicate IsOtherError(e: ApiError) {
    e.code != InsufficientStockCode
  }

  /** `errors.filter((e) => e.code === "INSUFFICIENT_STOCK")` */
  function StockErrors(errors: seq<ApiError>): seq<ApiError> {
    Filter(errors, IsStockError)
  }

  /** `errors.filter((e) => e.code !== "INSUFFICIENT_STOCK")` */
  function OtherErrors(errors: seq<ApiError>): seq<ApiError> {
    Filter(errors, IsOtherError)
  }

  predicate IsUpper(c: char) {
    'A' <= c <= 'Z'
  }

  /** `String.prototype.toUpperCase` on one character, for ASCII letters. */
  function ToUpperChar(c: char): (u: char)
    ensures 'a' <= c <= 'z' ==> IsUpper(u) && u as int == c as int - 32
    ensures !('a' <= c <= 'z') ==> u == c
  {
    if 'a' <= c <= 'z' then (c as int - 32) as char else c
  }

  /** The replacement of one character: a capital letter gets a space before it. */
  function SpaceBefore(c: char): string {
    if IsUpper(c) then [' ', c] else [c]
  }

  /** `s.replace(/([A-Z])/g, " $1")`: a space inserted before every capital letter. */
  function SpaceBeforeCapitals(s: string): string {
    FlatMap(s, SpaceBefore)
  }

  /** The capital letters of `s`, in order. */
  function KeepIfUpper(s: string): string {
    Filter(s, IsUpper)
  }

  /** `SpaceBeforeCapitals` adds one character per capital. */
  lemma SpaceBeforeCapitalsLength(s: string)
    ensures |SpaceBeforeCapitals(s)| == |s| + |KeepIfUpper(s)|
  {
    FlatMapLength(s, SpaceBefore, IsUpper);
  }

  /** The characters `SpaceBeforeCapitals` adds are all spaces: with the
      spaces removed, its result and its argument agree. */
  lemma SpaceBeforeCapitalsAddsOnlySpaces(s: string)
    ensures Without(SpaceBeforeCapitals(s), ' ') == Without(s, ' ')
  {
    forall c: char ensures Without(SpaceBefore(c), ' ') == Without([c], ' ') {
      if IsUpper(c) {
        assert [' ', c] == [' '] + [c];
        WithoutAppend([' '], [c], ' ');
      }
    }
    FlatMapWithout(s, SpaceBefore, ' ');
  }

  /** In the result of `SpaceBeforeCapitals`, every capital follows a space. */
  lemma {:induction false} CapitalsFollowSpaces(s: string)
    ensures var r := SpaceBeforeCapitals(s);
            forall i :: 0 <= i < |r| && IsUpper(r[i]) ==> 0 < i && r[i - 1] == ' '
  {
    if s != [] {
      CapitalsFollowSpaces(s[1..]);
      var rest := SpaceBeforeCapitals(s[1..]);
      var first := SpaceBefore(s[0]);
      var r := first + rest;
      assert SpaceBeforeCapitals(s) == r;
      forall i | 0 <= i < |r| && IsUpper(r[i])
        ensures 0 < i && r[i - 1] == ' '
      {
        if i >= |first| {
          assert r[i] == rest[i - |first|];
          if i > |first| {
            assert r[i - 1] == rest[i - 1 - |first|];
          }
        }
      }
    }
  }

  /** The `fieldName` of an error: `""` when it has no field (or an empty
      one); otherwise the field with its first character upper-cased and a
      space before every later capital. */
  function FieldLabel(field: Option<string>): string {
    if field.Some? && field.value != "" then
      [ToUpperChar(field.value[0])] + SpaceBeforeCapitals(field.value[1..])
    else ""
  }

  /** `error.message || "An error occurred"` */
  function MessageText(message: Option<string>): (text: string)
    ensures text != ""
    ensures message.Some? && message.value != "" ==> text == message.value
    ensures message.None? || message.value == "" ==> text == DefaultErrorMessage
  {
    if message.Some? && message.value != "" then message.value else DefaultErrorMessage
  }

  /** The alert text of one non-stock error: `"<label>: <text>"` when the
      error names a field, the bare text otherwise. */
  function ErrorMessage(e: ApiError): string {
    var fieldName := FieldLabel(e.field);
    var text := MessageText(e.message);
    if fieldName != "" then fieldName + ": " + text else text
  }

  /** The label is empty exactly when there is no field name; otherwise it
      starts with the field's first character upper-cased, so it never
      starts with a space unless the field does, and it goes on with the
      rest of the field, spaced before its capitals. */
  lemma FieldLabelMeaning(field: Option<string>)
    ensures var fieldName := FieldLabel(field);
            && (fieldName == "" <==> field.None? || field.value == "")
            && (fieldName != "" ==>
                  && fieldName[0] == ToUpperChar(field.value[0])
                  && (fieldName[0] == ' ' <==> field.value[0] == ' ')
                  && fieldName[1..] == SpaceBeforeCapitals(field.value[1..]))
  {
  }

  /** Every alert ends with the error's message text (or the default one);
      it is exactly that text when the error names no field, and otherwise
      the field's label and ": " come first. */
  lemma ErrorMessageMeaning(e: ApiError)
    ensures var m, text := ErrorMessage(e), MessageText(e.message);
            && |m| >= |text| && m[|m| - |text|..] == text
            && (m == text <==> e.field.None? || e.field.value == "")
            && (e.field.Some? && e.field.value != "" ==> m == FieldLabel(e.field) + ": " + text)
  {
    FieldLabelMeaning(e.field);
    var m, text := ErrorMessage(e), MessageText(e.message);
    if FieldLabel(e.field) != "" {
      assert |m| != |text|;
    }
  }

  /** The messages of a list of errors, one each, in order. */
  function Messages(errors: seq<ApiError>): seq<string> {
    Map(errors, ErrorMessage)
  }

  /** The alerts `onError` shows, in the order it shows them: one
      out-of-stock alert when any error is a stock error, then the message
      of each other error. */
  function ErrorAlerts(errors: seq<ApiError>): seq<string> {
    (if |StockErrors(errors)| > 0 then [OutOfStockAlert] else []) + Messages(OtherErrors(errors))
  }

  /** `onError`: show one out-of-stock alert when any error is a stock
      error, then, for each other error in turn, its message. */
  method OnError(errors: seq<ApiError>) returns (alerts: seq<string>)
    ensures alerts == ErrorAlerts(errors)
  {
    var insufficientStockErrors := StockErrors(errors);
    var otherErrors := OtherErrors(errors);
    alerts := [];
    if |insufficientStockErrors| > 0 {
      alerts := alerts + [OutOfStockAlert];
    }
    var shown := alerts;
    for i := 0 to |otherErrors|
      invariant alerts == shown + Messages(otherErrors[..i])
    {
      MessagesOfPrefix(otherErrors, i);
      alerts := alerts + [ErrorMessage(otherErrors[i])];
    }
    assert otherErrors[..|otherErrors|] == otherErrors;
  }

  /** The messages of one more error of a list: one more message, at the end. */
  lemma MessagesOfPrefix(errors: seq<ApiError>, i: nat)
    requires i < |errors|
    ensures Messages(errors[..i + 1]) == Messages(errors[..i]) + [ErrorMessage(errors[i])]
  {
    assert errors[..i + 1] == errors[..i] + [errors[i]];
    MapSnoc(errors[..i], errors[i], ErrorMessage);
  }

  // ---------------------------------------------------------------------
  // Properties

  /** Both filters split at every concatenation, so each keeps its errors
      in input order. */
  lemma FiltersAppend(a: seq<ApiError>, b: seq<ApiError>)
    ensures StockErrors(a + b) == StockErrors(a) + StockErrors(b)
    ensures OtherErrors(a + b) == OtherErrors(a) + OtherErrors(b)
  {
    FilterAppend(a, b, IsStockError);
    FilterAppend(a, b, IsOtherError);
  }

  /** Every error lands in exactly one of the two filters: the stock
      errors in the first, the others in the second. */
  lemma FiltersMembership(errors: seq<ApiError>)
    ensures forall e :: e in StockErrors(errors) <==> e in errors && IsStockError(e)
    ensures forall e :: e in OtherErrors(errors) <==> e in errors && !IsStockError(e)
  {
    FilterMembership(errors, IsStockError);
    FilterMembership(errors, IsOtherError);
  }

  /** The two filters together are as long as the input. */
  lemma FiltersLength(errors: seq<ApiError>)
    ensures |StockErrors(errors)| + |OtherErrors(errors)| == |errors|
  {
    FilterComplementLength(errors, IsStockError, IsOtherError);
  }

  /** A stock error anywhere in the input leaves the stock filter non-empty. */
  lemma StockErrorsNonEmpty(errors: seq<ApiError>, e: ApiError)
    requires e in errors && IsStockError(e)
    ensures |StockErrors(errors)| > 0
  {
    FilterMembership(errors, IsStockError);
    assert e in StockErrors(errors);
  }

  /** There is one alert per non-stock error, plus exactly one when any
      error is a stock error, however many there are. */
  lemma AlertCount(errors: seq<ApiError>)
    ensures (exists e :: e in errors && IsStockError(e)) ==>
              && |ErrorAlerts(errors)| == |errors| - |StockErrors(errors)| + 1
              && ErrorAlerts(errors)[0] == OutOfStockAlert
              && ErrorAlerts(errors)[1..] == Messages(OtherErrors(errors))
    ensures (forall e :: e in errors ==> !IsStockError(e)) ==>
              ErrorAlerts(errors) == Messages(errors)
  {
    FiltersLength(errors);
    MessagesMeaning(OtherErrors(errors));
    if e :| e in errors && IsStockError(e) {
      StockErrorsNonEmpty(errors, e);
    }
    if forall e :: e in errors ==> !IsStockError(e) {
      NoStockErrorsKept(errors);
    }
  }

  /** Without stock errors, the other-errors filter keeps everything. */
  lemma NoStockErrorsKept(errors: seq<ApiError>)
    requires forall e :: e in errors ==> !IsStockError(e)
    ensures OtherErrors(errors) == errors
  {
    FilterKeepsAll(errors, IsOtherError);
  }

  /** The messages of two lists of errors, one after the other. */
  lemma MessagesAppend(a: seq<ApiError>, b: seq<ApiError>)
    ensures Messages(a + b) == Messages(a) + Messages(b)
  {
    MapAppend(a, b, ErrorMessage);
  }

  /** One message per error, each in the position of its error. */
  lemma MessagesMeaning(errors: seq<ApiError>)
    ensures |Messages(errors)| == |errors|
    ensures forall i :: 0 <= i < |errors| ==> Messages(errors)[i] == ErrorMessage(errors[i])
  {
    MapMeaning(errors, ErrorMessage);
  }

  /** Once a stock error has been reported, further errors only add their
      own messages: more stock errors add nothing, and every other error
      adds its message at the end. */
  lemma StockAlertCollapses(errors: seq<ApiError>, more: seq<ApiError>)
    requires exists e :: e in errors && IsStockError(e)
    ensures ErrorAlerts(errors + more) == ErrorAlerts(errors) + Messages(OtherErrors(more))
  {
    FiltersAppend(errors, more);
    var e :| e in errors && IsStockError(e);
    StockErrorsNonEmpty(errors, e);
    var others, extra := OtherErrors(errors), OtherErrors(more);
    MessagesAppend(others, extra);
    assert ErrorAlerts(errors + more) == [OutOfStockAlert] + (Messages(others) + Messages(extra));
  }

  /** The label rule works character by character: it commutes with concatenation. */
  lemma SpaceBeforeCapitalsAppend(a: string, b: string)
    ensures SpaceBeforeCapitals(a + b) == SpaceBeforeCapitals(a) + SpaceBeforeCapitals(b)
  {
    FlatMapAppend(a, b, SpaceBefore);
  }

  /** A string without capitals is its own label remainder. */
  lemma {:induction false} SpaceBeforeCapitalsNoCapitals(s: string)
    requires forall i :: 0 <= i < |s| ==> !IsUpper(s[i])
    ensures SpaceBeforeCapitals(s) == s
  {
    if s != [] {
      SpaceBeforeCapitalsNoCapitals(s[1..]);
      assert s == [s[0]] + s[1..];
    }
  }

  /** A camelCase word of two parts gets one space, before its capital. */
  lemma CamelCaseLabel(head: string, c: char, tail: string)
    requires forall i :: 0 <= i < |head| ==> !IsUpper(head[i])
    requires forall i :: 0 <= i < |tail| ==> !IsUpper(tail[i])
    requires IsUpper(c)
    ensures SpaceBeforeCapitals(head + [c] + tail) == head + [' ', c] + tail
  {
    SpaceBeforeCapitalsNoCapitals(head);
    SpaceBeforeCapitalsNoCapitals(tail);
    SpaceBeforeCapitalsAppend(head + [c], tail);
    SpaceBeforeCapitalsAppend(head, [c]);
    assert [c][1..] == [];
    assert SpaceBeforeCapitals([c]) == [' ', c] + SpaceBeforeCapitals([]);
  }

  /** `"postalCode"` is labelled `"Postal Code"`. */
  lemma PostalCodeLabel()
    ensures FieldLabel(Some("postalCode")) == "Postal Code"
  {
    CamelCaseLabel("ostal", 'C', "ode");
    assert "postalCode"[1..] == "ostal" + ['C'] + "ode";
    assert "Postal Code" == ['P'] + ("ostal" + [' ', 'C'] + "ode");
  }
}

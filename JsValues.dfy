/** The plain JavaScript values the storefront's checkout code passes around:
    optional values, metadata items, and records (objects keyed by property name).
    A property whose value is `undefined` is modelled as an absent key. */
module JsValues {

  /** `T | null | undefined` */
  datatype Option<+T> = None | Some(value: T)

  /** One `{ key, value }` metadata item as the commerce API returns it;
      `typename` is its `__typename` tag, when the response carries one. */
  datatype MetadataItem = MetadataItem(key: string, value: string, typename: Option<string>)

  /** The checkout's `AddressField` union: the address properties the form
      edits (`countryCode` included). */
  datatype AddressField =
    | FirstName | LastName | StreetAddress1 | StreetAddress2 | CompanyName | City
    | CityArea | CountryArea | PostalCode | Phone | CountryCode

  /** The property names the address code reads and writes: the address
      fields, the form's `vatNumber` and `autoSave`, the API's `name` (in
      `ApiAddressField`), `id`, `country`, `metadata` and `__typename`, and
      the `channel`, `languageCode` and `checkoutId` a submitted form carries. */
  datatype Key =
    | Field(field: AddressField)
    | VatNumber | Name | Id | Country | Metadata | Typename | AutoSave
    | Channel | LanguageCode | CheckoutId

  /** A property value of the address-shaped records: a string, `null`,
      a boolean, a `CountryDisplay` object `{ code, country }`, or a
      metadata array. */
  datatype Value =
    | Str(s: string)
    | Null
    | Bool(b: bool)
    | CountryDisplay(code: string, country: string)
    | Items(items: seq<MetadataItem>)

  /** A JavaScript object: its own properties, by key. */
  type Record = map<Key, Value>

  /** JavaScript truthiness: the empty string, `null` and `false` are falsy;
      objects and arrays, even empty ones, are truthy. */
  predicate Truthy(v: Value) {
    match v
    case Str(s) => s != ""
    case Null => false
    case Bool(b) => b
    case CountryDisplay(_, _) => true
    case Items(_) => true
  }

  /** `record[key]` is present and truthy (an absent key reads as `undefined`, which is falsy). */
  predicate TruthyAt(r: Record, key: Key) {
    key in r && Truthy(r[key])
  }

  /** Index of the first item whose key is `key`, or `|items|` when there is none. */
  function FirstKeyIndex(items: seq<MetadataItem>, key: string): (i: nat)
    ensures i <= |items|
    ensures forall j :: 0 <= j < i ==> items[j].key != key
    ensures i < |items| ==> items[i].key == key
  {
    if items == [] then 0
    else if items[0].key == key then 0
    else 1 + FirstKeyIndex(items[1..], key)
  }

  /** `items.find((item) => item.key === key)?.value`: the value of the first
      item with that key, or `undefined`. */
  function FindValue(items: seq<MetadataItem>, key: string): (r: Option<string>)
    ensures r.None? <==> forall j :: 0 <= j < |items| ==> items[j].key != key
    ensures r.Some? ==> exists i :: 0 <= i < |items| && items[i].key == key && items[i].value == r.value
                                    && forall j :: 0 <= j < i ==> items[j].key != key
  {
    var i := FirstKeyIndex(items, key);
    if i < |items| then Some(items[i].value) else None
  }

  /** `list.find(matches)`: the first element that satisfies `matches`, or `undefined`. */
  function Find<T>(list: seq<T>, matches: T -> bool): (r: Option<T>)
    ensures r.None? <==> forall j :: 0 <= j < |list| ==> !matches(list[j])
    ensures r.Some? ==> exists i :: 0 <= i < |list| && list[i] == r.value && matches(r.value)
                                    && forall j :: 0 <= j < i ==> !matches(list[j])
  {
    if list == [] then None
    else if matches(list[0]) then Some(list[0])
    else
      var r := Find(list[1..], matches);
      assert forall j :: 1 <= j < |list| ==> list[j] == list[1..][j - 1];
      r
  }

  /** `find` with two predicates that agree on every element finds the same element. */
  lemma {:induction false} FindAgrees<T>(list: seq<T>, p: T -> bool, q: T -> bool)
    requires forall i :: 0 <= i < |list| ==> p(list[i]) == q(list[i])
    ensures Find(list, p) == Find(list, q)
  {
    if list != [] && !p(list[0]) {
      FindAgrees(list[1..], p, q);
    }
  }
}

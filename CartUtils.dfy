/** Grouping of checkout lines into "pack" groups and single items
    (src/lib/cart-utils.ts). A line whose metadata carries a non-empty
    `pack_id` joins the pack with that id; every other line is shown on its
    own. Packs come first, in the order their id first appears; singles
    follow in input order. Money amounts are integers in minor units. */
module CartUtils {
  import opened JsValues
  import opened Lodash

  datatype Money = Money(amount: int, currency: string)

  /** `{ gross: Money }` */
  datatype TaxedMoney = TaxedMoney(gross: Money)

  datatype Thumbnail = Thumbnail(url: string, alt: Option<string>)

  datatype Product = Product(
    id: string,
    name: string,
    slug: string,
    thumbnail: Option<Thumbnail>,
    category: Option<string>)

  /** `pricing?.price?.gross` is collapsed into one optional amount. */
  datatype Variant = Variant(id: string, name: string, product: Product, price: Option<Money>)

  datatype CheckoutLine = CheckoutLine(
    id: string,
    quantity: int,
    metadata: Option<seq<MetadataItem>>,
    totalPrice: TaxedMoney,
    variant: Variant)

  datatype PackGroup = PackGroup(
    packId: string,
    packSize: string,
    productId: string,
    productName: string,
    productSlug: string,
    productThumbnail: Option<Thumbnail>,
    lines: seq<CheckoutLine>,
    totalPrice: Money)

  datatype CartItem = Pack(pack: PackGroup) | Single(line: CheckoutLine)

  const PackIdKey := "pack_id"
  const PackSizeKey := "pack_size"
  const UnknownPackSize := "Unknown"

  /** `getMetadataValue`: the value of the first metadata entry with `key`;
      none when the metadata is null or undefined, or no entry has that key. */
  function GetMetadataValue(metadata: Option<seq<MetadataItem>>, key: string): (r: Option<string>)
    ensures metadata.None? ==> r.None?
    ensures metadata.Some? && r.None? ==> forall j :: 0 <= j < |metadata.value| ==> metadata.value[j].key != key
    ensures r.Some? ==> metadata.Some?
    ensures r.Some? ==>
              exists i :: 0 <= i < |metadata.value| && metadata.value[i].key == key && metadata.value[i].value == r.value
                          && forall j :: 0 <= j < i ==> metadata.value[j].key != key
  {
    match metadata
    case None => None
    case Some(items) => FindValue(items, key)
  }

  /** The pack a line belongs to: its `pack_id` when that is truthy (present and non-empty). */
  function PackKey(line: CheckoutLine): Option<string> {
    match GetMetadataValue(line.metadata, PackIdKey)
    case Some(id) => if id != "" then Some(id) else None
    case None => None
  }

  /** `getMetadataValue(firstLine.metadata, "pack_size") ?? "Unknown"` */
  function PackSizeOf(line: CheckoutLine): string {
    match GetMetadataValue(line.metadata, PackSizeKey)
    case Some(size) => size
    case None => UnknownPackSize
  }

  /** `lines.reduce((sum, line) => sum + line.totalPrice.gross.amount, 0)` */
  function SumGross(lines: seq<CheckoutLine>): int {
    if lines == [] then 0
    else SumGross(lines[..|lines| - 1]) + lines[|lines| - 1].totalPrice.gross.amount
  }

  /** The state of the first loop of `groupCartItems`: the pack ids in the
      insertion order of `packMap`, the map itself, and `singleItems`. */
  datatype Grouping = Grouping(
    packIds: seq<string>,
    packMap: map<string, seq<CheckoutLine>>,
    singleItems: seq<CheckoutLine>)

  /** One iteration of the first loop. */
  function AddLine(g: Grouping, line: CheckoutLine): Grouping {
    match PackKey(line)
    case Some(id) =>
      var withGroup := if id in g.packMap then g else g.(packIds := g.packIds + [id], packMap := g.packMap[id := []]);
      withGroup.(packMap := withGroup.packMap[id := withGroup.packMap[id] + [line]])
    case None => g.(singleItems := g.singleItems + [line])
  }

  /** The first loop run over `lines`. */
  function Collect(lines: seq<CheckoutLine>): Grouping {
    if lines == [] then Grouping([], map[], [])
    else AddLine(Collect(lines[..|lines| - 1]), lines[|lines| - 1])
  }

  /** The pack built from the lines collected under `packId`. */
  function MakePack(packId: string, packLines: seq<CheckoutLine>): PackGroup
    requires packLines != []
  {
    var first := packLines[0];
    PackGroup(
      packId,
      PackSizeOf(first),
      first.variant.product.id,
      first.variant.product.name,
      first.variant.product.slug,
      first.variant.product.thumbnail,
      packLines,
      Money(SumGross(packLines), first.totalPrice.gross.currency))
  }

  /** The second loop: one pack item per id, in order, skipping empty groups. */
  function PackItems(ids: seq<string>, packMap: map<string, seq<CheckoutLine>>): seq<CartItem> {
    if ids == [] then []
    else
      var rest := PackItems(ids[..|ids| - 1], packMap);
      var id := ids[|ids| - 1];
      var packLines := if id in packMap then packMap[id] else [];
      if packLines == [] then rest else rest + [Pack(MakePack(id, packLines))]
  }

  /** The third loop: one single item per line. */
  function SingleItems(lines: seq<CheckoutLine>): seq<CartItem> {
    if lines == [] then []
    else SingleItems(lines[..|lines| - 1]) + [Single(lines[|lines| - 1])]
  }

  /** What `groupCartItems(lines)` returns. */
  function GroupedCart(lines: seq<CheckoutLine>): seq<CartItem> {
    var g := Collect(lines);
    PackItems(g.packIds, g.packMap) + SingleItems(g.singleItems)
  }

  /** `groupCartItems`: the three loops below, one after the other. */
  method GroupCartItems(lines: seq<CheckoutLine>) returns (result: seq<CartItem>)
    ensures result == GroupedCart(lines)
  {
    var packIds, packMap, singleItems := CollectLines(lines);
    CollectPackIds(lines);
    result := EmitPacks(packIds, packMap);
    result := EmitSingles(result, singleItems);
  }

  /** The first loop of `groupCartItems`: each line with a truthy `pack_id`
      is pushed onto its group in `packMap` (a new group is inserted the
      first time an id is seen), every other line onto `singleItems`. */
  method CollectLines(lines: seq<CheckoutLine>)
    returns (packIds: seq<string>, packMap: map<string, seq<CheckoutLine>>, singleItems: seq<CheckoutLine>)
    ensures Grouping(packIds, packMap, singleItems) == Collect(lines)
  {
    packIds, packMap, singleItems := [], map[], [];
    for i := 0 to |lines|
      invariant Grouping(packIds, packMap, singleItems) == Collect(lines[..i])
    {
      assert lines[..i + 1] == lines[..i] + [lines[i]];
      ghost var before := Grouping(packIds, packMap, singleItems);
      var line := lines[i];
      var packId := GetMetadataValue(line.metadata, PackIdKey);
      if packId.Some? && packId.value != "" {
        assert PackKey(line) == packId;
        if packId.value !in packMap {
          packMap := packMap[packId.value := []];
          packIds := packIds + [packId.value];
        }
        packMap := packMap[packId.value := packMap[packId.value] + [line]];
      } else {
        assert PackKey(line).None?;
        singleItems := singleItems + [line];
      }
      assert Grouping(packIds, packMap, singleItems) == AddLine(before, line);
    }
    assert lines[..|lines|] == lines;
  }

  /** The second loop of `groupCartItems`: one pack item per id in
      insertion order, skipping an empty group. */
  method EmitPacks(packIds: seq<string>, packMap: map<string, seq<CheckoutLine>>) returns (result: seq<CartItem>)
    requires forall id :: id in packIds ==> id in packMap
    ensures result == PackItems(packIds, packMap)
  {
    result := [];
    for j := 0 to |packIds|
      invariant result == PackItems(packIds[..j], packMap)
    {
      assert packIds[..j + 1][..j] == packIds[..j];
      var packId := packIds[j];
      var packLines := packMap[packId];
      if |packLines| == 0 {
        continue;
      }
      var firstLine := packLines[0];
      var packSize := PackSizeOf(firstLine);
      var totalAmount := SumGross(packLines);
      var currency := firstLine.totalPrice.gross.currency;
      result := result + [Pack(PackGroup(
        packId,
        packSize,
        firstLine.variant.product.id,
        firstLine.variant.product.name,
        firstLine.variant.product.slug,
        firstLine.variant.product.thumbnail,
        packLines,
        Money(totalAmount, currency)))];
    }
    assert packIds[..|packIds|] == packIds;
  }

  /** The third loop of `groupCartItems`: one single item per collected line,
      pushed after the packs. */
  method EmitSingles(packs: seq<CartItem>, singleItems: seq<CheckoutLine>) returns (result: seq<CartItem>)
    ensures result == packs + SingleItems(singleItems)
  {
    result := packs;
    for k := 0 to |singleItems|
      invariant result == packs + SingleItems(singleItems[..k])
    {
      assert singleItems[..k + 1][..k] == singleItems[..k];
      result := result + [Single(singleItems[k])];
    }
    assert singleItems[..|singleItems|] == singleItems;
  }

  // ---------------------------------------------------------------------------
  // A declarative account of the grouping

  /** The pack ids of the lines that have one, in input order (with repeats). */
  function PackKeys(lines: seq<CheckoutLine>): seq<string> {
    if lines == [] then []
    else
      var last := lines[|lines| - 1];
      PackKeys(lines[..|lines| - 1]) + (if PackKey(last).Some? then [PackKey(last).value] else [])
  }

  /** The lines tagged with pack `id`, in input order. */
  function LinesInPack(lines: seq<CheckoutLine>, id: string): seq<CheckoutLine> {
    if lines == [] then []
    else
      var last := lines[|lines| - 1];
      LinesInPack(lines[..|lines| - 1], id) + (if PackKey(last) == Some(id) then [last] else [])
  }

  /** The lines without a pack, in input order. */
  function UnpackedLines(lines: seq<CheckoutLine>): seq<CheckoutLine> {
    if lines == [] then []
    else
      var last := lines[|lines| - 1];
      UnpackedLines(lines[..|lines| - 1]) + (if PackKey(last).None? then [last] else [])
  }

  /** The first loop records the pack ids deduplicated in first-occurrence
      order, and keys its map by exactly those ids. */
  lemma {:induction false} CollectPackIds(lines: seq<CheckoutLine>)
    ensures Collect(lines).packIds == Uniq(PackKeys(lines))
    ensures forall id :: id in Collect(lines).packMap <==> id in Collect(lines).packIds
  {
    if lines != [] {
      var init, last := lines[..|lines| - 1], lines[|lines| - 1];
      CollectPackIds(init);
      var keys := PackKeys(init);
      if PackKey(last).Some? {
        var id := PackKey(last).value;
        assert PackKeys(lines) == keys + [id];
        assert (keys + [id])[..|keys|] == keys;
        assert Uniq(keys + [id]) == if id in Uniq(keys) then Uniq(keys) else Uniq(keys) + [id];
        var g := Collect(init);
        assert Collect(lines) == AddLine(g, last);
        if id in g.packMap {
          assert Collect(lines).packIds == g.packIds;
          assert id in Uniq(keys);
          assert Uniq(keys + [id]) == Uniq(keys);
        } else {
          assert Collect(lines).packIds == g.packIds + [id];
          assert Uniq(keys + [id]) == Uniq(keys) + [id];
        }
      } else {
        assert PackKeys(lines) == keys;
      }
    }
  }

  /** Under each id the first loop collects exactly the lines tagged with
      it; an id it has no group for tags no line. */
  lemma {:induction false} CollectPackLines(lines: seq<CheckoutLine>)
    ensures forall id :: id in Collect(lines).packMap ==> Collect(lines).packMap[id] == LinesInPack(lines, id)
    ensures forall id :: id !in Collect(lines).packMap ==> LinesInPack(lines, id) == []
  {
    if lines != [] {
      CollectPackLines(lines[..|lines| - 1]);
    }
  }

  /** The first loop keeps the untagged lines, in order, as singles. */
  lemma {:induction false} CollectSingles(lines: seq<CheckoutLine>)
    ensures Collect(lines).singleItems == UnpackedLines(lines)
  {
    if lines != [] {
      CollectSingles(lines[..|lines| - 1]);
    }
  }

  /** A pack id that occurs in the input has at least one line in its group. */
  lemma {:induction false} LinesInPackNonEmpty(lines: seq<CheckoutLine>, id: string)
    requires id in PackKeys(lines)
    ensures LinesInPack(lines, id) != []
  {
    var init, last := lines[..|lines| - 1], lines[|lines| - 1];
    if PackKey(last) != Some(id) {
      LinesInPackNonEmpty(init, id);
    }
  }

  /** Every line of `LinesInPack(lines, id)` is tagged with `id`. */
  lemma {:induction false} LinesInPackTagged(lines: seq<CheckoutLine>, id: string)
    ensures forall l :: l in LinesInPack(lines, id) ==> l in lines && PackKey(l) == Some(id)
  {
    if lines != [] {
      LinesInPackTagged(lines[..|lines| - 1], id);
    }
  }

  /** Every line of `UnpackedLines(lines)` has no pack. */
  lemma {:induction false} UnpackedLinesUntagged(lines: seq<CheckoutLine>)
    ensures forall l :: l in UnpackedLines(lines) ==> l in lines && PackKey(l).None?
  {
    if lines != [] {
      UnpackedLinesUntagged(lines[..|lines| - 1]);
    }
  }

  // ---------------------------------------------------------------------------
  // Properties of the output

  /** With every group non-empty, the second loop emits one pack per id, in order. */
  lemma {:induction false} PackItemsAt(ids: seq<string>, packMap: map<string, seq<CheckoutLine>>)
    requires forall id :: id in ids ==> id in packMap && packMap[id] != []
    ensures |PackItems(ids, packMap)| == |ids|
    ensures forall i :: 0 <= i < |ids| ==> PackItems(ids, packMap)[i] == Pack(MakePack(ids[i], packMap[ids[i]]))
  {
    if ids != [] {
      var init := ids[..|ids| - 1];
      assert forall id :: id in init ==> id in ids;
      PackItemsAt(init, packMap);
    }
  }

  /** The third loop emits one single item per line, in order. */
  lemma {:induction false} SingleItemsAt(lines: seq<CheckoutLine>)
    ensures |SingleItems(lines)| == |lines|
    ensures forall i :: 0 <= i < |lines| ==> SingleItems(lines)[i] == Single(lines[i])
  {
    if lines != [] {
      SingleItemsAt(lines[..|lines| - 1]);
    }
  }

  /** The whole output, item by item: first one pack per distinct pack id, in
      first-occurrence order, holding exactly the lines tagged with that id;
      then one single item per untagged line, in input order. */
  lemma GroupedCartShape(lines: seq<CheckoutLine>)
    ensures |GroupedCart(lines)| == |Uniq(PackKeys(lines))| + |UnpackedLines(lines)|
    ensures forall i :: 0 <= i < |Uniq(PackKeys(lines))| ==>
              && LinesInPack(lines, Uniq(PackKeys(lines))[i]) != []
              && GroupedCart(lines)[i] == Pack(MakePack(Uniq(PackKeys(lines))[i], LinesInPack(lines, Uniq(PackKeys(lines))[i])))
    ensures GroupedCart(lines)[|Uniq(PackKeys(lines))|..] == SingleItems(UnpackedLines(lines))
  {
    var g := Collect(lines);
    CollectPackIds(lines);
    CollectPackLines(lines);
    CollectSingles(lines);
    forall id | id in g.packIds
      ensures id in g.packMap && g.packMap[id] != []
    {
      LinesInPackNonEmpty(lines, id);
    }
    PackItemsAt(g.packIds, g.packMap);
    SingleItemsAt(g.singleItems);
    var packs, singles := PackItems(g.packIds, g.packMap), SingleItems(g.singleItems);
    var out := packs + singles;
    assert GroupedCart(lines) == out;
    forall i | 0 <= i < |g.packIds|
      ensures LinesInPack(lines, g.packIds[i]) != []
      ensures out[i] == Pack(MakePack(g.packIds[i], LinesInPack(lines, g.packIds[i])))
    {
      assert out[i] == packs[i];
    }
    assert out[|packs|..] == singles;
  }

  /** The output item at position `i`: a pack while `i` ranges over the
      distinct pack ids, a single item after that. */
  lemma GroupedCartAt(lines: seq<CheckoutLine>, i: int)
    requires 0 <= i < |GroupedCart(lines)|
    ensures |GroupedCart(lines)| == |Uniq(PackKeys(lines))| + |UnpackedLines(lines)|
    ensures i < |Uniq(PackKeys(lines))| ==>
              && LinesInPack(lines, Uniq(PackKeys(lines))[i]) != []
              && GroupedCart(lines)[i] == Pack(MakePack(Uniq(PackKeys(lines))[i], LinesInPack(lines, Uniq(PackKeys(lines))[i])))
    ensures i >= |Uniq(PackKeys(lines))| ==>
              GroupedCart(lines)[i] == Single(UnpackedLines(lines)[i - |Uniq(PackKeys(lines))|])
  {
    GroupedCartShape(lines);
    var n := |Uniq(PackKeys(lines))|;
    if i >= n {
      SingleItemsAt(UnpackedLines(lines));
      assert GroupedCart(lines)[i] == GroupedCart(lines)[n..][i - n];
    }
  }

  /** All pack items come before all single items. */
  lemma PacksBeforeSingles(lines: seq<CheckoutLine>)
    ensures forall i, j :: 0 <= i < j < |GroupedCart(lines)| && GroupedCart(lines)[i].Single? ==>
              GroupedCart(lines)[j].Single?
  {
    var out, n := GroupedCart(lines), |Uniq(PackKeys(lines))|;
    forall i | 0 <= i < |out|
      ensures out[i].Single? <==> i >= n
    {
      GroupedCartAt(lines, i);
    }
  }

  /** Pack ids are pairwise distinct, and packs appear in the order in which
      their id first occurs among the input lines (the Map's insertion order). */
  lemma PackOrder(lines: seq<CheckoutLine>)
    ensures forall i, j :: 0 <= i < j < |GroupedCart(lines)| && GroupedCart(lines)[j].Pack? ==>
              && GroupedCart(lines)[i].Pack?
              && GroupedCart(lines)[i].pack.packId in PackKeys(lines)
              && GroupedCart(lines)[j].pack.packId in PackKeys(lines)
              && IndexOf(PackKeys(lines), GroupedCart(lines)[i].pack.packId)
                 < IndexOf(PackKeys(lines), GroupedCart(lines)[j].pack.packId)
  {
    UniqFirstOccurrenceOrder(PackKeys(lines));
    var out, ids := GroupedCart(lines), Uniq(PackKeys(lines));
    forall i | 0 <= i < |out|
      ensures out[i].Pack? <==> i < |ids|
      ensures out[i].Pack? ==> out[i].pack.packId == ids[i]
    {
      GroupedCartAt(lines, i);
    }
  }

  /** Each pack holds, in input order, exactly the input lines tagged with
      its id, and at least one. */
  lemma PackContents(lines: seq<CheckoutLine>)
    ensures forall item :: item in GroupedCart(lines) && item.Pack? ==>
              && item.pack.lines == LinesInPack(lines, item.pack.packId)
              && item.pack.lines != []
              && forall l :: l in item.pack.lines ==> l in lines && PackKey(l) == Some(item.pack.packId)
  {
    var out := GroupedCart(lines);
    forall item | item in out && item.Pack?
      ensures item.pack.lines == LinesInPack(lines, item.pack.packId) && item.pack.lines != []
      ensures forall l :: l in item.pack.lines ==> l in lines && PackKey(l) == Some(item.pack.packId)
    {
      var i :| 0 <= i < |out| && out[i] == item;
      GroupedCartAt(lines, i);
      LinesInPackTagged(lines, item.pack.packId);
    }
  }

  /** Each single item is an input line that has no pack. */
  lemma SingleContents(lines: seq<CheckoutLine>)
    ensures forall item :: item in GroupedCart(lines) && item.Single? ==>
              item.line in lines && PackKey(item.line).None?
  {
    var out := GroupedCart(lines);
    UnpackedLinesUntagged(lines);
    forall item | item in out && item.Single?
      ensures item.line in UnpackedLines(lines)
    {
      var i :| 0 <= i < |out| && out[i] == item;
      GroupedCartAt(lines, i);
    }
  }

  /** A pack's total is the sum of the gross amounts of its lines, in the
      currency of its first line; its size label and product details come
      from its first line, the size being "Unknown" when that line has none. */
  lemma PackSummary(lines: seq<CheckoutLine>)
    ensures forall item :: item in GroupedCart(lines) && item.Pack? ==>
              var p := item.pack;
              && p.lines != []
              && p.totalPrice == Money(SumGross(p.lines), p.lines[0].totalPrice.gross.currency)
              && p.packSize == (if GetMetadataValue(p.lines[0].metadata, PackSizeKey).Some?
                                then GetMetadataValue(p.lines[0].metadata, PackSizeKey).value
                                else UnknownPackSize)
              && p.productId == p.lines[0].variant.product.id
              && p.productName == p.lines[0].variant.product.name
              && p.productSlug == p.lines[0].variant.product.slug
              && p.productThumbnail == p.lines[0].variant.product.thumbnail
  {
    var out := GroupedCart(lines);
    forall item | item in out && item.Pack?
      ensures item.pack.lines != [] && item.pack == MakePack(item.pack.packId, item.pack.lines)
    {
      var i :| 0 <= i < |out| && out[i] == item;
      GroupedCartAt(lines, i);
    }
  }

  /** The lines an output item stands for. */
  function ItemLines(item: CartItem): seq<CheckoutLine> {
    match item
    case Pack(p) => p.lines
    case Single(l) => [l]
  }

  /** All lines of all output items, item after item. */
  function Flatten(items: seq<CartItem>): seq<CheckoutLine> {
    if items == [] then [] else ItemLines(items[0]) + Flatten(items[1..])
  }

  lemma {:induction false} FlattenAppend(a: seq<CartItem>, b: seq<CartItem>)
    ensures Flatten(a + b) == Flatten(a) + Flatten(b)
  {
    if a == [] {
      assert a + b == b;
    } else {
      assert (a + b)[1..] == a[1..] + b;
      FlattenAppend(a[1..], b);
    }
  }

  /** Flattening one more item appends its lines. */
  lemma FlattenSnoc(items: seq<CartItem>, item: CartItem)
    ensures Flatten(items + [item]) == Flatten(items) + ItemLines(item)
  {
    FlattenAppend(items, [item]);
    assert [item][1..] == [];
  }

  lemma {:induction false} FlattenSingles(lines: seq<CheckoutLine>)
    ensures Flatten(SingleItems(lines)) == lines
  {
    if lines != [] {
      var init, last := lines[..|lines| - 1], lines[|lines| - 1];
      FlattenSingles(init);
      assert SingleItems(lines) == SingleItems(init) + [Single(last)];
      FlattenSnoc(SingleItems(init), Single(last));
      assert lines == init + [last];
    }
  }

  /** The lines held in the groups of `ids`, as a multiset. */
  function GroupsMultiset(ids: seq<string>, packMap: map<string, seq<CheckoutLine>>): multiset<CheckoutLine> {
    if ids == [] then multiset{}
    else
      var id := ids[|ids| - 1];
      GroupsMultiset(ids[..|ids| - 1], packMap) + multiset(if id in packMap then packMap[id] else [])
  }

  lemma {:induction false} FlattenPackItems(ids: seq<string>, packMap: map<string, seq<CheckoutLine>>)
    ensures multiset(Flatten(PackItems(ids, packMap))) == GroupsMultiset(ids, packMap)
  {
    if ids != [] {
      var init := ids[..|ids| - 1];
      FlattenPackItems(init, packMap);
      var rest := PackItems(init, packMap);
      var id := ids[|ids| - 1];
      var packLines := if id in packMap then packMap[id] else [];
      if packLines != [] {
        var item := Pack(MakePack(id, packLines));
        assert PackItems(ids, packMap) == rest + [item];
        FlattenSnoc(rest, item);
      }
    }
  }

  /** Changing a group whose id is not listed leaves the listed groups alone. */
  lemma {:induction false} GroupsMultisetOther(ids: seq<string>, packMap: map<string, seq<CheckoutLine>>,
                                                id: string, group: seq<CheckoutLine>)
    requires id !in ids
    ensures GroupsMultiset(ids, packMap[id := group]) == GroupsMultiset(ids, packMap)
  {
    if ids != [] {
      GroupsMultisetOther(ids[..|ids| - 1], packMap, id, group);
    }
  }

  /** Appending a line to a group listed exactly once adds that line once. */
  lemma {:induction false} GroupsMultisetPush(ids: seq<string>, packMap: map<string, seq<CheckoutLine>>,
                                               id: string, line: CheckoutLine)
    requires NoDuplicates(ids) && id in ids && id in packMap
    ensures GroupsMultiset(ids, packMap[id := packMap[id] + [line]]) == GroupsMultiset(ids, packMap) + multiset{line}
  {
    var init, last := ids[..|ids| - 1], ids[|ids| - 1];
    if last == id {
      assert id !in init;
      GroupsMultisetOther(init, packMap, id, packMap[id] + [line]);
    } else {
      GroupsMultisetPush(init, packMap, id, line);
    }
  }

  /** All lines held by a grouping, as a multiset. */
  function Holding(g: Grouping): multiset<CheckoutLine> {
    GroupsMultiset(g.packIds, g.packMap) + multiset(g.singleItems)
  }

  /** One iteration of the first loop files the line exactly once. */
  lemma AddLineHolding(g: Grouping, line: CheckoutLine)
    requires NoDuplicates(g.packIds)
    requires forall id :: id in g.packMap <==> id in g.packIds
    ensures Holding(AddLine(g, line)) == Holding(g) + multiset{line}
  {
    match PackKey(line)
    case Some(id) =>
      if id in g.packMap {
        GroupsMultisetPush(g.packIds, g.packMap, id, line);
      } else {
        var m := g.packMap[id := []];
        assert m[id] + [line] == [line];
        assert m[id := m[id] + [line]] == g.packMap[id := [line]];
        GroupsMultisetOther(g.packIds, g.packMap, id, [line]);
        var ids := g.packIds + [id];
        assert ids[..|ids| - 1] == g.packIds;
      }
    case None =>
  }

  /** The first loop loses and duplicates no line. */
  lemma {:induction false} CollectPartition(lines: seq<CheckoutLine>)
    ensures Holding(Collect(lines)) == multiset(lines)
  {
    if lines != [] {
      var init, line := lines[..|lines| - 1], lines[|lines| - 1];
      assert lines == init + [line];
      CollectPartition(init);
      CollectPackIds(init);
      AddLineHolding(Collect(init), line);
    }
  }

  /** Partition: every input line appears in exactly one output item (as
      many times as it occurs in the input), so the lines across all packs
      plus the single items number exactly the input lines. */
  lemma GroupedCartPartition(lines: seq<CheckoutLine>)
    ensures multiset(Flatten(GroupedCart(lines))) == multiset(lines)
    ensures |Flatten(GroupedCart(lines))| == |lines|
  {
    var g := Collect(lines);
    FlattenAppend(PackItems(g.packIds, g.packMap), SingleItems(g.singleItems));
    FlattenPackItems(g.packIds, g.packMap);
    FlattenSingles(g.singleItems);
    CollectPartition(lines);
    assert |multiset(Flatten(GroupedCart(lines)))| == |multiset(lines)|;
  }
}

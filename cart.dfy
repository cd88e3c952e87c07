/** The cart store of src/store/cart.js: an ordered list of lines, each keyed by
    the string `${productId}:${variantId ?? 0}`, with a product snapshot taken
    on the first add and a quantity that never drops below 1. The persistence
    wrapper around the store is not part of this model. */
module Cart {
  import opened Common

  /** The loosely shaped product object callers pass to `add`. */
  datatype ProductLike = ProductLike(
    id: Option<int>,
    variantId: Option<int>,
    name: Option<string>,
    displayName: Option<string>,
    price: Option<int>,
    images: Option<seq<ImageRef>>,
    sku: Option<string>,
    color: Option<string>,
    size: Option<string>)

  /** The product as stored in a line; it is never updated after the line is created. */
  datatype Snapshot = Snapshot(
    id: Option<int>,
    name: Option<string>,
    price: int,
    images: seq<string>,
    sku: Option<string>,
    variantId: Option<int>,
    color: Option<string>,
    size: Option<string>)

  datatype Line = Line(lineId: string, product: Snapshot, quantity: int)

  // ---------------------------------------------------------------------------
  // Line identity

  /** `${id}` for a product id; a missing id prints as "undefined". */
  function IdText(id: Option<int>): string {
    match id
    case None => "undefined"
    case Some(n) => IntText(n)
  }

  lemma IdTextHasNoColon(id: Option<int>)
    ensures ':' !in IdText(id)
  {
    if id.Some? {
      IntTextShape(id.value);
    }
  }

  lemma IdTextInjective(a: Option<int>, b: Option<int>)
    requires IdText(a) == IdText(b)
    ensures a == b
  {
    match (a, b)
    case (Some(x), Some(y)) => IntTextInjective(x, y);
    case (Some(x), None) => IntTextShape(x);
    case (None, Some(y)) => IntTextShape(y);
    case (None, None) =>
  }

  /** buildLineId, on the two fields it reads: `${id}:${variantId ?? 0}`, 0 standing for "no variant". */
  function LineId(id: Option<int>, variantId: Option<int>): string {
    IdText(id) + ":" + IntText(variantId.GetOr(0))
  }

  function BuildLineId(p: ProductLike): string {
    LineId(p.id, p.variantId)
  }

  /** Two line ids coincide exactly when the product ids agree and the variant ids
      agree once a missing variant is read as 0. */
  lemma LineIdIdentity(id1: Option<int>, v1: Option<int>, id2: Option<int>, v2: Option<int>)
    ensures LineId(id1, v1) == LineId(id2, v2) <==> id1 == id2 && v1.GetOr(0) == v2.GetOr(0)
  {
    if LineId(id1, v1) == LineId(id2, v2) {
      IdTextHasNoColon(id1);
      IdTextHasNoColon(id2);
      SplitAtSeparator(IdText(id1), IntText(v1.GetOr(0)), IdText(id2), IntText(v2.GetOr(0)), ':');
      IdTextInjective(id1, id2);
      IntTextInjective(v1.GetOr(0), v2.GetOr(0));
    }
  }

  // ---------------------------------------------------------------------------
  // Packing the snapshot

  /** normalizeImages: the URL of each entry (the string itself or its `url`), with
      entries that yield no URL or an empty one dropped; a non-list gives []. */
  function NormalizeImages(arr: Option<seq<ImageRef>>): (r: seq<string>)
    ensures arr.None? ==> r == []
    ensures forall k :: 0 <= k < |r| ==> r[k] != ""
  {
    match arr
    case None => []
    case Some(xs) => NonEmpty(UrlTexts(xs))
  }

  function UrlsOf(xs: seq<ImageRef>): (r: seq<Option<string>>)
    ensures |r| == |xs| && forall k :: 0 <= k < |xs| ==> r[k] == ImageUrl(xs[k])
  {
    seq(|xs|, k requires 0 <= k < |xs| => ImageUrl(xs[k]))
  }

  /** The URLs with a missing one read as "" (both are dropped by `filter(Boolean)`). */
  function UrlTexts(xs: seq<ImageRef>): (r: seq<string>)
    ensures |r| == |xs| && forall k :: 0 <= k < |xs| ==> r[k] == ImageUrl(xs[k]).GetOr("")
  {
    seq(|xs|, k requires 0 <= k < |xs| => ImageUrl(xs[k]).GetOr(""))
  }

  /** The normalised list holds exactly the non-empty URLs the entries yield. */
  lemma NormalizeImagesMembers(xs: seq<ImageRef>)
    ensures forall u :: u in NormalizeImages(Some(xs)) <==> u != "" && Some(u) in UrlsOf(xs)
  {
    var r := UrlTexts(xs);
    NonEmptyMembers(r);
    forall u | u in r && u != ""
      ensures Some(u) in UrlsOf(xs)
    {
      var k :| 0 <= k < |r| && r[k] == u;
      assert UrlsOf(xs)[k] == Some(u);
    }
    forall u | u != "" && Some(u) in UrlsOf(xs)
      ensures u in r
    {
      var k :| 0 <= k < |xs| && UrlsOf(xs)[k] == Some(u);
      assert r[k] == u;
    }
  }

  /** `${name} ${color ?? ""} ${size ?? ""}`.trim(), a missing name printing as "undefined". */
  function DecoratedName(name: Option<string>, color: Option<string>, size: Option<string>): string {
    Trim(name.GetOr("undefined") + " " + color.GetOr("") + " " + size.GetOr(""))
  }

  predicate Unpadded(s: string) {
    s != "" && !IsSpace(s[0]) && !IsSpace(s[|s| - 1])
  }

  /** The decorated name of a name with colour and/or size: the parts separated by
      single spaces, except that a size without a colour is preceded by two spaces
      (the empty colour still contributes its surrounding blanks). */
  lemma DecoratedNameShape(name: string, color: Option<string>, size: Option<string>)
    requires Unpadded(name)
    requires color.Some? ==> Unpadded(color.value)
    requires size.Some? ==> Unpadded(size.value)
    ensures color.Some? && size.Some? ==>
      DecoratedName(Some(name), color, size) == name + " " + color.value + " " + size.value
    ensures color.Some? && size.None? ==>
      DecoratedName(Some(name), color, size) == name + " " + color.value
    ensures color.None? && size.Some? ==>
      DecoratedName(Some(name), color, size) == name + "  " + size.value
    ensures color.None? && size.None? ==> DecoratedName(Some(name), color, size) == name
  {
    var c, z := color.GetOr(""), size.GetOr("");
    var raw := name + " " + c + " " + z;
    if color.Some? && size.Some? {
      TrimOfUnpadded(raw);
    } else if color.Some? {
      assert raw == (name + " " + c) + " ";
      TrimDropsTrailingSpace(name + " " + c);
      TrimOfUnpadded(name + " " + c);
    } else if size.Some? {
      assert raw == name + "  " + z;
      TrimOfUnpadded(raw);
    } else {
      assert raw == (name + " ") + " ";
      TrimDropsTrailingSpace(name + " ");
      TrimDropsTrailingSpace(name);
      TrimOfUnpadded(name);
    }
  }

  lemma TrimDropsTrailingSpace(s: string)
    requires s != "" && !IsSpace(s[0])
    ensures Trim(s + " ") == Trim(s)
  {
    assert TrimStart(s + " ") == s + " ";
    assert TrimStart(s) == s;
    assert (s + " ")[..|s|] == s;
  }

  /** The snapshot's name: `displayName` when it is non-empty, else the decorated
      name when a colour or size is given, else the plain name. */
  function SnapshotName(p: ProductLike): (r: Option<string>)
    ensures Present(p.displayName) ==> r == p.displayName
    ensures !Present(p.displayName) && (Present(p.color) || Present(p.size)) ==>
      r == Some(DecoratedName(p.name, p.color, p.size))
    ensures !Present(p.displayName) && !Present(p.color) && !Present(p.size) ==> r == p.name
  {
    if Present(p.displayName) then p.displayName
    else if Present(p.color) || Present(p.size) then Some(DecoratedName(p.name, p.color, p.size))
    else p.name
  }

  /** packProductForCart */
  function Pack(p: ProductLike): (s: Snapshot)
    ensures s.id == p.id && s.variantId == p.variantId
    ensures s.sku == p.sku && s.color == p.color && s.size == p.size
    ensures s.price == (if p.price.Some? then p.price.value else 0)
    ensures s.images == NormalizeImages(p.images)
    ensures s.name == SnapshotName(p)
    ensures LineId(s.id, s.variantId) == BuildLineId(p)
  {
    Snapshot(p.id, SnapshotName(p), p.price.GetOr(0), NormalizeImages(p.images),
             p.sku, p.variantId, p.color, p.size)
  }

  // ---------------------------------------------------------------------------
  // Quantities

  /** `Math.max(1, Number(qty) || 1)`: a missing or zero quantity counts as 1 and
      nothing below 1 is kept. */
  function ClampQty(qty: Option<int>): (q: int)
    ensures q >= 1
    ensures qty.Some? && qty.value >= 1 ==> q == qty.value
    ensures qty.None? || qty.value < 1 ==> q == 1
  {
    var n := if qty.None? || qty.value == 0 then 1 else qty.value;
    if n < 1 then 1 else n
  }

  // ---------------------------------------------------------------------------
  // The line list and the operations on it

  /** The store's invariant: every quantity is at least 1, every line id is the one
      its snapshot's product and variant give, and no line id occurs twice. */
  predicate WellFormed(items: seq<Line>) {
    && (forall k :: 0 <= k < |items| ==> items[k].quantity >= 1)
    && (forall k :: 0 <= k < |items| ==> KeyedBySnapshot(items[k]))
    && UniqueIds(items)
  }

  /** A line's id is the one its snapshot's product and variant ids give. */
  predicate KeyedBySnapshot(l: Line) {
    l.lineId == LineId(l.product.id, l.product.variantId)
  }

  predicate UniqueIds(items: seq<Line>) {
    forall j, k :: 0 <= j < k < |items| ==> items[j].lineId != items[k].lineId
  }

  /** In a well-formed list no two lines share a (product id, variant id or 0) pair. */
  lemma OneLinePerPair(items: seq<Line>, j: int, k: int)
    requires WellFormed(items) && 0 <= j < k < |items|
    ensures items[j].product.id != items[k].product.id
      || items[j].product.variantId.GetOr(0) != items[k].product.variantId.GetOr(0)
  {
    var a, b := items[j].product, items[k].product;
    LineIdIdentity(a.id, a.variantId, b.id, b.variantId);
  }

  /** `items.findIndex(i => i.lineId === lineId)` */
  function IndexOf(items: seq<Line>, lineId: string): (r: int)
    ensures -1 <= r < |items|
    ensures r >= 0 ==> items[r].lineId == lineId
    ensures forall k :: 0 <= k < |items| && (r < 0 || k < r) ==> items[k].lineId != lineId
  {
    if items == [] then -1
    else if items[0].lineId == lineId then 0
    else
      var r := IndexOf(items[1..], lineId);
      if r < 0 then -1 else r + 1
  }

  /** findIndex as the loop that runs it. */
  method FindIndex(items: seq<Line>, lineId: string) returns (idx: int)
    ensures idx == IndexOf(items, lineId)
    ensures -1 <= idx < |items|
    ensures idx >= 0 ==> items[idx].lineId == lineId
    ensures forall k :: 0 <= k < |items| && (idx < 0 || k < idx) ==> items[k].lineId != lineId
  {
    var i := 0;
    while i < |items|
      invariant 0 <= i <= |items|
      invariant forall k :: 0 <= k < i ==> items[k].lineId != lineId
    {
      if items[i].lineId == lineId {
        return i;
      }
      i := i + 1;
    }
    return -1;
  }

  /** add: merge into the line with the same id (the stored snapshot stays) or
      append a new line with a fresh snapshot. */
  function AddLine(items: seq<Line>, p: ProductLike, qty: Option<int>): (r: seq<Line>)
  {
    var lineId := BuildLineId(p);
    var idx := IndexOf(items, lineId);
    var quantity := ClampQty(qty);
    if idx >= 0 then items[idx := items[idx].(quantity := items[idx].quantity + quantity)]
    else items + [Line(lineId, Pack(p), quantity)]
  }

  /** The body of add: find the line, then merge into it or append. */
  method AddTo(items: seq<Line>, p: ProductLike, qty: Option<int>) returns (r: seq<Line>)
    ensures r == AddLine(items, p, qty)
  {
    var lineId := BuildLineId(p);
    var idx := FindIndex(items, lineId);
    var quantity := ClampQty(qty);
    if idx >= 0 {
      r := items[idx := items[idx].(quantity := items[idx].quantity + quantity)];
    } else {
      r := items + [Line(lineId, Pack(p), quantity)];
    }
  }

  /** remove: `items.filter(i => i.lineId !== lineId)` */
  function RemoveLine(items: seq<Line>, lineId: string): (r: seq<Line>)
    ensures (forall k :: 0 <= k < |items| ==> items[k].lineId != lineId) ==> r == items
  {
    if items == [] then []
    else
      var init := RemoveLine(items[..|items| - 1], lineId);
      var last := items[|items| - 1];
      assert items == items[..|items| - 1] + [last];
      if last.lineId == lineId then init else init + [last]
  }

  /** remove keeps exactly the lines whose id differs. */
  lemma {:induction false} RemoveLineMembers(items: seq<Line>, lineId: string)
    ensures forall l :: l in RemoveLine(items, lineId) <==> l in items && l.lineId != lineId
  {
    if items != [] {
      var init := items[..|items| - 1];
      RemoveLineMembers(init, lineId);
      RemoveLast(items, lineId);
      assert items == init + [items[|items| - 1]];
    }
  }

  /** remove keeps the remaining lines in their order. */
  lemma {:induction false} RemoveKeepsOrder(items: seq<Line>, lineId: string)
    ensures IsSubsequence(RemoveLine(items, lineId), items)
  {
    if items != [] {
      var init, last := items[..|items| - 1], items[|items| - 1];
      RemoveKeepsOrder(init, lineId);
      SubsequenceExtend(RemoveLine(init, lineId), init, last);
      RemoveLast(items, lineId);
      assert items == init + [last];
      if last.lineId == lineId {
        assert RemoveLine(items, lineId) == RemoveLine(init, lineId);
      } else {
        assert RemoveLine(items, lineId) == RemoveLine(init, lineId) + [last];
      }
    }
  }

  /** setQty: the line with that id gets the clamped quantity; every other line
      and the order stay as they were. */
  function SetQtyLine(items: seq<Line>, lineId: string, qty: Option<int>): (r: seq<Line>)
    ensures |r| == |items|
    ensures forall k :: 0 <= k < |items| ==>
      r[k].lineId == items[k].lineId && r[k].product == items[k].product
    ensures forall k :: 0 <= k < |items| && items[k].lineId != lineId ==> r[k] == items[k]
    ensures forall k :: 0 <= k < |items| && items[k].lineId == lineId ==> r[k].quantity == ClampQty(qty)
  {
    seq(|items|, k requires 0 <= k < |items| =>
      if items[k].lineId == lineId then items[k].(quantity := ClampQty(qty)) else items[k])
  }

  /** totalItems: `reduce((acc, i) => acc + i.quantity, 0)` */
  function SumQuantities(items: seq<Line>): int {
    if items == [] then 0
    else SumQuantities(items[..|items| - 1]) + items[|items| - 1].quantity
  }

  /** totalAmount: `reduce((acc, i) => acc + i.quantity * (i.product.price || 0), 0)` */
  function SumAmounts(items: seq<Line>): int {
    if items == [] then 0
    else SumAmounts(items[..|items| - 1]) + LineAmount(items[|items| - 1])
  }

  /** One line's share of totalAmount. */
  function LineAmount(l: Line): int {
    l.quantity * l.product.price
  }

  // ---------------------------------------------------------------------------
  // What the operations preserve and how they relate

  /** add keeps the store's invariant. */
  lemma AddPreservesWellFormed(items: seq<Line>, p: ProductLike, qty: Option<int>)
    requires WellFormed(items)
    ensures WellFormed(AddLine(items, p, qty))
  {
    var r, k := AddLine(items, p, qty), IndexOf(items, BuildLineId(p));
    forall j | 0 <= j < |r|
      ensures r[j].quantity >= 1 && KeyedBySnapshot(r[j])
    {
      if j < |items| {
        assert KeyedBySnapshot(items[j]);
      }
    }
  }

  /** add on an existing line: the same lines in the same order, that line's
      quantity raised by the clamped amount, its snapshot unchanged. */
  lemma AddToExistingLine(items: seq<Line>, p: ProductLike, qty: Option<int>, k: int)
    requires UniqueIds(items) && 0 <= k < |items| && items[k].lineId == BuildLineId(p)
    ensures var r := AddLine(items, p, qty);
      && |r| == |items|
      && r[k] == items[k].(quantity := items[k].quantity + ClampQty(qty))
      && forall j :: 0 <= j < |items| && j != k ==> r[j] == items[j]
  {
    assert IndexOf(items, BuildLineId(p)) == k;
  }

  /** add of a new product/variant pair appends exactly one line at the end. */
  lemma AddNewLine(items: seq<Line>, p: ProductLike, qty: Option<int>)
    requires forall k :: 0 <= k < |items| ==> items[k].lineId != BuildLineId(p)
    ensures AddLine(items, p, qty) == items + [Line(BuildLineId(p), Pack(p), ClampQty(qty))]
  {
  }

  /** Adding the same pair twice gives one line whose quantity is the sum of both
      clamped amounts and whose snapshot is the one packed on the first call. */
  lemma AddSamePairTwice(items: seq<Line>, p: ProductLike, q: ProductLike, a: Option<int>, b: Option<int>)
    requires p.id == q.id && p.variantId.GetOr(0) == q.variantId.GetOr(0)
    requires forall k :: 0 <= k < |items| ==> items[k].lineId != BuildLineId(p)
    ensures AddLine(AddLine(items, p, a), q, b)
      == items + [Line(BuildLineId(p), Pack(p), ClampQty(a) + ClampQty(b))]
  {
    var id := BuildLineId(p);
    var l := Line(id, Pack(p), ClampQty(a));
    var once := items + [l];
    AddNewLine(items, p, a);
    SamePairSameLineId(p, q);
    FoundAtEnd(items, l);
    AddMergesAt(once, q, b, |items|);
    assert once[|items|] == l;
    MergeIntoLast(items, l, ClampQty(b));
  }

  lemma SamePairSameLineId(p: ProductLike, q: ProductLike)
    requires p.id == q.id && p.variantId.GetOr(0) == q.variantId.GetOr(0)
    ensures BuildLineId(p) == BuildLineId(q)
  {
  }

  lemma AddMergesAt(items: seq<Line>, p: ProductLike, qty: Option<int>, k: int)
    requires 0 <= k < |items| && IndexOf(items, BuildLineId(p)) == k
    ensures AddLine(items, p, qty) == items[k := items[k].(quantity := items[k].quantity + ClampQty(qty))]
  {
    var r := AddLine(items, p, qty);
    var u := items[k := items[k].(quantity := items[k].quantity + ClampQty(qty))];
    assert |r| == |u|;
    assert forall j :: 0 <= j < |r| ==> r[j] == u[j];
  }

  lemma MergeIntoLast(items: seq<Line>, l: Line, c: int)
    ensures (items + [l])[|items| := l.(quantity := l.quantity + c)] == items + [l.(quantity := l.quantity + c)]
  {
  }

  /** A line appended after lines with other ids is the first with its id. */
  lemma FoundAtEnd(items: seq<Line>, l: Line)
    requires forall k :: 0 <= k < |items| ==> items[k].lineId != l.lineId
    ensures IndexOf(items + [l], l.lineId) == |items|
  {
    assert (items + [l])[|items|].lineId == l.lineId;
  }

  /** The same product with two different variant ids gives two distinct lines. */
  lemma DistinctVariantsDistinctLines(items: seq<Line>, p: ProductLike, q: ProductLike, a: Option<int>, b: Option<int>)
    requires p.id == q.id && p.variantId.GetOr(0) != q.variantId.GetOr(0)
    requires forall k :: 0 <= k < |items| ==> items[k].lineId != BuildLineId(p)
    requires forall k :: 0 <= k < |items| ==> items[k].lineId != BuildLineId(q)
    ensures var r := AddLine(AddLine(items, p, a), q, b);
      && |r| == |items| + 2
      && r[|items|] == Line(BuildLineId(p), Pack(p), ClampQty(a))
      && r[|items| + 1] == Line(BuildLineId(q), Pack(q), ClampQty(b))
      && r[|items|].lineId != r[|items| + 1].lineId
  {
    LineIdIdentity(p.id, p.variantId, q.id, q.variantId);
    var once := AddLine(items, p, a);
    AddNewLine(items, p, a);
    AddNewLine(once, q, b);
  }

  /** remove keeps the invariant, and on a well-formed list drops exactly the one
      line with that id, keeping the others in order. */
  lemma RemoveExisting(items: seq<Line>, k: int)
    requires UniqueIds(items) && 0 <= k < |items|
    ensures RemoveLine(items, items[k].lineId) == items[..k] + items[k + 1..]
  {
    RemoveUnique(items, items[k].lineId, k);
  }

  lemma {:induction false} RemoveUnique(items: seq<Line>, lineId: string, k: int)
    requires 0 <= k < |items| && items[k].lineId == lineId
    requires forall j :: 0 <= j < |items| && j != k ==> items[j].lineId != lineId
    ensures RemoveLine(items, lineId) == items[..k] + items[k + 1..]
  {
    var init, last := items[..|items| - 1], items[|items| - 1];
    if k == |items| - 1 {
      RemoveAbsent(init, lineId);
      assert items[..k] == init;
    } else {
      RemoveUnique(init, lineId, k);
      RemoveLast(items, lineId);
      assert items[..k] + items[k + 1..] == (init[..k] + init[k + 1..]) + [last];
    }
  }

  lemma RemoveAbsent(items: seq<Line>, lineId: string)
    requires forall j :: 0 <= j < |items| ==> items[j].lineId != lineId
    ensures RemoveLine(items, lineId) == items
  {
  }

  /** remove on a non-empty list: the prefix is filtered, then the last line is kept unless it matches. */
  lemma RemoveLast(items: seq<Line>, lineId: string)
    requires items != []
    ensures var last := items[|items| - 1];
      RemoveLine(items, lineId) == RemoveLine(items[..|items| - 1], lineId) + (if last.lineId == lineId then [] else [last])
  {
  }

  lemma RemovePreservesWellFormed(items: seq<Line>, lineId: string)
    requires WellFormed(items)
    ensures WellFormed(RemoveLine(items, lineId))
  {
    var k := IndexOf(items, lineId);
    if k >= 0 {
      RemoveExisting(items, k);
      WellFormedWithout(items, k);
    }
  }

  /** Dropping one line from a well-formed list leaves it well-formed. */
  lemma WellFormedWithout(items: seq<Line>, k: int)
    requires WellFormed(items) && 0 <= k < |items|
    ensures WellFormed(items[..k] + items[k + 1..])
  {
    LinesWithout(items, k);
    UniqueWithout(items, k);
  }

  lemma LinesWithout(items: seq<Line>, k: int)
    requires 0 <= k < |items|
    requires forall j :: 0 <= j < |items| ==> items[j].quantity >= 1 && KeyedBySnapshot(items[j])
    ensures var r := items[..k] + items[k + 1..];
      forall j :: 0 <= j < |r| ==> r[j].quantity >= 1 && KeyedBySnapshot(r[j])
  {
    var r := items[..k] + items[k + 1..];
    forall j | 0 <= j < |r|
      ensures r[j].quantity >= 1 && KeyedBySnapshot(r[j])
    {
      assert r[j] == items[if j < k then j else j + 1];
    }
  }

  lemma UniqueWithout(items: seq<Line>, k: int)
    requires UniqueIds(items) && 0 <= k < |items|
    ensures UniqueIds(items[..k] + items[k + 1..])
  {
    var r := items[..k] + items[k + 1..];
    assert forall j :: 0 <= j < |r| ==> r[j] == items[if j < k then j else j + 1];
  }

  lemma SetQtyPreservesWellFormed(items: seq<Line>, lineId: string, qty: Option<int>)
    requires WellFormed(items)
    ensures WellFormed(SetQtyLine(items, lineId, qty))
  {
  }

  /** setQty with an id that no line has leaves the list as it was. */
  lemma SetQtyUnknownIsNoOp(items: seq<Line>, lineId: string, qty: Option<int>)
    requires forall k :: 0 <= k < |items| ==> items[k].lineId != lineId
    ensures SetQtyLine(items, lineId, qty) == items
  {
  }

  // Totals

  lemma {:induction false} SumsOfConcat(a: seq<Line>, b: seq<Line>)
    ensures SumQuantities(a + b) == SumQuantities(a) + SumQuantities(b)
    ensures SumAmounts(a + b) == SumAmounts(a) + SumAmounts(b)
    decreases |b|
  {
    if b == [] {
      assert a + b == a;
    } else {
      SumsOfConcat(a, b[..|b| - 1]);
      assert (a + b)[..|a + b| - 1] == a + b[..|b| - 1];
    }
  }

  /** Changing one line changes each total by exactly that line's difference. */
  lemma SumsOfUpdate(items: seq<Line>, k: int, l: Line)
    requires 0 <= k < |items|
    ensures SumQuantities(items[k := l]) == SumQuantities(items) - items[k].quantity + l.quantity
    ensures SumAmounts(items[k := l]) == SumAmounts(items) - LineAmount(items[k]) + LineAmount(l)
  {
    var a, x, b := items[..k], items[k], items[k + 1..];
    assert items[..k + 1] == a + [x];
    assert items == items[..k + 1] + b;
    assert items[k := l][..k + 1] == a + [l];
    assert items[k := l] == items[k := l][..k + 1] + b;
    SumsOfConcat(a + [x], b);
    SumsOfConcat(a + [l], b);
    SumsAfterAppend(a, x);
    SumsAfterAppend(a, l);
  }

  /** Every line holds at least one unit, so a well-formed cart holds at least as
      many items as it has lines. */
  lemma {:induction false} ItemsAtLeastLines(items: seq<Line>)
    requires forall k :: 0 <= k < |items| ==> items[k].quantity >= 1
    ensures SumQuantities(items) >= |items|
  {
    if items != [] {
      ItemsAtLeastLines(items[..|items| - 1]);
    }
  }

  /** add raises the item total by the clamped quantity, and the amount by that
      quantity times the price of the line that received it (the stored snapshot's
      price on a merge, the new snapshot's price on an append). */
  lemma TotalsAfterAdd(items: seq<Line>, p: ProductLike, qty: Option<int>)
    ensures var r, k := AddLine(items, p, qty), IndexOf(items, BuildLineId(p));
      && SumQuantities(r) == SumQuantities(items) + ClampQty(qty)
      && SumAmounts(r) == SumAmounts(items)
           + ClampQty(qty) * (if k >= 0 then items[k].product.price else Pack(p).price)
  {
    var k, c := IndexOf(items, BuildLineId(p)), ClampQty(qty);
    if k >= 0 {
      assert AddLine(items, p, qty) == items[k := items[k].(quantity := items[k].quantity + c)];
      SumsAfterMerge(items, k, c);
    } else {
      var l := Line(BuildLineId(p), Pack(p), c);
      assert AddLine(items, p, qty) == items + [l];
      SumsAfterAppend(items, l);
    }
  }

  /** Raising one line's quantity by c raises the totals by c units and c times its price. */
  lemma SumsAfterMerge(items: seq<Line>, k: int, c: int)
    requires 0 <= k < |items|
    ensures var r := items[k := items[k].(quantity := items[k].quantity + c)];
      && SumQuantities(r) == SumQuantities(items) + c
      && SumAmounts(r) == SumAmounts(items) + c * items[k].product.price
  {
    var l := items[k].(quantity := items[k].quantity + c);
    SumsOfUpdate(items, k, l);
    var n, price := items[k].quantity, items[k].product.price;
    assert LineAmount(l) == (n + c) * price == n * price + c * price;
  }

  lemma SumsAfterAppend(items: seq<Line>, l: Line)
    ensures SumQuantities(items + [l]) == SumQuantities(items) + l.quantity
    ensures SumAmounts(items + [l]) == SumAmounts(items) + LineAmount(l)
  {
    assert (items + [l])[..|items|] == items;
  }

  /** remove takes that line's quantity and amount out of the totals. */
  lemma TotalsAfterRemove(items: seq<Line>, k: int)
    requires UniqueIds(items) && 0 <= k < |items|
    ensures var r := RemoveLine(items, items[k].lineId);
      && SumQuantities(r) == SumQuantities(items) - items[k].quantity
      && SumAmounts(r) == SumAmounts(items) - items[k].quantity * items[k].product.price
  {
    RemoveExisting(items, k);
    SumsWithout(items, k);
  }

  /** Dropping the line at k takes its quantity and amount out of the totals. */
  lemma SumsWithout(items: seq<Line>, k: int)
    requires 0 <= k < |items|
    ensures SumQuantities(items[..k] + items[k + 1..]) == SumQuantities(items) - items[k].quantity
    ensures SumAmounts(items[..k] + items[k + 1..]) == SumAmounts(items) - LineAmount(items[k])
  {
    var a, x, b := items[..k], items[k], items[k + 1..];
    assert items[..k + 1] == a + [x];
    assert items == items[..k + 1] + b;
    SumsOfSplice(a, x, b);
  }

  lemma SumsOfSplice(a: seq<Line>, x: Line, b: seq<Line>)
    ensures SumQuantities(a + [x] + b) == SumQuantities(a + b) + x.quantity
    ensures SumAmounts(a + [x] + b) == SumAmounts(a + b) + LineAmount(x)
  {
    SumsOfConcat(a + [x], b);
    SumsOfConcat(a, b);
    SumsAfterAppend(a, x);
  }

  /** On a list with unique ids, setQty rewrites exactly one line. */
  lemma SetQtyAt(items: seq<Line>, k: int, qty: Option<int>)
    requires UniqueIds(items) && 0 <= k < |items|
    ensures SetQtyLine(items, items[k].lineId, qty) == items[k := items[k].(quantity := ClampQty(qty))]
  {
    var r := SetQtyLine(items, items[k].lineId, qty);
    assert forall j :: 0 <= j < |r| ==> r[j] == items[k := items[k].(quantity := ClampQty(qty))][j];
  }

  /** setQty replaces that line's quantity in the totals by the clamped one. */
  lemma TotalsAfterSetQty(items: seq<Line>, k: int, qty: Option<int>)
    requires UniqueIds(items) && 0 <= k < |items|
    ensures var r := SetQtyLine(items, items[k].lineId, qty);
      && SumQuantities(r) == SumQuantities(items) - items[k].quantity + ClampQty(qty)
      && SumAmounts(r) == SumAmounts(items) - items[k].quantity * items[k].product.price
                          + ClampQty(qty) * items[k].product.price
  {
    SetQtyAt(items, k, qty);
    SumsOfUpdate(items, k, items[k].(quantity := ClampQty(qty)));
  }

  // ---------------------------------------------------------------------------
  // The store object

  /** The store: its state is the `items` list, replaced by each operation. */
  class CartStore {
    var items: seq<Line>

    ghost predicate Valid()
      reads this
    {
      WellFormed(items)
    }

    /** A fresh store is empty. */
    constructor ()
      ensures Valid() && items == []
    {
      items := [];
    }

    /** add(product, qty = 1); a missing `qty` is `None`. */
    method Add(p: ProductLike, qty: Option<int>)
      requires Valid()
      modifies this
      ensures Valid()
      ensures items == AddLine(old(items), p, qty)
    {
      AddPreservesWellFormed(items, p, qty);
      items := AddTo(items, p, qty);
    }

    method Remove(lineId: string)
      requires Valid()
      modifies this
      ensures Valid()
      ensures items == RemoveLine(old(items), lineId)
    {
      RemovePreservesWellFormed(items, lineId);
      items := RemoveLine(items, lineId);
    }

    method SetQty(lineId: string, qty: Option<int>)
      requires Valid()
      modifies this
      ensures Valid()
      ensures items == SetQtyLine(old(items), lineId, qty)
    {
      SetQtyPreservesWellFormed(items, lineId, qty);
      items := SetQtyLine(items, lineId, qty);
    }

    method Clear()
      modifies this
      ensures Valid() && items == []
      ensures TotalItems() == 0 && TotalAmount() == 0
    {
      items := [];
    }

    /** totalItems(): at least one unit per line. */
    function TotalItems(): (n: int)
      reads this
      requires Valid()
      ensures n >= |items|
    {
      ItemsAtLeastLines(items);
      SumQuantities(items)
    }

    /** totalAmount(): with no negative prices, never negative. */
    function TotalAmount(): (n: int)
      reads this
      ensures (forall k :: 0 <= k < |items| ==> items[k].product.price >= 0 && items[k].quantity >= 0) ==> n >= 0
    {
      NonNegativeAmounts(items);
      SumAmounts(items)
    }
  }

  lemma {:induction false} NonNegativeAmounts(items: seq<Line>)
    ensures (forall k :: 0 <= k < |items| ==> items[k].product.price >= 0 && items[k].quantity >= 0) ==>
      SumAmounts(items) >= 0
  {
    if items != [] {
      NonNegativeAmounts(items[..|items| - 1]);
    }
  }
}

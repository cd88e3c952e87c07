/** The variant selection of src/pages/ProductDetail.jsx: the preselected
    variant, the colour and size options offered, the variant the current
    choice selects, the gallery and price shown, and the product object handed
    to the cart. The product is the shop shape the catalog mapper produces;
    fetching it and rendering are not part of this model. */
module ProductDetail {
  import opened Common
  import opened Catalog
  import opened Cart

  // ---------------------------------------------------------------------------
  // Preselection

  /** `variants.find(v => v.isDefault)`, as an index (-1 when there is none). */
  function FirstDefault(vs: seq<ShopVariant>): (i: int)
    ensures -1 <= i < |vs|
    ensures i >= 0 ==> vs[i].isDefault == Some(true)
    ensures forall k :: 0 <= k < |vs| && (i < 0 || k < i) ==> vs[k].isDefault != Some(true)
  {
    if vs == [] then -1
    else if vs[0].isDefault == Some(true) then 0
    else
      var i := FirstDefault(vs[1..]);
      if i < 0 then -1 else i + 1
  }

  /** `variants.find(v => v.isDefault) || variants[0] || null` */
  function Preselect(vs: seq<ShopVariant>): (r: Option<ShopVariant>)
    ensures vs == [] <==> r.None?
    ensures FirstDefault(vs) >= 0 ==> r == Some(vs[FirstDefault(vs)])
    ensures FirstDefault(vs) < 0 && vs != [] ==> r == Some(vs[0])
  {
    var i := FirstDefault(vs);
    if i >= 0 then Some(vs[i]) else if vs != [] then Some(vs[0]) else None
  }

  /** The chosen colour and size; `None` is `null`. */
  datatype Selection = Selection(color: Option<string>, size: Option<string>)

  /** The selection the page starts with: the preselected variant's colour and size. */
  function InitialSelection(vs: seq<ShopVariant>): (s: Selection)
    ensures Preselect(vs).None? ==> s == Selection(None, None)
    ensures Preselect(vs).Some? ==> s == Selection(Preselect(vs).value.color, Preselect(vs).value.size)
  {
    match Preselect(vs)
    case None => Selection(None, None)
    case Some(v) => Selection(v.color, v.size)
  }

  // ---------------------------------------------------------------------------
  // Options

  /** `xs.filter(Boolean)` over optional strings. */
  function PresentValues(xs: seq<Option<string>>): (r: seq<string>)
    ensures forall x :: x in r <==> x != "" && Some(x) in xs
  {
    if xs == [] then []
    else
      var init, last := PresentValues(xs[..|xs| - 1]), xs[|xs| - 1];
      assert xs == xs[..|xs| - 1] + [last];
      if Present(last) then init + [last.value] else init
  }

  /** `Array.from(new Set(xs))`: first appearances, in order. */
  function Distinct(xs: seq<string>): (r: seq<string>)
    ensures forall x :: x in r <==> x in xs
    ensures forall i, j :: 0 <= i < j < |r| ==> r[i] != r[j]
  {
    if xs == [] then []
    else
      var init, last := Distinct(xs[..|xs| - 1]), xs[|xs| - 1];
      assert xs == xs[..|xs| - 1] + [last];
      if last in init then init else init + [last]
  }

  /** A set keeps the order in which values first appear. */
  lemma {:induction false} DistinctKeepsOrder(xs: seq<string>)
    ensures IsSubsequence(Distinct(xs), xs)
  {
    if xs != [] {
      var init := xs[..|xs| - 1];
      DistinctKeepsOrder(init);
      SubsequenceExtend(Distinct(init), init, xs[|xs| - 1]);
      assert xs == init + [xs[|xs| - 1]];
    }
  }

  /** Of two values a set yields, the one that first appears earlier in the input
      comes first: `Array.from(new Set(xs))` lists first appearances in order. */
  lemma {:induction false} DistinctInFirstOrder(xs: seq<string>)
    ensures forall i, j :: 0 <= i < j < |Distinct(xs)| ==>
      FirstIndex(xs, Distinct(xs)[i]) < FirstIndex(xs, Distinct(xs)[j])
  {
    if xs != [] {
      var init, last := xs[..|xs| - 1], xs[|xs| - 1];
      DistinctInFirstOrder(init);
      assert xs == init + [last];
      var d, r := Distinct(init), Distinct(xs);
      assert r == d || r == d + [last];
      forall i, j | 0 <= i < j < |r|
        ensures FirstIndex(xs, r[i]) < FirstIndex(xs, r[j])
      {
        assert r[i] == d[i] && d[i] in init;
        FirstIndexOfPrefix(init, last, d[i]);
        if j < |d| {
          assert r[j] == d[j] && d[j] in init;
          FirstIndexOfPrefix(init, last, d[j]);
        } else {
          assert r[j] == last && last !in init;
          FirstIndexOfLast(init, last);
        }
      }
    }
  }

  /** Dropping the missing and empty values keeps the order of first appearances. */
  lemma {:induction false} PresentValuesKeepOrder(xs: seq<Option<string>>)
    ensures forall a, b ::
      (a in PresentValues(xs) && b in PresentValues(xs) && FirstIndex(PresentValues(xs), a) < FirstIndex(PresentValues(xs), b)) ==>
      FirstIndex(xs, Some(a)) < FirstIndex(xs, Some(b))
  {
    if xs != [] {
      var init, last := xs[..|xs| - 1], xs[|xs| - 1];
      PresentValuesKeepOrder(init);
      assert xs == init + [last];
      var p, q := PresentValues(init), PresentValues(xs);
      forall a, b | a in q && b in q && FirstIndex(q, a) < FirstIndex(q, b)
        ensures FirstIndex(xs, Some(a)) < FirstIndex(xs, Some(b))
      {
        if Present(last) {
          assert q == p + [last.value];
          if a !in p {
            FirstIndexOfLast(p, a);
          } else {
            FirstIndexOfPrefix(p, last.value, a);
            FirstIndexOfPrefix(init, last, Some(a));
            if b in p {
              FirstIndexOfPrefix(p, last.value, b);
              FirstIndexOfPrefix(init, last, Some(b));
            } else {
              FirstIndexOfLast(init, Some(b));
            }
          }
        } else {
          FirstIndexOfPrefix(init, last, Some(a));
          FirstIndexOfPrefix(init, last, Some(b));
        }
      }
    }
  }

  function Colors(vs: seq<ShopVariant>): (r: seq<Option<string>>)
    ensures |r| == |vs| && forall k :: 0 <= k < |vs| ==> r[k] == vs[k].color
  {
    seq(|vs|, k requires 0 <= k < |vs| => vs[k].color)
  }

  /** colorOptions */
  function ColorOptions(vs: seq<ShopVariant>): seq<string> {
    Distinct(PresentValues(Colors(vs)))
  }

  /** The colour options are the distinct non-empty colours of the variants, once each. */
  lemma ColorOptionsAreTheColors(vs: seq<ShopVariant>)
    ensures forall c :: c in ColorOptions(vs) <==> c != "" && exists k :: 0 <= k < |vs| && vs[k].color == Some(c)
    ensures forall i, j :: 0 <= i < j < |ColorOptions(vs)| ==> ColorOptions(vs)[i] != ColorOptions(vs)[j]
  {
    forall c | c != "" && exists k :: 0 <= k < |vs| && vs[k].color == Some(c)
      ensures c in ColorOptions(vs)
    {
      var k :| 0 <= k < |vs| && vs[k].color == Some(c);
      assert Colors(vs)[k] == Some(c);
    }
  }

  /** The colour options come in the order of the first variant carrying each colour. */
  lemma ColorOptionsInOrder(vs: seq<ShopVariant>)
    ensures forall i, j :: 0 <= i < j < |ColorOptions(vs)| ==>
      FirstIndex(Colors(vs), Some(ColorOptions(vs)[i])) < FirstIndex(Colors(vs), Some(ColorOptions(vs)[j]))
  {
    var pv := PresentValues(Colors(vs));
    DistinctInFirstOrder(pv);
    PresentValuesKeepOrder(Colors(vs));
  }

  /** `!color || v.color === color` */
  predicate ColorAllows(color: Option<string>, v: ShopVariant) {
    !Present(color) || v.color == color
  }

  /** The sizes of the variants the colour allows. */
  function SizesFor(vs: seq<ShopVariant>, color: Option<string>): (r: seq<Option<string>>)
    ensures forall x :: x in r <==> exists k :: 0 <= k < |vs| && ColorAllows(color, vs[k]) && vs[k].size == x
  {
    if vs == [] then []
    else
      var init, last := SizesFor(vs[..|vs| - 1], color), vs[|vs| - 1];
      assert forall k :: 0 <= k < |vs| - 1 ==> vs[..|vs| - 1][k] == vs[k];
      if ColorAllows(color, last) then init + [last.size] else init
  }

  /** sizeOptions */
  function SizeOptions(vs: seq<ShopVariant>, color: Option<string>): (r: seq<string>)
    ensures forall s :: s in r <==> s != "" && exists k :: 0 <= k < |vs| && ColorAllows(color, vs[k]) && vs[k].size == Some(s)
    ensures forall i, j :: 0 <= i < j < |r| ==> r[i] != r[j]
  {
    Distinct(PresentValues(SizesFor(vs, color)))
  }

  /** The size options come in the order of the first allowed variant carrying each size. */
  lemma SizeOptionsInOrder(vs: seq<ShopVariant>, color: Option<string>)
    ensures forall i, j :: 0 <= i < j < |SizeOptions(vs, color)| ==>
      FirstIndex(SizesFor(vs, color), Some(SizeOptions(vs, color)[i])) < FirstIndex(SizesFor(vs, color), Some(SizeOptions(vs, color)[j]))
  {
    var pv := PresentValues(SizesFor(vs, color));
    DistinctInFirstOrder(pv);
    PresentValuesKeepOrder(SizesFor(vs, color));
  }

  // ---------------------------------------------------------------------------
  // The selected variant

  /** `(color == null || v.color === color) && (size == null || v.size === size)` */
  predicate Matches(v: ShopVariant, s: Selection) {
    (s.color.None? || v.color == s.color) && (s.size.None? || v.size == s.size)
  }

  function FirstMatch(vs: seq<ShopVariant>, s: Selection): (i: int)
    ensures -1 <= i < |vs|
    ensures i >= 0 ==> Matches(vs[i], s)
    ensures forall k :: 0 <= k < |vs| && (i < 0 || k < i) ==> !Matches(vs[k], s)
  {
    if vs == [] then -1
    else if Matches(vs[0], s) then 0
    else
      var i := FirstMatch(vs[1..], s);
      if i < 0 then -1 else i + 1
  }

  /** selectedVariant */
  function SelectedVariant(vs: seq<ShopVariant>, s: Selection): (r: Option<ShopVariant>)
    ensures vs == [] ==> r.None?
    ensures r.Some? ==> Matches(r.value, s)
    ensures r.None? <==> forall k :: 0 <= k < |vs| ==> !Matches(vs[k], s)
    ensures r.Some? ==>
      exists i :: 0 <= i < |vs| && vs[i] == r.value && forall k :: 0 <= k < i ==> !Matches(vs[k], s)
  {
    if vs == [] then None
    else
      var i := FirstMatch(vs, s);
      if i >= 0 then Some(vs[i]) else None
  }

  /** The page opens on a variant whenever the product has one. */
  lemma InitialSelectionSelects(vs: seq<ShopVariant>)
    requires vs != []
    ensures SelectedVariant(vs, InitialSelection(vs)).Some?
  {
    var v := Preselect(vs).value;
    var i := if FirstDefault(vs) >= 0 then FirstDefault(vs) else 0;
    assert vs[i] == v && Matches(v, InitialSelection(vs));
  }

  /** Clicking a colour chooses it and clears the size. */
  function PickColor(s: Selection, c: string): (r: Selection)
    ensures r.color == Some(c) && r.size.None?
  {
    Selection(Some(c), None)
  }

  function PickSize(s: Selection, z: string): (r: Selection)
    ensures r.color == s.color && r.size == Some(z)
  {
    s.(size := Some(z))
  }

  /** Any offered colour, once clicked, selects a variant of that colour. */
  lemma PickedColorSelects(vs: seq<ShopVariant>, s: Selection, c: string)
    requires c in ColorOptions(vs)
    ensures var r := SelectedVariant(vs, PickColor(s, c));
      r.Some? && r.value.color == Some(c)
  {
    ColorOptionsAreTheColors(vs);
    var k :| 0 <= k < |vs| && vs[k].color == Some(c);
    assert Matches(vs[k], PickColor(s, c));
  }

  /** Any offered size, once clicked, selects a variant of that size and of the
      chosen colour, when the chosen colour is a real one or none. */
  lemma PickedSizeSelects(vs: seq<ShopVariant>, s: Selection, z: string)
    requires s.color.None? || Present(s.color)
    requires z in SizeOptions(vs, s.color)
    ensures var r := SelectedVariant(vs, PickSize(s, z));
      r.Some? && r.value.size == Some(z) && (s.color.Some? ==> r.value.color == s.color)
  {
    var k :| 0 <= k < |vs| && ColorAllows(s.color, vs[k]) && vs[k].size == Some(z);
    assert Matches(vs[k], PickSize(s, z));
  }

  // ---------------------------------------------------------------------------
  // Gallery, price and the cart payload

  /** gallery: the selected variant's images when it has any, else the product's. */
  function Gallery(p: ShopProduct, sel: Option<ShopVariant>): (r: seq<string>)
    ensures sel.Some? && sel.value.images != [] ==> r == sel.value.images
    ensures sel.None? || sel.value.images == [] ==> r == p.images
  {
    if sel.Some? && |sel.value.images| > 0 then sel.value.images else p.images
  }

  /** displayPrice: `selectedVariant?.price ?? product?.price ?? 0` */
  function DisplayPrice(p: ShopProduct, sel: Option<ShopVariant>): (r: int)
    ensures sel.Some? && sel.value.price.Some? ==> r == sel.value.price.value
    ensures (sel.None? || sel.value.price.None?) && p.price.Some? ==> r == p.price.value
    ensures (sel.None? || sel.value.price.None?) && p.price.None? ==> r == 0
  {
    if sel.Some? && sel.value.price.Some? then sel.value.price.value
    else p.price.GetOr(0)
  }

  /** The variant's field, or `null` when nothing is selected: `sel?.f ?? null`. */
  function SelectedColor(sel: Option<ShopVariant>): Option<string> {
    if sel.Some? then sel.value.color else None
  }

  function SelectedSize(sel: Option<ShopVariant>): Option<string> {
    if sel.Some? then sel.value.size else None
  }

  /** The displayName the page computes. */
  function PageDisplayName(p: ShopProduct, sel: Option<ShopVariant>): Option<string> {
    var c, z := SelectedColor(sel), SelectedSize(sel);
    if Present(c) || Present(z) then Some(DecoratedName(p.name, c, z)) else p.name
  }

  /** The product object passed to the add-to-cart button. */
  function CartPayload(p: ShopProduct, sel: Option<ShopVariant>): (r: ProductLike)
    ensures r.id == p.id && r.name == p.name
    ensures r.variantId == (if sel.Some? then sel.value.id else None)
    ensures r.color == SelectedColor(sel) && r.size == SelectedSize(sel)
    ensures r.price == Some(DisplayPrice(p, sel))
  {
    var g := Gallery(p, sel);
    ProductLike(p.id, if sel.Some? then sel.value.id else None, p.name, PageDisplayName(p, sel),
                Some(DisplayPrice(p, sel)),
                Some(seq(|g|, k requires 0 <= k < |g| => Text(g[k]))),
                if sel.Some? then sel.value.sku else None,
                SelectedColor(sel), SelectedSize(sel))
  }

  /** What the cart stores for the page's payload: the displayed price, the gallery
      with empty URLs dropped, and the same decorated name the page computed (the
      cart's own decoration agrees with it); the line is keyed by the product id and
      the selected variant's id, or 0 without one. */
  lemma CartSnapshotOfPayload(p: ShopProduct, sel: Option<ShopVariant>)
    ensures var s := Pack(CartPayload(p, sel));
      && s.price == DisplayPrice(p, sel)
      && s.images == NonEmpty(Gallery(p, sel))
      && s.name == (if Present(SelectedColor(sel)) || Present(SelectedSize(sel))
                    then Some(DecoratedName(p.name, SelectedColor(sel), SelectedSize(sel)))
                    else p.name)
      && s.sku == (if sel.Some? then sel.value.sku else None)
    ensures BuildLineId(CartPayload(p, sel)) == LineId(p.id, if sel.Some? then sel.value.id else None)
  {
    var g := Gallery(p, sel);
    var q := CartPayload(p, sel);
    assert UrlTexts(q.images.value) == g;
  }

  /** Two selections of variants with different ids put the product on different
      cart lines; selecting the same variant id twice reaches the same line. */
  lemma VariantsGetTheirOwnLines(p: ShopProduct, a: ShopVariant, b: ShopVariant)
    ensures BuildLineId(CartPayload(p, Some(a))) == BuildLineId(CartPayload(p, Some(b)))
      <==> a.id.GetOr(0) == b.id.GetOr(0)
  {
    LineIdIdentity(p.id, a.id, p.id, b.id);
  }
}

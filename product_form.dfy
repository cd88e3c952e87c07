/** The product editor of src/pages/Admin/ProductForm.jsx: slug and SKU
    building, the reducers that evolve the edited form, the request payload
    derived from it and the validation run before saving. The loading of the
    brand, category, colour and size lists, the uploads and the dialogs are
    not part of this model; the colour and size lists are parameters. */
module ProductForm {
  import opened Common
  import opened Catalog

  // ---------------------------------------------------------------------------
  // Slugs

  /** The characters `[a-z0-9]` a slug keeps. */
  predicate IsSlugChar(c: char) {
    'a' <= c <= 'z' || '0' <= c <= '9'
  }

  predicate SlugAlphabet(s: string) {
    forall k :: 0 <= k < |s| ==> IsSlugChar(s[k]) || s[k] == '-'
  }

  predicate NoDoubleDash(s: string) {
    forall k :: 0 <= k < |s| - 1 ==> !(s[k] == '-' && s[k + 1] == '-')
  }

  /** Lower-case letters, digits and single inner dashes only. */
  predicate IsSlug(s: string) {
    && SlugAlphabet(s)
    && NoDoubleDash(s)
    && (s == [] || (s[0] != '-' && s[|s| - 1] != '-'))
  }

  /** `replace(/[^a-z0-9]+/g, "-")`: every maximal run of other characters becomes
      one dash. */
  function Collapse(s: string): (r: string)
    ensures SlugAlphabet(r) && NoDoubleDash(r)
    ensures s == [] <==> r == []
    ensures s != [] ==> (r[|r| - 1] == '-' <==> !IsSlugChar(s[|s| - 1]))
  {
    if s == [] then []
    else
      var init, c := Collapse(s[..|s| - 1]), s[|s| - 1];
      if IsSlugChar(c) then init + [c]
      else if |s| >= 2 && !IsSlugChar(s[|s| - 2]) then init
      else init + ['-']
  }

  /** `replace(/(^-|-$)/g, "")` */
  function StripEdgeDashes(s: string): (r: string)
    requires NoDoubleDash(s)
    ensures NoDoubleDash(r)
    ensures r == [] || (r[0] != '-' && r[|r| - 1] != '-')
    ensures SlugAlphabet(s) ==> SlugAlphabet(r)
  {
    var a := if s != [] && s[0] == '-' then s[1..] else s;
    assert a == [] || a[0] != '-';
    if a != [] && a[|a| - 1] == '-' then a[..|a| - 1] else a
  }

  /** slugify on input without combining marks. */
  function Slugify(s: string): (r: string)
    ensures IsSlug(r)
  {
    StripEdgeDashes(Collapse(Trim(Lower(s))))
  }

  lemma {:induction false} CollapseOfSlugText(s: string)
    requires SlugAlphabet(s) && NoDoubleDash(s)
    ensures Collapse(s) == s
  {
    if s != [] {
      var init := s[..|s| - 1];
      CollapseOfSlugText(init);
    }
  }

  /** A slug is its own slug. */
  lemma SlugIsFixed(s: string)
    requires IsSlug(s)
    ensures Slugify(s) == s
  {
    assert Lower(s) == s;
    TrimOfUnpadded(s);
    CollapseOfSlugText(s);
  }

  /** slugify is idempotent. */
  lemma SlugifyIdempotent(s: string)
    ensures Slugify(Slugify(s)) == Slugify(s)
  {
    SlugIsFixed(Slugify(s));
  }

  /** The letters and digits of a string, in order. */
  function Alnums(s: string): (r: string)
    ensures forall k :: 0 <= k < |r| ==> IsSlugChar(r[k])
    ensures |r| <= |s|
  {
    if s == [] then []
    else if IsSlugChar(s[|s| - 1]) then Alnums(s[..|s| - 1]) + [s[|s| - 1]]
    else Alnums(s[..|s| - 1])
  }

  lemma {:induction false} AlnumsConcat(a: string, b: string)
    ensures Alnums(a + b) == Alnums(a) + Alnums(b)
    decreases |b|
  {
    if b == [] {
      assert a + b == a;
    } else {
      AlnumsConcat(a, b[..|b| - 1]);
      assert (a + b)[..|a + b| - 1] == a + b[..|b| - 1];
    }
  }

  lemma {:induction false} AlnumsOfSeparators(s: string)
    requires forall k :: 0 <= k < |s| ==> !IsSlugChar(s[k])
    ensures Alnums(s) == []
  {
    if s != [] {
      AlnumsOfSeparators(s[..|s| - 1]);
    }
  }

  lemma {:induction false} AlnumsCollapse(s: string)
    ensures Alnums(Collapse(s)) == Alnums(s)
  {
    if s != [] {
      var init, c := s[..|s| - 1], s[|s| - 1];
      AlnumsCollapse(init);
      AlnumsConcat(Collapse(init), [c]);
      AlnumsConcat(Collapse(init), ['-']);
      assert [c][..0] == [] && ['-'][..0] == [];
    }
  }

  /** A separator at either end contributes nothing. */
  lemma AlnumsOfEnds(s: string, c: char)
    requires !IsSlugChar(c)
    ensures Alnums([c] + s) == Alnums(s) && Alnums(s + [c]) == Alnums(s)
  {
    AlnumsConcat([c], s);
    AlnumsConcat(s, [c]);
    AlnumsOfSeparators([c]);
  }

  lemma AlnumsStrip(s: string)
    requires NoDoubleDash(s)
    ensures Alnums(StripEdgeDashes(s)) == Alnums(s)
  {
    var a := if s != [] && s[0] == '-' then s[1..] else s;
    if s != [] && s[0] == '-' {
      assert s == ['-'] + a;
      AlnumsOfEnds(a, '-');
    }
    assert Alnums(a) == Alnums(s);
    if a != [] && a[|a| - 1] == '-' {
      var b := a[..|a| - 1];
      assert a == b + ['-'];
      AlnumsOfEnds(b, '-');
      assert StripEdgeDashes(s) == b;
    } else {
      assert StripEdgeDashes(s) == a;
    }
  }

  lemma SpaceIsSeparator(c: char)
    requires IsSpace(c)
    ensures !IsSlugChar(c) && LowerChar(c) == c
  {
  }

  lemma AlnumsTrimStart(s: string)
    ensures Alnums(TrimStart(s)) == Alnums(s)
  {
    var t := TrimStart(s);
    var p := s[..|s| - |t|];
    assert s == p + t;
    AlnumsConcat(p, t);
    forall k | 0 <= k < |p|
      ensures !IsSlugChar(p[k])
    {
      SpaceIsSeparator(s[k]);
    }
    AlnumsOfSeparators(p);
  }

  lemma AlnumsTrimEnd(t: string)
    ensures Alnums(TrimEnd(t)) == Alnums(t)
  {
    var u := TrimEnd(t);
    var q := t[|u|..];
    assert t == u + q;
    AlnumsConcat(u, q);
    forall k | 0 <= k < |q|
      ensures !IsSlugChar(q[k])
    {
      SpaceIsSeparator(t[|u| + k]);
    }
    AlnumsOfSeparators(q);
  }

  lemma AlnumsTrim(s: string)
    ensures Alnums(Trim(s)) == Alnums(s)
  {
    AlnumsTrimStart(s);
    AlnumsTrimEnd(TrimStart(s));
  }

  /** The slug holds exactly the letters and digits of the lower-cased input, in order. */
  lemma SlugKeepsLettersAndDigits(s: string)
    ensures Alnums(Slugify(s)) == Alnums(Lower(s))
  {
    AlnumsTrim(Lower(s));
    AlnumsCollapse(Trim(Lower(s)));
    AlnumsStrip(Collapse(Trim(Lower(s))));
  }

  /** A name with at least one letter or digit never gives an empty slug. */
  lemma SlugOfWordIsNotBlank(s: string)
    requires Alnums(Lower(s)) != []
    ensures !Blank(Slugify(s))
  {
    SlugKeepsLettersAndDigits(s);
    var r := Slugify(s);
    assert Alnums(r) != [];
    SlugNotBlank(r);
  }

  lemma SlugNotBlank(r: string)
    requires IsSlug(r) && Alnums(r) != []
    ensures !Blank(r)
  {
    assert !IsSpace(r[0]) && !IsSpace(r[|r| - 1]);
    TrimOfUnpadded(r);
  }

  // ---------------------------------------------------------------------------
  // Colours, sizes and SKUs

  /** A colour or size of the global lists: `{ id, code, name }`. */
  datatype Attr = Attr(id: int, code: Option<string>, name: Option<string>)

  /** `new Map(list.map(c => [c.id, c])).get(id)`: the last entry with that id wins. */
  function LastWithId(list: seq<Attr>, id: int): (r: Option<Attr>)
    ensures r.Some? ==> r.value in list && r.value.id == id
    ensures r.None? <==> forall k :: 0 <= k < |list| ==> list[k].id != id
  {
    if list == [] then None
    else if list[|list| - 1].id == id then Some(list[|list| - 1])
    else LastWithId(list[..|list| - 1], id)
  }

  /** The entry found is the last one with that id: a later entry with the same id
      overrides an earlier one in the map. */
  lemma {:induction false} LastWithIdIsLast(list: seq<Attr>, id: int)
    ensures var r := LastWithId(list, id);
      r.Some? ==> exists k :: 0 <= k < |list| && list[k] == r.value && forall j :: k < j < |list| ==> list[j].id != id
  {
    if list != [] && list[|list| - 1].id != id {
      var init := list[..|list| - 1];
      LastWithIdIsLast(init, id);
      if LastWithId(init, id).Some? {
        var k :| 0 <= k < |init| && init[k] == LastWithId(init, id).value && forall j :: k < j < |init| ==> init[j].id != id;
        assert list[k] == init[k];
        assert forall j :: k < j < |list| ==> list[j].id != id;
      }
    }
  }

  /** `v.colorId ? colorMap.get(v.colorId) : null` */
  function Lookup(list: seq<Attr>, id: Option<int>): (r: Option<Attr>)
    ensures !Truthy(id) ==> r.None?
    ensures Truthy(id) ==> r == LastWithId(list, id.value)
  {
    if Truthy(id) then LastWithId(list, id.value) else None
  }

  /** `c?.code || c?.name || ""` */
  function AttrLabel(a: Option<Attr>): (r: string)
    ensures a.Some? && Present(a.value.code) ==> r == a.value.code.value
    ensures a.Some? && !Present(a.value.code) && Present(a.value.name) ==> r == a.value.name.value
    ensures a.None? || (!Present(a.value.code) && !Present(a.value.name)) ==> r == ""
  {
    if a.Some? && Present(a.value.code) then a.value.code.value
    else if a.Some? && Present(a.value.name) then a.value.name.value
    else ""
  }

  /** buildVariantSku */
  function BuildVariantSku(productName: string, color: Option<Attr>, size: Option<Attr>): (r: string)
    ensures IsSlug(r)
  {
    Slugify(Join(NonEmpty([Trim(productName), AttrLabel(color), AttrLabel(size)]), "-"))
  }

  /** The letters and digits a piece of text contributes to a slug. */
  function Letters(s: string): string {
    Alnums(Lower(s))
  }

  function LettersOfAll(parts: seq<string>): string {
    if parts == [] then [] else LettersOfAll(parts[..|parts| - 1]) + Letters(parts[|parts| - 1])
  }

  lemma LettersConcat(a: string, b: string)
    ensures Letters(a + b) == Letters(a) + Letters(b)
  {
    assert Lower(a + b) == Lower(a) + Lower(b);
    AlnumsConcat(Lower(a), Lower(b));
  }

  lemma {:induction false} JoinLetters(parts: seq<string>)
    ensures Letters(Join(parts, "-")) == LettersOfAll(parts)
  {
    if |parts| == 1 {
      assert parts[..0] == [];
    } else if |parts| > 1 {
      var init := parts[..|parts| - 1];
      JoinLetters(init);
      LettersConcat(Join(init, "-") + "-", parts[|parts| - 1]);
      LettersConcat(Join(init, "-"), "-");
      assert Letters("-") == [] by {
        AlnumsOfSeparators(Lower("-"));
      }
    }
  }

  lemma {:induction false} NonEmptyLetters(parts: seq<string>)
    ensures LettersOfAll(NonEmpty(parts)) == LettersOfAll(parts)
  {
    if parts != [] {
      var init, last := parts[..|parts| - 1], parts[|parts| - 1];
      NonEmptyLetters(init);
      if last != "" {
        assert (NonEmpty(init) + [last])[..|NonEmpty(init)|] == NonEmpty(init);
      }
    }
  }

  lemma LettersOfSpaces(p: string)
    requires forall k :: 0 <= k < |p| ==> IsSpace(p[k])
    ensures Letters(p) == []
  {
    forall k | 0 <= k < |p|
      ensures !IsSlugChar(Lower(p)[k])
    {
      SpaceIsSeparator(p[k]);
    }
    AlnumsOfSeparators(Lower(p));
  }

  lemma LettersTrimStart(s: string)
    ensures Letters(TrimStart(s)) == Letters(s)
  {
    var t := TrimStart(s);
    var p := s[..|s| - |t|];
    assert s == p + t;
    LettersConcat(p, t);
    LettersOfSpaces(p);
  }

  lemma LettersTrimEnd(t: string)
    ensures Letters(TrimEnd(t)) == Letters(t)
  {
    var u := TrimEnd(t);
    var q := t[|u|..];
    assert t == u + q;
    LettersConcat(u, q);
    assert forall k :: 0 <= k < |q| ==> q[k] == t[|u| + k];
    LettersOfSpaces(q);
  }

  lemma LettersTrim(s: string)
    ensures Letters(Trim(s)) == Letters(s)
  {
    LettersTrimStart(s);
    LettersTrimEnd(TrimStart(s));
  }

  /** The SKU spells, in order, the letters and digits of the product name, then of
      the colour's code (else name), then of the size's code (else name). */
  lemma SkuSpellsNameColorSize(productName: string, color: Option<Attr>, size: Option<Attr>)
    ensures Alnums(BuildVariantSku(productName, color, size))
      == Letters(productName) + Letters(AttrLabel(color)) + Letters(AttrLabel(size))
  {
    var parts := [Trim(productName), AttrLabel(color), AttrLabel(size)];
    var joined := Join(NonEmpty(parts), "-");
    assert BuildVariantSku(productName, color, size) == Slugify(joined);
    SlugKeepsLettersAndDigits(joined);
    assert Alnums(Lower(joined)) == Letters(joined);
    JoinLetters(NonEmpty(parts));
    NonEmptyLetters(parts);
    LettersOfThree(Trim(productName), AttrLabel(color), AttrLabel(size));
    LettersTrim(productName);
  }

  lemma LettersOfThree(a: string, b: string, c: string)
    ensures LettersOfAll([a, b, c]) == Letters(a) + Letters(b) + Letters(c)
  {
    assert [a, b, c][..2] == [a, b];
    assert [a, b][..1] == [a];
    assert [a][..0] == [];
    assert LettersOfAll([a]) == Letters(a);
    assert LettersOfAll([a, b]) == Letters(a) + Letters(b);
    assert LettersOfAll([a, b, c]) == LettersOfAll([a, b]) + Letters(c);
  }

  // ---------------------------------------------------------------------------
  // The edited form

  /** A variant as the form holds it. */
  datatype FormVariant = FormVariant(
    colorId: Option<int>,
    sizeId: Option<int>,
    sku: string,
    priceOverride: Override,
    isDefault: bool,
    images: seq<SortedImage>)

  /** The form state; its product image list is always empty and is not kept. */
  datatype Form = Form(
    name: string,
    slug: string,
    description: string,
    price: int,
    brandId: Option<int>,
    categoryId: Option<int>,
    variants: seq<FormVariant>)

  /** The state the editor starts from. */
  function EmptyForm(): (f: Form)
    ensures f.variants == [] && f.name == "" && f.slug == "" && f.price == 0
    ensures f.brandId.None? && f.categoryId.None?
  {
    Form("", "", "", 0, None, None, [])
  }

  function FormVariantOf(v: ApiVariant): FormVariant {
    FormVariant(v.colorId, v.sizeId, v.sku.GetOr(""),
                if v.priceOverride.Some? then Amount(v.priceOverride.value) else Unset,
                v.isDefault == Some(true), SortImages(v.images))
  }

  /** fromApiToForm */
  function FromApiToForm(p: AdminProduct): (f: Form)
    ensures |f.variants| == |p.variants|
  {
    Form(p.name.GetOr(""), p.slug.GetOr(""), p.description.GetOr(""), p.price.GetOr(0),
         p.brandId, p.categoryId,
         seq(|p.variants|, k requires 0 <= k < |p.variants| => FormVariantOf(p.variants[k])))
  }

  /** Loading keeps each variant's ids, SKU, override and images (positions fill in
      a missing sort), turns the default flag into a boolean, and defaults the text
      fields to "" and the price to 0. */
  lemma LoadedForm(p: AdminProduct, k: int)
    requires 0 <= k < |p.variants|
    ensures var f, v := FromApiToForm(p), p.variants[k];
      && f.name == p.name.GetOr("") && f.slug == p.slug.GetOr("")
      && f.description == p.description.GetOr("")
      && f.price == (if p.price.Some? then p.price.value else 0)
      && f.brandId == p.brandId && f.categoryId == p.categoryId
      && f.variants[k].colorId == v.colorId && f.variants[k].sizeId == v.sizeId
      && f.variants[k].sku == (if v.sku.Some? then v.sku.value else "")
      && (f.variants[k].isDefault <==> v.isDefault == Some(true))
      && NormalizeOverride(f.variants[k].priceOverride) == v.priceOverride
      && f.variants[k].images == SortImages(v.images)
  {
  }

  /** The SKU a variant gets from the product name and its colour and size ids. */
  function SkuFor(name: string, v: FormVariant, colors: seq<Attr>, sizes: seq<Attr>): string {
    BuildVariantSku(name, Lookup(colors, v.colorId), Lookup(sizes, v.sizeId))
  }

  /** Every variant's SKU is the one its current name, colour and size give. */
  predicate SkusCurrent(f: Form, colors: seq<Attr>, sizes: seq<Attr>) {
    forall k :: 0 <= k < |f.variants| ==> f.variants[k].sku == SkuFor(f.name, f.variants[k], colors, sizes)
  }

  /** `variants.map(v => ({ ...v, sku: buildVariantSku(name, colour, size) }))` */
  function WithCurrentSkus(name: string, vs: seq<FormVariant>, colors: seq<Attr>, sizes: seq<Attr>): (r: seq<FormVariant>)
    ensures |r| == |vs|
  {
    if vs == [] then []
    else
      var v := vs[|vs| - 1];
      WithCurrentSkus(name, vs[..|vs| - 1], colors, sizes) + [v.(sku := SkuFor(name, v, colors, sizes))]
  }

  lemma {:induction false} WithCurrentSkusAt(name: string, vs: seq<FormVariant>, colors: seq<Attr>, sizes: seq<Attr>, k: int)
    requires 0 <= k < |vs|
    ensures WithCurrentSkus(name, vs, colors, sizes)[k] == vs[k].(sku := SkuFor(name, vs[k], colors, sizes))
  {
    var init, v := vs[..|vs| - 1], vs[|vs| - 1];
    var w := WithCurrentSkus(name, init, colors, sizes);
    assert WithCurrentSkus(name, vs, colors, sizes) == w + [v.(sku := SkuFor(name, v, colors, sizes))];
    if k < |vs| - 1 {
      WithCurrentSkusAt(name, init, colors, sizes, k);
      assert init[k] == vs[k];
    }
  }

  /** recomputeAllVariantSkus */
  function RecomputeAllVariantSkus(f: Form, colors: seq<Attr>, sizes: seq<Attr>): (r: Form)
    ensures r.(variants := f.variants) == f
    ensures |r.variants| == |f.variants|
  {
    f.(variants := WithCurrentSkus(f.name, f.variants, colors, sizes))
  }

  /** Recomputing gives variant k the SKU of the name and its colour and size, and
      changes nothing else of it. */
  lemma RecomputeAt(f: Form, colors: seq<Attr>, sizes: seq<Attr>, k: int)
    requires 0 <= k < |f.variants|
    ensures RecomputeAllVariantSkus(f, colors, sizes).variants[k]
      == f.variants[k].(sku := SkuFor(f.name, f.variants[k], colors, sizes))
  {
    WithCurrentSkusAt(f.name, f.variants, colors, sizes, k);
  }

  /** After recomputing every SKU is current, and only the SKUs have changed. */
  lemma RecomputeMakesCurrent(f: Form, colors: seq<Attr>, sizes: seq<Attr>)
    ensures var r := RecomputeAllVariantSkus(f, colors, sizes);
      && SkusCurrent(r, colors, sizes)
      && forall k :: 0 <= k < |f.variants| ==> r.variants[k].(sku := f.variants[k].sku) == f.variants[k]
  {
    var r := RecomputeAllVariantSkus(f, colors, sizes);
    forall k | 0 <= k < |f.variants|
      ensures r.variants[k].sku == SkuFor(r.name, r.variants[k], colors, sizes)
      ensures r.variants[k].(sku := f.variants[k].sku) == f.variants[k]
    {
      RecomputeAt(f, colors, sizes, k);
    }
  }

  /** Recomputing leaves every default flag where it was. */
  lemma RecomputeKeepsFlags(f: Form, colors: seq<Attr>, sizes: seq<Attr>)
    ensures Flags(RecomputeAllVariantSkus(f, colors, sizes).variants) == Flags(f.variants)
  {
    var r := RecomputeAllVariantSkus(f, colors, sizes);
    forall k | 0 <= k < |f.variants|
      ensures r.variants[k].isDefault == f.variants[k].isDefault
    {
      RecomputeAt(f, colors, sizes, k);
    }
  }

  /** Recomputing when the SKUs are already current changes nothing. */
  lemma RecomputeWhenCurrent(f: Form, colors: seq<Attr>, sizes: seq<Attr>)
    requires SkusCurrent(f, colors, sizes)
    ensures RecomputeAllVariantSkus(f, colors, sizes) == f
  {
    var r := RecomputeAllVariantSkus(f, colors, sizes);
    forall k | 0 <= k < |f.variants|
      ensures r.variants[k] == f.variants[k]
    {
      RecomputeAt(f, colors, sizes, k);
    }
    assert r.variants == f.variants;
  }

  lemma RecomputeIdempotent(f: Form, colors: seq<Attr>, sizes: seq<Attr>)
    ensures var r := RecomputeAllVariantSkus(f, colors, sizes);
      RecomputeAllVariantSkus(r, colors, sizes) == r
  {
    RecomputeMakesCurrent(f, colors, sizes);
    RecomputeWhenCurrent(RecomputeAllVariantSkus(f, colors, sizes), colors, sizes);
  }

  /** The product-level fields `setField` is called with. */
  datatype FieldEdit =
    | SetName(name: string)
    | SetSlug(slug: string)
    | SetDescription(description: string)
    | SetPrice(price: int)
    | SetBrand(brandId: Option<int>)
    | SetCategory(categoryId: Option<int>)

  function ApplyField(f: Form, e: FieldEdit): Form {
    match e
    case SetName(x) => f.(name := x)
    case SetSlug(x) => f.(slug := x)
    case SetDescription(x) => f.(description := x)
    case SetPrice(x) => f.(price := x)
    case SetBrand(x) => f.(brandId := x)
    case SetCategory(x) => f.(categoryId := x)
  }

  /** setField: update one field, then recompute every SKU. */
  function SetField(f: Form, e: FieldEdit, colors: seq<Attr>, sizes: seq<Attr>): Form {
    RecomputeAllVariantSkus(ApplyField(f, e), colors, sizes)
  }

  /** Setting a field changes that field, leaves the variants as they were except
      for their SKUs, and leaves every SKU current. */
  lemma SetFieldUpdatesOneField(f: Form, e: FieldEdit, colors: seq<Attr>, sizes: seq<Attr>)
    ensures var r := SetField(f, e, colors, sizes);
      && r.(variants := f.variants) == ApplyField(f, e)
      && |r.variants| == |f.variants|
      && SkusCurrent(r, colors, sizes)
      && forall k :: 0 <= k < |f.variants| ==> r.variants[k].(sku := f.variants[k].sku) == f.variants[k]
  {
    assert ApplyField(f, e).variants == f.variants;
    RecomputeMakesCurrent(ApplyField(f, e), colors, sizes);
  }

  /** Renaming the product rewrites every SKU from the new name and touches nothing
      else of the variants. */
  lemma RenameRewritesSkus(f: Form, name: string, colors: seq<Attr>, sizes: seq<Attr>, k: int)
    requires 0 <= k < |f.variants|
    ensures var r := SetField(f, SetName(name), colors, sizes);
      && r.name == name && |r.variants| == |f.variants|
      && r.variants[k] == f.variants[k].(sku := SkuFor(name, f.variants[k], colors, sizes))
  {
    RecomputeAt(ApplyField(f, SetName(name)), colors, sizes, k);
  }

  /** onNameBlur: a blank slug is filled in from the name. */
  function OnNameBlur(f: Form, colors: seq<Attr>, sizes: seq<Attr>): (r: Form)
    ensures Blank(f.slug) ==> r.slug == Slugify(f.name)
    ensures Blank(f.slug) ==> r.(slug := f.slug, variants := f.variants) == f && |r.variants| == |f.variants|
    ensures Blank(f.slug) ==> SkusCurrent(r, colors, sizes)
    ensures !Blank(f.slug) ==> r == f
  {
    if Blank(f.slug) then
      SetFieldUpdatesOneField(f, SetSlug(Slugify(f.name)), colors, sizes);
      SetField(f, SetSlug(Slugify(f.name)), colors, sizes)
    else f
  }

  /** The variant fields the form edits one variant at a time. */
  datatype VariantEdit =
    | SetColorId(colorId: Option<int>)
    | SetSizeId(sizeId: Option<int>)
    | SetPriceOverride(priceOverride: Override)

  function ApplyVariantEdit(v: FormVariant, e: VariantEdit): FormVariant {
    match e
    case SetColorId(x) => v.(colorId := x)
    case SetSizeId(x) => v.(sizeId := x)
    case SetPriceOverride(x) => v.(priceOverride := x)
  }

  /** setVariantField, at an index of the list. */
  function SetVariantField(f: Form, idx: int, e: VariantEdit, colors: seq<Attr>, sizes: seq<Attr>): Form
    requires 0 <= idx < |f.variants|
  {
    RecomputeAllVariantSkus(f.(variants := f.variants[idx := ApplyVariantEdit(f.variants[idx], e)]), colors, sizes)
  }

  /** Editing variant idx gives variant k the edited (for k == idx) or old
      fields, with the SKU those fields give. */
  lemma EditAt(f: Form, idx: int, e: VariantEdit, colors: seq<Attr>, sizes: seq<Attr>, k: int)
    requires 0 <= idx < |f.variants| && 0 <= k < |f.variants|
    ensures var v := if k == idx then ApplyVariantEdit(f.variants[idx], e) else f.variants[k];
      SetVariantField(f, idx, e, colors, sizes).variants[k] == v.(sku := SkuFor(f.name, v, colors, sizes))
  {
    var g := f.(variants := f.variants[idx := ApplyVariantEdit(f.variants[idx], e)]);
    RecomputeAt(g, colors, sizes, k);
  }

  /** With current SKUs, editing one variant changes only that variant: its field
      and its SKU. */
  lemma EditTouchesOneVariant(f: Form, idx: int, e: VariantEdit, colors: seq<Attr>, sizes: seq<Attr>)
    requires 0 <= idx < |f.variants| && SkusCurrent(f, colors, sizes)
    ensures var r, w := SetVariantField(f, idx, e, colors, sizes), ApplyVariantEdit(f.variants[idx], e);
      && r.(variants := f.variants) == f
      && |r.variants| == |f.variants|
      && r.variants[idx] == w.(sku := SkuFor(f.name, w, colors, sizes))
      && forall k :: 0 <= k < |f.variants| && k != idx ==> r.variants[k] == f.variants[k]
  {
    var r := SetVariantField(f, idx, e, colors, sizes);
    EditAt(f, idx, e, colors, sizes, idx);
    forall k | 0 <= k < |f.variants| && k != idx
      ensures r.variants[k] == f.variants[k]
    {
      EditAt(f, idx, e, colors, sizes, k);
    }
  }

  /** Editing a variant takes the edit into that variant, leaves the other
      variants as they were except for their SKUs, and leaves every SKU current. */
  lemma EditSetsOneVariant(f: Form, idx: int, e: VariantEdit, colors: seq<Attr>, sizes: seq<Attr>)
    requires 0 <= idx < |f.variants|
    ensures var r, w := SetVariantField(f, idx, e, colors, sizes), ApplyVariantEdit(f.variants[idx], e);
      && r.(variants := f.variants) == f
      && |r.variants| == |f.variants|
      && SkusCurrent(r, colors, sizes)
      && r.variants[idx].(sku := w.sku) == w
      && forall k :: 0 <= k < |f.variants| && k != idx ==> r.variants[k].(sku := f.variants[k].sku) == f.variants[k]
  {
    var r := SetVariantField(f, idx, e, colors, sizes);
    forall k | 0 <= k < |f.variants|
      ensures r.variants[k].sku == SkuFor(r.name, r.variants[k], colors, sizes)
      ensures k != idx ==> r.variants[k].(sku := f.variants[k].sku) == f.variants[k]
    {
      EditAt(f, idx, e, colors, sizes, k);
    }
    EditAt(f, idx, e, colors, sizes, idx);
  }

  /** Editing a variant's colour, size or override leaves every default flag as it was. */
  lemma EditKeepsFlags(f: Form, idx: int, e: VariantEdit, colors: seq<Attr>, sizes: seq<Attr>)
    requires 0 <= idx < |f.variants|
    ensures Flags(SetVariantField(f, idx, e, colors, sizes).variants) == Flags(f.variants)
  {
    var w := ApplyVariantEdit(f.variants[idx], e);
    var g := f.(variants := f.variants[idx := w]);
    assert SetVariantField(f, idx, e, colors, sizes) == RecomputeAllVariantSkus(g, colors, sizes);
    RecomputeKeepsFlags(g, colors, sizes);
    forall k | 0 <= k < |f.variants|
      ensures g.variants[k].isDefault == f.variants[k].isDefault
    {
      if k == idx {
        assert g.variants[k] == w;
      }
    }
    assert Flags(g.variants) == Flags(f.variants);
  }

  // ---------------------------------------------------------------------------
  // The default variant

  function Flags(vs: seq<FormVariant>): (r: seq<bool>)
    ensures |r| == |vs| && forall k :: 0 <= k < |vs| ==> r[k] == vs[k].isDefault
  {
    seq(|vs|, k requires 0 <= k < |vs| => vs[k].isDefault)
  }

  /** Exactly one flag is set. */
  predicate ExactlyOne(a: seq<bool>) {
    exists i :: 0 <= i < |a| && a[i] && forall j :: 0 <= j < |a| && j != i ==> !a[j]
  }

  /** The form's rule: a non-empty variant list has exactly one default. */
  predicate OneDefault(vs: seq<FormVariant>) {
    vs == [] || ExactlyOne(Flags(vs))
  }

  /** `arr.filter((_, i) => i !== idx)` */
  function Without<T>(xs: seq<T>, idx: int): (r: seq<T>)
    ensures 0 <= idx < |xs| ==> |r| == |xs| - 1
    ensures 0 <= idx < |xs| ==> forall k :: 0 <= k < |r| ==> r[k] == xs[if k < idx then k else k + 1]
    ensures !(0 <= idx < |xs|) ==> r == xs
  {
    if 0 <= idx < |xs| then xs[..idx] + xs[idx + 1..] else xs
  }

  /** setVariantDefault */
  function SetVariantDefault(f: Form, idx: int): (r: Form)
    ensures r.(variants := f.variants) == f && |r.variants| == |f.variants|
    ensures forall k :: 0 <= k < |f.variants| ==> r.variants[k] == f.variants[k].(isDefault := k == idx)
  {
    f.(variants := seq(|f.variants|, k requires 0 <= k < |f.variants| => f.variants[k].(isDefault := k == idx)))
  }

  lemma SetVariantDefaultMakesOne(f: Form, idx: int)
    requires 0 <= idx < |f.variants|
    ensures ExactlyOne(Flags(SetVariantDefault(f, idx).variants))
    ensures Flags(SetVariantDefault(f, idx).variants)[idx]
  {
    var a := Flags(SetVariantDefault(f, idx).variants);
    assert a[idx];
  }

  function BlankVariant(isDefault: bool): FormVariant {
    FormVariant(None, None, "", Unset, isDefault, [])
  }

  /** addVariant */
  function AddVariant(f: Form, colors: seq<Attr>, sizes: seq<Attr>): Form {
    RecomputeAllVariantSkus(f.(variants := f.variants + [BlankVariant(f.variants == [])]), colors, sizes)
  }

  /** addVariant appends one blank variant (its SKU from the name alone) that is the
      default exactly when the list was empty; the earlier variants keep all but
      their SKUs. */
  lemma AddVariantAppendsOne(f: Form, colors: seq<Attr>, sizes: seq<Attr>)
    ensures var r := AddVariant(f, colors, sizes);
      && |r.variants| == |f.variants| + 1
      && r.variants[|f.variants|].(sku := "") == BlankVariant(f.variants == [])
      && r.variants[|f.variants|].sku == BuildVariantSku(f.name, None, None)
      && (r.variants[|f.variants|].isDefault <==> f.variants == [])
      && forall k :: 0 <= k < |f.variants| ==> r.variants[k].(sku := f.variants[k].sku) == f.variants[k]
  {
    var n, b := |f.variants|, BlankVariant(f.variants == []);
    var g := f.(variants := f.variants + [b]);
    var r := RecomputeAllVariantSkus(g, colors, sizes);
    forall k | 0 <= k < n
      ensures r.variants[k].(sku := f.variants[k].sku) == f.variants[k]
    {
      assert g.variants[k] == f.variants[k];
      RecomputeAt(g, colors, sizes, k);
    }
    assert g.variants[n] == b;
    RecomputeAt(g, colors, sizes, n);
    assert SkuFor(f.name, b, colors, sizes) == BuildVariantSku(f.name, None, None);
  }

  lemma AddVariantKeepsOneDefault(f: Form, colors: seq<Attr>, sizes: seq<Attr>)
    requires OneDefault(f.variants)
    ensures OneDefault(AddVariant(f, colors, sizes).variants)
  {
    var g := f.(variants := f.variants + [BlankVariant(f.variants == [])]);
    RecomputeKeepsFlags(g, colors, sizes);
    var a := Flags(f.variants);
    assert Flags(g.variants) == a + [f.variants == []];
    if f.variants == [] {
      OneWithLastSet(a);
    } else {
      OneWithLastClear(a);
    }
  }

  /** Whether some variant is the default: `arr.some(v => v.isDefault)`. */
  predicate AnyDefault(vs: seq<FormVariant>) {
    exists k :: 0 <= k < |vs| && vs[k].isDefault
  }

  /** removeVariant */
  function RemoveVariant(f: Form, idx: int): (r: Form)
    ensures r.(variants := f.variants) == f
    ensures var arr := Without(f.variants, idx);
      && |r.variants| == |arr|
      && (arr == [] || AnyDefault(arr) ==> r.variants == arr)
      && (arr != [] && !AnyDefault(arr) ==> r.variants == arr[0 := arr[0].(isDefault := true)])
  {
    var arr := Without(f.variants, idx);
    if |arr| > 0 && !AnyDefault(arr) then f.(variants := arr[0 := arr[0].(isDefault := true)])
    else f.(variants := arr)
  }

  lemma RemoveVariantKeepsOneDefault(f: Form, idx: int)
    requires OneDefault(f.variants)
    ensures OneDefault(RemoveVariant(f, idx).variants)
  {
    var vs := f.variants;
    var arr := Without(vs, idx);
    var a := Flags(vs);
    if vs != [] {
      if !(0 <= idx < |vs|) {
        OneIsSome(a);
        assert AnyDefault(arr);
      } else {
        assert Flags(arr) == Without(a, idx);
        OneAfterWithout(a, idx);
        if a[idx] {
          assert !AnyDefault(arr);
          if arr != [] {
            assert Flags(arr[0 := arr[0].(isDefault := true)]) == Flags(arr)[0 := true];
            OneAfterSettingFirst(Flags(arr));
          }
        } else {
          OneIsSome(Flags(arr));
          assert AnyDefault(arr);
        }
      }
    }
  }

  lemma OneIsSome(a: seq<bool>)
    requires ExactlyOne(a)
    ensures exists k :: 0 <= k < |a| && a[k]
  {
  }

  /** Dropping the one set flag leaves none; dropping another leaves exactly one. */
  lemma OneAfterWithout(a: seq<bool>, idx: int)
    requires ExactlyOne(a) && 0 <= idx < |a|
    ensures a[idx] ==> forall k :: 0 <= k < |a| - 1 ==> !Without(a, idx)[k]
    ensures !a[idx] ==> ExactlyOne(Without(a, idx))
  {
    var i :| 0 <= i < |a| && a[i] && forall j :: 0 <= j < |a| && j != i ==> !a[j];
    var w := a[..idx] + a[idx + 1..];
    assert w == Without(a, idx);
    assert forall k :: 0 <= k < idx ==> w[k] == a[k];
    assert forall k :: idx <= k < |w| ==> w[k] == a[k + 1];
    if !a[idx] {
      var i' := if i < idx then i else i - 1;
      assert w[i'];
      assert forall j :: 0 <= j < |w| && j != i' ==> !w[j];
    }
  }

  lemma OneAfterSettingFirst(a: seq<bool>)
    requires a != [] && forall k :: 0 <= k < |a| ==> !a[k]
    ensures ExactlyOne(a[0 := true])
  {
    assert a[0 := true][0];
  }

  // ---------------------------------------------------------------------------
  // Variant images

  /** Every image's sort is its position. */
  predicate Numbered(imgs: seq<SortedImage>) {
    forall k :: 0 <= k < |imgs| ==> imgs[k].sort == k
  }

  function Urls(imgs: seq<SortedImage>): (r: seq<string>)
    ensures |r| == |imgs| && forall k :: 0 <= k < |imgs| ==> r[k] == imgs[k].url
  {
    seq(|imgs|, k requires 0 <= k < |imgs| => imgs[k].url)
  }

  /** `.map((x, i) => ({ ...x, sort: i }))` */
  function Renumber(imgs: seq<SortedImage>): (r: seq<SortedImage>)
    ensures Numbered(r) && Urls(r) == Urls(imgs)
  {
    seq(|imgs|, k requires 0 <= k < |imgs| => imgs[k].(sort := k))
  }

  lemma RenumberNumbered(imgs: seq<SortedImage>)
    requires Numbered(imgs)
    ensures Renumber(imgs) == imgs
  {
  }

  /** The swap `[imgs[i], imgs[j]] = [imgs[j], imgs[i]]`. */
  function Swap(imgs: seq<SortedImage>, i: int, j: int): (r: seq<SortedImage>)
    requires 0 <= i < |imgs| && 0 <= j < |imgs|
    ensures |r| == |imgs| && r[i] == imgs[j] && r[j] == imgs[i]
    ensures forall k :: 0 <= k < |imgs| && k != i && k != j ==> r[k] == imgs[k]
    ensures multiset(r) == multiset(imgs)
  {
    imgs[i := imgs[j]][j := imgs[i]]
  }

  function WithImages(f: Form, vIdx: int, imgs: seq<SortedImage>): (r: Form)
    requires 0 <= vIdx < |f.variants|
  {
    f.(variants := f.variants[vIdx := f.variants[vIdx].(images := imgs)])
  }

  /** The append step of addVariantFiles: new image i gets sort (old length + i). */
  function AppendUploads(f: Form, idx: int, uploaded: seq<string>): Form
    requires 0 <= idx < |f.variants|
  {
    var base := f.variants[idx].images;
    WithImages(f, idx, base + seq(|uploaded|, i requires 0 <= i < |uploaded| => SortedImage(uploaded[i], |base| + i)))
  }

  /** Uploads keep the existing images, follow them in upload order with sorts
      counting on from the old length, and keep a numbered list numbered; nothing
      else of the form changes. */
  lemma AppendKeepsNumbering(f: Form, idx: int, uploaded: seq<string>)
    requires 0 <= idx < |f.variants|
    ensures var r, base := AppendUploads(f, idx, uploaded), f.variants[idx].images;
      && r.(variants := f.variants) == f
      && |r.variants| == |f.variants|
      && (forall k :: 0 <= k < |f.variants| && k != idx ==> r.variants[k] == f.variants[k])
      && r.variants[idx].(images := base) == f.variants[idx]
    ensures var base, imgs := f.variants[idx].images, AppendUploads(f, idx, uploaded).variants[idx].images;
      && |imgs| == |base| + |uploaded|
      && imgs[..|base|] == base
      && (forall i :: 0 <= i < |uploaded| ==> imgs[|base| + i] == SortedImage(uploaded[i], |base| + i))
      && Urls(imgs) == Urls(base) + uploaded
      && (Numbered(base) ==> Numbered(imgs))
  {
    var base := f.variants[idx].images;
    var added := seq(|uploaded|, i requires 0 <= i < |uploaded| => SortedImage(uploaded[i], |base| + i));
    var imgs := base + added;
    assert AppendUploads(f, idx, uploaded) == WithImages(f, idx, imgs);
    assert forall i :: 0 <= i < |uploaded| ==> imgs[|base| + i] == added[i];
    assert Urls(added) == uploaded;
    assert Urls(imgs) == Urls(base) + Urls(added);
  }

  /** removeVariantImage */
  function RemoveVariantImage(f: Form, vIdx: int, imgIdx: int): Form
    requires 0 <= vIdx < |f.variants|
  {
    WithImages(f, vIdx, Renumber(Without(f.variants[vIdx].images, imgIdx)))
  }

  /** Removing an image drops exactly that URL, keeps the others in order and
      numbers the rest 0..n-1; the other variants and fields stay. */
  lemma RemoveImageDropsOne(f: Form, vIdx: int, imgIdx: int)
    requires 0 <= vIdx < |f.variants| && 0 <= imgIdx < |f.variants[vIdx].images|
    ensures var r, old_imgs := RemoveVariantImage(f, vIdx, imgIdx), f.variants[vIdx].images;
      && r.(variants := f.variants) == f
      && |r.variants| == |f.variants|
      && (forall k :: 0 <= k < |f.variants| && k != vIdx ==> r.variants[k] == f.variants[k])
      && r.variants[vIdx].(images := old_imgs) == f.variants[vIdx]
      && Numbered(r.variants[vIdx].images)
      && Urls(r.variants[vIdx].images) == Urls(old_imgs)[..imgIdx] + Urls(old_imgs)[imgIdx + 1..]
  {
    var imgs := f.variants[vIdx].images;
    var w := Without(imgs, imgIdx);
    assert Urls(w) == Urls(imgs)[..imgIdx] + Urls(imgs)[imgIdx + 1..];
  }

  /** moveVariantImage: out of range leaves the whole form as it was. */
  function MoveVariantImage(f: Form, vIdx: int, imgIdx: int, dir: int): (r: Form)
    requires 0 <= vIdx < |f.variants| && 0 <= imgIdx < |f.variants[vIdx].images|
    ensures var imgs, j := f.variants[vIdx].images, imgIdx + dir;
      && (j < 0 || j >= |imgs| ==> r == f)
      && (0 <= j < |imgs| ==> r == WithImages(f, vIdx, Renumber(Swap(imgs, imgIdx, j))))
  {
    var imgs, j := f.variants[vIdx].images, imgIdx + dir;
    if j < 0 || j >= |imgs| then f else WithImages(f, vIdx, Renumber(Swap(imgs, imgIdx, j)))
  }

  /** Moving an image swaps its URL with its neighbour's and renumbers. */
  lemma MoveSwapsUrls(f: Form, vIdx: int, imgIdx: int, dir: int)
    requires 0 <= vIdx < |f.variants| && 0 <= imgIdx < |f.variants[vIdx].images|
    requires 0 <= imgIdx + dir < |f.variants[vIdx].images|
    ensures var u, r := Urls(f.variants[vIdx].images), MoveVariantImage(f, vIdx, imgIdx, dir).variants[vIdx].images;
      && Numbered(r)
      && Urls(r) == u[imgIdx := u[imgIdx + dir]][imgIdx + dir := u[imgIdx]]
      && multiset(Urls(r)) == multiset(u)
  {
    var imgs, j := f.variants[vIdx].images, imgIdx + dir;
    var u := Urls(imgs);
    assert Urls(Swap(imgs, imgIdx, j)) == u[imgIdx := u[j]][j := u[imgIdx]];
  }

  /** Moving an image back where it came from restores a numbered form. */
  lemma MoveThenMoveBack(f: Form, vIdx: int, imgIdx: int, dir: int)
    requires 0 <= vIdx < |f.variants| && 0 <= imgIdx < |f.variants[vIdx].images|
    requires 0 <= imgIdx + dir < |f.variants[vIdx].images|
    requires Numbered(f.variants[vIdx].images)
    ensures MoveVariantImage(MoveVariantImage(f, vIdx, imgIdx, dir), vIdx, imgIdx + dir, -dir) == f
  {
    var imgs, j := f.variants[vIdx].images, imgIdx + dir;
    var once := Renumber(Swap(imgs, imgIdx, j));
    var twice := Renumber(Swap(once, j, imgIdx));
    assert twice == imgs by {
      assert forall k :: 0 <= k < |imgs| ==> twice[k] == imgs[k];
    }
    var g := WithImages(f, vIdx, once);
    assert MoveVariantImage(f, vIdx, imgIdx, dir) == g;
    assert g.variants[vIdx].images == once;
    assert MoveVariantImage(g, vIdx, j, -dir) == WithImages(g, vIdx, twice);
    assert WithImages(g, vIdx, twice).variants == f.variants;
  }

  // ---------------------------------------------------------------------------
  // The payload

  datatype PayloadVariant = PayloadVariant(
    colorId: Option<int>,
    sizeId: Option<int>,
    sku: string,
    priceOverride: Option<int>,
    isDefault: bool,
    images: seq<SortedImage>)

  /** The object sent to create or update a product; its image list is always empty. */
  datatype Payload = Payload(
    name: string,
    slug: string,
    description: string,
    price: int,
    brandId: Option<int>,
    categoryId: Option<int>,
    variants: seq<PayloadVariant>)

  function PayloadVariantOf(name: string, v: FormVariant, colors: seq<Attr>, sizes: seq<Attr>): PayloadVariant {
    PayloadVariant(v.colorId, v.sizeId, SkuFor(name, v, colors, sizes),
                   NormalizeOverride(v.priceOverride), v.isDefault, v.images)
  }

  /** payload */
  function PayloadOf(f: Form, colors: seq<Attr>, sizes: seq<Attr>): (p: Payload)
    ensures |p.variants| == |f.variants|
  {
    Payload(f.name, if !Blank(f.slug) then f.slug else Slugify(f.name), f.description, f.price,
            f.brandId, f.categoryId,
            seq(|f.variants|, k requires 0 <= k < |f.variants| => PayloadVariantOf(f.name, f.variants[k], colors, sizes)))
  }

  /** The payload carries the current SKUs whatever the form holds, a blank slug is
      replaced by the slug of the name, and a blank override is sent as null. */
  lemma PayloadFromForm(f: Form, colors: seq<Attr>, sizes: seq<Attr>, k: int)
    requires 0 <= k < |f.variants|
    ensures var p, v := PayloadOf(f, colors, sizes), f.variants[k];
      && p.variants[k].sku == RecomputeAllVariantSkus(f, colors, sizes).variants[k].sku
      && IsSlug(p.variants[k].sku)
      && p.variants[k].colorId == v.colorId && p.variants[k].sizeId == v.sizeId
      && p.variants[k].isDefault == v.isDefault && p.variants[k].images == v.images
      && p.variants[k].priceOverride == (if v.priceOverride.Amount? then Some(v.priceOverride.n) else None)
      && (Blank(f.slug) ==> p.slug == Slugify(f.name))
      && (!Blank(f.slug) ==> p.slug == f.slug)
  {
    RecomputeAt(f, colors, sizes, k);
  }

  /** With a name holding a letter or digit the payload's slug is never blank. */
  lemma PayloadSlugPresent(f: Form, colors: seq<Attr>, sizes: seq<Attr>)
    requires Alnums(Lower(f.name)) != []
    ensures !Blank(PayloadOf(f, colors, sizes).slug)
  {
    if Blank(f.slug) {
      SlugOfWordIsNotBlank(f.name);
    }
  }

  // ---------------------------------------------------------------------------
  // Saving: what mapAdminToApi receives

  /** The payload as mapAdminToApi reads it: it looks for `color` and `size`, which
      the payload does not have, so both read as undefined. */
  function ToAdminInput(p: Payload): AdminProductIn {
    AdminProductIn(p.categoryId, p.brandId, p.name, p.slug, p.description, Some(p.price), Some([]),
      Some(seq(|p.variants|, k requires 0 <= k < |p.variants| =>
        var v := p.variants[k];
        AdminVariantIn(None, None, Some(v.sku),
                       if v.priceOverride.Some? then Amount(v.priceOverride.value) else Unset,
                       Some(v.isDefault),
                       Some(seq(|v.images|, j requires 0 <= j < |v.images| => ApiImage(v.images[j].url, Some(v.images[j].sort))))))))
  }

  /** What the API receives for a saved form: the variants in order with their SKU,
      override, default flag and numbered images, but never a colour or size, so
      the chosen colour and size ids do not reach the request body. */
  lemma SavedVariantsLoseColorAndSize(f: Form, colors: seq<Attr>, sizes: seq<Attr>, k: int)
    requires 0 <= k < |f.variants|
    ensures var out, p := MapAdminToApi(ToAdminInput(PayloadOf(f, colors, sizes))), PayloadOf(f, colors, sizes);
      && |out.variants| == |f.variants|
      && out.variants[k].color.None? && out.variants[k].size.None?
      && out.variants[k].sku == p.variants[k].sku
      && out.variants[k].priceOverride == NormalizeOverride(f.variants[k].priceOverride)
      && out.variants[k].isDefault == f.variants[k].isDefault
      && out.variants[k].images == f.variants[k].images
      && out.images == [] && out.price == f.price && out.slug == p.slug
  {
    var p := PayloadOf(f, colors, sizes);
    assert p.variants[k] == PayloadVariantOf(f.name, f.variants[k], colors, sizes);
    var a := ToAdminInput(p);
    AdminToApiVariant(a, k);
    var out := MapAdminToApi(a);
    var w, v := out.variants[k], f.variants[k];
    assert |w.images| == |v.images|;
    forall j | 0 <= j < |w.images|
      ensures w.images[j] == v.images[j]
    {
      assert a.variants.value[k].images.value[j] == ApiImage(v.images[j].url, Some(v.images[j].sort));
    }
    assert w.images == v.images;
  }

  // ---------------------------------------------------------------------------
  // Validation

  datatype FormError =
    | NameRequired        // "Nombre requerido"
    | SlugRequired        // "Slug requerido"
    | BrandRequired       // "Marca requerida"
    | CategoryRequired    // "Categoría requerida"
    | DefaultNotUnique    // "Debés marcar exactamente una variante como default"
    | RepeatedVariant     // "Hay variantes repetidas (color/tamaño)"

  /** `filter(v => v.isDefault).length` */
  function CountTrue(a: seq<bool>): nat {
    if a == [] then 0 else CountTrue(a[..|a| - 1]) + (if a[|a| - 1] then 1 else 0)
  }

  lemma {:induction false} CountTrueZero(a: seq<bool>)
    ensures CountTrue(a) == 0 <==> forall k :: 0 <= k < |a| ==> !a[k]
  {
    if a != [] {
      CountTrueZero(a[..|a| - 1]);
    }
  }

  /** Counting to one is having exactly one. */
  lemma {:induction false} CountTrueOne(a: seq<bool>)
    ensures CountTrue(a) == 1 <==> ExactlyOne(a)
  {
    if a != [] {
      var init, x := a[..|a| - 1], a[|a| - 1];
      assert a == init + [x];
      CountTrueOne(init);
      CountTrueZero(init);
      if x {
        OneWithLastSet(init);
      } else {
        OneWithLastClear(init);
      }
    }
  }

  lemma OneWithLastSet(init: seq<bool>)
    ensures ExactlyOne(init + [true]) <==> forall k :: 0 <= k < |init| ==> !init[k]
  {
    var a := init + [true];
    if forall k :: 0 <= k < |init| ==> !init[k] {
      assert a[|init|];
    }
    if ExactlyOne(a) {
      var i :| 0 <= i < |a| && a[i] && forall j :: 0 <= j < |a| && j != i ==> !a[j];
      assert i == |init|;
      assert forall k :: 0 <= k < |init| ==> init[k] == a[k];
    }
  }

  lemma OneWithLastClear(init: seq<bool>)
    ensures ExactlyOne(init + [false]) <==> ExactlyOne(init)
  {
    var a := init + [false];
    if ExactlyOne(init) {
      var i :| 0 <= i < |init| && init[i] && forall j :: 0 <= j < |init| && j != i ==> !init[j];
      assert a[i];
    }
    if ExactlyOne(a) {
      var i :| 0 <= i < |a| && a[i] && forall j :: 0 <= j < |a| && j != i ==> !a[j];
      assert i < |init| && init[i];
      assert forall j :: 0 <= j < |init| ==> init[j] == a[j];
    }
  }

  function PayloadFlags(vs: seq<PayloadVariant>): (r: seq<bool>)
    ensures |r| == |vs| && forall k :: 0 <= k < |vs| ==> r[k] == vs[k].isDefault
  {
    seq(|vs|, k requires 0 <= k < |vs| => vs[k].isDefault)
  }

  /** The text of `${colorId ?? ""}` */
  function OptIdText(id: Option<int>): string {
    match id
    case None => ""
    case Some(n) => IntText(n)
  }

  lemma OptIdTextHasNoUnderscore(id: Option<int>)
    ensures '_' !in OptIdText(id)
  {
    if id.Some? {
      IntTextShape(id.value);
    }
  }

  /** `${v.colorId ?? ""}__${v.sizeId ?? ""}` */
  function PairKey(v: PayloadVariant): string {
    OptIdText(v.colorId) + "__" + OptIdText(v.sizeId)
  }

  predicate SamePair(a: PayloadVariant, b: PayloadVariant) {
    a.colorId == b.colorId && a.sizeId == b.sizeId
  }

  /** Equal keys mean the same (colorId, sizeId) pair, and conversely. */
  lemma PairKeyIdentity(a: PayloadVariant, b: PayloadVariant)
    ensures PairKey(a) == PairKey(b) <==> SamePair(a, b)
  {
    if PairKey(a) == PairKey(b) {
      var ca, cb := OptIdText(a.colorId), OptIdText(b.colorId);
      var sa, sb := OptIdText(a.sizeId), OptIdText(b.sizeId);
      assert ca + ['_'] + ("_" + sa) == PairKey(a);
      assert cb + ['_'] + ("_" + sb) == PairKey(b);
      OptIdTextHasNoUnderscore(a.colorId);
      OptIdTextHasNoUnderscore(b.colorId);
      SplitAtSeparator(ca, "_" + sa, cb, "_" + sb, '_');
      assert sa == ("_" + sa)[1..] == ("_" + sb)[1..] == sb;
      OptIdTextInjective(a.colorId, b.colorId);
      OptIdTextInjective(a.sizeId, b.sizeId);
    }
  }

  lemma OptIdTextInjective(x: Option<int>, y: Option<int>)
    requires OptIdText(x) == OptIdText(y)
    ensures x == y
  {
    match (x, y)
    case (Some(m), Some(n)) => IntTextInjective(m, n);
    case _ =>
  }

  predicate HasRepeatedPair(vs: seq<PayloadVariant>) {
    exists i, j :: 0 <= i < j < |vs| && SamePair(vs[i], vs[j])
  }

  /** validate: the first failing rule, in the order the form checks them. */
  function FirstError(p: Payload): Option<FormError> {
    if Blank(p.name) then Some(NameRequired)
    else if Blank(p.slug) then Some(SlugRequired)
    else if !Truthy(p.brandId) then Some(BrandRequired)
    else if !Truthy(p.categoryId) then Some(CategoryRequired)
    else if |p.variants| > 0 && CountTrue(PayloadFlags(p.variants)) != 1 then Some(DefaultNotUnique)
    else if |p.variants| > 0 && HasRepeatedPair(p.variants) then Some(RepeatedVariant)
    else None
  }

  /** A payload passes exactly when name, slug, brand and category are present and
      a non-empty variant list has exactly one default and no repeated
      (colorId, sizeId) pair. */
  lemma ValidIff(p: Payload)
    ensures FirstError(p).None? <==>
      && !Blank(p.name) && !Blank(p.slug) && Truthy(p.brandId) && Truthy(p.categoryId)
      && (p.variants != [] ==> ExactlyOne(PayloadFlags(p.variants)))
      && forall i, j :: 0 <= i < j < |p.variants| ==>
           p.variants[i].colorId != p.variants[j].colorId || p.variants[i].sizeId != p.variants[j].sizeId
  {
    CountTrueOne(PayloadFlags(p.variants));
  }

  /** The duplicate check of validate: the loop over the variants with the set of
      keys seen so far, stopping at the first key seen before. */
  method FindRepeatedPair(vs: seq<PayloadVariant>) returns (repeated: bool)
    ensures repeated <==> HasRepeatedPair(vs)
  {
    var seen: set<string> := {};
    var i := 0;
    while i < |vs|
      invariant 0 <= i <= |vs|
      invariant seen == set k | 0 <= k < i :: PairKey(vs[k])
      invariant forall a, b :: 0 <= a < b < i ==> !SamePair(vs[a], vs[b])
    {
      var key := PairKey(vs[i]);
      if key in seen {
        var a :| 0 <= a < i && PairKey(vs[a]) == key;
        PairKeyIdentity(vs[a], vs[i]);
        return true;
      }
      forall a | 0 <= a < i
        ensures !SamePair(vs[a], vs[i])
      {
        PairKeyIdentity(vs[a], vs[i]);
      }
      seen := seen + {key};
      i := i + 1;
    }
    return false;
  }

  /** validate */
  method Validate(p: Payload) returns (err: Option<FormError>)
    ensures err == FirstError(p)
  {
    if Blank(p.name) { return Some(NameRequired); }
    if Blank(p.slug) { return Some(SlugRequired); }
    if !Truthy(p.brandId) { return Some(BrandRequired); }
    if !Truthy(p.categoryId) { return Some(CategoryRequired); }
    if |p.variants| > 0 {
      var defaults := CountTrue(PayloadFlags(p.variants));
      if defaults != 1 { return Some(DefaultNotUnique); }
      var repeated := FindRepeatedPair(p.variants);
      if repeated { return Some(RepeatedVariant); }
    }
    return None;
  }

  // ---------------------------------------------------------------------------
  // The editor

  /** The form state of the editor and the colour and size lists it was loaded
      with; each method is one `setForm` update. */
  class ProductEditor {
    var form: Form
    var colors: seq<Attr>
    var sizes: seq<Attr>

    constructor (colors: seq<Attr>, sizes: seq<Attr>)
      ensures form == EmptyForm() && this.colors == colors && this.sizes == sizes
    {
      form := EmptyForm();
      this.colors := colors;
      this.sizes := sizes;
    }

    method Load(p: AdminProduct)
      modifies this
      ensures form == FromApiToForm(p) && colors == old(colors) && sizes == old(sizes)
    {
      form := FromApiToForm(p);
    }

    method UpdateField(e: FieldEdit)
      modifies this
      ensures form == SetField(old(form), e, colors, sizes)
      ensures colors == old(colors) && sizes == old(sizes)
      ensures OneDefault(old(form.variants)) ==> OneDefault(form.variants)
    {
      RecomputeKeepsFlags(ApplyField(form, e), colors, sizes);
      form := SetField(form, e, colors, sizes);
    }

    method NameBlur()
      modifies this
      ensures form == OnNameBlur(old(form), colors, sizes)
      ensures colors == old(colors) && sizes == old(sizes)
    {
      form := OnNameBlur(form, colors, sizes);
    }

    method UpdateVariantField(idx: int, e: VariantEdit)
      requires 0 <= idx < |form.variants|
      modifies this
      ensures form == SetVariantField(old(form), idx, e, colors, sizes)
      ensures colors == old(colors) && sizes == old(sizes)
      ensures OneDefault(old(form.variants)) ==> OneDefault(form.variants)
    {
      var next := SetVariantField(form, idx, e, colors, sizes);
      EditKeepsFlags(form, idx, e, colors, sizes);
      assert Flags(next.variants) == Flags(form.variants);
      form := next;
    }

    method MakeDefault(idx: int)
      requires 0 <= idx < |form.variants|
      modifies this
      ensures form == SetVariantDefault(old(form), idx)
      ensures colors == old(colors) && sizes == old(sizes)
      ensures OneDefault(form.variants)
    {
      SetVariantDefaultMakesOne(form, idx);
      form := SetVariantDefault(form, idx);
    }

    method NewVariant()
      modifies this
      ensures form == AddVariant(old(form), colors, sizes)
      ensures colors == old(colors) && sizes == old(sizes)
      ensures OneDefault(old(form.variants)) ==> OneDefault(form.variants)
    {
      if OneDefault(form.variants) {
        AddVariantKeepsOneDefault(form, colors, sizes);
      }
      form := AddVariant(form, colors, sizes);
    }

    method DropVariant(idx: int)
      modifies this
      ensures form == RemoveVariant(old(form), idx)
      ensures colors == old(colors) && sizes == old(sizes)
      ensures OneDefault(old(form.variants)) ==> OneDefault(form.variants)
    {
      if OneDefault(form.variants) {
        RemoveVariantKeepsOneDefault(form, idx);
      }
      form := RemoveVariant(form, idx);
    }

    /** The update that runs once the uploads have finished. The index was taken
        before they started: the images go to whichever variant sits there now,
        and an index that no longer exists makes `curr.images` throw. */
    method AddVariantFiles(idx: int, uploaded: seq<string>) returns (threw: bool)
      modifies this
      ensures threw <==> !(0 <= idx < |old(form.variants)|)
      ensures threw ==> form == old(form)
      ensures !threw ==> form == AppendUploads(old(form), idx, uploaded)
      ensures colors == old(colors) && sizes == old(sizes)
    {
      if !(0 <= idx < |form.variants|) {
        return true;
      }
      form := AppendUploads(form, idx, uploaded);
      threw := false;
    }

    method DropVariantImage(vIdx: int, imgIdx: int)
      requires 0 <= vIdx < |form.variants|
      modifies this
      ensures form == RemoveVariantImage(old(form), vIdx, imgIdx)
      ensures colors == old(colors) && sizes == old(sizes)
    {
      form := RemoveVariantImage(form, vIdx, imgIdx);
    }

    /** The swap happens in a copied array, as in the source. */
    method MoveImage(vIdx: int, imgIdx: int, dir: int)
      requires 0 <= vIdx < |form.variants| && 0 <= imgIdx < |form.variants[vIdx].images|
      modifies this
      ensures form == MoveVariantImage(old(form), vIdx, imgIdx, dir)
      ensures colors == old(colors) && sizes == old(sizes)
    {
      var imgs := form.variants[vIdx].images;
      var j := imgIdx + dir;
      if j < 0 || j >= |imgs| {
        return;
      }
      var a := new SortedImage[|imgs|](k requires 0 <= k < |imgs| => imgs[k]);
      a[imgIdx], a[j] := a[j], a[imgIdx];
      assert a[..] == Swap(imgs, imgIdx, j);
      form := WithImages(form, vIdx, Renumber(a[..]));
    }

    method Submit() returns (err: Option<FormError>, p: Payload)
      ensures p == PayloadOf(form, colors, sizes)
      ensures err == FirstError(p)
    {
      p := PayloadOf(form, colors, sizes);
      err := Validate(p);
    }
  }
}

/** The product search of src/pages/Admin/AdminPage.jsx: the debounced query,
    `norm`, and the `filtered` list the admin table shows. Products arrive in
    the shop shape (`getProducts` maps every product with `mapProductApiToShop`),
    so `variants` is always a list here. */
module AdminPage {
  import opened Common
  import opened Catalog

  /** What the debounce stores: `q.trim().toLowerCase()`. */
  function DebouncedQuery(q: string): (r: string)
    ensures |r| <= |q|
    ensures forall k :: 0 <= k < |r| ==> !IsUpper(r[k])
    ensures r == [] || (!IsSpace(r[0]) && !IsSpace(r[|r| - 1]))
  {
    var t := Trim(q);
    LowerOfUnpadded(t);
    Lower(t)
  }

  lemma LowerKeepsSpace(c: char)
    ensures IsSpace(LowerChar(c)) <==> IsSpace(c)
  {
    if IsUpper(c) {
      assert 'a' <= LowerChar(c) <= 'z';
    }
  }

  /** Lower-casing a trimmed string keeps it trimmed. */
  lemma LowerOfUnpadded(t: string)
    requires t == [] || (!IsSpace(t[0]) && !IsSpace(t[|t| - 1]))
    ensures var r := Lower(t); r == [] || (!IsSpace(r[0]) && !IsSpace(r[|r| - 1]))
  {
    if t != [] {
      LowerKeepsSpace(t[0]);
      LowerKeepsSpace(t[|t| - 1]);
    }
  }

  /** `norm`: `String(s ?? "")` lower-cased (the accent stripping is not modelled). */
  function Norm(s: Option<string>): (r: string)
    ensures |r| == |s.GetOr("")|
    ensures forall k :: 0 <= k < |r| ==> !IsUpper(r[k])
  {
    Lower(s.GetOr(""))
  }

  function Skus(vs: seq<ShopVariant>): (r: seq<string>)
    ensures |r| == |vs| && forall k :: 0 <= k < |vs| ==> r[k] == vs[k].sku.GetOr("")
  {
    seq(|vs|, k requires 0 <= k < |vs| => vs[k].sku.GetOr(""))
  }

  /** The searchable texts of a product before `filter(Boolean)`: name, slug,
      brand name and every variant SKU, a missing one read as "". */
  function RawFields(p: ShopProduct): (r: seq<string>)
    ensures |r| == 3 + |p.variants|
    ensures r[0] == p.name.GetOr("") && r[1] == p.slug.GetOr("") && r[2] == p.brandName.GetOr("")
    ensures forall k :: 0 <= k < |p.variants| ==> r[3 + k] == p.variants[k].sku.GetOr("")
  {
    [p.name.GetOr(""), p.slug.GetOr(""), p.brandName.GetOr("")] + Skus(p.variants)
  }

  function LowerAll(xs: seq<string>): (r: seq<string>)
    ensures |r| == |xs| && forall k :: 0 <= k < |xs| ==> r[k] == Lower(xs[k])
  {
    seq(|xs|, k requires 0 <= k < |xs| => Lower(xs[k]))
  }

  /** `fields`: the non-empty texts, normalised. */
  function Fields(p: ShopProduct): seq<string> {
    LowerAll(NonEmpty(RawFields(p)))
  }

  /** `fields.some((s) => s.includes(qn))` */
  predicate Matches(p: ShopProduct, qn: string) {
    exists k :: 0 <= k < |Fields(p)| && Contains(Fields(p)[k], qn)
  }

  /** `items.filter(...)` for a non-empty query. */
  function Keep(items: seq<ShopProduct>, qn: string): (r: seq<ShopProduct>)
    ensures |r| <= |items|
  {
    if items == [] then []
    else
      var init := Keep(items[..|items| - 1], qn);
      var p := items[|items| - 1];
      if Matches(p, qn) then init + [p] else init
  }

  /** `filtered`: everything for an empty query, else the products some field of
      which contains the query. */
  function Filtered(items: seq<ShopProduct>, dq: string): (r: seq<ShopProduct>)
    ensures Norm(Some(dq)) == "" ==> r == items
  {
    var qn := Norm(Some(dq));
    if qn == "" then items else Keep(items, qn)
  }

  /** The filter only drops products: what it keeps stays in the original order. */
  lemma {:induction false} KeepIsSubsequence(items: seq<ShopProduct>, qn: string)
    ensures IsSubsequence(Keep(items, qn), items)
  {
    if items != [] {
      var init := items[..|items| - 1];
      var p := items[|items| - 1];
      assert items == init + [p];
      KeepIsSubsequence(init, qn);
      SubsequenceExtend(Keep(init, qn), init, p);
      if Matches(p, qn) {
        assert Keep(items, qn) == Keep(init, qn) + [p];
      } else {
        assert Keep(items, qn) == Keep(init, qn);
      }
    }
  }

  /** Only matching products are kept. */
  lemma {:induction false} KeepOnlyMatches(items: seq<ShopProduct>, qn: string)
    ensures forall p :: p in Keep(items, qn) ==> p in items && Matches(p, qn)
  {
    if items != [] {
      var init := items[..|items| - 1];
      KeepOnlyMatches(init, qn);
      assert items == init + [items[|items| - 1]];
    }
  }

  /** Every matching product is kept. */
  lemma {:induction false} KeepKeepsMatches(items: seq<ShopProduct>, qn: string)
    ensures forall p :: p in items && Matches(p, qn) ==> p in Keep(items, qn)
  {
    if items != [] {
      var init := items[..|items| - 1];
      KeepKeepsMatches(init, qn);
      assert items == init + [items[|items| - 1]];
    }
  }

  /** A matching product is kept as often as it occurs among the loaded ones. */
  lemma {:induction false} KeepCounts(items: seq<ShopProduct>, qn: string)
    ensures forall p :: Matches(p, qn) ==> multiset(Keep(items, qn))[p] == multiset(items)[p]
  {
    if items != [] {
      var init := items[..|items| - 1];
      KeepCounts(init, qn);
      assert items == init + [items[|items| - 1]];
    }
  }

  /** The admin list is a subsequence of the loaded products, and a product is in
      it exactly when the query is empty or one of its fields contains the query. */
  lemma FilteredIsTheMatches(items: seq<ShopProduct>, dq: string)
    ensures IsSubsequence(Filtered(items, dq), items)
    ensures forall p :: p in Filtered(items, dq) <==> p in items && (Norm(Some(dq)) == "" || Matches(p, Norm(Some(dq))))
    ensures forall p :: Norm(Some(dq)) == "" || Matches(p, Norm(Some(dq))) ==>
      multiset(Filtered(items, dq))[p] == multiset(items)[p]
  {
    var qn := Norm(Some(dq));
    if qn == "" {
      SubsequenceOfSelf(items);
    } else {
      KeepIsSubsequence(items, qn);
      KeepOnlyMatches(items, qn);
      KeepKeepsMatches(items, qn);
      KeepCounts(items, qn);
    }
  }

  /** The query is lower-cased once more by `norm`; that changes nothing for a
      debounced query, and typing it in capitals gives the same list. */
  lemma QueryCaseIsIgnored(items: seq<ShopProduct>, q1: string, q2: string)
    requires Lower(q1) == Lower(q2)
    ensures Filtered(items, q1) == Filtered(items, q2)
    ensures Norm(Some(DebouncedQuery(q1))) == DebouncedQuery(q1)
  {
    LowerIdempotent(Trim(q1));
  }

  lemma {:induction false} LowerAllOfNonEmpty(a: seq<string>, b: seq<string>)
    requires |a| == |b| && forall k :: 0 <= k < |a| ==> Lower(a[k]) == Lower(b[k])
    ensures LowerAll(NonEmpty(a)) == LowerAll(NonEmpty(b))
  {
    if a != [] {
      var a0, b0 := a[..|a| - 1], b[..|b| - 1];
      LowerAllOfNonEmpty(a0, b0);
      assert |Lower(a[|a| - 1])| == |a[|a| - 1]| && |Lower(b[|b| - 1])| == |b[|b| - 1]|;
      var x, y := NonEmpty(a0), NonEmpty(b0);
      if a[|a| - 1] != "" {
        assert LowerAll(x + [a[|a| - 1]]) == LowerAll(x) + [Lower(a[|a| - 1])];
        assert LowerAll(y + [b[|b| - 1]]) == LowerAll(y) + [Lower(b[|b| - 1])];
      }
    }
  }

  /** Matching ignores case in the product's texts: two products whose name,
      slug, brand name and SKUs differ only in case match the same queries. */
  lemma FieldCaseIsIgnored(p1: ShopProduct, p2: ShopProduct, qn: string)
    requires |RawFields(p1)| == |RawFields(p2)|
    requires forall k :: 0 <= k < |RawFields(p1)| ==> Lower(RawFields(p1)[k]) == Lower(RawFields(p2)[k])
    ensures Matches(p1, qn) <==> Matches(p2, qn)
  {
    LowerAllOfNonEmpty(RawFields(p1), RawFields(p2));
    assert Fields(p1) == Fields(p2);
  }

  /** For a non-empty query the empty and missing texts play no part: a product
      matches exactly when one of its name, slug, brand name or SKUs contains
      the query once lower-cased. */
  lemma MatchesIff(p: ShopProduct, qn: string)
    requires qn != ""
    ensures Matches(p, qn) <==> exists f :: f in RawFields(p) && Contains(Lower(f), qn)
  {
    var raw, kept := RawFields(p), NonEmpty(RawFields(p));
    NonEmptyMembers(raw);
    if Matches(p, qn) {
      var k :| 0 <= k < |Fields(p)| && Contains(Fields(p)[k], qn);
      assert kept[k] in raw;
    }
    if exists f :: f in raw && Contains(Lower(f), qn) {
      var f :| f in raw && Contains(Lower(f), qn);
      if f == "" {
        EmptyContainsOnlyEmpty(qn);
      }
      assert f in kept;
      var k :| 0 <= k < |kept| && kept[k] == f;
      assert Contains(Fields(p)[k], qn);
    }
  }

  /** A product with no name, slug, brand name or SKU never turns up in a search. */
  lemma BlankProductNeverMatches(p: ShopProduct, qn: string)
    requires qn != ""
    requires p.name.GetOr("") == "" && p.slug.GetOr("") == "" && p.brandName.GetOr("") == ""
    requires forall k :: 0 <= k < |p.variants| ==> p.variants[k].sku.GetOr("") == ""
    ensures !Matches(p, qn)
  {
    MatchesIff(p, qn);
    var raw := RawFields(p);
    forall f | f in raw
      ensures !Contains(Lower(f), qn)
    {
      var k :| 0 <= k < |raw| && raw[k] == f;
      assert Lower(f) == "";
      EmptyContainsOnlyEmpty(qn);
    }
  }
}

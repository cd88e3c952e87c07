/** Value-level helpers shared by every module of the model: an Option type for
    JavaScript's `null`/`undefined`, the ASCII part of the string built-ins the
    storefront calls (`trim`, `toLowerCase`, `includes`, `join`), the decimal
    rendering of integers inside template literals, and a subsequence relation
    for the `filter` calls. */
module Common {

  /** `None` stands for `null` or `undefined`. */
  datatype Option<+T> = None | Some(value: T) {
    /** `x ?? d` */
    function GetOr(default: T): T {
      match this
      case Some(v) => v
      case None => default
    }
  }

  /** JavaScript truthiness of an optional string: missing and "" are falsy. */
  predicate Present(s: Option<string>) {
    s.Some? && s.value != ""
  }

  /** JavaScript truthiness of an optional number: missing and 0 are falsy. */
  predicate Truthy(n: Option<int>) {
    n.Some? && n.value != 0
  }

  /** An entry of an image list as the cart and the slider accept it: a URL string,
      an object with an optional `url` and optional `id`/`Id` keys, or any other
      value (`null`, a number) that carries no URL. */
  datatype ImageRef = Text(s: string) | Record(url: Option<string>, id: Option<int>, upperId: Option<int>) | Other

  /** `typeof x === "string" ? x : x?.url` */
  function ImageUrl(x: ImageRef): Option<string> {
    match x
    case Text(s) => Some(s)
    case Record(u, _, _) => u
    case Other => None
  }

  // ---------------------------------------------------------------------------
  // Whitespace, trim and lower case

  /** The characters String.prototype.trim removes: the ECMAScript white space
      and line terminator code points. */
  predicate IsSpace(c: char) {
    c == ' ' || c == '\t' || c == '\n' || c == '\r' || c == '\U{B}' || c == '\U{C}'
    || c == '\U{A0}' || c == '\U{1680}' || ('\U{2000}' <= c <= '\U{200A}')
    || c == '\U{2028}' || c == '\U{2029}' || c == '\U{202F}' || c == '\U{205F}'
    || c == '\U{3000}' || c == '\U{FEFF}'
  }

  function TrimStart(s: string): (r: string)
    ensures |r| <= |s| && r == s[|s| - |r|..]
    ensures r == [] || !IsSpace(r[0])
    ensures forall k :: 0 <= k < |s| - |r| ==> IsSpace(s[k])
  {
    if s == [] || !IsSpace(s[0]) then s else TrimStart(s[1..])
  }

  function TrimEnd(s: string): (r: string)
    ensures |r| <= |s| && r == s[..|r|]
    ensures r == [] || !IsSpace(r[|r| - 1])
    ensures forall k :: |r| <= k < |s| ==> IsSpace(s[k])
  {
    if s == [] || !IsSpace(s[|s| - 1]) then s else TrimEnd(s[..|s| - 1])
  }

  /** `s.trim()` */
  function Trim(s: string): (r: string)
    ensures |r| <= |s|
    ensures r == [] || (!IsSpace(r[0]) && !IsSpace(r[|r| - 1]))
  {
    TrimEnd(TrimStart(s))
  }

  /** A string whose `trim()` is empty is blank: `!s?.trim()` in the source. */
  predicate Blank(s: string) {
    Trim(s) == ""
  }

  lemma TrimOfUnpadded(s: string)
    requires s == [] || (!IsSpace(s[0]) && !IsSpace(s[|s| - 1]))
    ensures Trim(s) == s
  {
  }

  predicate IsUpper(c: char) { 'A' <= c <= 'Z' }

  /** `toLowerCase` on the ASCII letters. */
  function LowerChar(c: char): (d: char)
    ensures !IsUpper(d)
    ensures !IsUpper(c) ==> d == c
  {
    if IsUpper(c) then (c as int + 32) as char else c
  }

  function Lower(s: string): (r: string)
    ensures |r| == |s|
    ensures forall k :: 0 <= k < |s| ==> r[k] == LowerChar(s[k])
  {
    seq(|s|, k requires 0 <= k < |s| => LowerChar(s[k]))
  }

  lemma LowerIdempotent(s: string)
    ensures Lower(Lower(s)) == Lower(s)
  {
  }

  /** `s.includes(q)`: q occurs in s at some offset (the empty string occurs in every string). */
  predicate Contains(s: string, q: string) {
    exists i :: 0 <= i <= |s| - |q| && OccursAt(s, q, i)
  }

  predicate OccursAt(s: string, q: string, i: int) {
    0 <= i <= |s| - |q| && s[i..i + |q|] == q
  }

  lemma EmptyContainsOnlyEmpty(q: string)
    requires q != ""
    ensures !Contains("", q)
  {
  }

  /** `parts.join(sep)` */
  function Join(parts: seq<string>, sep: string): (r: string)
    ensures parts == [] ==> r == ""
    ensures |parts| == 1 ==> r == parts[0]
  {
    if parts == [] then ""
    else if |parts| == 1 then parts[0]
    else Join(parts[..|parts| - 1], sep) + sep + parts[|parts| - 1]
  }

  /** `parts.filter(Boolean)` on strings: drops the empty ones, keeping order. */
  function NonEmpty(parts: seq<string>): (r: seq<string>)
    ensures forall k :: 0 <= k < |r| ==> r[k] != ""
  {
    if parts == [] then []
    else
      var init := NonEmpty(parts[..|parts| - 1]);
      if parts[|parts| - 1] == "" then init else init + [parts[|parts| - 1]]
  }

  /** `filter(Boolean)` keeps exactly the non-empty strings. */
  lemma {:induction false} NonEmptyMembers(parts: seq<string>)
    ensures forall x :: x in NonEmpty(parts) <==> x in parts && x != ""
  {
    if parts != [] {
      var init := parts[..|parts| - 1];
      NonEmptyMembers(init);
      assert parts == init + [parts[|parts| - 1]];
    }
  }

  /** `filter(Boolean)` keeps every occurrence of a non-empty string. */
  lemma {:induction false} NonEmptyCounts(parts: seq<string>)
    ensures forall x :: x != "" ==> multiset(NonEmpty(parts))[x] == multiset(parts)[x]
  {
    if parts != [] {
      var init := parts[..|parts| - 1];
      NonEmptyCounts(init);
      assert parts == init + [parts[|parts| - 1]];
    }
  }

  /** `filter(Boolean)` keeps the order of what it keeps. */
  lemma {:induction false} NonEmptyKeepsOrder(parts: seq<string>)
    ensures IsSubsequence(NonEmpty(parts), parts)
  {
    if parts != [] {
      var init, last := parts[..|parts| - 1], parts[|parts| - 1];
      assert parts == init + [last];
      NonEmptyKeepsOrder(init);
      SubsequenceExtend(NonEmpty(init), init, last);
      if last == "" {
        assert NonEmpty(parts) == NonEmpty(init);
      } else {
        assert NonEmpty(parts) == NonEmpty(init) + [last];
      }
    }
  }

  // ---------------------------------------------------------------------------
  // Subsequences: what `filter` returns

  /** r is s with some elements dropped and the order kept (greedy match from the end). */
  predicate IsSubsequence<T(==)>(r: seq<T>, s: seq<T>) {
    if r == [] then true
    else if s == [] then false
    else if r[|r| - 1] == s[|s| - 1] then IsSubsequence(r[..|r| - 1], s[..|s| - 1])
    else IsSubsequence(r, s[..|s| - 1])
  }

  lemma {:induction false} SubsequenceOfSelf<T>(s: seq<T>)
    ensures IsSubsequence(s, s)
  {
    if s != [] {
      SubsequenceOfSelf(s[..|s| - 1]);
    }
  }

  lemma {:induction false} SubsequenceDropLast<T>(r: seq<T>, s: seq<T>, x: T)
    requires IsSubsequence(r, s)
    ensures IsSubsequence(r, s + [x])
    decreases |s|, 1
  {
    assert (s + [x])[..|s|] == s;
    if r != [] && r[|r| - 1] == x {
      SubsequenceShorter(r, s);
    }
  }

  /** Dropping the last element of r keeps it a subsequence. */
  lemma {:induction false} SubsequenceShorter<T>(r: seq<T>, s: seq<T>)
    requires r != [] && IsSubsequence(r, s)
    ensures IsSubsequence(r[..|r| - 1], s)
    decreases |s|, 0
  {
    assert s != [];
    if r[|r| - 1] == s[|s| - 1] {
      SubsequenceDropLast(r[..|r| - 1], s[..|s| - 1], s[|s| - 1]);
      assert s[..|s| - 1] + [s[|s| - 1]] == s;
    } else {
      SubsequenceShorter(r, s[..|s| - 1]);
      SubsequenceDropLast(r[..|r| - 1], s[..|s| - 1], s[|s| - 1]);
      assert s[..|s| - 1] + [s[|s| - 1]] == s;
    }
  }

  /** The step every left-recursive filter takes: keep or drop the last element. */
  lemma SubsequenceExtend<T>(r: seq<T>, s: seq<T>, x: T)
    requires IsSubsequence(r, s)
    ensures IsSubsequence(r, s + [x]) && IsSubsequence(r + [x], s + [x])
  {
    SubsequenceDropLast(r, s, x);
    assert (r + [x])[..|r|] == r;
    assert (s + [x])[..|s|] == s;
  }

  // ---------------------------------------------------------------------------
  // First occurrences

  /** The position of the first occurrence of `x`, as `indexOf` finds it. */
  function FirstIndex<T(==)>(xs: seq<T>, x: T): (i: nat)
    requires x in xs
    ensures i < |xs| && xs[i] == x
    ensures forall k :: 0 <= k < i ==> xs[k] != x
  {
    if xs[0] == x then 0 else 1 + FirstIndex(xs[1..], x)
  }

  /** Appending does not move the first occurrence of a value already present. */
  lemma FirstIndexOfPrefix<T>(xs: seq<T>, y: T, x: T)
    requires x in xs
    ensures FirstIndex(xs + [y], x) == FirstIndex(xs, x)
  {
    var j := FirstIndex(xs, x);
    assert (xs + [y])[j] == x;
    assert forall k :: 0 <= k < |xs| ==> (xs + [y])[k] == xs[k];
  }

  /** A value appended for the first time first occurs at the end. */
  lemma FirstIndexOfLast<T>(xs: seq<T>, y: T)
    requires y !in xs
    ensures FirstIndex(xs + [y], y) == |xs|
  {
    assert forall k :: 0 <= k < |xs| ==> (xs + [y])[k] == xs[k];
  }

  // ---------------------------------------------------------------------------
  // Decimal rendering of integers, as `${n}` produces it

  predicate IsDigit(c: char) { '0' <= c <= '9' }

  function DigitChar(d: nat): (c: char)
    requires d < 10
    ensures IsDigit(c)
  {
    ('0' as int + d) as char
  }

  function NatText(n: nat): (r: string)
    ensures |r| >= 1
  {
    if n < 10 then [DigitChar(n)] else NatText(n / 10) + [DigitChar(n % 10)]
  }

  /** The rendering is all digits, two or more from 10 on. */
  lemma {:induction false} NatTextDigits(n: nat)
    ensures forall k :: 0 <= k < |NatText(n)| ==> IsDigit(NatText(n)[k])
    ensures n >= 10 ==> |NatText(n)| >= 2
  {
    if n >= 10 {
      NatTextDigits(n / 10);
    }
  }

  /** `${n}` for an integer: optional minus sign, then the decimal digits. */
  function IntText(n: int): (r: string)
    ensures |r| >= 1
  {
    if n < 0 then "-" + NatText(-n) else NatText(n)
  }

  /** Only digits and a minus sign, and the sign exactly for negative numbers. */
  lemma IntTextShape(n: int)
    ensures forall k :: 0 <= k < |IntText(n)| ==> IsDigit(IntText(n)[k]) || IntText(n)[k] == '-'
    ensures n >= 0 <==> IsDigit(IntText(n)[0])
  {
    if n < 0 {
      NatTextDigits(-n);
      assert forall k :: 1 <= k < |IntText(n)| ==> IntText(n)[k] == NatText(-n)[k - 1];
    } else {
      NatTextDigits(n);
    }
  }

  lemma {:induction false} NatTextInjective(a: nat, b: nat)
    requires NatText(a) == NatText(b)
    ensures a == b
  {
    var ta, tb := NatText(a), NatText(b);
    NatTextDigits(a);
    NatTextDigits(b);
    if a < 10 && b < 10 {
      assert DigitChar(a) == ta[0] == tb[0] == DigitChar(b);
    } else if a >= 10 && b >= 10 {
      assert NatText(a / 10) == ta[..|ta| - 1] == tb[..|tb| - 1] == NatText(b / 10);
      NatTextInjective(a / 10, b / 10);
      assert DigitChar(a % 10) == ta[|ta| - 1] == tb[|tb| - 1] == DigitChar(b % 10);
    }
  }

  lemma IntTextInjective(a: int, b: int)
    requires IntText(a) == IntText(b)
    ensures a == b
  {
    IntTextShape(a);
    IntTextShape(b);
    if a < 0 && b < 0 {
      assert NatText(-a) == IntText(a)[1..] == IntText(b)[1..] == NatText(-b);
      NatTextInjective(-a, -b);
    } else if a >= 0 && b >= 0 {
      NatTextInjective(a, b);
    }
  }

  /** In a + [c] + b with c not in a, the first c sits right after a. */
  lemma SeparatorIsFirst(a: string, b: string, c: char)
    requires c !in a
    ensures (a + [c] + b)[|a|] == c
    ensures forall k :: 0 <= k < |a| ==> (a + [c] + b)[k] != c
  {
  }

  /** Two strings glued by a separator character that neither left part contains
      can be cut apart again: the left parts and the right parts agree. */
  lemma SplitAtSeparator(a1: string, b1: string, a2: string, b2: string, c: char)
    requires c !in a1 && c !in a2
    requires a1 + [c] + b1 == a2 + [c] + b2
    ensures a1 == a2 && b1 == b2
  {
    var s1, s2 := a1 + [c] + b1, a2 + [c] + b2;
    SeparatorIsFirst(a1, b1, c);
    SeparatorIsFirst(a2, b2, c);
    assert a1 == s1[..|a1|] == s2[..|a2|] == a2;
    assert b1 == s1[|a1| + 1..] == s2[|a2| + 1..] == b2;
  }

  /** In a + [c] + b with c not in b, the last c sits right before b. */
  lemma SeparatorIsLast(a: string, b: string, c: char)
    requires c !in b
    ensures (a + [c] + b)[|a|] == c
    ensures forall k :: |a| < k < |a| + 1 + |b| ==> (a + [c] + b)[k] != c
  {
    assert forall k :: |a| < k < |a| + 1 + |b| ==> (a + [c] + b)[k] == b[k - |a| - 1];
  }

  /** The same cut from the right: when neither right part contains the separator,
      the parts agree. */
  lemma SplitAtLastSeparator(a1: string, b1: string, a2: string, b2: string, c: char)
    requires c !in b1 && c !in b2
    requires a1 + [c] + b1 == a2 + [c] + b2
    ensures a1 == a2 && b1 == b2
  {
    var s1, s2 := a1 + [c] + b1, a2 + [c] + b2;
    SeparatorIsLast(a1, b1, c);
    SeparatorIsLast(a2, b2, c);
    assert |a1| == |a2|;
    assert a1 == s1[..|a1|] == s2[..|a2|] == a2;
    assert b1 == s1[|a1| + 1..] == s2[|a2| + 1..] == b2;
  }
}

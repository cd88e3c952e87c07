/** The image slider of src/components/ImageSlider.jsx: the slides it derives
    from its `images` prop, the index it keeps, the wrap-around `next`/`prev`
    steps, the effect that resets a stale index, and what a render shows. The
    200 ms click lock is not part of this model. */
module ImageSlider {
  import opened Common
  import opened Cart

  /** A slide: `{ key, url }`. */
  datatype Slide = Slide(key: string, url: string)

  /** `typeof img === "object" ? (img.id ?? img.Id) : null` */
  function ImageId(img: ImageRef): (r: Option<int>)
    ensures !img.Record? ==> r.None?
    ensures img.Record? && img.id.Some? ==> r == img.id
    ensures img.Record? && img.id.None? ==> r == img.upperId
  {
    match img
    case Record(_, id, upperId) => if id.Some? then id else upperId
    case _ => None
  }

  /** `id != null ? `img-${id}` : `img-${url}-${i}`` */
  function SlideKey(img: ImageRef, url: string, i: nat): string {
    match ImageId(img)
    case Some(id) => "img-" + IntText(id)
    case None => "img-" + url + "-" + NatText(i)
  }

  /** The slide entry `i` of the list yields: none when it has no URL or an empty one. */
  function SlideAt(img: ImageRef, i: nat): (r: Option<Slide>)
    ensures r.Some? <==> ImageUrl(img).GetOr("") != ""
    ensures r.Some? ==> r.value.url == ImageUrl(img).value && r.value.key == SlideKey(img, r.value.url, i)
  {
    var url := ImageUrl(img);
    if url.None? || url.value == "" then None else Some(Slide(SlideKey(img, url.value, i), url.value))
  }

  /** slides: `images.map(...).filter(Boolean)`, each entry keeping its original position. */
  function Slides(images: seq<ImageRef>): (r: seq<Slide>)
    ensures |r| <= |images|
    ensures forall k :: 0 <= k < |r| ==> r[k].url != ""
  {
    if images == [] then []
    else
      var init := Slides(images[..|images| - 1]);
      match SlideAt(images[|images| - 1], |images| - 1)
      case Some(s) => init + [s]
      case None => init
  }

  function SlideUrls(slides: seq<Slide>): (r: seq<string>)
    ensures |r| == |slides| && forall k :: 0 <= k < |slides| ==> r[k] == slides[k].url
  {
    seq(|slides|, k requires 0 <= k < |slides| => slides[k].url)
  }

  /** The slider shows, in order, exactly the URLs the cart keeps for the same
      image list: strings and `url`s, with missing and empty ones dropped. */
  lemma {:induction false} SlidesShowNormalizedImages(images: seq<ImageRef>)
    ensures SlideUrls(Slides(images)) == NormalizeImages(Some(images))
  {
    if images != [] {
      var init := images[..|images| - 1];
      SlidesShowNormalizedImages(init);
      assert UrlTexts(images)[..|images| - 1] == UrlTexts(init);
      var r0 := Slides(init);
      match SlideAt(images[|images| - 1], |images| - 1)
      case Some(s) =>
        assert SlideUrls(r0 + [s]) == SlideUrls(r0) + [s.url];
      case None =>
    }
  }

  /** Slides without an id get keys that differ from each other: the position
      after the last dash tells them apart. */
  lemma FallbackKeysDiffer(u1: string, i1: nat, u2: string, i2: nat)
    requires i1 != i2
    ensures "img-" + u1 + "-" + NatText(i1) != "img-" + u2 + "-" + NatText(i2)
  {
    var k1, k2 := "img-" + u1 + "-" + NatText(i1), "img-" + u2 + "-" + NatText(i2);
    if k1 == k2 {
      NatTextDigits(i1);
      NatTextDigits(i2);
      assert ("img-" + u1) + ['-'] + NatText(i1) == k1;
      assert ("img-" + u2) + ['-'] + NatText(i2) == k2;
      SplitAtLastSeparator("img-" + u1, NatText(i1), "img-" + u2, NatText(i2), '-');
      NatTextInjective(i1, i2);
    }
  }

  // ---------------------------------------------------------------------------
  // Index arithmetic

  /** JavaScript's `%`: the remainder takes the sign of the dividend. */
  function JsRem(a: int, n: int): (r: int)
    requires n > 0
    ensures -n < r < n
    ensures a >= 0 ==> r >= 0
    ensures a < 0 ==> r <= 0
    ensures (a - r) % n == 0
  {
    if a >= 0 then
      ModUnique(a - a % n, n, a / n, 0);
      a % n
    else
      ModUnique(a + (-a) % n, n, -((-a) / n), 0);
      -((-a) % n)
  }

  /** next: `(i + 1) % slides.length` */
  function Next(i: int, n: int): (r: int)
    requires n > 0 && i >= 0
    ensures 0 <= r < n
  {
    JsRem(i + 1, n)
  }

  /** prev: `(i - 1 + slides.length) % slides.length` */
  function Prev(i: int, n: int): (r: int)
    requires n > 0 && i >= 0
    ensures 0 <= r < n
  {
    JsRem(i - 1 + n, n)
  }

  lemma MulGrows(x: int, n: int)
    requires x >= 1 && n > 0
    ensures x * n >= n
  {
  }

  /** The remainder is the one `r` with `a == q * n + r` and `0 <= r < n`. */
  lemma ModUnique(a: int, n: int, q: int, r: int)
    requires n > 0 && 0 <= r < n && a == q * n + r
    ensures a % n == r
  {
    var q', r' := a / n, a % n;
    assert q * n + r == q' * n + r';
    assert (q - q') * n == r' - r;
    if q > q' { MulGrows(q - q', n); }
    else if q < q' { MulGrows(q' - q, n); }
  }

  /** Within range, prev undoes next and next undoes prev. */
  lemma PrevUndoesNext(i: int, n: int)
    requires 0 <= i < n
    ensures Prev(Next(i, n), n) == i
    ensures Next(Prev(i, n), n) == i
  {
    if i + 1 < n {
      ModUnique(i + 1, n, 0, i + 1);
      ModUnique(i + n, n, 1, i);
    } else {
      ModUnique(n, n, 1, 0);
      ModUnique(n - 1, n, 0, n - 1);
    }
    if i == 0 {
      ModUnique(n - 1, n, 0, n - 1);
      ModUnique(n, n, 1, 0);
    } else {
      ModUnique(i - 1 + n, n, 1, i - 1);
      ModUnique(i, n, 0, i);
    }
  }

  /** `k` clicks on next. */
  function NextTimes(i: int, k: nat, n: int): (r: int)
    requires n > 0 && i >= 0
    ensures r >= 0
  {
    if k == 0 then i else Next(NextTimes(i, k - 1, n), n)
  }

  lemma ModStep(a: nat, n: int)
    requires n > 0
    ensures (a % n + 1) % n == (a + 1) % n
  {
    var q, r := a / n, a % n;
    if r + 1 < n {
      ModUnique(a + 1, n, q, r + 1);
      ModUnique(r + 1, n, 0, r + 1);
    } else {
      ModUnique(a + 1, n, q + 1, 0);
      ModUnique(r + 1, n, 1, 0);
    }
  }

  /** k clicks on next from a valid index move it k places round the ring. */
  lemma {:induction false} NextTimesShift(i: int, k: nat, n: int)
    requires 0 <= i < n
    ensures NextTimes(i, k, n) == (i + k) % n
  {
    if k > 0 {
      NextTimesShift(i, k - 1, n);
      ModStep(i + k - 1, n);
    }
  }

  /** n clicks on next come back to the starting slide. */
  lemma FullTurn(i: int, n: int)
    requires 0 <= i < n
    ensures NextTimes(i, n, n) == i
  {
    NextTimesShift(i, n, n);
    ModUnique(i + n, n, 1, i);
  }

  // ---------------------------------------------------------------------------
  // What a render shows

  /** A render shows the placeholder, one slide's image, or throws. */
  datatype View = Placeholder | Shows(url: string) | Throws

  /** The render as written: `slides[idx].url`, read before the reset effect has
      run, so an index past the end throws. */
  function RenderAsWritten(slides: seq<Slide>, idx: int): (v: View)
    ensures slides == [] ==> v == Placeholder
    ensures slides != [] && 0 <= idx < |slides| ==> v == Shows(slides[idx].url)
    ensures slides != [] && !(0 <= idx < |slides|) ==> v == Throws
  {
    if slides == [] then Placeholder
    else if 0 <= idx < |slides| then Shows(slides[idx].url)
    else Throws
  }

  /** The render as intended: an index the effect is about to reset already reads
      as 0. */
  function Render(slides: seq<Slide>, idx: int): (v: View)
    ensures v != Throws
    ensures slides == [] <==> v == Placeholder
    ensures slides != [] && 0 <= idx < |slides| ==> v == Shows(slides[idx].url)
    ensures slides != [] && idx >= |slides| ==> v == Shows(slides[0].url)
  {
    if slides == [] then Placeholder
    else if 0 <= idx < |slides| then Shows(slides[idx].url)
    else Shows(slides[0].url)
  }

  /** The two agree whenever the index is in range. */
  lemma RenderAgreesInRange(slides: seq<Slide>, idx: int)
    requires 0 <= idx < |slides|
    ensures Render(slides, idx) == RenderAsWritten(slides, idx)
  {
  }

  /** Three images, the third one shown, then a gallery of one image (a variant
      with a single picture is chosen): the next render throws. */
  lemma ShrinkingGalleryThrows()
    ensures var before, after := [Text("a"), Text("b"), Text("c")], [Text("d")];
      && |Slides(before)| == 3
      && Next(Next(0, 3), 3) == 2
      && RenderAsWritten(Slides(after), 2) == Throws
      && Render(Slides(after), 2) == Shows("d")
  {
    var before, after := [Text("a"), Text("b"), Text("c")], [Text("d")];
    assert before[..2] == [Text("a"), Text("b")] && before[..1] == [Text("a")];
    assert |Slides([Text("a")])| == 1;
    assert |Slides([Text("a"), Text("b")])| == 2;
    assert Slides(after) == [Slide("img-d-0", "d")] by {
      assert after[..0] == [];
      assert SlideKey(Text("d"), "d", 0) == "img-d-0";
    }
  }

  // ---------------------------------------------------------------------------
  // The component's state

  /** The slider: its `images` prop and its `idx` state. */
  class Slider {
    var images: seq<ImageRef>
    var idx: int

    ghost predicate Valid()
      reads this
    {
      idx >= 0
    }

    function SlideList(): seq<Slide>
      reads this
    {
      Slides(images)
    }

    /** The first render starts at slide 0. */
    constructor (images: seq<ImageRef>)
      ensures Valid() && this.images == images && idx == 0
    {
      this.images := images;
      idx := 0;
    }

    /** The parent passes a new image list; the index is kept until the effect runs. */
    method SetImages(images: seq<ImageRef>)
      requires Valid()
      modifies this
      ensures Valid() && this.images == images && idx == old(idx)
    {
      this.images := images;
    }

    /** The effect: an index at or past the slide count goes back to 0. */
    method SyncIndex()
      requires Valid()
      modifies this
      ensures Valid() && images == old(images)
      ensures old(idx) >= |SlideList()| ==> idx == 0
      ensures old(idx) < |SlideList()| ==> idx == old(idx)
      ensures SlideList() != [] ==> idx < |SlideList()|
    {
      if idx >= |Slides(images)| {
        idx := 0;
      }
    }

    method ClickNext()
      requires Valid() && SlideList() != []
      modifies this
      ensures Valid() && images == old(images)
      ensures idx == Next(old(idx), |SlideList()|) && idx < |SlideList()|
    {
      idx := JsRem(idx + 1, |Slides(images)|);
    }

    method ClickPrev()
      requires Valid() && SlideList() != []
      modifies this
      ensures Valid() && images == old(images)
      ensures idx == Prev(old(idx), |SlideList()|) && idx < |SlideList()|
    {
      idx := JsRem(idx - 1 + |Slides(images)|, |Slides(images)|);
    }

    /** A thumbnail click. */
    method ClickThumbnail(i: int)
      requires Valid() && 0 <= i < |SlideList()|
      modifies this
      ensures Valid() && images == old(images) && idx == i
    {
      idx := i;
    }

    /** What the written render reads now: before the reset effect has run, an
        index left past the end by a shorter image list throws. */
    function ViewAsWritten(): (v: View)
      reads this
      requires Valid()
      ensures SlideList() == [] ==> v == Placeholder
      ensures idx < |SlideList()| ==> v == View()
      ensures SlideList() != [] && idx >= |SlideList()| ==> v == Throws
    {
      RenderAsWritten(Slides(images), idx)
    }

    /** What the slider shows now, with the stale index read as 0. */
    function View(): (v: View)
      reads this
      requires Valid()
      ensures v != Throws
      ensures idx < |SlideList()| ==> v == RenderAsWritten(SlideList(), idx)
    {
      Render(Slides(images), idx)
    }
  }
}

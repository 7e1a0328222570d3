/**
 * The masonry gallery: a Fisher-Yates shuffle of a copy of the images after
 * mount, a lightbox whose index moves forwards and backwards modulo the
 * number of images, and a record of which images have finished loading.
 */
module Gallery {
  import opened Text

  datatype Category = Desktop | Mobile

  datatype Image = Image(src: string, category: Category)

  // ---------------------------------------------------------------------
  // Shuffle

  /** `[s[i], s[j]] = [s[j], s[i]]` on a sequence: position i receives
      s[j], position j receives s[i], the rest is unchanged. */
  function Swap<T>(s: seq<T>, i: nat, j: nat): (r: seq<T>)
    requires i < |s| && j < |s|
    ensures |r| == |s|
  {
    seq(|s|, x requires 0 <= x < |s| => if x == j then s[i] else if x == i then s[j] else s[x])
  }

  lemma SwapPermutes<T>(s: seq<T>, i: nat, j: nat)
    requires i < |s| && j < |s|
    ensures multiset(Swap(s, i, j)) == multiset(s)
  {
    assert Swap(s, i, j) == s[i := s[j]][j := s[i]];
  }

  /** Whether `choices` is a valid sequence of random picks for a list of
      length `n`: the pick for position i lies in [0, i]. */
  predicate ValidChoices(n: nat, choices: seq<nat>) {
    |choices| == n && forall i :: 0 < i < n ==> choices[i] <= i
  }

  /** The list after the first `k` steps of the loop, which swaps position
      n-1, then n-2, ... with the position picked for it. */
  function ShuffleSteps<T>(s: seq<T>, choices: seq<nat>, k: nat): (r: seq<T>)
    requires ValidChoices(|s|, choices)
    requires k < |s| || k == 0
    ensures |r| == |s|
  {
    if k == 0 then s
    else
      var i := |s| - k;
      var prev := ShuffleSteps(s, choices, k - 1);
      Swap(prev, i, choices[i])
  }

  /** The complete shuffle: one step for every position from n-1 down to 1. */
  function Shuffled<T>(s: seq<T>, choices: seq<nat>): (r: seq<T>)
    requires ValidChoices(|s|, choices)
    ensures |r| == |s|
  {
    ShuffleSteps(s, choices, if |s| == 0 then 0 else |s| - 1)
  }

  /** Step `k` of the loop swaps position `i` = n - k with its pick. */
  lemma ShuffleStepAt<T>(s: seq<T>, choices: seq<nat>, k: nat, i: nat)
    requires ValidChoices(|s|, choices)
    requires 0 < k < |s| && i == |s| - k
    ensures ShuffleSteps(s, choices, k) == Swap(ShuffleSteps(s, choices, k - 1), i, choices[i])
  {
  }

  /** `[a[i], a[j]] = [a[j], a[i]]` */
  method SwapCells<T>(a: array<T>, i: nat, j: nat)
    requires i < a.Length && j < a.Length
    modifies a
    ensures a[..] == Swap(old(a[..]), i, j)
  {
    a[i], a[j] := a[j], a[i];
  }

  lemma {:induction false} ShuffleStepsPermute<T>(s: seq<T>, choices: seq<nat>, k: nat)
    requires ValidChoices(|s|, choices)
    requires k < |s| || k == 0
    ensures multiset(ShuffleSteps(s, choices, k)) == multiset(s)
  {
    if k > 0 {
      var prev := ShuffleSteps(s, choices, k - 1);
      var i := |s| - k;
      assert multiset(prev) == multiset(s) by { ShuffleStepsPermute(s, choices, k - 1); }
      assert ShuffleSteps(s, choices, k) == Swap(prev, i, choices[i]) by { ShuffleStepAt(s, choices, k, i); }
      assert multiset(Swap(prev, i, choices[i])) == multiset(prev) by { SwapPermutes(prev, i, choices[i]); }
    }
  }

  /** Whatever the random picks, the shuffle is a permutation of its input. */
  lemma ShuffledIsPermutation<T>(s: seq<T>, choices: seq<nat>)
    requires ValidChoices(|s|, choices)
    ensures multiset(Shuffled(s, choices)) == multiset(s)
  {
    ShuffleStepsPermute(s, choices, if |s| == 0 then 0 else |s| - 1);
  }

  /** The swap loop of the shuffle effect, in place on `a`, with `choices[i]`
      standing for `Math.floor(Math.random() * (i + 1))`. Whatever the
      picks, the result is a permutation of the contents. */
  method ShuffleInPlace(a: array<Image>, choices: seq<nat>)
    requires ValidChoices(a.Length, choices)
    modifies a
    ensures a[..] == Shuffled(old(a[..]), choices)
    ensures multiset(a[..]) == multiset(old(a[..]))
  {
    ghost var s := a[..];
    var i := a.Length - 1;
    ghost var k: nat := 0;
    while i > 0
      invariant (|s| == 0 && i == -1) || (|s| > 0 && 0 <= i < |s|)
      invariant k == |s| - 1 - i
      invariant a[..] == ShuffleSteps(s, choices, k)
      decreases i
    {
      var j := choices[i];
      ghost var prev := a[..];
      SwapCells(a, i, j);
      ShuffleStepAt(s, choices, k + 1, i);
      k := k + 1;
      i := i - 1;
    }
    assert Shuffled(s, choices) == ShuffleSteps(s, choices, k);
    ShuffledIsPermutation(s, choices);
  }

  /** The shuffle effect: the images are copied into a new array, which is
      shuffled; the input is not touched. */
  method Shuffle(images: array<Image>, choices: seq<nat>) returns (copy: array<Image>)
    requires ValidChoices(images.Length, choices)
    ensures fresh(copy)
    ensures copy[..] == Shuffled(images[..], choices)
    ensures multiset(copy[..]) == multiset(images[..])
    ensures images[..] == old(images[..])
  {
    var s := images[..];
    copy := new Image[|s|](k requires 0 <= k < |s| => s[k]);
    assert copy[..] == s;
    ShuffleInPlace(copy, choices);
    assert images[..] == s;
  }

  // ---------------------------------------------------------------------
  // Lightbox navigation

  /** `(idx + 1) % n` */
  function Next(idx: nat, n: nat): (r: nat)
    requires n > 0
    ensures r < n
  {
    (idx + 1) % n
  }

  /** `(idx - 1 + n) % n` */
  function Prev(idx: nat, n: nat): (r: nat)
    requires n > 0
    ensures r < n
  {
    (idx - 1 + n) % n
  }

  /** Next steps one place forward, wrapping from the last image to the
      first; previous steps one place back, wrapping the other way. */
  lemma NextPrevSpec(idx: nat, n: nat)
    requires idx < n
    ensures Next(idx, n) == if idx == n - 1 then 0 else idx + 1
    ensures Prev(idx, n) == if idx == 0 then n - 1 else idx - 1
  {
    if idx == n - 1 {
      ModOnce(n, n);
    } else {
      ModOnce(idx + 1, n);
    }
    if idx == 0 {
      ModOnce(n - 1, n);
    } else {
      ModOnce(idx - 1 + n, n);
    }
  }

  /** Below `2 * n` the remainder by `n` subtracts `n` at most once. */
  lemma ModOnce(a: nat, n: nat)
    requires 0 < n && a < 2 * n
    ensures a % n == if a < n then a else a - n
  {
    var q, r := a / n, a % n;
    assert a == n * q + r && 0 <= r < n;
  }

  /** Next then previous, or previous then next, is where one started. */
  lemma {:induction false} NextPrevInverse(idx: nat, n: nat)
    requires idx < n
    ensures Prev(Next(idx, n), n) == idx
    ensures Next(Prev(idx, n), n) == idx
  {
    NextPrevSpec(idx, n);
    NextPrevSpec(Next(idx, n), n);
    NextPrevSpec(Prev(idx, n), n);
  }

  datatype Key = Escape | ArrowRight | ArrowLeft | OtherKey

  /** The gallery component's state: the `images` prop, the shuffled copy
      once made, the open lightbox index, and the loaded flags by source. */
  class MasonryGallery {
    var images: seq<Image>
    var shuffled: Option<seq<Image>>
    var lightboxIdx: Option<nat>
    var loaded: map<string, bool>

    /** `shuffledAfterMount ?? images` */
    function Filtered(): seq<Image>
      reads this
    {
      if shuffled.Some? then shuffled.value else images
    }

    ghost predicate Valid()
      reads this
    {
      (shuffled.Some? ==> multiset(shuffled.value) == multiset(images))
      && (lightboxIdx.Some? ==> lightboxIdx.value < |Filtered()|)
      && (forall src :: src in loaded ==> loaded[src])
    }

    constructor (images: seq<Image>)
      ensures Valid()
      ensures this.images == images && shuffled == None && lightboxIdx == None && loaded == map[]
    {
      this.images := images;
      shuffled := None;
      lightboxIdx := None;
      loaded := map[];
    }

    /** The image the lightbox shows, if it is open. */
    function LightboxImage(): (r: Option<Image>)
      requires Valid()
      reads this
      ensures r.Some? <==> lightboxIdx.Some?
      ensures r.Some? ==> r.value in multiset(images)
    {
      if lightboxIdx.Some? then Some(Filtered()[lightboxIdx.value]) else None
    }

    /** The shuffle effect finishing: the shuffled copy replaces the prop order. */
    method ShuffleAfterMount(choices: seq<nat>)
      requires Valid() && ValidChoices(|images|, choices)
      modifies this`shuffled
      ensures Valid()
      ensures shuffled == Some(Shuffled(images, choices))
      ensures multiset(shuffled.value) == multiset(images)
    {
      var imgs := images;
      var arr := new Image[|imgs|](i requires 0 <= i < |imgs| => imgs[i]);
      var copy := Shuffle(arr, choices);
      assert arr[..] == images;
      shuffled := Some(copy[..]);
    }

    /** Clicking the tile at `idx` opens the lightbox there. */
    method Open(idx: nat)
      requires Valid() && idx < |Filtered()|
      modifies this`lightboxIdx
      ensures Valid()
      ensures lightboxIdx == Some(idx)
    {
      lightboxIdx := Some(idx);
    }

    /** Escape, the close button or a click on the backdrop. */
    method Close()
      requires Valid()
      modifies this`lightboxIdx
      ensures Valid()
      ensures lightboxIdx == None
    {
      lightboxIdx := None;
    }

    /** The `keydown` listener: ignored with no open image; Escape closes,
        the arrows step with wrap-around, other keys do nothing. */
    method KeyDown(key: Key)
      requires Valid()
      modifies this`lightboxIdx
      ensures Valid()
      ensures old(lightboxIdx) == None ==> lightboxIdx == None
      ensures old(lightboxIdx).Some? ==> (lightboxIdx ==
        match key
        case Escape => None
        case ArrowRight => Some(Next(old(lightboxIdx).value, |Filtered()|))
        case ArrowLeft => Some(Prev(old(lightboxIdx).value, |Filtered()|))
        case OtherKey => old(lightboxIdx))
    {
      if lightboxIdx.None? {
        return;
      }
      var n := |Filtered()|;
      match key {
        case Escape => lightboxIdx := None;
        case ArrowRight => lightboxIdx := Some((lightboxIdx.value + 1) % n);
        case ArrowLeft => lightboxIdx := Some((lightboxIdx.value - 1 + n) % n);
        case OtherKey =>
      }
    }

    /** The "next" button of the open lightbox. */
    method NextButton()
      requires Valid() && lightboxIdx.Some?
      modifies this`lightboxIdx
      ensures Valid()
      ensures lightboxIdx == Some(Next(old(lightboxIdx).value, |Filtered()|))
    {
      lightboxIdx := Some((lightboxIdx.value + 1) % |Filtered()|);
    }

    /** The "previous" button of the open lightbox. */
    method PrevButton()
      requires Valid() && lightboxIdx.Some?
      modifies this`lightboxIdx
      ensures Valid()
      ensures lightboxIdx == Some(Prev(old(lightboxIdx).value, |Filtered()|))
    {
      var n := |Filtered()|;
      lightboxIdx := Some((lightboxIdx.value - 1 + n) % n);
    }

    /** `onLoad` / `onError` of an image: it counts as loaded. */
    method MarkLoaded(src: string)
      requires Valid()
      modifies this`loaded
      ensures Valid()
      ensures loaded == old(loaded)[src := true]
      ensures forall s :: s in old(loaded) ==> s in loaded && loaded[s]
    {
      loaded := loaded[src := true];
    }

    /** The image ref callback: an image already complete is marked loaded,
        and the map is left as it is when it was already marked. */
    method RefAttached(src: string, complete: bool)
      requires Valid()
      modifies this`loaded
      ensures Valid()
      ensures loaded == if complete then old(loaded)[src := true] else old(loaded)
      ensures forall s :: s in old(loaded) ==> s in loaded && loaded[s]
    {
      if complete {
        if !(src in loaded && loaded[src]) {
          loaded := loaded[src := true];
        }
      }
    }
  }
}

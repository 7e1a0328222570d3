/**
 * The FAQ accordion: at most one item open, toggled by its header, and
 * answers that may carry an inline RSVP link written between the markers
 * `[RSVP_LINK]` and `[/RSVP_LINK]`.
 */
module Faq {
  import opened Text

  // ---------------------------------------------------------------------
  // Accordion

  /** `toggleItem`: the open index after clicking item `index`. */
  function Toggle(openIndex: Option<nat>, index: nat): (r: Option<nat>)
    ensures openIndex == Some(index) ==> r == None
    ensures openIndex != Some(index) ==> r == Some(index)
  {
    if openIndex == Some(index) then None else Some(index)
  }

  /** `isOpen` of item `i`. */
  predicate IsOpen(openIndex: Option<nat>, i: nat) {
    openIndex == Some(i)
  }

  /** After any click exactly the clicked item is open, or none is: no two
      items are ever open together. */
  lemma ToggleSingleOpen(openIndex: Option<nat>, index: nat)
    ensures forall i :: IsOpen(Toggle(openIndex, index), i) ==> i == index
    ensures IsOpen(Toggle(openIndex, index), index) <==> !IsOpen(openIndex, index)
  {
  }

  /** Clicking the same item twice restores the state when that item was
      open or nothing was; from another open item it closes everything. */
  lemma ToggleTwice(openIndex: Option<nat>, index: nat)
    ensures openIndex == None || openIndex == Some(index) ==> Toggle(Toggle(openIndex, index), index) == openIndex
    ensures openIndex.Some? && openIndex != Some(index) ==> Toggle(Toggle(openIndex, index), index) == None
  {
  }

  // ---------------------------------------------------------------------
  // Answers with an RSVP link

  const OpenMarker := "[RSVP_LINK]"
  const CloseMarker := "[/RSVP_LINK]"

  /** How an answer is shown: verbatim, or as a prefix, a link and a suffix.
      `None` stands for JavaScript's `undefined`, which renders as nothing. */
  datatype Rendered =
    | Verbatim(text: string)
    | Linked(prefix: string, link: Option<string>, suffix: Option<string>)

  /** `s.split(sep)[0]`: everything before the first separator. */
  function BeforeFirst(s: string, sep: string): (r: string)
    ensures IndexOf(s, sep).None? ==> r == s
    ensures IndexOf(s, sep).Some? ==> r == s[..IndexOf(s, sep).value]
  {
    match IndexOf(s, sep)
    case None => s
    case Some(i) => s[..i]
  }

  /** `s.split(sep)[1]`: the piece between the first and the second
      separator, or up to the end when there is no second one. */
  function SecondPiece(s: string, sep: string): Option<string>
    requires sep != []
  {
    match IndexOf(s, sep)
    case None => None
    case Some(i) =>
      var rest := s[i + |sep|..];
      match IndexOf(rest, sep)
      case None => Some(rest)
      case Some(j) => Some(rest[..j])
  }

  /** The characters that `.` in a regular expression does not match. */
  predicate IsLineTerminator(c: char) {
    c == '\n' || c == '\r' || c as int == 0x2028 || c as int == 0x2029
  }

  predicate NoLineTerminator(s: string) {
    forall k :: 0 <= k < |s| ==> !IsLineTerminator(s[k])
  }

  /** `s.match(/\[RSVP_LINK\](.*?)\[\/RSVP_LINK\]/)?.[1]`, searching from
      position `from`: the leftmost opening marker followed, on the same
      line, by a closing marker, and the shortest text between them. */
  function MatchLinkFrom(s: string, from: nat): Option<string>
    decreases |s| - from
  {
    match IndexFrom(s, OpenMarker, from)
    case None => None
    case Some(i) =>
      var body := s[i + |OpenMarker|..];
      match IndexOf(body, CloseMarker)
      case Some(j) =>
        if NoLineTerminator(body[..j]) then Some(body[..j]) else MatchLinkFrom(s, i + 1)
      case None => MatchLinkFrom(s, i + 1)
  }

  /** The answer paragraph of an FAQ item. */
  function RenderAnswer(answer: string): (r: Rendered)
    ensures r.Verbatim? <==> !Contains(answer, OpenMarker)
    ensures r.Verbatim? ==> r.text == answer
  {
    if IndexOf(answer, OpenMarker).Some? then
      Linked(BeforeFirst(answer, OpenMarker), MatchLinkFrom(answer, 0), SecondPiece(answer, CloseMarker))
    else Verbatim(answer)
  }

  lemma OccursShift(s: string, p: string, k: nat, j: nat)
    requires k <= |s|
    ensures OccursAt(s[k..], p, j) <==> OccursAt(s, p, k + j)
  {
    if k + j + |p| <= |s| {
      assert s[k..][j..j + |p|] == s[k + j..k + j + |p|];
    }
  }

  /** The only occurrence of `p` is at `i`, so `indexOf` finds it there. */
  lemma IndexOfOnly(s: string, p: string, i: nat)
    requires OccursAt(s, p, i)
    requires forall k: nat :: OccursAt(s, p, k) ==> k == i
    ensures IndexOf(s, p) == Some(i)
  {
    assert Contains(s, p);
  }

  /** An answer of the form a [RSVP_LINK] b [/RSVP_LINK] c, with each marker
      occurring once and the link text on one line, shows a, then b as the
      link, then c: the answer with the two markers taken out. */
  lemma {:induction false} RenderMarkedAnswer(a: string, b: string, c: string)
    requires NoLineTerminator(b)
    requires var s := a + OpenMarker + b + CloseMarker + c;
      (forall k: nat :: OccursAt(s, OpenMarker, k) ==> k == |a|)
      && (forall k: nat :: OccursAt(s, CloseMarker, k) ==> k == |a| + |OpenMarker| + |b|)
    ensures RenderAnswer(a + OpenMarker + b + CloseMarker + c) == Linked(a, Some(b), Some(c))
  {
    var s := a + OpenMarker + b + CloseMarker + c;
    var o := |a|;
    var p := |a| + |OpenMarker| + |b|;
    assert s[o..o + |OpenMarker|] == OpenMarker;
    assert s[p..p + |CloseMarker|] == CloseMarker;
    IndexOfOnly(s, OpenMarker, o);
    IndexOfOnly(s, CloseMarker, p);
    assert BeforeFirst(s, OpenMarker) == a;

    // The suffix: nothing after the closing marker is another closing marker.
    var rest := s[p + |CloseMarker|..];
    assert rest == c;
    forall j: nat ensures !OccursAt(rest, CloseMarker, j) {
      OccursShift(s, CloseMarker, p + |CloseMarker|, j);
    }
    assert IndexOf(rest, CloseMarker).None?;
    assert SecondPiece(s, CloseMarker) == Some(c);

    // The link: the first closing marker after the opening one ends it.
    var body := s[o + |OpenMarker|..];
    assert body == b + CloseMarker + c;
    assert OccursAt(body, CloseMarker, |b|) by {
      assert body[|b|..|b| + |CloseMarker|] == CloseMarker;
    }
    forall j: nat | OccursAt(body, CloseMarker, j) ensures j == |b| {
      OccursShift(s, CloseMarker, o + |OpenMarker|, j);
    }
    IndexOfOnly(body, CloseMarker, |b|);
    assert body[..|b|] == b;
    assert IndexFrom(s, OpenMarker, 0) == Some(o);
    assert MatchLinkFrom(s, 0) == Some(b);
  }

  /** An answer without the opening marker is shown exactly as written. */
  lemma RenderPlainAnswer(answer: string)
    requires forall k: nat :: !OccursAt(answer, OpenMarker, k)
    ensures RenderAnswer(answer) == Verbatim(answer)
  {
  }
}

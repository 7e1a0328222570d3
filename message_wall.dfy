/**
 * The message wall: avatar initials from a name, the delayed hand-over of a
 * new message list to the visible list, and the choice between the loading,
 * empty and list views.
 */
module MessageWall {
  import opened Text
  import opened Messages

  /** `s.split(" ")`: the pieces between single spaces, empty pieces
      included; there is always at least one piece. */
  function Split(s: string): (parts: seq<string>)
    ensures |parts| >= 1
  {
    if s == [] then [""]
    else if s[0] == ' ' then [""] + Split(s[1..])
    else
      var rest := Split(s[1..]);
      [[s[0]] + rest[0]] + rest[1..]
  }

  /** `parts.join(" ")` */
  function Join(parts: seq<string>): string
    requires |parts| >= 1
  {
    if |parts| == 1 then parts[0] else parts[0] + " " + Join(parts[1..])
  }

  /** Joining the pieces with single spaces gives the name back, and no piece
      holds a space. */
  lemma {:induction false} SplitJoin(s: string)
    ensures Join(Split(s)) == s
    ensures forall k :: 0 <= k < |Split(s)| ==> ' ' !in Split(s)[k]
  {
    if s != [] {
      SplitJoin(s[1..]);
      if s[0] != ' ' {
        var rest := Split(s[1..]);
        assert Split(s)[1..] == rest[1..];
        if |rest| > 1 {
          assert Join(rest) == rest[0] + " " + Join(rest[1..]);
        }
        assert s == [s[0]] + s[1..];
      }
    }
  }

  /** `parts.map(n => n[0]).join("")`: the first character of each piece;
      an empty piece gives `undefined`, which joins as nothing. */
  function FirstChars(parts: seq<string>): string {
    if parts == [] then []
    else (if parts[0] == [] then [] else [parts[0][0]]) + FirstChars(parts[1..])
  }

  /** The avatar text of a message card. */
  function AvatarText(name: string): string {
    UpperStr(FirstChars(Split(name)))
  }

  /** The number of non-empty pieces. */
  function NonEmptyCount(parts: seq<string>): nat {
    if parts == [] then 0 else (if parts[0] == [] then 0 else 1) + NonEmptyCount(parts[1..])
  }

  lemma {:induction false} FirstCharsAppend(a: seq<string>, b: seq<string>)
    ensures FirstChars(a + b) == FirstChars(a) + FirstChars(b)
  {
    if a == [] {
      assert a + b == b;
    } else {
      assert (a + b)[1..] == a[1..] + b;
      FirstCharsAppend(a[1..], b);
    }
  }

  lemma {:induction false} FirstCharsLength(parts: seq<string>)
    ensures |FirstChars(parts)| == NonEmptyCount(parts) <= |parts|
  {
    if parts != [] {
      FirstCharsLength(parts[1..]);
    }
  }

  /** The avatar text has one letter per non-empty piece, so never more
      letters than pieces; an empty name gives an empty avatar. */
  lemma AvatarTextLength(name: string)
    ensures |AvatarText(name)| == NonEmptyCount(Split(name)) <= |Split(name)|
    ensures name == "" ==> AvatarText(name) == ""
  {
    FirstCharsLength(Split(name));
  }

  lemma {:induction false} SplitAppend(a: string, b: string)
    ensures Split(a + " " + b) == Split(a) + Split(b)
  {
    if a == [] {
      assert a + " " + b == [' '] + b;
      assert ([' '] + b)[1..] == b;
    } else {
      var s := a + " " + b;
      assert s[0] == a[0] && s[1..] == a[1..] + " " + b;
      var front, rest := Split(a[1..]), Split(s[1..]);
      assert rest == front + Split(b) by { SplitAppend(a[1..], b); }
      if a[0] == ' ' {
        assert Split(s) == [""] + rest;
        assert Split(a) == [""] + front;
        assert [""] + (front + Split(b)) == ([""] + front) + Split(b);
      } else {
        assert Split(s) == [[a[0]] + rest[0]] + rest[1..];
        assert Split(a) == [[a[0]] + front[0]] + front[1..];
        assert rest[0] == front[0] && rest[1..] == front[1..] + Split(b);
        var first := [[a[0]] + front[0]];
        assert first + (front[1..] + Split(b)) == (first + front[1..]) + Split(b);
      }
    }
  }

  /** The avatar of "first last" is the avatar of "first" followed by the
      avatar of "last": the letters come from the pieces in order. */
  lemma AvatarTextAppend(a: string, b: string)
    ensures AvatarText(a + " " + b) == AvatarText(a) + AvatarText(b)
  {
    SplitAppend(a, b);
    FirstCharsAppend(Split(a), Split(b));
    UpperStrAppend(FirstChars(Split(a)), FirstChars(Split(b)));
  }

  /** A single word gives its upper-cased first letter. */
  lemma {:induction false} AvatarTextWord(w: string)
    requires w != [] && ' ' !in w
    ensures AvatarText(w) == [Upper(w[0])]
  {
    SplitWord(w);
    assert FirstChars([w]) == [w[0]] + FirstChars([]);
  }

  lemma {:induction false} SplitWord(w: string)
    requires ' ' !in w
    ensures Split(w) == [w]
  {
    if w != [] {
      assert w[0] in w;
      assert forall c :: c in w[1..] ==> c in w;
      SplitWord(w[1..]);
      assert w == [w[0]] + w[1..];
    }
  }

  /** What the wall shows. */
  datatype WallView = LoadingView | EmptyView | ListView(items: seq<Message>)

  /** Loading wins over the empty state, which wins over the list; the
      emptiness test is on the list received, and the cards are the visible
      list. */
  function ViewOf(loading: bool, messages: seq<Message>, visible: seq<Message>): (v: WallView)
    ensures v == LoadingView <==> loading
    ensures v == EmptyView <==> !loading && messages == []
    ensures v.ListView? <==> !loading && messages != []
    ensures v.ListView? ==> v.items == visible
  {
    if loading then LoadingView
    else if |messages| == 0 then EmptyView
    else ListView(visible)
  }

  /** The `MessageWallDisplay` component state; `pending` is the list the
      scheduled 100 ms timer will reveal, if a timer is scheduled. */
  class WallDisplay {
    var visibleMessages: seq<Message>
    var isAnimating: bool
    var pending: Option<seq<Message>>

    ghost predicate Valid()
      reads this
    {
      pending.Some? ==> isAnimating && pending.value != []
    }

    constructor ()
      ensures Valid()
      ensures visibleMessages == [] && !isAnimating && pending == None
    {
      visibleMessages := [];
      isAnimating := false;
      pending := None;
    }

    /** The effect on a new `messages` prop. The previous effect's cleanup
        cancels any scheduled timer first. */
    method MessagesChanged(messages: seq<Message>)
      requires Valid()
      modifies this
      ensures Valid()
      ensures messages != [] ==> isAnimating && pending == Some(messages)
                                 && visibleMessages == old(visibleMessages)
      ensures messages == [] ==> visibleMessages == [] && pending == None
                                 && isAnimating == old(isAnimating)
    {
      pending := None;
      if |messages| > 0 {
        isAnimating := true;
        pending := Some(messages);
      } else {
        visibleMessages := [];
      }
    }

    /** The 100 ms timer fires: the list it was scheduled with becomes the
        visible list and the animation flag drops. */
    method TimerFired()
      requires Valid() && pending.Some?
      modifies this
      ensures Valid()
      ensures visibleMessages == old(pending).value && !isAnimating && pending == None
    {
      visibleMessages := pending.value;
      isAnimating := false;
      pending := None;
    }
  }

  /** A non-empty list, once its timer fires, is exactly the visible list. */
  method ChangeAndSettle(w: WallDisplay, messages: seq<Message>)
    requires w.Valid() && messages != []
    modifies w
    ensures w.Valid() && w.visibleMessages == messages && !w.isAnimating
  {
    w.MessagesChanged(messages);
    w.TimerFired();
  }
}

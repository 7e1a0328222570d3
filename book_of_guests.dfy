/**
 * The "book of guests": the list of guests who answered "Yes", each with a
 * headcount badge, the total number of people attending, and the initials
 * shown in each guest's avatar.
 */
module BookOfGuests {
  import opened Text

  /** One row of the guest sheet. A cell missing from the sheet is "". */
  datatype Guest = Guest(name: string, email: string, rsvp: string, headcount: string, message: string)

  // ---------------------------------------------------------------------
  // Initials

  /** Length of the run of non-white-space characters that starts `s`. */
  function WordLength(s: string): (n: nat)
    ensures n <= |s|
    ensures forall i :: 0 <= i < n ==> !IsSpace(s[i])
    ensures n < |s| ==> IsSpace(s[n])
  {
    if s == [] || IsSpace(s[0]) then 0 else 1 + WordLength(s[1..])
  }

  /** `s.trim().split(/\s+/).filter(Boolean)`: the maximal runs of
      non-white-space characters, in order. */
  function Words(s: string): (ws: seq<string>)
    ensures forall k :: 0 <= k < |ws| ==> ws[k] != []
    decreases |s|
  {
    if s == [] then []
    else if IsSpace(s[0]) then Words(s[1..])
    else
      var n := WordLength(s);
      [s[..n]] + Words(s[n..])
  }

  /** Every word is non-empty and free of white space, and there are no
      words exactly when the string is blank. */
  lemma {:induction false} WordsSpec(s: string)
    ensures forall w :: w in Words(s) ==> w != [] && forall i :: 0 <= i < |w| ==> !IsSpace(w[i])
    ensures Words(s) == [] <==> IsBlank(s)
    decreases |s|
  {
    if s == [] {
    } else if IsSpace(s[0]) {
      WordsSpec(s[1..]);
      assert IsBlank(s) <==> IsBlank(s[1..]) by {
        assert forall i :: 0 < i < |s| ==> s[i] == s[1..][i - 1];
      }
    } else {
      var n := WordLength(s);
      WordsSpec(s[n..]);
      assert !IsBlank(s);
    }
  }

  /** A run of characters that starts `a` stops at the space after `a`. */
  lemma {:induction false} WordLengthAppend(a: string, b: string)
    ensures WordLength(a + [' '] + b) == WordLength(a)
    decreases |a|
  {
    var s := a + [' '] + b;
    if a != [] && !IsSpace(a[0]) {
      assert s[1..] == a[1..] + [' '] + b;
      WordLengthAppend(a[1..], b);
    }
  }

  /** The words of two pieces joined by a space are the words of the first
      followed by the words of the second. */
  lemma {:induction false} WordsAppend(a: string, b: string)
    ensures Words(a + [' '] + b) == Words(a) + Words(b)
    decreases |a|
  {
    var s := a + [' '] + b;
    if a == [] {
      assert s[1..] == b;
    } else if IsSpace(a[0]) {
      assert s[1..] == a[1..] + [' '] + b;
      WordsAppend(a[1..], b);
    } else {
      var n := WordLength(a);
      WordLengthAppend(a, b);
      assert s[..n] == a[..n];
      assert s[n..] == a[n..] + [' '] + b;
      WordsAppend(a[n..], b);
      assert Words(s) == [a[..n]] + (Words(a[n..]) + Words(b));
    }
  }

  /** A non-empty piece without white space is one word, itself. */
  lemma WordsOfWord(w: string)
    requires w != [] && forall i :: 0 <= i < |w| ==> !IsSpace(w[i])
    ensures Words(w) == [w]
  {
    assert WordLength(w) == |w|;
    assert w[..|w|] == w && w[|w|..] == [];
  }

  /** The upper-cased first letters of the words. */
  function FirstLetters(ws: seq<string>): (r: string)
    requires forall k :: 0 <= k < |ws| ==> ws[k] != []
    ensures |r| == |ws|
    ensures forall k :: 0 <= k < |ws| ==> r[k] == Upper(ws[k][0])
  {
    if ws == [] then [] else [Upper(ws[0][0])] + FirstLetters(ws[1..])
  }

  /** `getInitials`: "?" for an empty or blank name, otherwise the
      upper-cased first letters of the first two words. */
  function Initials(name: string): (r: string)
    ensures 1 <= |r| <= 2
    ensures IsBlank(name) ==> r == "?"
    ensures !IsBlank(name) ==>
      |r| == (if |Words(name)| < 2 then |Words(name)| else 2)
      && forall k :: 0 <= k < |r| ==> r[k] == Upper(Words(name)[k][0])
  {
    if name == [] then "?"
    else
      WordsSpec(name);
      var ws := Words(name);
      var parts := if |ws| < 2 then ws else ws[..2];
      var letters := FirstLetters(parts);
      if letters == [] then "?" else letters
  }

  // ---------------------------------------------------------------------
  // `parseInt` on a decimal prefix

  predicate IsDigit(c: char) { '0' <= c <= '9' }

  /** Length of the run of decimal digits that starts `s`. */
  function DigitRun(s: string): (n: nat)
    ensures n <= |s|
    ensures forall i :: 0 <= i < n ==> IsDigit(s[i])
    ensures n < |s| ==> !IsDigit(s[n])
  {
    if s == [] || !IsDigit(s[0]) then 0 else 1 + DigitRun(s[1..])
  }

  function DigitValue(c: char): nat
    requires IsDigit(c)
  {
    c as int - '0' as int
  }

  /** The number a string of decimal digits denotes. */
  function DigitsValue(ds: string): nat
    requires forall i :: 0 <= i < |ds| ==> IsDigit(ds[i])
  {
    if ds == [] then 0
    else DigitsValue(ds[..|ds| - 1]) * 10 + DigitValue(ds[|ds| - 1])
  }

  /** `parseInt(s)` in base ten: leading white space, an optional sign,
      then the longest run of digits; `None` stands for NaN. */
  function ParseInt(s: string): Option<int> {
    var t := s[LeadingSpaces(s)..];
    var negative := t != [] && t[0] == '-';
    var body := if t != [] && (t[0] == '-' || t[0] == '+') then t[1..] else t;
    var n := DigitRun(body);
    if n == 0 then None
    else
      var v: int := DigitsValue(body[..n]);
      Some(if negative then -v else v)
  }

  /** The decimal spelling of a natural number. */
  function Decimal(n: nat): (ds: string)
    ensures ds != [] && forall i :: 0 <= i < |ds| ==> IsDigit(ds[i])
  {
    if n < 10 then [('0' as int + n) as char]
    else Decimal(n / 10) + [('0' as int + n % 10) as char]
  }

  lemma {:induction false} DecimalValue(n: nat)
    ensures DigitsValue(Decimal(n)) == n
  {
    if n >= 10 {
      var ds := Decimal(n);
      assert ds[..|ds| - 1] == Decimal(n / 10);
      DecimalValue(n / 10);
    }
  }

  /** `parseInt` reads back the decimal spelling of every natural number. */
  lemma ParseDecimal(n: nat)
    ensures ParseInt(Decimal(n)) == Some(n)
  {
    var ds := Decimal(n);
    assert !IsSpace(ds[0]) && ds[0] != '-' && ds[0] != '+';
    assert LeadingSpaces(ds) == 0;
    assert DigitRun(ds) == |ds|;
    assert ds[..|ds|] == ds;
    DecimalValue(n);
  }

  // ---------------------------------------------------------------------
  // Attending guests and the total

  /** The guest as listed: an empty headcount cell becomes "1". */
  function Normalise(g: Guest): Guest {
    g.(headcount := if g.headcount == "" then "1" else g.headcount)
  }

  /** `data.filter(g => g.RSVP === "Yes").map(Normalise)` */
  function Attending(data: seq<Guest>): seq<Guest> {
    if data == [] then []
    else if data[0].rsvp == "Yes" then [Normalise(data[0])] + Attending(data[1..])
    else Attending(data[1..])
  }

  /** The kept records are exactly the normalised "Yes" records (compared
      case-sensitively), each with a non-empty headcount. */
  lemma {:induction false} AttendingSpec(data: seq<Guest>)
    ensures |Attending(data)| <= |data|
    ensures forall g :: g in Attending(data) ==> g.rsvp == "Yes" && g.headcount != ""
    ensures forall g :: g in data && g.rsvp == "Yes" ==> Normalise(g) in Attending(data)
    ensures forall g :: g in Attending(data) ==> exists h :: h in data && h.rsvp == "Yes" && g == Normalise(h)
  {
    if data != [] {
      AttendingSpec(data[1..]);
      assert forall g :: g in data ==> g == data[0] || g in data[1..];
    }
  }

  /** Filtering keeps input order: it distributes over concatenation. */
  lemma {:induction false} AttendingAppend(a: seq<Guest>, b: seq<Guest>)
    ensures Attending(a + b) == Attending(a) + Attending(b)
  {
    if a == [] {
      assert a + b == b;
    } else {
      assert (a + b)[1..] == a[1..] + b;
      AttendingAppend(a[1..], b);
    }
  }

  /** Normalising changes only an empty headcount. */
  lemma NormaliseSpec(g: Guest)
    ensures Normalise(g).name == g.name && Normalise(g).email == g.email
    ensures Normalise(g).rsvp == g.rsvp && Normalise(g).message == g.message
    ensures g.headcount != "" ==> Normalise(g) == g
    ensures g.headcount == "" ==> Normalise(g).headcount == "1"
  {
  }

  /** `parseInt(String(g.Guest)) || 1`: NaN and zero count as one. */
  function HeadCount(g: Guest): (n: int)
    ensures n != 0
  {
    match ParseInt(g.headcount)
    case None => 1
    case Some(v) => if v == 0 then 1 else v
  }

  /** A headcount cell holding the decimal spelling of a number counts as
      that number, except that zero counts as one. */
  lemma HeadCountOfDecimal(g: Guest, n: nat)
    requires g.headcount == Decimal(n)
    ensures HeadCount(g) == if n == 0 then 1 else n
  {
    ParseDecimal(n);
  }

  /** A headcount cell without any digit, such as "two" or "-", is NaN
      for `parseInt` and counts as one. */
  lemma HeadCountWithoutDigits(g: Guest)
    requires forall i :: 0 <= i < |g.headcount| ==> !IsDigit(g.headcount[i])
    ensures HeadCount(g) == 1
  {
    var s := g.headcount;
    var t := s[LeadingSpaces(s)..];
    var body := if t != [] && (t[0] == '-' || t[0] == '+') then t[1..] else t;
    if body != [] {
      assert body[0] == s[|s| - |body|];
    }
    assert DigitRun(body) == 0;
  }

  /** The `reduce` that sums the kept records' headcounts, from the left. */
  function Total(kept: seq<Guest>): int {
    if kept == [] then 0 else Total(kept[..|kept| - 1]) + HeadCount(kept[|kept| - 1])
  }

  lemma {:induction false} TotalAppend(a: seq<Guest>, b: seq<Guest>)
    ensures Total(a + b) == Total(a) + Total(b)
    decreases |b|
  {
    if b == [] {
      assert a + b == a;
    } else {
      assert (a + b)[..|a + b| - 1] == a + b[..|b| - 1];
      TotalAppend(a, b[..|b| - 1]);
    }
  }

  /** What one input record adds to the total: its normalised headcount if
      it answered "Yes", nothing otherwise. */
  function Contribution(g: Guest): int {
    if g.rsvp == "Yes" then HeadCount(Normalise(g)) else 0
  }

  function SumContributions(data: seq<Guest>): int {
    if data == [] then 0 else Contribution(data[0]) + SumContributions(data[1..])
  }

  /** The total over the kept records is the sum, over all input records,
      of the "Yes" records' headcounts: other records never contribute. */
  lemma {:induction false} TotalOfAttending(data: seq<Guest>)
    ensures Total(Attending(data)) == SumContributions(data)
  {
    if data != [] {
      TotalOfAttending(data[1..]);
      if data[0].rsvp == "Yes" {
        TotalAppend([Normalise(data[0])], Attending(data[1..]));
        assert Total([Normalise(data[0])]) == HeadCount(Normalise(data[0])) by {
          assert [Normalise(data[0])][..0] == [];
        }
      }
    }
  }

  /** A record whose headcount cell is empty or a decimal number adds at
      least one person when it answered "Yes". */
  lemma ContributionPositive(g: Guest, n: nat)
    requires g.rsvp == "Yes"
    requires g.headcount == "" || g.headcount == Decimal(n)
    ensures Contribution(g) >= 1
  {
    if g.headcount == "" {
      assert Normalise(g).headcount == Decimal(1);
      HeadCountOfDecimal(Normalise(g), 1);
    } else {
      assert Normalise(g) == g;
      HeadCountOfDecimal(g, n);
    }
  }

  // ---------------------------------------------------------------------
  // The per-record badge

  /** The badge's number: `g.Guest ? (parseInt(g.Guest) || 1) : 1`. */
  function BadgeCount(g: Guest): int {
    if g.headcount == "" then 1
    else match ParseInt(g.headcount)
      case None => 1
      case Some(v) => if v == 0 then 1 else v
  }

  /** The badge uses the same rule as the total. */
  lemma BadgeIsHeadCount(g: Guest)
    ensures BadgeCount(g) == HeadCount(g)
  {
    if g.headcount == "" {
      assert LeadingSpaces(g.headcount) == 0;
    }
  }

  function SumBadges(kept: seq<Guest>): int {
    if kept == [] then 0 else SumBadges(kept[..|kept| - 1]) + BadgeCount(kept[|kept| - 1])
  }

  /** The badges of the listed records add up to the total shown. */
  lemma {:induction false} BadgesSumToTotal(kept: seq<Guest>)
    ensures SumBadges(kept) == Total(kept)
  {
    if kept != [] {
      BadgesSumToTotal(kept[..|kept| - 1]);
      BadgeIsHeadCount(kept[|kept| - 1]);
    }
  }

  /** The badge's label as written: singular exactly when
      `parseInt(g.Guest || "1") === 1`. */
  function BadgeLabelAsWritten(g: Guest): string {
    if ParseInt(if g.headcount == "" then "1" else g.headcount) == Some(1) then "guest" else "guests"
  }

  /** A headcount of "0" shows the number 1 next to the plural label. */
  lemma ZeroBadgeReadsOneGuests()
    ensures var g := Guest("A", "", "Yes", "0", "");
      BadgeCount(g) == 1 && BadgeLabelAsWritten(g) == "guests"
  {
    var g := Guest("A", "", "Yes", "0", "");
    assert LeadingSpaces(g.headcount) == 0;
    assert DigitRun(g.headcount) == 1;
    assert g.headcount[..1] == "0";
    assert DigitsValue("0") == 0 by {
      assert "0"[..0] == [];
    }
  }

  /** The label agreeing with the number shown. */
  function BadgeLabel(g: Guest): (word: string)
    ensures word == "guest" <==> BadgeCount(g) == 1
    ensures word == "guest" || word == "guests"
  {
    if BadgeCount(g) == 1 then "guest" else "guests"
  }

  // ---------------------------------------------------------------------
  // The component's state

  const FetchFailedError := "Failed to fetch guest list"

  class GuestBook {
    var guests: seq<Guest>
    var totalGuests: int
    var isLoading: bool
    var error: Option<string>

    constructor ()
      ensures guests == [] && totalGuests == 0 && isLoading && error == None
    {
      guests, totalGuests, isLoading, error := [], 0, true, None;
    }

    /** `fetchGuests`, given the response: the sheet's rows, or None when
        the request failed. */
    method FetchGuests(response: Option<seq<Guest>>)
      modifies this
      ensures !isLoading
      ensures response.Some? ==> guests == Attending(response.value) && error == None
      ensures response.Some? ==> totalGuests == SumContributions(response.value)
      ensures response.None? ==> guests == old(guests) && totalGuests == old(totalGuests)
      ensures response.None? ==> error == Some(FetchFailedError)
    {
      isLoading := true;
      error := None;
      if response.Some? {
        var attending := Attending(response.value);
        TotalOfAttending(response.value);
        guests := attending;
        totalGuests := Total(attending);
      } else {
        error := Some(FetchFailedError);
      }
      isLoading := false;
    }
  }
}

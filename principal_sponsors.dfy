/**
 * The principal sponsors listing: sponsor pairs loaded from the sponsor
 * service, pairs with no name at all dropped, and each remaining pair shown
 * as a row with the male sponsor on the left and the female on the right.
 */
module PrincipalSponsors {
  import opened Text

  /** One pair; a missing name is "". */
  datatype Sponsor = Sponsor(male: string, female: string)

  /** `s.MalePrincipalSponsor || s.FemalePrincipalSponsor` */
  predicate Kept(s: Sponsor) {
    s.male != "" || s.female != ""
  }

  /** `sponsorPairs`: the pairs with at least one name, in order. */
  function SponsorPairs(sponsors: seq<Sponsor>): seq<Sponsor> {
    if sponsors == [] then []
    else (if Kept(sponsors[0]) then [sponsors[0]] else []) + SponsorPairs(sponsors[1..])
  }

  /** A pair is kept exactly when it is in the input and has a name. */
  lemma {:induction false} SponsorPairsSpec(sponsors: seq<Sponsor>)
    ensures |SponsorPairs(sponsors)| <= |sponsors|
    ensures forall s :: s in SponsorPairs(sponsors) <==> s in sponsors && Kept(s)
  {
    if sponsors != [] {
      SponsorPairsSpec(sponsors[1..]);
      assert sponsors == [sponsors[0]] + sponsors[1..];
    }
  }

  /** `a` is `b` with some elements left out, the rest in order (greedy
      matching, which finds an embedding whenever one exists). */
  predicate SubsequenceOf<T(==)>(a: seq<T>, b: seq<T>)
    decreases |b|
  {
    a == [] || (b != [] && if a[0] == b[0] then SubsequenceOf(a[1..], b[1..]) else SubsequenceOf(a, b[1..]))
  }

  /** The kept pairs keep their order. */
  lemma {:induction false} SponsorPairsSubsequence(sponsors: seq<Sponsor>)
    ensures SubsequenceOf(SponsorPairs(sponsors), sponsors)
  {
    if sponsors != [] {
      SponsorPairsSubsequence(sponsors[1..]);
      var r := SponsorPairs(sponsors);
      if !Kept(sponsors[0]) && r != [] {
        SponsorPairsSpec(sponsors[1..]);
        assert r == SponsorPairs(sponsors[1..]);
        assert r[0] in SponsorPairs(sponsors[1..]);
        assert Kept(r[0]) && r[0] != sponsors[0];
      }
    }
  }

  /** Filtering distributes over concatenation. */
  lemma {:induction false} SponsorPairsAppend(a: seq<Sponsor>, b: seq<Sponsor>)
    ensures SponsorPairs(a + b) == SponsorPairs(a) + SponsorPairs(b)
  {
    if a == [] {
      assert a + b == b;
    } else {
      var head := if Kept(a[0]) then [a[0]] else [];
      assert (a + b)[0] == a[0] && (a + b)[1..] == a[1..] + b;
      SponsorPairsAppend(a[1..], b);
      assert SponsorPairs(a + b) == head + (SponsorPairs(a[1..]) + SponsorPairs(b));
      assert SponsorPairs(a) == head + SponsorPairs(a[1..]);
    }
  }

  /** Filtering an already filtered list changes nothing. */
  lemma {:induction false} SponsorPairsIdempotent(sponsors: seq<Sponsor>)
    ensures SponsorPairs(SponsorPairs(sponsors)) == SponsorPairs(sponsors)
  {
    if sponsors != [] {
      var rest := SponsorPairs(sponsors[1..]);
      SponsorPairsIdempotent(sponsors[1..]);
      var head := if Kept(sponsors[0]) then [sponsors[0]] else [];
      SponsorPairsAppend(head, rest);
      if Kept(sponsors[0]) {
        assert SponsorPairs(head) == [sponsors[0]] + SponsorPairs([]);
      }
    }
  }

  /** One cell of a row: a name, or a blank spacer. */
  datatype Cell = Name(name: string) | Blank

  datatype Row = Row(left: Cell, right: Cell)

  function CellOf(name: string): Cell {
    if name != "" then Name(name) else Blank
  }

  /** The row of one kept pair. */
  function RowOf(s: Sponsor): (r: Row)
    ensures r.left == Blank <==> s.male == ""
    ensures r.right == Blank <==> s.female == ""
    ensures r.left.Name? ==> r.left.name == s.male
    ensures r.right.Name? ==> r.right.name == s.female
  {
    Row(CellOf(s.male), CellOf(s.female))
  }

  function Rows(pairs: seq<Sponsor>): seq<Row> {
    if pairs == [] then [] else [RowOf(pairs[0])] + Rows(pairs[1..])
  }

  /** One row per kept pair, in order; no row is blank on both sides. */
  lemma {:induction false} RowsSpec(sponsors: seq<Sponsor>)
    ensures |Rows(SponsorPairs(sponsors))| == |SponsorPairs(sponsors)|
    ensures forall k :: 0 <= k < |SponsorPairs(sponsors)| ==>
      Rows(SponsorPairs(sponsors))[k] == RowOf(SponsorPairs(sponsors)[k])
    ensures forall k :: 0 <= k < |SponsorPairs(sponsors)| ==>
      Rows(SponsorPairs(sponsors))[k] != Row(Blank, Blank)
  {
    var pairs := SponsorPairs(sponsors);
    RowsIndex(pairs);
    SponsorPairsSpec(sponsors);
    forall k | 0 <= k < |pairs| ensures Rows(pairs)[k] != Row(Blank, Blank) {
      assert pairs[k] in pairs;
    }
  }

  lemma {:induction false} RowsIndex(pairs: seq<Sponsor>)
    ensures |Rows(pairs)| == |pairs|
    ensures forall k :: 0 <= k < |pairs| ==> Rows(pairs)[k] == RowOf(pairs[k])
  {
    if pairs != [] {
      RowsIndex(pairs[1..]);
    }
  }

  /** What the card shows. */
  datatype SponsorView = LoadingView | ErrorView(message: string) | EmptyView | RowsView(rows: seq<Row>)

  /** Loading wins over the error, the error over the empty state, and the
      empty state over the rows. */
  function ViewOf(isLoading: bool, error: Option<string>, sponsors: seq<Sponsor>): (v: SponsorView)
    ensures v == LoadingView <==> isLoading
    ensures v.ErrorView? <==> !isLoading && error.Some?
    ensures v == EmptyView <==> !isLoading && error.None? && SponsorPairs(sponsors) == []
    ensures v.RowsView? ==> v.rows == Rows(SponsorPairs(sponsors)) && v.rows != []
  {
    if isLoading then LoadingView
    else if error.Some? then ErrorView(error.value)
    else if SponsorPairs(sponsors) == [] then EmptyView
    else RowsView(Rows(SponsorPairs(sponsors)))
  }

  const LoadError := "Failed to load principal sponsors"

  /** How the request settled: the decoded list, a response that was not
      ok, or an exception (network or decoding) with its message. */
  datatype Outcome = Loaded(list: seq<Sponsor>) | NotOk | Thrown(message: string)

  /** `e?.message || "Failed to load principal sponsors"` */
  function ErrorText(o: Outcome): (text: string)
    requires !o.Loaded?
    ensures text != ""
    ensures o.Thrown? && o.message != "" ==> text == o.message
  {
    if o.Thrown? && o.message != "" then o.message else LoadError
  }

  /** The component state. */
  class SponsorList {
    var sponsors: seq<Sponsor>
    var isLoading: bool
    var error: Option<string>

    constructor ()
      ensures sponsors == [] && isLoading && error == None
    {
      sponsors := [];
      isLoading := true;
      error := None;
    }

    function View(): SponsorView
      reads this
    {
      ViewOf(isLoading, error, sponsors)
    }

    /** `fetchSponsors` as written, on mount and from "Try again". A
        success replaces the list but leaves an earlier error in place. */
    method FetchAsWritten(outcome: Outcome)
      modifies this
      ensures !isLoading
      ensures outcome.Loaded? ==> sponsors == outcome.list && error == old(error)
      ensures !outcome.Loaded? ==> sponsors == old(sponsors) && error == Some(ErrorText(outcome))
    {
      isLoading := true;
      if outcome.Loaded? {
        sponsors := outcome.list;
      } else {
        var message := if outcome.Thrown? then outcome.message else "Failed to load principal sponsors";
        error := Some(if message != "" then message else "Failed to load principal sponsors");
      }
      isLoading := false;
    }

    /** `fetchSponsors` with the error cleared when a load starts, so that a
        successful retry leaves the error view. */
    method Fetch(outcome: Outcome)
      modifies this
      ensures !isLoading
      ensures outcome.Loaded? ==> sponsors == outcome.list && error == None
      ensures !outcome.Loaded? ==> sponsors == old(sponsors) && error == Some(ErrorText(outcome))
      ensures outcome.Loaded? ==> !View().ErrorView?
    {
      isLoading := true;
      error := None;
      if outcome.Loaded? {
        sponsors := outcome.list;
      } else {
        var message := if outcome.Thrown? then outcome.message else "Failed to load principal sponsors";
        error := Some(if message != "" then message else "Failed to load principal sponsors");
      }
      isLoading := false;
    }
  }

  /** As written, once a load has failed, a retry that succeeds still shows
      the error: the list arrives but the error view hides it. */
  method RetryAfterFailureAsWritten(list: seq<Sponsor>) returns (view: SponsorView)
    ensures view == ErrorView(LoadError)
  {
    var c := new SponsorList();
    c.FetchAsWritten(NotOk);
    c.FetchAsWritten(Loaded(list));
    view := c.View();
  }

  /** With the error cleared on each load, the same retry shows the list. */
  method RetryAfterFailure(list: seq<Sponsor>) returns (view: SponsorView)
    ensures view == ViewOf(false, None, list)
    ensures SponsorPairs(list) != [] ==> view == RowsView(Rows(SponsorPairs(list)))
  {
    var c := new SponsorList();
    c.Fetch(NotOk);
    c.Fetch(Loaded(list));
    view := c.View();
  }
}

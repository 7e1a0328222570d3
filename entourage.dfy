/**
 * The entourage listing: members grouped by role category (empty category
 * means "Other"), rendered in a fixed category order with four pairs of
 * categories shown side by side, the parents sorted fathers first, and
 * longer sections split into two columns of aligned rows.
 */
module Entourage {
  import opened Text

  datatype Member = Member(name: string, roleCategory: string, roleTitle: string, email: string)

  /** One row of a two-column layout: a member or a blank on each side. */
  datatype Row = Row(left: Option<Member>, right: Option<Member>)

  /** How the members of one category are laid out. */
  datatype Layout =
    | Centered(members: seq<Member>)
    | SideBySide(first: Member, second: Member)
    | Rows(rows: seq<Row>)

  /** One rendered block of the listing. */
  datatype Block =
    | Couple(groom: Option<Member>, bride: Option<Member>)
    | Combined(leftTitle: string, rightTitle: string, rows: seq<Row>)
    | Single(title: string, layout: Layout)

  const Couple_ := "The Couple"
  const ParentsGroom := "Parents of the Groom"
  const ParentsBride := "Parents of the Bride"
  const BestMan := "Best Man"
  const MaidOfHonor := "Maid/Matron of Honor"
  const CandleSponsors := "Candle Sponsors"
  const VeilSponsors := "Veil Sponsors"
  const CordSponsors := "Cord Sponsors"
  const Groomsmen := "Groomsmen"
  const Bridesmaids := "Bridesmaids"

  /** The order in which categories are rendered. */
  const RoleCategoryOrder: seq<string> := [
    Couple_, ParentsGroom, ParentsBride, BestMan, MaidOfHonor, CandleSponsors,
    VeilSponsors, CordSponsors, Groomsmen, Bridesmaids, "Flower Girls", "Ring/Coin Bearers"]

  /** Categories always shown as one centred column. */
  const SingleColumnSections: set<string> :=
    {BestMan, MaidOfHonor, "Ring Bearer", "Coin Bearer", "Bible Bearer", "Presider"}

  /** `member.RoleCategory || "Other"` */
  function CategoryOf(m: Member): string {
    if m.roleCategory == "" then "Other" else m.roleCategory
  }

  // ---------------------------------------------------------------------
  // Grouping

  /** The categories in order of first appearance: the key order of the
      object the grouping builds. */
  function Keys(e: seq<Member>): seq<string> {
    if e == [] then []
    else
      var k := Keys(e[..|e| - 1]);
      if CategoryOf(e[|e| - 1]) in k then k else k + [CategoryOf(e[|e| - 1])]
  }

  /** The members of category `c`, in input order. */
  function MembersOf(e: seq<Member>, c: string): seq<Member> {
    if e == [] then []
    else MembersOf(e[..|e| - 1], c) + (if CategoryOf(e[|e| - 1]) == c then [e[|e| - 1]] else [])
  }

  predicate Distinct(ks: seq<string>) {
    forall i, j :: 0 <= i < j < |ks| ==> ks[i] != ks[j]
  }

  /** Extending the input by one member. */
  lemma MembersOfSnoc(e: seq<Member>, m: Member, c: string)
    ensures MembersOf(e + [m], c) == MembersOf(e, c) + (if CategoryOf(m) == c then [m] else [])
  {
    assert (e + [m])[..|e|] == e;
  }

  lemma KeysSnoc(e: seq<Member>, m: Member)
    ensures Keys(e + [m]) == if CategoryOf(m) in Keys(e) then Keys(e) else Keys(e) + [CategoryOf(m)]
  {
    assert (e + [m])[..|e|] == e;
  }

  /** The keys are distinct and are exactly the categories with members. */
  lemma {:induction false} KeysSpec(e: seq<Member>)
    ensures Distinct(Keys(e))
    ensures forall c :: c in Keys(e) <==> MembersOf(e, c) != []
  {
    if e != [] {
      var init, m := e[..|e| - 1], e[|e| - 1];
      assert e == init + [m];
      KeysSpec(init);
      KeysSnoc(init, m);
      forall c ensures c in Keys(e) <==> MembersOf(e, c) != [] {
        MembersOfSnoc(init, m, c);
      }
    }
  }

  /** Every member of a group has that group's category. */
  lemma {:induction false} MembersOfSpec(e: seq<Member>, c: string)
    ensures forall m :: m in MembersOf(e, c) <==> m in e && CategoryOf(m) == c
  {
    if e != [] {
      var init, m := e[..|e| - 1], e[|e| - 1];
      assert e == init + [m];
      MembersOfSpec(init, c);
      MembersOfSnoc(init, m, c);
    }
  }

  /** Grouping keeps input order: it distributes over concatenation. */
  lemma {:induction false} MembersOfAppend(a: seq<Member>, b: seq<Member>, c: string)
    ensures MembersOf(a + b, c) == MembersOf(a, c) + MembersOf(b, c)
    decreases |b|
  {
    if b == [] {
      assert a + b == a;
    } else {
      var init, m := b[..|b| - 1], b[|b| - 1];
      assert a + b == (a + init) + [m];
      assert b == init + [m];
      MembersOfAppend(a, init, c);
      MembersOfSnoc(a + init, m, c);
      MembersOfSnoc(init, m, c);
    }
  }

  /** A member lies in the group of its own category and in no other. */
  lemma MemberInExactlyOneGroup(e: seq<Member>, i: nat, c: string)
    requires i < |e|
    ensures e[i] in MembersOf(e, c) <==> c == CategoryOf(e[i])
  {
    MembersOfSpec(e, c);
  }

  function SumSizes(ks: seq<string>, e: seq<Member>): nat {
    if ks == [] then 0 else |MembersOf(e, ks[0])| + SumSizes(ks[1..], e)
  }

  lemma {:induction false} SumSizesSnocMember(ks: seq<string>, e: seq<Member>, m: Member)
    requires Distinct(ks)
    ensures SumSizes(ks, e + [m]) == SumSizes(ks, e) + (if CategoryOf(m) in ks then 1 else 0)
  {
    if ks != [] {
      MembersOfSnoc(e, m, ks[0]);
      SumSizesSnocMember(ks[1..], e, m);
      assert CategoryOf(m) in ks <==> CategoryOf(m) == ks[0] || CategoryOf(m) in ks[1..];
      assert CategoryOf(m) == ks[0] ==> CategoryOf(m) !in ks[1..];
    }
  }

  lemma {:induction false} SumSizesSnocKey(ks: seq<string>, c: string, e: seq<Member>)
    ensures SumSizes(ks + [c], e) == SumSizes(ks, e) + |MembersOf(e, c)|
  {
    if ks == [] {
      assert ks + [c] == [c];
    } else {
      assert (ks + [c])[1..] == ks[1..] + [c];
      SumSizesSnocKey(ks[1..], c, e);
    }
  }

  /** Every member is in exactly one group: the group sizes add up to the
      number of members. */
  lemma {:induction false} GroupSizesSum(e: seq<Member>)
    ensures SumSizes(Keys(e), e) == |e|
  {
    if e != [] {
      var init, m := e[..|e| - 1], e[|e| - 1];
      assert e == init + [m];
      GroupSizesSum(init);
      KeysSpec(init);
      KeysSnoc(init, m);
      var c := CategoryOf(m);
      if c in Keys(init) {
        SumSizesSnocMember(Keys(init), init, m);
      } else {
        SumSizesSnocKey(Keys(init), c, e);
        SumSizesSnocMember(Keys(init), init, m);
        MembersOfSnoc(init, m, c);
      }
    }
  }

  /** The `grouped` memo: a dictionary from category to members, built by
      one pass that creates a group on first sight and appends to it. */
  method Group(e: seq<Member>) returns (keys: seq<string>, groups: map<string, seq<Member>>)
    ensures keys == Keys(e)
    ensures forall c :: c in groups <==> c in keys
    ensures forall c :: c in groups ==> groups[c] == MembersOf(e, c)
  {
    keys, groups := [], map[];
    for i := 0 to |e|
      invariant keys == Keys(e[..i])
      invariant forall c :: c in groups <==> c in keys
      invariant forall c :: c in groups ==> groups[c] == MembersOf(e[..i], c)
    {
      var m := e[i];
      ghost var before := e[..i];
      assert e[..i + 1] == before + [m];
      KeysSnoc(before, m);
      var category := CategoryOf(m);
      if category !in groups {
        assert MembersOf(before, category) == [] by { KeysSpec(before); }
        groups := groups[category := []];
        keys := keys + [category];
      }
      groups := groups[category := groups[category] + [m]];
      forall c | c in groups ensures groups[c] == MembersOf(before + [m], c) {
        MembersOfSnoc(before, m, c);
      }
    }
    assert e[..|e|] == e;
  }

  /** `grouped[category] || []` */
  function Get(groups: map<string, seq<Member>>, c: string): seq<Member> {
    if c in groups then groups[c] else []
  }

  // ---------------------------------------------------------------------
  // Fathers first

  /** `s.includes(p)` by recursion on `s`: `p` starts `s` or occurs in its
      tail. Equivalent to `Contains` (see `HasInfixSpec`), but unfolded
      only on demand. */
  predicate HasInfix(s: string, p: string)
    decreases |s|
  {
    |p| <= |s| && (s[..|p|] == p || HasInfix(s[1..], p))
  }

  lemma {:induction false} HasInfixSpec(s: string, p: string)
    ensures HasInfix(s, p) <==> Contains(s, p)
    decreases |s|
  {
    if |p| > |s| {
      assert forall i :: !OccursAt(s, p, i);
    } else if s[..|p|] == p {
      assert OccursAt(s, p, 0);
    } else {
      var t := s[1..];
      if |p| <= |t| {
        HasInfixSpec(t, p);
      }
      if Contains(t, p) {
        var i :| 0 <= i <= |t| && OccursAt(t, p, i);
        assert t[i..i + |p|] == s[i + 1..i + 1 + |p|];
        assert OccursAt(s, p, i + 1);
      }
      if Contains(s, p) {
        var i :| 0 <= i <= |s| && OccursAt(s, p, i);
        assert i != 0;
        assert t[i - 1..i - 1 + |p|] == s[i..i + |p|];
        assert OccursAt(t, p, i - 1);
      }
    }
  }

  /** The role title, lower-cased, includes "father". */
  predicate IsFather(m: Member) {
    HasInfix(LowerStr(m.roleTitle), "father")
  }

  /** The comparator of `sortParents`. */
  function Compare(a: Member, b: Member): int {
    if IsFather(a) && !IsFather(b) then -1
    else if !IsFather(a) && IsFather(b) then 1
    else 0
  }

  /** Inserts `x` after the last element that does not compare greater. */
  function Insert(sorted: seq<Member>, x: Member): seq<Member> {
    if sorted == [] then [x]
    else if Compare(sorted[|sorted| - 1], x) > 0 then Insert(sorted[..|sorted| - 1], x) + [sorted[|sorted| - 1]]
    else sorted + [x]
  }

  /** `[...members].sort(Compare)`: a stable sort, here insertion sort. */
  function SortParents(s: seq<Member>): seq<Member> {
    if s == [] then [] else Insert(SortParents(s[..|s| - 1]), s[|s| - 1])
  }

  function Fathers(s: seq<Member>): seq<Member> {
    if s == [] then [] else Fathers(s[..|s| - 1]) + (if IsFather(s[|s| - 1]) then [s[|s| - 1]] else [])
  }

  function NonFathers(s: seq<Member>): seq<Member> {
    if s == [] then [] else NonFathers(s[..|s| - 1]) + (if IsFather(s[|s| - 1]) then [] else [s[|s| - 1]])
  }

  /** Each part holds only its own class. */
  lemma {:induction false} FathersClassified(s: seq<Member>)
    ensures forall m :: m in Fathers(s) ==> IsFather(m)
    ensures forall m :: m in NonFathers(s) ==> !IsFather(m)
  {
    if s != [] {
      FathersClassified(s[..|s| - 1]);
    }
  }

  /** Appending a member appends it to its own part. */
  lemma FathersSnoc(init: seq<Member>, x: Member)
    ensures Fathers(init + [x]) == Fathers(init) + (if IsFather(x) then [x] else [])
    ensures NonFathers(init + [x]) == NonFathers(init) + (if IsFather(x) then [] else [x])
  {
    assert (init + [x])[..|init|] == init;
  }

  /** Together the two parts hold exactly the input. */
  lemma {:induction false} FathersPartition(s: seq<Member>)
    ensures multiset(Fathers(s) + NonFathers(s)) == multiset(s)
  {
    if s != [] {
      var init, x := s[..|s| - 1], s[|s| - 1];
      assert s == init + [x];
      FathersSnoc(init, x);
      FathersPartition(init);
      var f, o := Fathers(init), NonFathers(init);
      var fx, ox := if IsFather(x) then [x] else [], if IsFather(x) then [] else [x];
      assert multiset(fx + ox) == multiset{x};
      calc {
        multiset(Fathers(s) + NonFathers(s));
        multiset(f + fx + (o + ox));
        multiset(f) + multiset(fx) + multiset(o) + multiset(ox);
        multiset(f + o) + multiset(fx + ox);
        multiset(init) + multiset{x};
        multiset(s);
      }
    }
  }

  lemma {:induction false} InsertFather(f: seq<Member>, o: seq<Member>, x: Member)
    requires forall m :: m in f ==> IsFather(m)
    requires forall m :: m in o ==> !IsFather(m)
    requires IsFather(x)
    ensures Insert(f + o, x) == f + [x] + o
    decreases |o|
  {
    if o == [] {
      assert f + o == f;
      if f != [] {
        assert f[|f| - 1] in f;
      }
    } else {
      var init, last := o[..|o| - 1], o[|o| - 1];
      assert o == init + [last];
      assert f + o == (f + init) + [last];
      assert !IsFather(last) by { assert last in o; }
      InsertPastGreater(f + init, last, x);
      forall m | m in init ensures !IsFather(m) {
        assert m in o;
      }
      InsertFather(f, init, x);
      assert f + [x] + init + [last] == f + [x] + o;
    }
  }

  /** Inserting before a last element that compares greater keeps that
      element last. */
  lemma InsertPastGreater(pre: seq<Member>, last: Member, x: Member)
    requires Compare(last, x) > 0
    ensures Insert(pre + [last], x) == Insert(pre, x) + [last]
  {
    assert (pre + [last])[..|pre|] == pre;
  }

  lemma InsertNonFather(f: seq<Member>, o: seq<Member>, x: Member)
    requires forall m :: m in f ==> IsFather(m)
    requires forall m :: m in o ==> !IsFather(m)
    requires !IsFather(x)
    ensures Insert(f + o, x) == f + o + [x]
  {
    var s := f + o;
    if s != [] {
      assert s[|s| - 1] in f || s[|s| - 1] in o;
    }
  }

  /** The stable sort puts the fathers first and the others after, each
      class in input order. */
  lemma {:induction false} SortParentsIsPartition(s: seq<Member>)
    ensures SortParents(s) == Fathers(s) + NonFathers(s)
  {
    if s != [] {
      var init, x := s[..|s| - 1], s[|s| - 1];
      SortParentsIsPartition(init);
      FathersClassified(init);
      var f, o := Fathers(init), NonFathers(init);
      assert SortParents(s) == Insert(f + o, x);
      if IsFather(x) {
        InsertFather(f, o, x);
        assert Fathers(s) == f + [x] && NonFathers(s) == o;
      } else {
        InsertNonFather(f, o, x);
        assert Fathers(s) == f && NonFathers(s) == o + [x];
      }
    }
  }

  /** `sortParents` returns a permutation of its input in which every
      father comes before every other member. */
  lemma SortParentsSpec(s: seq<Member>)
    ensures multiset(SortParents(s)) == multiset(s)
    ensures forall i, j :: 0 <= i < j < |SortParents(s)| && !IsFather(SortParents(s)[i]) ==> !IsFather(SortParents(s)[j])
  {
    SortParentsIsPartition(s);
    FathersClassified(s);
    FathersPartition(s);
    FathersThenOthers(Fathers(s), NonFathers(s));
  }

  /** In fathers followed by others, nothing after a non-father is a father. */
  lemma FathersThenOthers(f: seq<Member>, o: seq<Member>)
    requires forall m :: m in f ==> IsFather(m)
    requires forall m :: m in o ==> !IsFather(m)
    ensures forall i, j :: 0 <= i < j < |f + o| && !IsFather((f + o)[i]) ==> !IsFather((f + o)[j])
  {
    var r := f + o;
    forall i, j | 0 <= i < j < |r| && !IsFather(r[i]) ensures !IsFather(r[j]) {
      if i < |f| {
        assert false;
      }
      assert r[j] == o[j - |f|];
      assert o[j - |f|] in o;
    }
  }

  // ---------------------------------------------------------------------
  // Two columns and paired rows

  /** `Math.ceil(n / 2)` */
  function Half(n: nat): nat {
    (n + 1) / 2
  }

  /** The left column takes the first ceil(n/2) members and the right
      column the rest; the left is as long as the right or one longer. */
  lemma SplitSpec(s: seq<Member>)
    ensures s[..Half(|s|)] + s[Half(|s|)..] == s
    ensures |s[..Half(|s|)]| - |s[Half(|s|)..]| == |s| % 2
  {
  }

  /** `arr[i]`, which is undefined past the end. */
  function Cell(s: seq<Member>, i: nat): Option<Member> {
    if i < |s| then Some(s[i]) else None
  }

  function Max(a: nat, b: nat): nat {
    if a < b then b else a
  }

  /** The rows the two-column loops build. */
  function RowsOf(left: seq<Member>, right: seq<Member>): (rows: seq<Row>)
    ensures |rows| == Max(|left|, |right|)
    ensures forall i :: 0 <= i < |rows| ==> rows[i] == Row(Cell(left, i), Cell(right, i))
  {
    seq(Max(|left|, |right|), i requires 0 <= i => Row(Cell(left, i), Cell(right, i)))
  }

  /** The loop that pairs item i of each side, or a blank past its end. */
  method PairRows(left: seq<Member>, right: seq<Member>) returns (rows: seq<Row>)
    ensures |rows| == Max(|left|, |right|)
    ensures forall i :: 0 <= i < |rows| ==>
      (rows[i].left == if i < |left| then Some(left[i]) else None)
      && (rows[i].right == if i < |right| then Some(right[i]) else None)
  {
    var maxLen := if |left| < |right| then |right| else |left|;
    rows := [];
    for i := 0 to maxLen
      invariant |rows| == i
      invariant forall k :: 0 <= k < i ==> rows[k] == Row(Cell(left, k), Cell(right, k))
    {
      var l := if i < |left| then Some(left[i]) else None;
      var r := if i < |right| then Some(right[i]) else None;
      rows := rows + [Row(l, r)];
    }
  }

  /** Every member of either side appears in some row. */
  lemma RowsShowAll(left: seq<Member>, right: seq<Member>, m: Member)
    requires m in left || m in right
    ensures m in ShownRows(RowsOf(left, right))
  {
    var rows := RowsOf(left, right);
    if m in left {
      var i :| 0 <= i < |left| && left[i] == m;
      ShownRowsAt(rows, i);
    } else {
      var i :| 0 <= i < |right| && right[i] == m;
      ShownRowsAt(rows, i);
    }
  }

  // ---------------------------------------------------------------------
  // Layout of one section

  /** The default section layout, for a category in the fixed order. */
  function OrderedLayout(category: string, members: seq<Member>): (l: Layout)
    ensures category == CordSponsors && |members| == 2 ==> l == SideBySide(members[0], members[1])
    ensures (!(category == CordSponsors && |members| == 2) && (category in SingleColumnSections || |members| <= 2))
              ==> l == Centered(members)
    ensures !(category in SingleColumnSections || |members| <= 2) ==>
              l.Rows? && |l.rows| == Half(|members|)
              && forall i :: 0 <= i < |l.rows| ==> l.rows[i] == Row(Some(members[i]), Cell(members, Half(|members|) + i))
  {
    if category == CordSponsors && |members| == 2 then SideBySide(members[0], members[1])
    else if category in SingleColumnSections || |members| <= 2 then Centered(members)
    else
      var half := (|members| + 1) / 2;
      Rows(RowsOf(members[..half], members[half..]))
  }

  /** The layout of a category outside the fixed order. */
  function OtherLayout(members: seq<Member>): (l: Layout)
    ensures |members| <= 2 ==> l == Centered(members)
    ensures |members| > 2 ==>
              l.Rows? && |l.rows| == Half(|members|)
              && forall i :: 0 <= i < |l.rows| ==> l.rows[i] == Row(Some(members[i]), Cell(members, Half(|members|) + i))
  {
    if |members| <= 2 then Centered(members)
    else
      var half := (|members| + 1) / 2;
      Rows(RowsOf(members[..half], members[half..]))
  }

  /** The lower-cased title of `m` contains `word`. */
  predicate TitleHas(m: Member, word: string) {
    Contains(LowerStr(m.roleTitle), word)
  }

  /** `members.find(..)`: the first member whose lower-cased title contains
      `word`, or nothing when no title does. */
  function FindTitle(ms: seq<Member>, word: string): (r: Option<Member>)
    ensures r.None? <==> forall k :: 0 <= k < |ms| ==> !TitleHas(ms[k], word)
    ensures r.Some? ==>
              exists k :: 0 <= k < |ms| && ms[k] == r.value && TitleHas(ms[k], word)
                && forall j :: 0 <= j < k ==> !TitleHas(ms[j], word)
  {
    if ms == [] then None
    else if TitleHas(ms[0], word) then Some(ms[0])
    else FindTitle(ms[1..], word)
  }

  /** The four categories that own a combined two-column block, and the
      partner category each one shows beside it. */
  predicate IsOwner(c: string) {
    c == ParentsGroom || c == BestMan || c == Bridesmaids || c == CandleSponsors
  }

  predicate IsPartner(c: string) {
    c == ParentsBride || c == MaidOfHonor || c == Groomsmen || c == VeilSponsors
  }

  /** The combined block of an owner category. */
  function CombinedBlock(owner: string, groups: map<string, seq<Member>>): Block
    requires IsOwner(owner)
  {
    if owner == ParentsGroom then
      Combined(ParentsGroom, ParentsBride,
               RowsOf(SortParents(Get(groups, ParentsGroom)), SortParents(Get(groups, ParentsBride))))
    else if owner == BestMan then
      Combined(BestMan, MaidOfHonor, RowsOf(Get(groups, BestMan), Get(groups, MaidOfHonor)))
    else if owner == Bridesmaids then
      Combined(Groomsmen, Bridesmaids, RowsOf(Get(groups, Groomsmen), Get(groups, Bridesmaids)))
    else
      Combined(CandleSponsors, VeilSponsors, RowsOf(Get(groups, CandleSponsors), Get(groups, VeilSponsors)))
  }

  /** The partner shown beside an owner. */
  function PartnerOf(owner: string): string
    requires IsOwner(owner)
  {
    if owner == ParentsGroom then ParentsBride
    else if owner == BestMan then MaidOfHonor
    else if owner == Bridesmaids then Groomsmen
    else VeilSponsors
  }

  /** The callback of `ROLE_CATEGORY_ORDER.map`, as written: an empty
      category renders nothing, before the combined blocks are considered. */
  function RenderCategory(c: string, groups: map<string, seq<Member>>): (b: Option<Block>)
    ensures Get(groups, c) == [] ==> b.None?
    ensures IsPartner(c) ==> b.None?
    ensures IsOwner(c) ==> (b.Some? <==> Get(groups, c) != [])
    ensures IsOwner(c) && b.Some? ==> b.value == CombinedBlock(c, groups)
    ensures c == Couple_ && Get(groups, c) != [] ==>
              b == Some(Couple(FindTitle(Get(groups, c), "groom"), FindTitle(Get(groups, c), "bride")))
    ensures !IsOwner(c) && !IsPartner(c) && c != Couple_ && Get(groups, c) != [] ==>
              b == Some(Single(c, OrderedLayout(c, Get(groups, c))))
  {
    var members := Get(groups, c);
    if members == [] then None
    else if c == Couple_ then Some(Couple(FindTitle(members, "groom"), FindTitle(members, "bride")))
    else if IsOwner(c) then Some(CombinedBlock(c, groups))
    else if IsPartner(c) then None
    else Some(Single(c, OrderedLayout(c, members)))
  }

  function Blocks(order: seq<string>, groups: map<string, seq<Member>>): seq<Block> {
    if order == [] then []
    else
      var b := RenderCategory(order[0], groups);
      (if b.Some? then [b.value] else []) + Blocks(order[1..], groups)
  }

  /** `Object.keys(grouped).filter(cat => !ROLE_CATEGORY_ORDER.includes(cat))` */
  function OtherCategories(keys: seq<string>): (r: seq<string>)
    ensures forall c :: c in r <==> c in keys && c !in RoleCategoryOrder
  {
    if keys == [] then []
    else if keys[0] !in RoleCategoryOrder then [keys[0]] + OtherCategories(keys[1..])
    else OtherCategories(keys[1..])
  }

  function OtherBlocks(cats: seq<string>, groups: map<string, seq<Member>>): seq<Block> {
    if cats == [] then [] else [Single(cats[0], OtherLayout(Get(groups, cats[0])))] + OtherBlocks(cats[1..], groups)
  }

  /** The whole listing: the ordered categories, then every other key in
      key order. */
  function Listing(keys: seq<string>, groups: map<string, seq<Member>>): seq<Block> {
    Blocks(RoleCategoryOrder, groups) + OtherBlocks(OtherCategories(keys), groups)
  }

  // ---------------------------------------------------------------------
  // Which members are shown

  function ShownRows(rows: seq<Row>): seq<Member> {
    if rows == [] then []
    else
      (if rows[0].left.Some? then [rows[0].left.value] else [])
      + (if rows[0].right.Some? then [rows[0].right.value] else [])
      + ShownRows(rows[1..])
  }

  lemma {:induction false} ShownRowsAt(rows: seq<Row>, i: nat)
    requires i < |rows|
    ensures rows[i].left.Some? ==> rows[i].left.value in ShownRows(rows)
    ensures rows[i].right.Some? ==> rows[i].right.value in ShownRows(rows)
  {
    if i > 0 {
      ShownRowsAt(rows[1..], i - 1);
    }
  }

  function ShownLayout(l: Layout): seq<Member> {
    match l
    case Centered(ms) => ms
    case SideBySide(a, b) => [a, b]
    case Rows(rows) => ShownRows(rows)
  }

  function ShownBlock(b: Block): seq<Member> {
    match b
    case Couple(g, r) => (if g.Some? then [g.value] else []) + (if r.Some? then [r.value] else [])
    case Combined(_, _, rows) => ShownRows(rows)
    case Single(_, l) => ShownLayout(l)
  }

  /** Every member of a section appears in its layout, whichever branch
      of the layout is taken. */
  lemma LayoutShowsAll(category: string, members: seq<Member>, m: Member)
    requires m in members
    ensures m in ShownLayout(OrderedLayout(category, members))
    ensures m in ShownLayout(OtherLayout(members))
  {
    if |members| > 2 {
      var half := Half(|members|);
      SplitSpec(members);
      assert m in members[..half] + members[half..];
      RowsShowAll(members[..half], members[half..], m);
    }
  }

  function Shown(bs: seq<Block>): seq<Member> {
    if bs == [] then [] else ShownBlock(bs[0]) + Shown(bs[1..])
  }

  lemma {:induction false} NothingRendered(order: seq<string>, groups: map<string, seq<Member>>)
    requires forall c :: c in order ==> RenderCategory(c, groups).None?
    ensures Blocks(order, groups) == []
  {
    if order != [] {
      assert order[0] in order;
      NothingRendered(order[1..], groups);
    }
  }

  /** A combined block is rendered only while processing its owner and only
      when the owner has members: with an empty owner, the partner's
      members appear nowhere in the ordered part of the listing. */
  lemma PartnerHiddenWhenOwnerEmpty(m: Member)
    requires m.roleCategory == ParentsBride
    ensures var groups := map[ParentsBride := [m]];
      Get(groups, ParentsBride) == [m] && Blocks(RoleCategoryOrder, groups) == []
      && Listing([ParentsBride], map[ParentsBride := [m]]) == []
  {
    var groups := map[ParentsBride := [m]];
    forall c | c in RoleCategoryOrder
      ensures RenderCategory(c, groups).None?
    {
      if c != ParentsBride {
        assert Get(groups, c) == [];
      }
    }
    NothingRendered(RoleCategoryOrder, groups);
    assert ParentsBride in RoleCategoryOrder;
    assert OtherCategories([ParentsBride]) == [];
  }

  lemma {:induction false} BlocksShow(order: seq<string>, groups: map<string, seq<Member>>, c: string, m: Member)
    requires c in order
    requires RenderCategory(c, groups).Some?
    requires m in ShownBlock(RenderCategory(c, groups).value)
    ensures m in Shown(Blocks(order, groups))
  {
    var b := RenderCategory(order[0], groups);
    var head := if b.Some? then [b.value] else [];
    ShownAppend(head, Blocks(order[1..], groups));
    if order[0] == c {
      assert Shown(head) == ShownBlock(b.value) + Shown([]);
    } else {
      BlocksShow(order[1..], groups, c, m);
    }
  }

  /** Every member of a category outside the fixed order is shown in that
      category's own section. */
  lemma {:induction false} OtherBlocksShow(cats: seq<string>, groups: map<string, seq<Member>>, c: string, m: Member)
    requires c in cats
    requires m in Get(groups, c)
    ensures m in Shown(OtherBlocks(cats, groups))
  {
    var head := [Single(cats[0], OtherLayout(Get(groups, cats[0])))];
    assert OtherBlocks(cats, groups) == head + OtherBlocks(cats[1..], groups);
    ShownAppend(head, OtherBlocks(cats[1..], groups));
    if cats[0] == c {
      LayoutShowsAll(c, Get(groups, c), m);
      assert Shown(head) == ShownLayout(OtherLayout(Get(groups, c))) + Shown([]);
    } else {
      OtherBlocksShow(cats[1..], groups, c, m);
    }
  }

  /** As written, the listing shows every member of a single section in the
      fixed order, of an owner with members together with its partner, and
      of every category outside the fixed order. Only a partner whose owner
      is empty, and the couple (of whom only the first groom and bride are
      picked), are not covered. */
  lemma ListingShows(keys: seq<string>, groups: map<string, seq<Member>>, c: string, m: Member)
    requires
      || (c in RoleCategoryOrder && !IsOwner(c) && !IsPartner(c) && c != Couple_ && m in Get(groups, c))
      || (IsOwner(c) && Get(groups, c) != [] && (m in Get(groups, c) || m in Get(groups, PartnerOf(c))))
      || (c in keys && c !in RoleCategoryOrder && m in Get(groups, c))
    ensures m in Shown(Listing(keys, groups))
  {
    var ordered, others := Blocks(RoleCategoryOrder, groups), OtherBlocks(OtherCategories(keys), groups);
    ShownAppend(ordered, others);
    if c in RoleCategoryOrder && !IsOwner(c) && !IsPartner(c) && c != Couple_ && m in Get(groups, c) {
      LayoutShowsAll(c, Get(groups, c), m);
      BlocksShow(RoleCategoryOrder, groups, c, m);
    } else if IsOwner(c) && Get(groups, c) != [] && (m in Get(groups, c) || m in Get(groups, PartnerOf(c))) {
      CombinedShowsBoth(c, groups, m);
      assert c in RoleCategoryOrder;
      BlocksShow(RoleCategoryOrder, groups, c, m);
    } else {
      OtherBlocksShow(OtherCategories(keys), groups, c, m);
    }
  }

  /** The render callback with the emptiness test applied to the combined
      block as a whole, so that a partner with members is shown even when
      its owner has none. */
  function RenderCategoryFixed(c: string, groups: map<string, seq<Member>>): (b: Option<Block>)
    ensures IsPartner(c) ==> b.None?
    ensures IsOwner(c) ==> (b.Some? <==> Get(groups, c) != [] || Get(groups, PartnerOf(c)) != [])
  {
    var members := Get(groups, c);
    if IsOwner(c) then
      if members == [] && Get(groups, PartnerOf(c)) == [] then None else Some(CombinedBlock(c, groups))
    else if IsPartner(c) || members == [] then None
    else if c == Couple_ then Some(Couple(FindTitle(members, "groom"), FindTitle(members, "bride")))
    else Some(Single(c, OrderedLayout(c, members)))
  }

  function BlocksFixed(order: seq<string>, groups: map<string, seq<Member>>): seq<Block> {
    if order == [] then []
    else
      var b := RenderCategoryFixed(order[0], groups);
      (if b.Some? then [b.value] else []) + BlocksFixed(order[1..], groups)
  }

  lemma {:induction false} ShownAppend(a: seq<Block>, b: seq<Block>)
    ensures Shown(a + b) == Shown(a) + Shown(b)
  {
    if a == [] {
      assert a + b == b;
    } else {
      assert (a + b)[1..] == a[1..] + b;
      ShownAppend(a[1..], b);
    }
  }

  lemma {:induction false} BlocksFixedShow(order: seq<string>, groups: map<string, seq<Member>>, c: string, m: Member)
    requires c in order
    requires RenderCategoryFixed(c, groups).Some?
    requires m in ShownBlock(RenderCategoryFixed(c, groups).value)
    ensures m in Shown(BlocksFixed(order, groups))
  {
    var b := RenderCategoryFixed(order[0], groups);
    var head := if b.Some? then [b.value] else [];
    ShownAppend(head, BlocksFixed(order[1..], groups));
    if order[0] == c {
      assert Shown(head) == ShownBlock(b.value) + Shown([]);
    } else {
      BlocksFixedShow(order[1..], groups, c, m);
    }
  }

  /** The owner's combined block shows every member of both categories. */
  lemma CombinedShowsBoth(owner: string, groups: map<string, seq<Member>>, m: Member)
    requires IsOwner(owner)
    requires m in Get(groups, owner) || m in Get(groups, PartnerOf(owner))
    ensures m in ShownBlock(CombinedBlock(owner, groups))
  {
    if owner == ParentsGroom {
      var l, r := Get(groups, ParentsGroom), Get(groups, ParentsBride);
      SortParentsSpec(l);
      SortParentsSpec(r);
      assert m in l ==> m in multiset(SortParents(l));
      assert m in r ==> m in multiset(SortParents(r));
      RowsShowAll(SortParents(l), SortParents(r), m);
    } else if owner == BestMan {
      RowsShowAll(Get(groups, BestMan), Get(groups, MaidOfHonor), m);
    } else if owner == Bridesmaids {
      RowsShowAll(Get(groups, Groomsmen), Get(groups, Bridesmaids), m);
    } else {
      RowsShowAll(Get(groups, CandleSponsors), Get(groups, VeilSponsors), m);
    }
  }

  /** With the fix, every member of every paired category is shown. */
  lemma PairedCategoriesAlwaysShown(groups: map<string, seq<Member>>, c: string, m: Member)
    requires IsOwner(c) || IsPartner(c)
    requires m in Get(groups, c)
    ensures m in Shown(BlocksFixed(RoleCategoryOrder, groups))
  {
    var owner :=
      if c == ParentsBride then ParentsGroom
      else if c == MaidOfHonor then BestMan
      else if c == Groomsmen then Bridesmaids
      else if c == VeilSponsors then CandleSponsors
      else c;
    assert IsOwner(owner) && (c == owner || c == PartnerOf(owner));
    CombinedShowsBoth(owner, groups, m);
    assert owner in RoleCategoryOrder;
    BlocksFixedShow(RoleCategoryOrder, groups, owner, m);
  }
}

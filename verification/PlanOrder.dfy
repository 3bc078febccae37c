/**
 The list a plan is fingerprinted from: its managed changes, sorted by address and
 by nothing else, so entries of one address keep their order. Two lists have the same
 canonical text exactly when every address has the same sequence of action lists.
 */
module PlanOrder {
  import opened Lists
  import opened Wrappers
  import opened PlanText
  import opened Keys

  /** One managed resource of the plan. */
  datatype Change = Change(address: string, actions: seq<string>, reason: Option<string>)

  /** Puts `c` before the first change whose address is not smaller. */
  function Insert(c: Change, cs: seq<Change>): seq<Change> {
    if cs != [] && Less(cs[0].address, c.address) then [cs[0]] + Insert(c, cs[1..]) else [c] + cs
  }

  /** `sorted(changes, key=address)`: stable. */
  function SortChanges(cs: seq<Change>): seq<Change> {
    if cs == [] then [] else Insert(cs[0], SortChanges(cs[1..]))
  }

  function Lines(cs: seq<Change>): (ls: seq<Line>)
    ensures |ls| == |cs|
    ensures forall i :: 0 <= i < |cs| ==> ls[i] == Line(cs[i].address, cs[i].actions)
  {
    if cs == [] then [] else [Line(cs[0].address, cs[0].actions)] + Lines(cs[1..])
  }

  /** The text that is hashed. */
  function PlanCanonical(cs: seq<Change>): string {
    Canonical(Lines(SortChanges(cs)))
  }

  predicate Sorted(cs: seq<Change>) {
    forall i, j :: 0 <= i < j < |cs| ==> !Less(cs[j].address, cs[i].address)
  }

  /** The action lists planned for one address, in order. */
  function ActionsAt(cs: seq<Change>, x: string): seq<seq<string>> {
    if cs == [] then []
    else (if cs[0].address == x then [cs[0].actions] else []) + ActionsAt(cs[1..], x)
  }

  predicate Distinct(cs: seq<Change>) {
    forall i, j :: 0 <= i < j < |cs| ==> cs[i].address != cs[j].address
  }

  // ----- A total order on addresses -----

  lemma {:induction false} LessTotal(a: string, b: string)
    ensures Less(a, b) || Less(b, a) || a == b
  {
    if a != "" && b != "" && a[0] == b[0] {
      LessTotal(a[1..], b[1..]);
      assert a == [a[0]] + a[1..] && b == [b[0]] + b[1..];
    }
  }

  lemma {:induction false} LessTransitive(a: string, b: string, c: string)
    requires Less(a, b) && Less(b, c)
    ensures Less(a, c)
  {
    if a != "" && a[0] == b[0] && b[0] == c[0] {
      LessTransitive(a[1..], b[1..], c[1..]);
    }
  }

  // ----- The sort -----

  lemma {:induction false} InsertKeeps(c: Change, cs: seq<Change>)
    ensures multiset(Insert(c, cs)) == multiset{c} + multiset(cs)
  {
    if cs != [] && Less(cs[0].address, c.address) {
      InsertKeeps(c, cs[1..]);
      assert cs == [cs[0]] + cs[1..];
    }
  }

  /** Nothing in a sorted list is smaller than an address that its first one is not smaller than. */
  lemma NoneBelow(x: string, cs: seq<Change>, d: Change)
    requires Sorted(cs) && d in cs && !Less(cs[0].address, x)
    ensures !Less(d.address, x)
  {
    LessTotal(cs[0].address, d.address);
    if Less(d.address, x) && Less(cs[0].address, d.address) {
      LessTransitive(cs[0].address, d.address, x);
    }
  }

  lemma InsertedFrom(c: Change, cs: seq<Change>, d: Change)
    requires d in Insert(c, cs)
    ensures d == c || d in cs
  {
    InsertKeeps(c, cs);
    assert d in multiset(Insert(c, cs));
  }

  lemma {:induction false} InsertSorted(c: Change, cs: seq<Change>)
    requires Sorted(cs)
    ensures Sorted(Insert(c, cs))
  {
    if cs != [] && Less(cs[0].address, c.address) {
      var rest := Insert(c, cs[1..]);
      InsertSorted(c, cs[1..]);
      LessAsymmetric(cs[0].address, c.address);
      forall d | d in rest ensures !Less(d.address, cs[0].address) {
        InsertedFrom(c, cs[1..], d);
      }
    } else {
      forall d | d in cs ensures !Less(d.address, c.address) {
        NoneBelow(c.address, cs, d);
      }
    }
  }

  /** The sort orders the changes by address and neither loses, adds nor alters one. */
  lemma {:induction false} SortSorts(cs: seq<Change>)
    ensures Sorted(SortChanges(cs))
    ensures multiset(SortChanges(cs)) == multiset(cs)
  {
    if cs != [] {
      SortSorts(cs[1..]);
      InsertSorted(cs[0], SortChanges(cs[1..]));
      InsertKeeps(cs[0], SortChanges(cs[1..]));
      assert cs == [cs[0]] + cs[1..];
    }
  }

  lemma {:induction false} InsertStable(c: Change, cs: seq<Change>, x: string)
    ensures ActionsAt(Insert(c, cs), x) == (if c.address == x then [c.actions] else []) + ActionsAt(cs, x)
  {
    if cs != [] && Less(cs[0].address, c.address) {
      InsertStable(c, cs[1..], x);
      LessIrreflexive(c.address);
    }
  }

  /** Changes of one address keep their order. */
  lemma {:induction false} SortStable(cs: seq<Change>, x: string)
    ensures ActionsAt(SortChanges(cs), x) == ActionsAt(cs, x)
  {
    if cs != [] {
      SortStable(cs[1..], x);
      InsertStable(cs[0], SortChanges(cs[1..]), x);
    }
  }

  lemma {:induction false} ActionsAtMember(cs: seq<Change>, x: string)
    ensures ActionsAt(cs, x) != [] <==> exists c :: c in cs && c.address == x
  {
    if cs != [] {
      ActionsAtMember(cs[1..], x);
      assert cs == [cs[0]] + cs[1..];
      if ActionsAt(cs, x) != [] && cs[0].address != x {
        var c :| c in cs[1..] && c.address == x;
        assert c in cs;
      }
    }
  }

  /** A sorted list starts with its smallest address. */
  lemma HeadIsLeast(cs: seq<Change>, x: string)
    requires Sorted(cs) && ActionsAt(cs, x) != []
    ensures cs != [] && !Less(x, cs[0].address)
  {
    ActionsAtMember(cs, x);
    var c :| c in cs && c.address == x;
    LessIrreflexive(x);
  }

  /** Every address is planned the same way in both lists. */
  ghost predicate SamePlans(a: seq<Change>, b: seq<Change>) {
    forall x :: ActionsAt(a, x) == ActionsAt(b, x)
  }

  lemma SameHead(a: seq<Change>, b: seq<Change>)
    requires Sorted(a) && Sorted(b) && a != [] && b != []
    requires ActionsAt(a, b[0].address) == ActionsAt(b, b[0].address)
    requires ActionsAt(a, a[0].address) == ActionsAt(b, a[0].address)
    ensures a[0].address == b[0].address && a[0].actions == b[0].actions
  {
    HeadIsLeast(a, b[0].address);
    HeadIsLeast(b, a[0].address);
    LessTotal(a[0].address, b[0].address);
    assert ActionsAt(a, a[0].address)[0] == a[0].actions;
    assert ActionsAt(b, b[0].address)[0] == b[0].actions;
  }

  lemma {:induction false} SortedUnique(a: seq<Change>, b: seq<Change>)
    requires Sorted(a) && Sorted(b) && SamePlans(a, b)
    ensures Lines(a) == Lines(b)
    decreases |a|
  {
    if a == [] {
      assert b != [] ==> ActionsAt(a, b[0].address) == ActionsAt(b, b[0].address);
    } else {
      var head := a[0].address;
      assert ActionsAt(a, head) == ActionsAt(b, head);
      assert b != [];
      assert ActionsAt(a, b[0].address) == ActionsAt(b, b[0].address);
      SameHead(a, b);
      forall x ensures ActionsAt(a[1..], x) == ActionsAt(b[1..], x) {
        var skip := if x == head then 1 else 0;
        assert ActionsAt(a, x) == ActionsAt(b, x);
        assert ActionsAt(a[1..], x) == ActionsAt(a, x)[skip..];
        assert ActionsAt(b[1..], x) == ActionsAt(b, x)[skip..];
      }
      SortedUnique(a[1..], b[1..]);
    }
  }

  lemma {:induction false} LinesFixActions(a: seq<Change>, b: seq<Change>, x: string)
    requires Lines(a) == Lines(b)
    ensures ActionsAt(a, x) == ActionsAt(b, x)
  {
    if a != [] {
      assert Lines(a)[0] == Lines(b)[0];
      assert Lines(a[1..]) == Lines(a)[1..] && Lines(b[1..]) == Lines(b)[1..];
      LinesFixActions(a[1..], b[1..], x);
    }
  }

  lemma SortedSamePlans(a: seq<Change>, b: seq<Change>)
    ensures SamePlans(SortChanges(a), SortChanges(b)) <==> SamePlans(a, b)
  {
    forall x ensures ActionsAt(SortChanges(a), x) == ActionsAt(a, x)
             ensures ActionsAt(SortChanges(b), x) == ActionsAt(b, x) {
      SortStable(a, x);
      SortStable(b, x);
    }
  }

  /** What the fingerprint sees of a plan: for every address, its action lists in order, and nothing else. */
  lemma SameTextIff(a: seq<Change>, b: seq<Change>)
    ensures PlanCanonical(a) == PlanCanonical(b) <==> SamePlans(a, b)
  {
    var sa, sb := SortChanges(a), SortChanges(b);
    CanonicalInjective(Lines(sa), Lines(sb));
    SortSorts(a);
    SortSorts(b);
    SortedSamePlans(a, b);
    if Lines(sa) == Lines(sb) {
      forall x ensures ActionsAt(sa, x) == ActionsAt(sb, x) {
        LinesFixActions(sa, sb, x);
      }
    } else if SamePlans(sa, sb) {
      SortedUnique(sa, sb);
    }
  }

  // ----- Order independence -----

  lemma {:induction false} ActionsAtConcat(a: seq<Change>, b: seq<Change>, x: string)
    ensures ActionsAt(a + b, x) == ActionsAt(a, x) + ActionsAt(b, x)
  {
    if a == [] {
      assert a + b == b;
    } else {
      ActionsAtConcat(a[1..], b, x);
      assert (a + b)[0] == a[0] && (a + b)[1..] == a[1..] + b;
      var head := if a[0].address == x then [a[0].actions] else [];
      assert head + (ActionsAt(a[1..], x) + ActionsAt(b, x)) == head + ActionsAt(a[1..], x) + ActionsAt(b, x);
    }
  }

  lemma {:induction false} PermutedActions(a: seq<Change>, b: seq<Change>, x: string)
    requires multiset(a) == multiset(b)
    ensures multiset(ActionsAt(a, x)) == multiset(ActionsAt(b, x))
    decreases |a|
  {
    if a == [] {
      assert |multiset(b)| == |b|;
    } else {
      var (front, back) := Around(a, b);
      WithoutHead(a, front, back);
      PermutedActions(a[1..], front + back, x);
      ActionsAtConcat(front, back, x);
      ActionsAtConcat(front, [a[0]] + back, x);
      assert ([a[0]] + back)[1..] == back;
    }
  }

  /** Changes of one address agree on their actions. */
  predicate AddressesAgree(cs: seq<Change>) {
    forall c, d :: c in cs && d in cs && c.address == d.address ==> c.actions == d.actions
  }

  lemma {:induction false} ActionsAtFrom(cs: seq<Change>, x: string, acts: seq<string>)
    requires acts in ActionsAt(cs, x)
    ensures exists c :: c in cs && c.address == x && c.actions == acts
  {
    if cs[0].address == x && cs[0].actions == acts {
      assert cs[0] in cs;
    } else {
      ActionsAtFrom(cs[1..], x, acts);
      var c :| c in cs[1..] && c.address == x && c.actions == acts;
      assert c in cs;
    }
  }

  lemma AgreeingPermutation(a: seq<Change>, b: seq<Change>, x: string)
    requires multiset(a) == multiset(b) && AddressesAgree(a)
    ensures ActionsAt(a, x) == ActionsAt(b, x)
  {
    PermutedActions(a, b, x);
    var p, q := ActionsAt(a, x), ActionsAt(b, x);
    assert |p| == |multiset(p)| == |multiset(q)| == |q|;
    forall i | 0 <= i < |p| ensures p[i] == q[i] {
      assert q[i] in multiset(q) && q[i] in multiset(p);
      ActionsAtFrom(a, x, p[i]);
      ActionsAtFrom(a, x, q[i]);
    }
  }

  /** Every reordering of the changes has the same canonical text. */
  ghost predicate OrderIrrelevant(a: seq<Change>) {
    forall b :: multiset(a) == multiset(b) ==> PlanCanonical(a) == PlanCanonical(b)
  }

  function MovedToFront(cs: seq<Change>, i: nat): seq<Change>
    requires i < |cs|
  {
    [cs[i]] + (cs[..i] + cs[i + 1..])
  }

  lemma FrontTextShowsActions(cs: seq<Change>, i: nat)
    requires i < |cs|
    requires PlanCanonical(cs) == PlanCanonical(MovedToFront(cs, i))
    ensures ActionsAt(cs, cs[i].address) != [] && ActionsAt(cs, cs[i].address)[0] == cs[i].actions
  {
    SameTextIff(cs, MovedToFront(cs, i));
  }

  lemma MovedIsPermutation(cs: seq<Change>, i: nat)
    requires i < |cs|
    ensures multiset(MovedToFront(cs, i)) == multiset(cs)
  {
    assert cs == cs[..i] + ([cs[i]] + cs[i + 1..]);
  }

  /** The text is independent of the order of the entries exactly when no address is planned two different ways. */
  lemma OrderIrrelevantIff(a: seq<Change>)
    ensures OrderIrrelevant(a) <==> AddressesAgree(a)
  {
    if AddressesAgree(a) {
      forall b | multiset(a) == multiset(b) ensures PlanCanonical(a) == PlanCanonical(b) {
        forall x ensures ActionsAt(a, x) == ActionsAt(b, x) {
          AgreeingPermutation(a, b, x);
        }
        assert SamePlans(a, b);
        SameTextIff(a, b);
      }
    }
    if OrderIrrelevant(a) {
      forall c, d | c in a && d in a && c.address == d.address ensures c.actions == d.actions {
        var i :| 0 <= i < |a| && a[i] == c;
        var j :| 0 <= j < |a| && a[j] == d;
        MovedIsPermutation(a, i);
        MovedIsPermutation(a, j);
        FrontTextShowsActions(a, i);
        FrontTextShowsActions(a, j);
      }
    }
  }

  /** A plan that lists each address once has one text, whatever order it lists them in. */
  lemma DistinctPlansHaveOneText(a: seq<Change>, b: seq<Change>)
    requires Distinct(a) && multiset(a) == multiset(b)
    ensures PlanCanonical(a) == PlanCanonical(b)
  {
    assert AddressesAgree(a);
    OrderIrrelevantIff(a);
  }

  /** One address listed with two different action lists: swapping its two entries changes the text. */
  lemma RepeatedAddressCounterexample(c: Change, d: Change)
    requires c.address == d.address && c.actions != d.actions
    ensures multiset([c, d]) == multiset([d, c]) && PlanCanonical([c, d]) != PlanCanonical([d, c])
  {
    var cd, dc := [c, d], [d, c];
    assert ActionsAt(cd, c.address) == [c.actions] + ActionsAt(cd[1..], c.address);
    assert ActionsAt(dc, c.address) == [d.actions] + ActionsAt(dc[1..], c.address);
    assert ActionsAt(cd, c.address)[0] != ActionsAt(dc, c.address)[0];
    SameTextIff(cd, dc);
  }

  // ----- Distinct addresses survive reordering -----

  /** No address is planned more than once. */
  ghost predicate PlannedOnce(cs: seq<Change>) {
    forall x :: |ActionsAt(cs, x)| <= 1
  }

  lemma {:induction false} DistinctActions(cs: seq<Change>)
    ensures Distinct(cs) <==> PlannedOnce(cs)
  {
    if cs != [] {
      var head, rest := cs[0].address, cs[1..];
      DistinctActions(rest);
      ActionsAtMember(rest, head);
      assert forall j :: 0 < j < |cs| ==> cs[j] == rest[j - 1];
      assert Distinct(cs) <==> Distinct(rest) && ActionsAt(rest, head) == [];
      assert |ActionsAt(cs, head)| == 1 + |ActionsAt(rest, head)|;
      forall x ensures |ActionsAt(rest, x)| <= |ActionsAt(cs, x)|
               ensures x != head ==> |ActionsAt(rest, x)| == |ActionsAt(cs, x)| {
        assert ActionsAt(cs, x) == (if head == x then [cs[0].actions] else []) + ActionsAt(rest, x);
      }
      if PlannedOnce(cs) {
        assert |ActionsAt(cs, head)| <= 1;
      }
    }
  }

  lemma DistinctPermuted(a: seq<Change>, b: seq<Change>)
    requires Distinct(a) && multiset(a) == multiset(b)
    ensures Distinct(b)
  {
    DistinctActions(a);
    DistinctActions(b);
    forall x ensures |ActionsAt(b, x)| <= 1 {
      PermutedActions(a, b, x);
      assert |ActionsAt(b, x)| == |multiset(ActionsAt(b, x))| == |ActionsAt(a, x)|;
    }
  }
}

/**
 Two plans with one fingerprint: what the gate lets through after the approval does what
 the approved plan would have done.
 */
module PlanDelivery {
  import opened Wrappers
  import opened PlanText
  import opened PlanOrder
  import opened PlanGate
  import opened PlanEffect

  ghost predicate Injective(hash: string -> string) {
    forall a, b :: hash(a) == hash(b) ==> a == b
  }

  lemma ReadIsSorted(s: Section)
    requires ChangesOf(s).Read?
    ensures Sorted(ChangesOf(s).value)
  {
    if s.Entries? {
      SortSorts(Collect(s.entries).value);
    }
  }

  /**
   The second plan, accepted with the first plan's fingerprint, holds the same addresses and
   actions in the same order, all of them known.
   */
  lemma ApprovedIsApplied(op: Operation, first: Reading<Plan>, second: Reading<Plan>, hash: string -> string)
    requires op != Drift && Injective(hash)
    requires Readable(first) && Accepted(op, second, Some(Digest(first, hash)), hash)
    ensures var (a, b) := (ChangesOf(first.value.changes).value, ChangesOf(second.value.changes).value);
            Lines(a) == Lines(b) && SamePlans(a, b) && forall c :: c in a + b ==> Known(c)
  {
    var (a, b) := (ChangesOf(first.value.changes).value, ChangesOf(second.value.changes).value);
    assert PlanCanonical(a) == PlanCanonical(b);
    SameTextIff(a, b);
    ReadIsSorted(first.value.changes);
    ReadIsSorted(second.value.changes);
    SortedUnique(a, b);
    forall c | c in a + b ensures Known(c) {
      if c in a {
        var i :| 0 <= i < |a| && a[i] == c;
        assert Lines(a)[i] == Lines(b)[i] && b[i] in b;
      }
    }
  }

  // ----- One schedule -----

  lemma SameLine(a: seq<Change>, b: seq<Change>, i: nat)
    requires Lines(a) == Lines(b) && i < |a| && i < |b|
    ensures a[i].address == b[i].address && a[i].actions == b[i].actions
  {
    assert Lines(a)[i] == Lines(b)[i];
  }

  lemma SameStep(s: State, c: Change, d: Change, k: nat, other: map<Change, Resource>)
    requires c.address == d.address && c.actions == d.actions && Known(c) && k < |c.actions|
    ensures RunAction(s, c, k, other) == RunAction(s, d, k, other)
  {
  }

  lemma {:induction false} SameSchedule(s: State, a: seq<Change>, b: seq<Change>, order: seq<nat>,
                                        other: map<Change, Resource>)
    requires Lines(a) == Lines(b) && |a| == |b| && forall c :: c in a ==> Known(c)
    requires Schedule(a, order)
    ensures Schedule(b, order)
    ensures Run(s, a, order, other) == Run(s, b, order, other)
    decreases |order|
  {
    if order != [] {
      var last := |order| - 1;
      SameSchedule(s, a, b, order[..last], other);
      SameLine(a, b, order[last]);
      SameStep(Run(s, a, order[..last], other), a[order[last]], b[order[last]],
               Count(order[..last], order[last]), other);
    }
  }

  /**
   On one schedule: whatever part of the accepted second plan runs, in whatever order and
   stopped wherever, the first plan run by the same schedule gives the same state.
   */
  lemma SameScheduleDelivery(op: Operation, first: Reading<Plan>, second: Reading<Plan>, hash: string -> string,
                             s: State, order: seq<nat>, other: map<Change, Resource>)
    requires op != Drift && Injective(hash)
    requires Readable(first) && Accepted(op, second, Some(Digest(first, hash)), hash)
    requires Schedule(ChangesOf(first.value.changes).value, order)
    ensures Schedule(ChangesOf(second.value.changes).value, order)
    ensures Run(s, ChangesOf(first.value.changes).value, order, other) ==
            Run(s, ChangesOf(second.value.changes).value, order, other)
  {
    var (a, b) := (ChangesOf(first.value.changes).value, ChangesOf(second.value.changes).value);
    ApprovedIsApplied(op, first, second, hash);
    assert |Lines(a)| == |a| && |Lines(b)| == |b|;
    assert forall c :: c in a ==> c in a + b;
    SameSchedule(s, a, b, order, other);
  }

  // ----- Any two schedules -----

  /** What a run has done at an address. */
  datatype Fate = Gone | Untouched | Revised | Replaced

  function FateAt(s: State, t: State, x: string): Fate {
    if x !in t.resources then Gone
    else if !SameResource(s, t, x) then Replaced
    else if s.resources[x].revision == t.resources[x].revision then Untouched
    else Revised
  }

  /** One action, seen from its address. */
  function FateStep(f: Fate, c: Change, k: nat): Fate
    requires k < |c.actions|
  {
    match c.actions[k]
    case "create" => Replaced
    case "delete" => if "create" in c.actions[..k] then f else Gone
    case "update" => if f == Untouched then Revised else f
    case _ => f
  }

  /** What the first `n` actions of its change make of an address. */
  function PlannedFate(f: Fate, c: Change, n: nat): Fate
    requires n <= |c.actions|
  {
    if n == 0 then f else FateStep(PlannedFate(f, c, n - 1), c, n - 1)
  }

  /** What steps of known actions keep: identities are new, revisions only grow. */
  ghost predicate Later(s: State, t: State) {
    && s.next <= t.next
    && (forall x :: SameResource(s, t, x) ==> s.resources[x].revision <= t.resources[x].revision)
  }

  lemma StepFate(s: State, t: State, c: Change, k: nat, other: map<Change, Resource>)
    requires Valid(s) && Later(s, t) && Known(c) && k < |c.actions|
    ensures var t' := RunAction(t, c, k, other);
      && Later(s, t')
      && FateAt(s, t', c.address) == FateStep(FateAt(s, t, c.address), c, k)
      && forall x :: x != c.address ==> FateAt(s, t', x) == FateAt(s, t, x)
  {
    assert c.actions[k] in c.actions;
  }

  /** With each address planned once, a run does at each address what it has run of that address's list. */
  lemma {:induction false} RunFates(s: State, cs: seq<Change>, order: seq<nat>, other: map<Change, Resource>)
    requires Valid(s) && Distinct(cs) && Schedule(cs, order) && forall c :: c in cs ==> Known(c)
    ensures var t := Run(s, cs, order, other);
      && Later(s, t)
      && (forall i :: 0 <= i < |cs| && Count(order, i) <= |cs[i].actions| ==>
            FateAt(s, t, cs[i].address) == PlannedFate(FateAt(s, s, cs[i].address), cs[i], Count(order, i)))
      && (forall x :: (forall c :: c in cs ==> c.address != x) ==> FateAt(s, t, x) == FateAt(s, s, x))
    decreases |order|
  {
    if order != [] {
      var last := |order| - 1;
      var j := order[last];
      RunFates(s, cs, order[..last], other);
      StepFate(s, Run(s, cs, order[..last], other), cs[j], Count(order[..last], j), other);
      forall i | 0 <= i < |cs| && Count(order, i) <= |cs[i].actions|
        ensures FateAt(s, Run(s, cs, order, other), cs[i].address)
                == PlannedFate(FateAt(s, s, cs[i].address), cs[i], Count(order, i))
      {
        assert i < j ==> cs[i].address != cs[j].address;
        assert j < i ==> cs[j].address != cs[i].address;
      }
    }
  }

  /** Two schedules have come equally far with every change; two complete ones, for instance. */
  predicate SameProgress(n: nat, order1: seq<nat>, order2: seq<nat>) {
    forall i: nat :: i < n ==> Count(order1, i) == Count(order2, i)
  }

  predicate Complete(cs: seq<Change>, order: seq<nat>) {
    forall i: nat :: i < |cs| ==> Count(order, i) == |cs[i].actions|
  }

  lemma {:induction false} PlannedFateOfLine(f: Fate, c: Change, d: Change, n: nat)
    requires c.actions == d.actions && n <= |c.actions|
    ensures PlannedFate(f, c, n) == PlannedFate(f, d, n)
  {
    if n > 0 {
      PlannedFateOfLine(f, c, d, n - 1);
    }
  }

  /** The fate of one address the plans mention. */
  lemma SameFateOfChange(s: State, a: seq<Change>, b: seq<Change>, order1: seq<nat>, order2: seq<nat>,
                         other: map<Change, Resource>, i: nat)
    requires Valid(s) && Distinct(a) && Distinct(b) && Lines(a) == Lines(b) && i < |a| == |b|
    requires (forall c :: c in a ==> Known(c)) && (forall c :: c in b ==> Known(c))
    requires Schedule(a, order1) && Schedule(b, order2) && Count(order1, i) == Count(order2, i)
    ensures FateAt(s, Run(s, a, order1, other), a[i].address) == FateAt(s, Run(s, b, order2, other), a[i].address)
  {
    RunFates(s, a, order1, other);
    RunFates(s, b, order2, other);
    SameLine(a, b, i);
    CountBounded(a, order1, i);
    PlannedFateOfLine(FateAt(s, s, a[i].address), a[i], b[i], Count(order1, i));
  }

  /** An address the plans do not mention. */
  lemma SameFateElsewhere(s: State, a: seq<Change>, b: seq<Change>, order1: seq<nat>, order2: seq<nat>,
                          other: map<Change, Resource>, x: string)
    requires Valid(s) && Distinct(a) && Distinct(b) && Lines(a) == Lines(b) && |a| == |b|
    requires (forall c :: c in a ==> Known(c)) && (forall c :: c in b ==> Known(c))
    requires Schedule(a, order1) && Schedule(b, order2)
    requires forall i :: 0 <= i < |a| ==> a[i].address != x
    ensures FateAt(s, Run(s, a, order1, other), x) == FateAt(s, Run(s, b, order2, other), x)
  {
    RunFates(s, a, order1, other);
    RunFates(s, b, order2, other);
    forall c | c in b ensures c.address != x {
      var i :| 0 <= i < |b| && b[i] == c;
      SameLine(a, b, i);
    }
  }

  lemma SameFates(s: State, a: seq<Change>, b: seq<Change>, order1: seq<nat>, order2: seq<nat>,
                  other: map<Change, Resource>, x: string)
    requires Valid(s) && Distinct(a) && Distinct(b) && Lines(a) == Lines(b) && |a| == |b|
    requires (forall c :: c in a ==> Known(c)) && (forall c :: c in b ==> Known(c))
    requires Schedule(a, order1) && Schedule(b, order2) && SameProgress(|a|, order1, order2)
    ensures FateAt(s, Run(s, a, order1, other), x) == FateAt(s, Run(s, b, order2, other), x)
  {
    if i: nat :| i < |a| && a[i].address == x {
      SameFateOfChange(s, a, b, order1, order2, other, i);
    } else {
      SameFateElsewhere(s, a, b, order1, order2, other, x);
    }
  }

  lemma CountBounded(cs: seq<Change>, order: seq<nat>, i: nat)
    requires Schedule(cs, order) && i < |cs|
    ensures Count(order, i) <= |cs[i].actions|
  {
    ScheduledBelow(cs, order);
  }

  lemma SameKeys(s: State, a: seq<Change>, b: seq<Change>, order1: seq<nat>, order2: seq<nat>,
                 other: map<Change, Resource>)
    requires Valid(s) && Distinct(a) && Distinct(b) && Lines(a) == Lines(b) && |a| == |b|
    requires (forall c :: c in a ==> Known(c)) && (forall c :: c in b ==> Known(c))
    requires Schedule(a, order1) && Schedule(b, order2) && SameProgress(|a|, order1, order2)
    ensures forall x :: FateAt(s, Run(s, a, order1, other), x) == FateAt(s, Run(s, b, order2, other), x)
    ensures Run(s, a, order1, other).resources.Keys == Run(s, b, order2, other).resources.Keys
  {
    var t1, t2 := Run(s, a, order1, other), Run(s, b, order2, other);
    forall x ensures FateAt(s, t1, x) == FateAt(s, t2, x) {
      SameFates(s, a, b, order1, order2, other, x);
    }
    forall x ensures x in t1.resources <==> x in t2.resources {
      assert FateAt(s, t1, x) == FateAt(s, t2, x);
    }
  }

  lemma DistinctLines(a: seq<Change>, b: seq<Change>)
    requires Distinct(a) && SamePlans(a, b)
    ensures Distinct(b)
  {
    DistinctActions(a);
    DistinctActions(b);
    forall x ensures |ActionsAt(b, x)| <= 1 {
      assert ActionsAt(a, x) == ActionsAt(b, x) && |ActionsAt(a, x)| <= 1;
    }
  }

  /** Two runs from `s` did the same at every address, and left the same set of addresses. */
  ghost predicate SameEffect(s: State, t1: State, t2: State) {
    && (forall x :: FateAt(s, t1, x) == FateAt(s, t2, x))
    && t1.resources.Keys == t2.resources.Keys
  }

  /**
   Two-plan delivery: when the gate lets the second plan through with the first plan's
   fingerprint, running either on the same state, in any two orders that come equally far,
   does the same at every address; in particular it leaves the same set of addresses.
   */
  lemma TwoPlanDelivery(op: Operation, first: Reading<Plan>, second: Reading<Plan>, hash: string -> string,
                        s: State, order1: seq<nat>, order2: seq<nat>, other: map<Change, Resource>)
    requires op != Drift && Injective(hash)
    requires Readable(first) && Accepted(op, second, Some(Digest(first, hash)), hash)
    ensures var (a, b) := (ChangesOf(first.value.changes).value, ChangesOf(second.value.changes).value);
            Valid(s) && Distinct(a) && Schedule(a, order1) && Schedule(b, order2) && SameProgress(|a|, order1, order2)
            ==> SameEffect(s, Run(s, a, order1, other), Run(s, b, order2, other))
  {
    var (a, b) := (ChangesOf(first.value.changes).value, ChangesOf(second.value.changes).value);
    ApprovedIsApplied(op, first, second, hash);
    assert |Lines(a)| == |a| && |Lines(b)| == |b|;
    assert forall c :: c in a ==> c in a + b;
    assert forall c :: c in b ==> c in a + b;
    if Valid(s) && Distinct(a) && Schedule(a, order1) && Schedule(b, order2) && SameProgress(|a|, order1, order2) {
      DistinctLines(a, b);
      SameKeys(s, a, b, order1, order2, other);
    }
  }

  /** Complete runs of the two plans have come equally far. */
  lemma CompleteRunsAgree(a: seq<Change>, b: seq<Change>, order1: seq<nat>, order2: seq<nat>)
    requires Lines(a) == Lines(b) && |a| == |b| && Complete(a, order1) && Complete(b, order2)
    ensures SameProgress(|a|, order1, order2)
  {
    forall i: nat | i < |a| ensures Count(order1, i) == Count(order2, i) {
      SameLine(a, b, i);
    }
  }

  /**
   Complete runs of the approved and of the accepted plan, each in an order of its own, do
   the same at every address and leave the same set of addresses.
   */
  lemma CompleteDelivery(op: Operation, first: Reading<Plan>, second: Reading<Plan>, hash: string -> string,
                         s: State, order1: seq<nat>, order2: seq<nat>, other: map<Change, Resource>)
    requires op != Drift && Injective(hash)
    requires Readable(first) && Accepted(op, second, Some(Digest(first, hash)), hash)
    ensures var (a, b) := (ChangesOf(first.value.changes).value, ChangesOf(second.value.changes).value);
            Valid(s) && Distinct(a) && Schedule(a, order1) && Schedule(b, order2)
            && Complete(a, order1) && Complete(b, order2)
            ==> SameEffect(s, Run(s, a, order1, other), Run(s, b, order2, other))
  {
    var (a, b) := (ChangesOf(first.value.changes).value, ChangesOf(second.value.changes).value);
    ApprovedIsApplied(op, first, second, hash);
    assert |Lines(a)| == |a| && |Lines(b)| == |b|;
    if Complete(a, order1) && Complete(b, order2) {
      CompleteRunsAgree(a, b, order1, order2);
      TwoPlanDelivery(op, first, second, hash, s, order1, order2, other);
    }
  }

  // ----- What the fingerprint leaves out -----

  /** The reason is not part of the fingerprint. */
  lemma SameLinesSameText(a: seq<Change>, b: seq<Change>)
    requires Lines(a) == Lines(b)
    ensures PlanCanonical(a) == PlanCanonical(b)
  {
    forall x ensures ActionsAt(a, x) == ActionsAt(b, x) {
      LinesFixActions(a, b, x);
    }
    assert SamePlans(a, b);
    SameTextIff(a, b);
  }

  lemma TaintedDecides()
    ensures Refused(Apply, [Change("a", ["delete"], Some(TAINTED))], {}) == []
    ensures Refused(Apply, [Change("a", ["delete"], None)], {}) != []
  {
    var plain := Change("a", ["delete"], None);
    RefusedEmptyIff(Apply, [Change("a", ["delete"], Some(TAINTED))], {});
    RefusedEmptyIff(Apply, [plain], {});
    assert plain.actions[0] in plain.actions && plain in [plain];
  }

  /** So the second plan has to be judged again: one text, one plan accepted and one refused. */
  lemma ReasonIsNotFingerprinted()
    ensures exists a, b :: PlanCanonical(a) == PlanCanonical(b)
                           && Refused(Apply, a, {}) == [] && Refused(Apply, b, {}) != []
  {
    var tainted := Change("a", ["delete"], Some(TAINTED));
    var plain := tainted.(reason := None);
    SameLinesSameText([tainted], [plain]);
    TaintedDecides();
  }
}

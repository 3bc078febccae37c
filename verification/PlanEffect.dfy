/**
 What running a plan does to the state, and what the gate's verdict and the
 fingerprint say about it. A run executes the actions of the changes one at a time:
 each change in the order of its own list, the changes interleaved in any way, and
 all of it stopped anywhere, also between the two halves of a replacement.
 */
module PlanEffect {
  import opened Wrappers
  import opened PlanText
  import opened PlanOrder
  import opened PlanGate

  /** A resource keeps its identity when updated; a creation gives a new one. */
  datatype Resource = Resource(identity: nat, revision: nat)

  datatype State = State(resources: map<string, Resource>, next: nat)

  predicate Valid(s: State) {
    forall x :: x in s.resources ==> s.resources[x].identity < s.next
  }

  predicate Known(c: Change) {
    forall a :: a in c.actions ==> a in KNOWN_ACTIONS
  }

  /**
   Runs action `k` of a change. A create puts a new resource at the address and displaces
   one that is there; a delete after the create of its own change removes the displaced
   one and leaves the address alone. A change with an action the gate does not know may
   do anything: `other` says what, and one it does not list removes the resource.
   */
  function RunAction(s: State, c: Change, k: nat, other: map<Change, Resource>): State
    requires k < |c.actions|
  {
    var x := c.address;
    if !Known(c) then
      s.(resources := if c in other then s.resources[x := other[c]] else s.resources - {x})
    else if c.actions[k] == "create" then
      State(s.resources[x := Resource(s.next, 0)], s.next + 1)
    else if c.actions[k] == "delete" then
      if "create" in c.actions[..k] then s else s.(resources := s.resources - {x})
    else if c.actions[k] == "update" && x in s.resources then
      s.(resources := s.resources[x := s.resources[x].(revision := s.resources[x].revision + 1)])
    else s
  }

  /** How many actions of change `i` a schedule has run. */
  function Count(order: seq<nat>, i: nat): nat {
    if order == [] then 0
    else Count(order[..|order| - 1], i) + (if order[|order| - 1] == i then 1 else 0)
  }

  /** A schedule names, step by step, the change whose next action runs. */
  predicate Schedule(cs: seq<Change>, order: seq<nat>) {
    order == []
    || (var last := |order| - 1;
        && Schedule(cs, order[..last])
        && order[last] < |cs|
        && Count(order[..last], order[last]) < |cs[order[last]].actions|)
  }

  function Run(s: State, cs: seq<Change>, order: seq<nat>, other: map<Change, Resource>): State
    requires Schedule(cs, order)
  {
    if order == [] then s
    else
      var last := |order| - 1;
      RunAction(Run(s, cs, order[..last], other), cs[order[last]], Count(order[..last], order[last]), other)
  }

  predicate LoneCreate(c: Change) {
    "create" in c.actions && "delete" !in c.actions
  }

  /**
   A change planned for this state: a lone create finds nothing; a delete, replacement or
   update finds its resource.
   */
  predicate Fits(s: State, c: Change) {
    Known(c) ==>
      && (LoneCreate(c) ==> c.address !in s.resources)
      && ("delete" in c.actions || ("update" in c.actions && "create" !in c.actions) ==> c.address in s.resources)
  }

  /** Every change starts in a state it was planned for. */
  predicate FitsRun(s: State, cs: seq<Change>, order: seq<nat>, other: map<Change, Resource>)
    requires Schedule(cs, order)
  {
    order == []
    || (var last := |order| - 1;
        && FitsRun(s, cs, order[..last], other)
        && (Count(order[..last], order[last]) == 0 ==> Fits(Run(s, cs, order[..last], other), cs[order[last]])))
  }

  lemma {:induction false} ScheduledBelow(cs: seq<Change>, order: seq<nat>)
    requires Schedule(cs, order)
    ensures forall i :: i in order ==> i < |cs|
    ensures forall i: nat :: i in order <==> Count(order, i) > 0
    ensures forall i :: i in order ==> Count(order, i) <= |cs[i].actions|
  {
    if order != [] {
      var last := |order| - 1;
      ScheduledBelow(cs, order[..last]);
      assert forall i :: i in order <==> i in order[..last] || i == order[last];
    }
  }

  // ----- What the gate must preserve -----

  predicate SameResource(s: State, t: State, x: string) {
    x in s.resources && x in t.resources && s.resources[x].identity == t.resources[x].identity
  }

  /** A started change deletes the tainted resource at `x`, by actions the gate knows. */
  predicate TaintedAt(cs: seq<Change>, order: seq<nat>, x: string) {
    exists i :: i in order && i < |cs| && cs[i].address == x && Known(cs[i]) && "delete" in cs[i].actions
                && cs[i].reason == Some(TAINTED)
  }

  /**
   Apply removes or replaces no resource but a tainted one and creates none where the
   refresh lost one; destroy creates and changes nothing.
   */
  predicate Preserves(op: Operation, s: State, cs: seq<Change>, order: seq<nat>, t: State, lost: set<string>) {
    match op
    case Apply =>
      && (forall x :: x in s.resources ==> SameResource(s, t, x) || TaintedAt(cs, order, x))
      && (forall x :: x in lost && x in t.resources ==> SameResource(s, t, x))
    case Destroy =>
      forall x :: x in t.resources ==> x in s.resources && t.resources[x] == s.resources[x]
    case Drift => true
  }

  /** Whatever state the plan was made for and however much of it runs, the operation's promise is kept. */
  ghost predicate Safe(op: Operation, cs: seq<Change>, lost: set<string>) {
    forall s, order, other :: Valid(s) && Schedule(cs, order) && FitsRun(s, cs, order, other) ==>
                                Preserves(op, s, cs, order, Run(s, cs, order, other), lost)
  }

  // ----- Apply: accepted plans are safe -----

  /** What every step of an accepted apply keeps. A started lone create never finds the resource of `s` again. */
  ghost predicate ApplyKept(s: State, cs: seq<Change>, order: seq<nat>, t: State, lost: set<string>) {
    && Preserves(Apply, s, cs, order, t, lost)
    && s.next <= t.next
    && (forall i :: i in order && i < |cs| && LoneCreate(cs[i]) ==> !SameResource(s, t, cs[i].address))
  }

  lemma TaintedStays(cs: seq<Change>, order: seq<nat>, i: nat, x: string)
    requires TaintedAt(cs, order, x)
    ensures TaintedAt(cs, order + [i], x)
  {
    var j :| j in order && j < |cs| && cs[j].address == x && Known(cs[j]) && "delete" in cs[j].actions
             && cs[j].reason == Some(TAINTED);
    assert j in order + [i];
  }

  lemma ApplyStep(s: State, cs: seq<Change>, order: seq<nat>, i: nat, k: nat, t: State, other: map<Change, Resource>,
                  lost: set<string>)
    requires Valid(s) && ApplyKept(s, cs, order, t, lost)
    requires i < |cs| && k < |cs[i].actions| && Permitted(Apply, cs[i], lost)
    requires i !in order ==> Fits(t, cs[i])
    ensures ApplyKept(s, cs, order + [i], RunAction(t, cs[i], k, other), lost)
  {
    var c := cs[i];
    var t' := RunAction(t, c, k, other);
    assert c.actions[k] in c.actions && i in order + [i];
    assert LoneCreate(c) ==> !SameResource(s, t, c.address);
    forall x | x in s.resources ensures SameResource(s, t', x) || TaintedAt(cs, order + [i], x) {
      if TaintedAt(cs, order, x) {
        TaintedStays(cs, order, i, x);
      }
    }
    forall j | j in order + [i] && j < |cs| && LoneCreate(cs[j]) ensures !SameResource(s, t', cs[j].address) {
      assert j in order || j == i;
    }
  }

  lemma {:induction false} ApplyPreserves(s: State, cs: seq<Change>, order: seq<nat>, other: map<Change, Resource>,
                                          lost: set<string>)
    requires Valid(s) && Schedule(cs, order) && FitsRun(s, cs, order, other)
    requires forall c :: c in cs ==> Permitted(Apply, c, lost)
    ensures ApplyKept(s, cs, order, Run(s, cs, order, other), lost)
    decreases |order|
  {
    if order != [] {
      var last := |order| - 1;
      ApplyPreserves(s, cs, order[..last], other, lost);
      ScheduledBelow(cs, order[..last]);
      ApplyStep(s, cs, order[..last], order[last], Count(order[..last], order[last]),
                Run(s, cs, order[..last], other), other, lost);
      assert order[..last] + [order[last]] == order;
    }
  }

  // ----- Destroy -----

  /** An update of the change finds its resource already deleted by the change itself. */
  predicate UpdatesAfterDelete(c: Change) {
    exists k :: 0 <= k < |c.actions| && c.actions[k] == "update" && "delete" in c.actions[..k]
  }

  /**
   The changes no run of which can break the promise. For destroy these are the permitted
   ones and those whose only fault is to update what they have themselves deleted.
   */
  predicate Harmless(op: Operation, c: Change, lost: set<string>)
    requires op != Drift
  {
    match op
    case Apply => Permitted(Apply, c, lost)
    case Destroy =>
      && Known(c)
      && "create" !in c.actions
      && forall k :: 0 <= k < |c.actions| && c.actions[k] == "update" ==> "delete" in c.actions[..k]
  }

  lemma HarmlessOrRefused(op: Operation, c: Change, lost: set<string>)
    requires op != Drift
    ensures Permitted(op, c, lost) ==> Harmless(op, c, lost)
    ensures Harmless(op, c, lost) && !Permitted(op, c, lost) ==> op == Destroy && UpdatesAfterDelete(c)
  {
    if op == Destroy && Harmless(op, c, lost) && "update" in c.actions {
      var k :| 0 <= k < |c.actions| && c.actions[k] == "update";
    }
  }

  /** Change `i` has run a delete. */
  predicate HasDeleted(cs: seq<Change>, order: seq<nat>, i: nat) {
    i < |cs| && Count(order, i) <= |cs[i].actions| && "delete" in cs[i].actions[..Count(order, i)]
  }

  /** What every step of a harmless destroy keeps: what a change has deleted stays away. */
  ghost predicate DestroyKept(s: State, cs: seq<Change>, order: seq<nat>, t: State) {
    && (forall x :: x in t.resources ==> x in s.resources && t.resources[x] == s.resources[x])
    && (forall i :: i in order && HasDeleted(cs, order, i) ==> cs[i].address !in t.resources)
  }

  lemma DestroyStep(s: State, cs: seq<Change>, order: seq<nat>, i: nat, t: State, other: map<Change, Resource>)
    requires DestroyKept(s, cs, order, t) && Schedule(cs, order)
    requires i < |cs| && Count(order, i) < |cs[i].actions| && Harmless(Destroy, cs[i], {})
    ensures DestroyKept(s, cs, order + [i], RunAction(t, cs[i], Count(order, i), other))
  {
    var c, k := cs[i], Count(order, i);
    var t' := RunAction(t, c, k, other);
    ScheduledBelow(cs, order);
    CountSnoc(order, i);
    assert c.actions[k] in c.actions;
    assert "create" !in c.actions[..k];
    assert c.actions[..k + 1] == c.actions[..k] + [c.actions[k]];
    assert k > 0 || c.actions[..k] == [];
    forall j | j in order + [i] && HasDeleted(cs, order + [i], j) ensures cs[j].address !in t'.resources {
      if j != i {
        assert j in order && HasDeleted(cs, order, j);
      } else if "delete" in c.actions[..k] {
        assert i in order && HasDeleted(cs, order, i);
      }
    }
  }

  lemma CountSnoc(order: seq<nat>, i: nat)
    ensures forall j: nat :: Count(order + [i], j) == Count(order, j) + (if j == i then 1 else 0)
  {
    assert (order + [i])[..|order|] == order;
  }

  lemma {:induction false} DestroyPreserves(s: State, cs: seq<Change>, order: seq<nat>, other: map<Change, Resource>)
    requires Schedule(cs, order) && forall c :: c in cs ==> Harmless(Destroy, c, {})
    ensures DestroyKept(s, cs, order, Run(s, cs, order, other))
    decreases |order|
  {
    if order != [] {
      var last := |order| - 1;
      DestroyPreserves(s, cs, order[..last], other);
      DestroyStep(s, cs, order[..last], order[last], Run(s, cs, order[..last], other), other);
      assert order[..last] + [order[last]] == order;
    }
  }

  lemma HarmlessIsSafe(op: Operation, cs: seq<Change>, lost: set<string>)
    requires op != Drift && forall c :: c in cs ==> Harmless(op, c, lost)
    ensures Safe(op, cs, lost)
  {
    forall s, order, other | Valid(s) && Schedule(cs, order) && FitsRun(s, cs, order, other)
      ensures Preserves(op, s, cs, order, Run(s, cs, order, other), lost)
    {
      if op == Apply {
        ApplyPreserves(s, cs, order, other, lost);
      } else {
        DestroyPreserves(s, cs, order, other);
      }
    }
  }

  /** Every run of a plan without violations keeps the promise of its operation. */
  lemma AcceptedIsSafe(op: Operation, cs: seq<Change>, lost: set<string>)
    requires op != Drift && Refused(op, cs, lost) == []
    ensures Safe(op, cs, lost)
  {
    RefusedEmptyIff(op, cs, lost);
    forall c | c in cs ensures Harmless(op, c, lost) {
      HarmlessOrRefused(op, c, lost);
    }
    HarmlessIsSafe(op, cs, lost);
  }

  /** Whatever an accepted apply removes or replaces is among the addresses it reported. */
  lemma RemovalsAreReported(cs: seq<Change>, lost: set<string>, s: State, order: seq<nat>, other: map<Change, Resource>,
                            x: string)
    requires Refused(Apply, cs, lost) == []
    requires Valid(s) && Schedule(cs, order) && FitsRun(s, cs, order, other)
    requires x in s.resources && !SameResource(s, Run(s, cs, order, other), x)
    ensures x in TaintedAddresses(cs)
  {
    AcceptedIsSafe(Apply, cs, lost);
    assert TaintedAt(cs, order, x);
    TaintedMembers(cs, x);
  }

  // ----- Runs of one change -----

  /** The first action of a list that is in `wanted`; the length when there is none. */
  function First(actions: seq<string>, wanted: set<string>): (n: nat)
    ensures n <= |actions| && (n < |actions| ==> actions[n] in wanted)
    ensures forall k :: 0 <= k < n ==> actions[k] !in wanted
    ensures (exists a :: a in actions && a in wanted) ==> n < |actions|
  {
    if actions == [] || actions[0] in wanted then 0 else 1 + First(actions[1..], wanted)
  }

  /** The first `n` actions of change `i`, and nothing else. */
  function Alone(i: nat, n: nat): (order: seq<nat>)
    ensures |order| == n && forall p :: 0 <= p < n ==> order[p] == i
  {
    if n == 0 then [] else Alone(i, n - 1) + [i]
  }

  function Partway(s: State, c: Change, n: nat, other: map<Change, Resource>): State
    requires n <= |c.actions|
  {
    if n == 0 then s else RunAction(Partway(s, c, n - 1, other), c, n - 1, other)
  }

  lemma {:induction false} RunAlone(s: State, cs: seq<Change>, i: nat, n: nat, other: map<Change, Resource>)
    requires i < |cs| && n <= |cs[i].actions| && Fits(s, cs[i])
    ensures Schedule(cs, Alone(i, n)) && Count(Alone(i, n), i) == n
    ensures FitsRun(s, cs, Alone(i, n), other)
    ensures Run(s, cs, Alone(i, n), other) == Partway(s, cs[i], n, other)
  {
    if n > 0 {
      RunAlone(s, cs, i, n - 1, other);
      assert Alone(i, n)[..n - 1] == Alone(i, n - 1);
    }
  }

  lemma {:induction false} NextGrows(s: State, c: Change, n: nat, other: map<Change, Resource>)
    requires n <= |c.actions|
    ensures s.next <= Partway(s, c, n, other).next
  {
    if n > 0 {
      NextGrows(s, c, n - 1, other);
    }
  }

  /** Before the first create or delete of a change every address keeps its resource. */
  lemma {:induction false} BeforeReplacing(s: State, c: Change, n: nat, other: map<Change, Resource>)
    requires Known(c) && n <= First(c.actions, {"create", "delete"})
    ensures var t := Partway(s, c, n, other);
      t.next == s.next && t.resources.Keys == s.resources.Keys && forall x :: x in s.resources ==> SameResource(s, t, x)
  {
    if n > 0 {
      BeforeReplacing(s, c, n - 1, other);
    }
  }

  /** Before the first action that does something, nothing has changed. */
  lemma {:induction false} BeforeAnything(s: State, c: Change, n: nat, other: map<Change, Resource>)
    requires Known(c) && n <= First(c.actions, {"create", "delete", "update"})
    ensures Partway(s, c, n, other) == s
  {
    if n > 0 {
      BeforeAnything(s, c, n - 1, other);
    }
  }

  /** A state the change was made for: its resource is there unless the change is to create it. */
  function StateFor(c: Change): State {
    if Known(c) && LoneCreate(c) then State(map[], 1) else State(map[c.address := Resource(0, 0)], 1)
  }

  lemma StateForFits(c: Change)
    ensures Valid(StateFor(c)) && Fits(StateFor(c), c)
  {
  }

  // ----- Exactness -----

  /** After its first create a change has put a new resource at its address. */
  lemma AfterCreate(s: State, c: Change, other: map<Change, Resource>)
    requires Valid(s) && Known(c) && "create" in c.actions
    ensures var n := First(c.actions, {"create"}) + 1;
      n <= |c.actions| && c.address in Partway(s, c, n, other).resources
      && !SameResource(s, Partway(s, c, n, other), c.address)
      && s.next < Partway(s, c, n, other).next
  {
    NextGrows(s, c, First(c.actions, {"create"}), other);
  }

  /** After its first create or delete a change has taken the resource away from its address. */
  lemma AfterReplacing(s: State, c: Change, other: map<Change, Resource>)
    requires Valid(s) && Known(c) && "delete" in c.actions
    ensures var n := First(c.actions, {"create", "delete"}) + 1;
      n <= |c.actions| && !SameResource(s, Partway(s, c, n, other), c.address)
  {
    var n := First(c.actions, {"create", "delete"});
    BeforeReplacing(s, c, n, other);
  }

  /** An update that precedes every delete of its change alters the resource. */
  lemma AfterUpdate(s: State, c: Change, k: nat, other: map<Change, Resource>)
    requires Known(c) && "create" !in c.actions && c.address in s.resources
    requires k < |c.actions| && c.actions[k] == "update" && "delete" !in c.actions[..k]
    ensures var n := First(c.actions, {"create", "delete", "update"}) + 1;
      n <= |c.actions| && c.address in Partway(s, c, n, other).resources
      && Partway(s, c, n, other).resources[c.address] != s.resources[c.address]
  {
    var n := First(c.actions, {"create", "delete", "update"});
    assert c.actions[k] in c.actions;
    BeforeAnything(s, c, n, other);
    assert c.actions[n] in c.actions;
    assert n <= k;
    assert n < k ==> c.actions[n] in c.actions[..k];
  }

  /** How much of a refused change has to run to break the promise, and in which environment. */
  function BreakingPoint(op: Operation, c: Change, lost: set<string>): nat {
    if !Known(c) then 1
    else if op == Apply && "create" in c.actions && c.address in lost then First(c.actions, {"create"}) + 1
    else if op == Apply then First(c.actions, {"create", "delete"}) + 1
    else if "create" in c.actions then First(c.actions, {"create"}) + 1
    else First(c.actions, {"create", "delete", "update"}) + 1
  }

  /** The first action of an unknown change does what `other` says. */
  lemma UnknownRuns(s: State, c: Change, other: map<Change, Resource>)
    requires !Known(c)
    ensures c.actions != []
    ensures var t := Partway(s, c, 1, other);
      t.resources == if c in other then s.resources[c.address := other[c]] else s.resources - {c.address}
  {
    assert Partway(s, c, 0, other) == s;
  }

  lemma BreaksPromise(op: Operation, cs: seq<Change>, lost: set<string>, i: nat, other: map<Change, Resource>)
    requires op != Drift && i < |cs| && !Harmless(op, cs[i], lost)
    requires other == if op == Destroy then map[cs[i] := Resource(0, 1)] else map[]
    ensures var c, n := cs[i], BreakingPoint(op, cs[i], lost);
      n <= |c.actions|
      && !Preserves(op, StateFor(c), cs, Alone(i, n), Partway(StateFor(c), c, n, other), lost)
  {
    var c, s := cs[i], StateFor(cs[i]);
    var n := BreakingPoint(op, c, lost);
    StateForFits(c);
    if !Known(c) {
      UnknownRuns(s, c, other);
      var t := Partway(s, c, n, other);
      assert s.resources[c.address] == Resource(0, 0);
      if op == Destroy {
        assert c.address in t.resources && t.resources[c.address] == Resource(0, 1);
      } else {
        assert c.address !in t.resources && !TaintedAt(cs, Alone(i, n), c.address);
      }
    } else if "create" in c.actions && (op == Destroy || c.address in lost) {
      AfterCreate(s, c, other);
    } else if op == Apply {
      AfterReplacing(s, c, other);
      assert c.address in s.resources && !TaintedAt(cs, Alone(i, n), c.address);
    } else {
      var k :| 0 <= k < |c.actions| && c.actions[k] == "update" && "delete" !in c.actions[..k];
      assert c.actions[k] in c.actions;
      AfterUpdate(s, c, k, other);
    }
  }

  /** Each change that is not harmless breaks the promise in some run. */
  lemma HarmfulIsUnsafe(op: Operation, cs: seq<Change>, lost: set<string>, i: nat)
    requires op != Drift && i < |cs| && !Harmless(op, cs[i], lost)
    ensures !Safe(op, cs, lost)
  {
    var other: map<Change, Resource> := if op == Destroy then map[cs[i] := Resource(0, 1)] else map[];
    var s, n := StateFor(cs[i]), BreakingPoint(op, cs[i], lost);
    BreaksPromise(op, cs, lost, i, other);
    StateForFits(cs[i]);
    RunAlone(s, cs, i, n, other);
    assert !Preserves(op, s, cs, Alone(i, n), Run(s, cs, Alone(i, n), other), lost);
  }

  /**
   How exact the gate is, for every list of changes. Every run keeps the promise if and
   only if all changes are harmless. The gate refuses all others, and refuses more only in
   destroy: a change that updates what it has itself deleted. Plans without one are
   accepted if and only if every run keeps the promise.
   */
  lemma GateIsExact(op: Operation, cs: seq<Change>, lost: set<string>)
    requires op != Drift
    ensures Safe(op, cs, lost) <==> forall c :: c in cs ==> Harmless(op, c, lost)
    ensures Refused(op, cs, lost) == [] ==> Safe(op, cs, lost)
    ensures (op == Apply || forall c :: c in cs ==> !UpdatesAfterDelete(c)) ==>
              (Refused(op, cs, lost) == [] <==> Safe(op, cs, lost))
  {
    RefusedEmptyIff(op, cs, lost);
    forall c ensures Permitted(op, c, lost) ==> Harmless(op, c, lost)
             ensures Harmless(op, c, lost) && !Permitted(op, c, lost) ==> op == Destroy && UpdatesAfterDelete(c) {
      HarmlessOrRefused(op, c, lost);
    }
    if forall c :: c in cs ==> Harmless(op, c, lost) {
      HarmlessIsSafe(op, cs, lost);
    } else {
      var i :| 0 <= i < |cs| && !Harmless(op, cs[i], lost);
      HarmfulIsUnsafe(op, cs, lost, i);
    }
  }
}

/** What an accepted apply can leave behind, complete or interrupted, and what "no changes" means. */
module PlanReplacement {
  import opened Wrappers
  import opened PlanOrder
  import opened PlanGate
  import opened PlanEffect

  /** Every change of the run was completed. */
  predicate Whole(cs: seq<Change>, order: seq<nat>) {
    forall i :: i in order && i < |cs| ==> Count(order, i) == |cs[i].actions|
  }

  /** No interrupted run leaves an address of the state without a resource. */
  ghost predicate KeepsAddresses(cs: seq<Change>) {
    forall s, order, other :: Valid(s) && Schedule(cs, order) && FitsRun(s, cs, order, other) ==>
                                s.resources.Keys <= Run(s, cs, order, other).resources.Keys
  }

  /** No run that completes what it starts leaves an address of the state without a resource. */
  ghost predicate KeepsAddressesWhenWhole(cs: seq<Change>) {
    forall s, order, other ::
      Valid(s) && Schedule(cs, order) && FitsRun(s, cs, order, other) && Whole(cs, order) ==>
        s.resources.Keys <= Run(s, cs, order, other).resources.Keys
  }

  /** Every delete belongs to a replacement. */
  predicate OnlyReplacements(cs: seq<Change>) {
    forall c :: c in cs && "delete" in c.actions ==> "create" in c.actions
  }

  /** No delete of the change precedes every create of it. */
  predicate CreatesFirst(c: Change) {
    forall k :: 0 <= k < |c.actions| && c.actions[k] == "delete" ==> "create" in c.actions[..k]
  }

  // ----- Interrupted runs -----

  lemma {:induction false} CreatesFirstKeeps(s: State, cs: seq<Change>, order: seq<nat>, other: map<Change, Resource>)
    requires Schedule(cs, order) && forall c :: c in cs ==> Known(c) && CreatesFirst(c)
    ensures s.resources.Keys <= Run(s, cs, order, other).resources.Keys
    decreases |order|
  {
    if order != [] {
      CreatesFirstKeeps(s, cs, order[..|order| - 1], other);
    }
  }

  /** A delete that comes first leaves nothing at its address when the run stops after it. */
  lemma DeleteFirstLoses(cs: seq<Change>, i: nat, k: nat)
    requires i < |cs| && Known(cs[i])
    requires k < |cs[i].actions| && cs[i].actions[k] == "delete" && "create" !in cs[i].actions[..k]
    ensures !KeepsAddresses(cs)
  {
    var c, s := cs[i], StateFor(cs[i]);
    var n := First(c.actions, {"create", "delete"});
    assert c.actions[k] in c.actions;
    assert n <= k && (n < k ==> c.actions[n] in c.actions[..k]);
    StateForFits(c);
    BeforeReplacing(s, c, n, map[]);
    RunAlone(s, cs, i, n + 1, map[]);
    assert "create" !in c.actions[..n];
    assert c.address in s.resources.Keys && c.address !in Run(s, cs, Alone(i, n + 1), map[]).resources.Keys;
  }

  /**
   An accepted apply, stopped anywhere, keeps every address occupied exactly when none of
   its changes deletes before it creates.
   */
  lemma KeepsAddressesIff(cs: seq<Change>, lost: set<string>)
    requires Refused(Apply, cs, lost) == []
    ensures KeepsAddresses(cs) <==> forall c :: c in cs ==> CreatesFirst(c)
  {
    RefusedEmptyIff(Apply, cs, lost);
    assert forall c :: c in cs ==> Permitted(Apply, c, lost);
    if forall c :: c in cs ==> CreatesFirst(c) {
      forall s, order, other | Valid(s) && Schedule(cs, order) && FitsRun(s, cs, order, other)
        ensures s.resources.Keys <= Run(s, cs, order, other).resources.Keys
      {
        CreatesFirstKeeps(s, cs, order, other);
      }
    } else {
      var i :| 0 <= i < |cs| && !CreatesFirst(cs[i]);
      var k :| 0 <= k < |cs[i].actions| && cs[i].actions[k] == "delete" && "create" !in cs[i].actions[..k];
      assert Permitted(Apply, cs[i], lost);
      DeleteFirstLoses(cs, i, k);
    }
  }

  // ----- Completed runs -----

  /** Change `i` has deleted the resource at `x` and not yet created its successor. */
  predicate Between(cs: seq<Change>, order: seq<nat>, i: nat, x: string) {
    && i < |cs| && cs[i].address == x && Count(order, i) <= |cs[i].actions|
    && "delete" in cs[i].actions[..Count(order, i)]
    && "create" !in cs[i].actions[..Count(order, i)]
  }

  /** Every address of `s` without a resource in `t` is between the halves of some change. */
  ghost predicate OnlyBetween(s: State, cs: seq<Change>, order: seq<nat>, t: State) {
    forall x :: x in s.resources && x !in t.resources ==> exists i: nat :: Between(cs, order, i, x)
  }

  lemma BetweenStays(cs: seq<Change>, order: seq<nat>, i: nat, j: nat, x: string)
    requires Between(cs, order, j, x)
    requires i < |cs| && Count(order, i) < |cs[i].actions|
    requires i == j ==> cs[i].actions[Count(order, i)] != "create"
    ensures Between(cs, order + [i], j, x)
  {
    CountSnoc(order, i);
    if i == j {
      var k := Count(order, i);
      assert cs[i].actions[..k + 1] == cs[i].actions[..k] + [cs[i].actions[k]];
    }
  }

  /** The step that takes the resource away is a first delete. */
  lemma LosesBetween(cs: seq<Change>, order: seq<nat>, i: nat, t: State, other: map<Change, Resource>, x: string)
    requires i < |cs| && Known(cs[i]) && Count(order, i) < |cs[i].actions|
    requires x in t.resources && x !in RunAction(t, cs[i], Count(order, i), other).resources
    ensures Between(cs, order + [i], i, x)
  {
    var c, k := cs[i], Count(order, i);
    assert c.address == x && c.actions[k] == "delete" && "create" !in c.actions[..k];
    CountSnoc(order, i);
    assert c.actions[..k + 1] == c.actions[..k] + [c.actions[k]];
  }

  lemma StepBetween(s: State, cs: seq<Change>, order: seq<nat>, i: nat, t: State, other: map<Change, Resource>)
    requires OnlyBetween(s, cs, order, t) && i < |cs| && Known(cs[i]) && Count(order, i) < |cs[i].actions|
    ensures OnlyBetween(s, cs, order + [i], RunAction(t, cs[i], Count(order, i), other))
  {
    var t' := RunAction(t, cs[i], Count(order, i), other);
    forall x | x in s.resources && x !in t'.resources ensures exists j: nat :: Between(cs, order + [i], j, x) {
      if x in t.resources {
        LosesBetween(cs, order, i, t, other, x);
      } else {
        var j: nat :| Between(cs, order, j, x);
        BetweenStays(cs, order, i, j, x);
      }
    }
  }

  lemma {:induction false} RunBetween(s: State, cs: seq<Change>, order: seq<nat>, other: map<Change, Resource>)
    requires Schedule(cs, order) && forall c :: c in cs ==> Known(c)
    ensures OnlyBetween(s, cs, order, Run(s, cs, order, other))
    decreases |order|
  {
    if order != [] {
      var last := |order| - 1;
      RunBetween(s, cs, order[..last], other);
      StepBetween(s, cs, order[..last], order[last], Run(s, cs, order[..last], other), other);
      assert order[..last] + [order[last]] == order;
    }
  }

  lemma WholeIsNotBetween(cs: seq<Change>, order: seq<nat>, i: nat, x: string)
    requires Schedule(cs, order) && Whole(cs, order) && OnlyReplacements(cs)
    ensures !Between(cs, order, i, x)
  {
    ScheduledBelow(cs, order);
    if i in order {
      assert cs[i].actions[..|cs[i].actions|] == cs[i].actions;
      assert cs[i] in cs;
    } else if i < |cs| {
      assert cs[i].actions[..0] == [];
    }
  }

  lemma ReplacementsKeep(s: State, cs: seq<Change>, order: seq<nat>, other: map<Change, Resource>)
    requires Schedule(cs, order) && Whole(cs, order) && OnlyReplacements(cs) && forall c :: c in cs ==> Known(c)
    ensures s.resources.Keys <= Run(s, cs, order, other).resources.Keys
  {
    RunBetween(s, cs, order, other);
    forall i: nat, x ensures !Between(cs, order, i, x) {
      WholeIsNotBetween(cs, order, i, x);
    }
  }

  /** A completed delete without a create leaves nothing. */
  lemma {:induction false} StaysDeleted(s: State, c: Change, n: nat, other: map<Change, Resource>)
    requires Known(c) && "create" !in c.actions && n <= |c.actions| && "delete" in c.actions[..n]
    ensures c.address !in Partway(s, c, n, other).resources
  {
    assert c.actions[..n] == c.actions[..n - 1] + [c.actions[n - 1]];
    assert c.actions[n - 1] in c.actions && "create" !in c.actions[..n - 1];
    if "delete" in c.actions[..n - 1] {
      StaysDeleted(s, c, n - 1, other);
    }
  }

  lemma DeleteOnlyLoses(cs: seq<Change>, i: nat)
    requires i < |cs| && Known(cs[i]) && "delete" in cs[i].actions && "create" !in cs[i].actions
    ensures !KeepsAddressesWhenWhole(cs)
  {
    var c, s, n := cs[i], StateFor(cs[i]), |cs[i].actions|;
    StateForFits(c);
    RunAlone(s, cs, i, n, map[]);
    assert c.actions[..n] == c.actions;
    StaysDeleted(s, c, n, map[]);
    assert Whole(cs, Alone(i, n));
    assert c.address in s.resources.Keys && c.address !in Run(s, cs, Alone(i, n), map[]).resources.Keys;
  }

  /**
   When every started change completes, an accepted apply loses an address exactly when it
   holds a delete without a create: the gate looks at the tainted reason, not for the
   create that makes it a replacement.
   */
  lemma KeepsAddressesWhenWholeIff(cs: seq<Change>, lost: set<string>)
    requires Refused(Apply, cs, lost) == []
    ensures KeepsAddressesWhenWhole(cs) <==> OnlyReplacements(cs)
  {
    RefusedEmptyIff(Apply, cs, lost);
    assert forall c :: c in cs ==> Permitted(Apply, c, lost);
    if OnlyReplacements(cs) {
      forall s, order, other | Valid(s) && Schedule(cs, order) && FitsRun(s, cs, order, other) && Whole(cs, order)
        ensures s.resources.Keys <= Run(s, cs, order, other).resources.Keys
      {
        ReplacementsKeep(s, cs, order, other);
      }
    } else {
      var i :| 0 <= i < |cs| && "delete" in cs[i].actions && "create" !in cs[i].actions;
      assert Permitted(Apply, cs[i], lost);
      DeleteOnlyLoses(cs, i);
    }
  }

  /** Accepted, and the complete run leaves nothing at the address. */
  lemma LoneTaintedDelete()
    ensures var c := Change("a", ["delete"], Some(TAINTED));
            Refused(Apply, [c], {}) == [] && !KeepsAddressesWhenWhole([c])
  {
    var c := Change("a", ["delete"], Some(TAINTED));
    RefusedEmptyIff(Apply, [c], {});
    KeepsAddressesWhenWholeIff([c], {});
    assert c in [c] && c.actions[0] in c.actions && !OnlyReplacements([c]);
  }

  /** Accepted and a replacement, and yet the run that stops between its halves leaves nothing at the address. */
  lemma InterruptedReplacement()
    ensures var c := Change("a", ["delete", "create"], Some(TAINTED));
            Refused(Apply, [c], {}) == [] && KeepsAddressesWhenWhole([c]) && !KeepsAddresses([c])
  {
    var c := Change("a", ["delete", "create"], Some(TAINTED));
    RefusedEmptyIff(Apply, [c], {});
    KeepsAddressesWhenWholeIff([c], {});
    KeepsAddressesIff([c], {});
    assert c.actions[1] in c.actions && OnlyReplacements([c]);
    assert c in [c] && c.actions[0] == "delete" && !CreatesFirst(c);
  }

  // ----- The "changes" output -----

  ghost predicate Inert(cs: seq<Change>) {
    forall s, order, other :: Valid(s) && Schedule(cs, order) && FitsRun(s, cs, order, other) ==>
                                Run(s, cs, order, other) == s
  }

  predicate AllNoOps(c: Change) {
    forall a :: a in c.actions ==> a == "no-op"
  }

  lemma {:induction false} NoOpsDoNothing(s: State, cs: seq<Change>, order: seq<nat>, other: map<Change, Resource>)
    requires Schedule(cs, order) && forall c :: c in cs ==> AllNoOps(c)
    ensures Run(s, cs, order, other) == s
    decreases |order|
  {
    if order != [] {
      var last := |order| - 1;
      NoOpsDoNothing(s, cs, order[..last], other);
      var c := cs[order[last]];
      assert c in cs && AllNoOps(c) && Known(c);
      assert c.actions[Count(order[..last], order[last])] in c.actions;
    }
  }

  /** A change that holds an action other than "no-op" alters some state it was made for. */
  lemma SomethingHappens(c: Change) returns (n: nat)
    requires !AllNoOps(c)
    ensures n <= |c.actions| && Partway(StateFor(c), c, n, map[c := Resource(0, 1)]) != StateFor(c)
  {
    var s, other := StateFor(c), map[c := Resource(0, 1)];
    StateForFits(c);
    if !Known(c) {
      n := 1;
      assert c.actions != [];
      var t := RunAction(Partway(s, c, 0, other), c, 0, other);
      assert t.resources[c.address] == Resource(0, 1);
    } else if LoneCreate(c) {
      n := First(c.actions, {"create"}) + 1;
      AfterCreate(s, c, other);
    } else {
      var m := First(c.actions, {"create", "delete", "update"});
      var a :| a in c.actions && a != "no-op";
      BeforeAnything(s, c, m, other);
      n := m + 1;
      assert c.actions[m] in c.actions && "create" !in c.actions[..m];
      assert s.resources[c.address] == Resource(0, 0);
    }
  }

  /**
   A plan announced as without changes does nothing, in any run. The converse is exact: a
   run can alter the state if and only if some change holds an action other than "no-op".
   The announcement differs from that only for action lists the planner does not write, the
   empty one or several no-ops, which are announced as changes.
   */
  lemma HasChangesIff(cs: seq<Change>)
    ensures Inert(cs) <==> forall c :: c in cs ==> AllNoOps(c)
    ensures !HasChanges(cs) ==> Inert(cs)
    ensures (forall c :: c in cs && AllNoOps(c) ==> c.actions == ["no-op"]) ==> (HasChanges(cs) <==> !Inert(cs))
  {
    if forall c :: c in cs ==> AllNoOps(c) {
      forall s, order, other | Valid(s) && Schedule(cs, order) && FitsRun(s, cs, order, other)
        ensures Run(s, cs, order, other) == s
      {
        NoOpsDoNothing(s, cs, order, other);
      }
    } else {
      var i :| 0 <= i < |cs| && !AllNoOps(cs[i]);
      var n := SomethingHappens(cs[i]);
      StateForFits(cs[i]);
      RunAlone(StateFor(cs[i]), cs, i, n, map[cs[i] := Resource(0, 1)]);
      assert !Inert(cs);
      assert cs[i] in cs && cs[i].actions != ["no-op"];
    }
  }
}

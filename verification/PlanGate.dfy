/**
 The gate between a plan and `terraform apply`: reading the plan's entries, the
 fingerprint, the policy of each operation and the exit status.
 */
module PlanGate {
  import opened Lists
  import opened Wrappers
  import opened PlanOrder

  // ----- Reading a plan -----

  /**
   An element of `resource_changes` or `resource_drift`; None is a missing key, or an
   action list that is not one. A `null` mode is any text but "managed".
   */
  datatype Entry =
    | Scalar // not a JSON object
    | Entry(mode: Option<string>, address: Option<string>, actions: Option<seq<string>>, reason: Option<string>)

  /**
   A section of the plan. `null`, a number or a boolean cannot be iterated over; the keys
   of an object and the characters of a string can, and are `Scalar` entries.
   */
  datatype Section = Absent | NotIterable | Entries(entries: seq<Entry>)

  datatype Plan = Plan(changes: Section, drift: Section)

  /** A value, an exception the gate reports as unreadable input, or one it does not catch. */
  datatype Reading<T> = Read(value: T) | Unreadable | Crashed

  predicate Managed(e: Entry) {
    e.Entry? && e.mode == Some("managed")
  }

  /** An entry that raises nothing. */
  predicate Legible(e: Entry) {
    e.Entry? && (Managed(e) ==> e.address.Some? && e.actions.Some?)
  }

  function ChangeOf(e: Entry): Change
    requires Legible(e) && Managed(e)
  {
    Change(e.address.value, e.actions.value, e.reason)
  }

  /** The changes of the managed entries, in the order listed, or the exception of the first entry that raises one. */
  function Collect(es: seq<Entry>): Reading<seq<Change>> {
    if es == [] then Read([])
    else if !Legible(es[0]) then (if es[0].Scalar? then Crashed else Unreadable)
    else if !Managed(es[0]) then Collect(es[1..])
    else Prepend([ChangeOf(es[0])], Collect(es[1..]))
  }

  function Prepend(cs: seq<Change>, r: Reading<seq<Change>>): Reading<seq<Change>> {
    if r.Read? then Read(cs + r.value) else r
  }

  function ChangesOf(s: Section): Reading<seq<Change>> {
    match s
    case Absent => Read([])
    case NotIterable => Unreadable
    case Entries(es) =>
      match Collect(es)
      case Read(cs) => Read(SortChanges(cs))
      case fault => fault
  }

  /** The entries of the state that the refresh no longer found. */
  predicate Lost(e: Entry) {
    e.Entry? && (e.mode.Some? ==> e.mode.value == "managed") && e.actions == Some(["delete"])
  }

  predicate LegibleDrift(e: Entry) {
    e.Entry? && ((e.mode.Some? ==> e.mode.value == "managed") ==> e.actions.Some?) && (Lost(e) ==> e.address.Some?)
  }

  function CollectLost(es: seq<Entry>): Reading<set<string>> {
    if es == [] then Read({})
    else if !LegibleDrift(es[0]) then (if es[0].Scalar? then Crashed else Unreadable)
    else match CollectLost(es[1..])
      case Read(lost) => Read(if Lost(es[0]) then {es[0].address.value} + lost else lost)
      case fault => fault
  }

  function LostOf(s: Section): Reading<set<string>> {
    match s
    case Absent => Read({})
    case NotIterable => Unreadable
    case Entries(es) => CollectLost(es)
  }

  /** How many addresses of a refresh-only plan drifted; subscripting a non-object raises TypeError. */
  function DriftCount(s: Section): Reading<nat> {
    match s
    case Absent => Read(0)
    case NotIterable => Unreadable
    case Entries(es) =>
      if forall e :: e in es ==> e.Entry? && e.address.Some? then Read(|es|) else Unreadable
  }

  lemma PrependNothing(r: Reading<seq<Change>>)
    ensures Prepend([], r) == r
  {
    if r.Read? {
      assert [] + r.value == r.value;
    }
  }

  lemma PrependTwice(a: seq<Change>, b: seq<Change>, r: Reading<seq<Change>>)
    ensures Prepend(a, Prepend(b, r)) == Prepend(a + b, r)
  {
    if r.Read? {
      assert a + (b + r.value) == a + b + r.value;
    }
  }

  /** managed_changes: one pass over the entries, then the sort. */
  method ManagedChanges(s: Section) returns (r: Reading<seq<Change>>)
    ensures r == ChangesOf(s)
  {
    if s.Absent? { return Read([]); }
    if s.NotIterable? { return Unreadable; }
    var changes: seq<Change> := [];
    var i := 0;
    PrependNothing(Collect(s.entries));
    assert s.entries[0..] == s.entries;
    while i < |s.entries|
      invariant 0 <= i <= |s.entries|
      invariant Collect(s.entries) == Prepend(changes, Collect(s.entries[i..]))
    {
      var entry := s.entries[i];
      assert s.entries[i..][1..] == s.entries[i + 1..];
      i := i + 1;
      if entry.Scalar? { return Crashed; }
      if entry.mode != Some("managed") { continue; }
      if entry.address.None? || entry.actions.None? { return Unreadable; }
      var change := Change(entry.address.value, entry.actions.value, entry.reason);
      PrependTwice(changes, [change], Collect(s.entries[i..]));
      changes := changes + [change];
    }
    assert changes + [] == changes;
    return Read(SortChanges(changes));
  }

  /** Reading succeeds exactly when no entry raises; the first entry that does decides which exception it is. */
  lemma {:induction false} CollectFaults(es: seq<Entry>)
    ensures Collect(es).Read? <==> forall e :: e in es ==> Legible(e)
    ensures forall i :: 0 <= i < |es| && !Legible(es[i]) && (forall j :: 0 <= j < i ==> Legible(es[j])) ==>
              Collect(es) == if es[i].Scalar? then Crashed else Unreadable
  {
    if es != [] && Legible(es[0]) {
      var rest := es[1..];
      CollectFaults(rest);
      assert forall e :: e in es <==> e == es[0] || e in rest;
      forall i | 0 <= i < |es| && !Legible(es[i]) && (forall j :: 0 <= j < i ==> Legible(es[j]))
        ensures Collect(es) == if es[i].Scalar? then Crashed else Unreadable
      {
        assert es[i] == rest[i - 1];
        assert forall j :: 0 <= j < i - 1 ==> rest[j] == es[j + 1];
      }
    }
  }

  /** The first entry that raises is not an object, so that the exception is not caught. */
  ghost predicate FirstFaultIsScalar(es: seq<Entry>) {
    exists i :: 0 <= i < |es| && es[i].Scalar? && forall j :: 0 <= j < i ==> Legible(es[j])
  }

  ghost predicate FirstLostFaultIsScalar(es: seq<Entry>) {
    exists i :: 0 <= i < |es| && es[i].Scalar? && forall j :: 0 <= j < i ==> LegibleDrift(es[j])
  }

  lemma {:induction false} CollectCrashes(es: seq<Entry>)
    ensures Collect(es).Crashed? <==> FirstFaultIsScalar(es)
  {
    if es != [] && Legible(es[0]) {
      var rest := es[1..];
      CollectCrashes(rest);
      if FirstFaultIsScalar(rest) {
        var i :| 0 <= i < |rest| && rest[i].Scalar? && forall j :: 0 <= j < i ==> Legible(rest[j]);
        assert es[i + 1].Scalar? && forall j :: 0 <= j < i + 1 ==> Legible(es[j]);
      }
      if FirstFaultIsScalar(es) {
        var i :| 0 <= i < |es| && es[i].Scalar? && forall j :: 0 <= j < i ==> Legible(es[j]);
        assert rest[i - 1].Scalar? && forall j :: 0 <= j < i - 1 ==> Legible(rest[j]);
      }
    } else if es != [] && es[0].Scalar? {
      assert FirstFaultIsScalar(es);
    }
  }

  /** The drift entries are read like the changes: the first that raises decides which exception it is. */
  lemma {:induction false} CollectLostFaults(es: seq<Entry>)
    ensures CollectLost(es).Read? <==> forall e :: e in es ==> LegibleDrift(e)
    ensures CollectLost(es).Crashed? <==> FirstLostFaultIsScalar(es)
  {
    if es != [] && LegibleDrift(es[0]) {
      var rest := es[1..];
      CollectLostFaults(rest);
      assert forall e :: e in es <==> e == es[0] || e in rest;
      if FirstLostFaultIsScalar(rest) {
        var i :| 0 <= i < |rest| && rest[i].Scalar? && forall j :: 0 <= j < i ==> LegibleDrift(rest[j]);
        assert es[i + 1].Scalar? && forall j :: 0 <= j < i + 1 ==> LegibleDrift(es[j]);
      }
      if FirstLostFaultIsScalar(es) {
        var i :| 0 <= i < |es| && es[i].Scalar? && forall j :: 0 <= j < i ==> LegibleDrift(es[j]);
        assert rest[i - 1].Scalar? && forall j :: 0 <= j < i - 1 ==> LegibleDrift(rest[j]);
      }
    } else if es != [] && es[0].Scalar? {
      assert FirstLostFaultIsScalar(es);
    }
  }

  /** What is read is the managed entries and nothing else. */
  lemma {:induction false} CollectMembers(es: seq<Entry>, c: Change)
    requires Collect(es).Read?
    ensures c in Collect(es).value <==>
              exists e :: e in es && e.Entry? && e.mode == Some("managed")
                          && e.address == Some(c.address) && e.actions == Some(c.actions) && e.reason == c.reason
  {
    if es != [] {
      CollectMembers(es[1..], c);
      assert forall e :: e in es <==> e == es[0] || e in es[1..];
    }
  }

  /**
   Reading keeps every field: each change stands as often in the result as its entry stands
   in the list, managed and with this address, these actions and this reason. Nothing else does.
   */
  lemma {:induction false} CollectFields(es: seq<Entry>)
    requires Collect(es).Read?
    ensures forall address, actions, reason ::
      multiset(Collect(es).value)[Change(address, actions, reason)]
      == multiset(es)[Entry(Some("managed"), Some(address), Some(actions), reason)]
  {
    if es != [] {
      CollectFields(es[1..]);
      assert es == [es[0]] + es[1..];
      if es[0].mode == Some("managed") {
        var c := Change(es[0].address.value, es[0].actions.value, es[0].reason);
        assert Collect(es).value == [c] + Collect(es[1..]).value;
      } else {
        assert Collect(es).value == Collect(es[1..]).value;
      }
    }
  }

  /** What managed_changes returns for a section holds the fields of its managed entries. */
  lemma ChangesFields(s: Section)
    requires ChangesOf(s).Read?
    ensures forall address, actions, reason ::
      multiset(ChangesOf(s).value)[Change(address, actions, reason)]
      == multiset(EntriesOf(s))[Entry(Some("managed"), Some(address), Some(actions), reason)]
  {
    if s.Entries? {
      CollectFields(s.entries);
      SortSorts(Collect(s.entries).value);
    }
  }

  /** Which sections can be read, entry by entry. */
  lemma ReadableIff(file: Reading<Plan>)
    ensures Readable(file) <==>
      && file.Read? && !file.value.changes.NotIterable? && !file.value.drift.NotIterable?
      && (forall e :: e in EntriesOf(file.value.changes) ==>
            e.Entry? && (e.mode == Some("managed") ==> e.address.Some? && e.actions.Some?))
      && (forall e :: e in EntriesOf(file.value.drift) ==>
            e.Entry? && (e.mode == None || e.mode == Some("managed") ==>
                           e.actions.Some? && (e.actions == Some(["delete"]) ==> e.address.Some?)))
  {
    if file.Read? {
      CollectFaults(EntriesOf(file.value.changes));
      CollectLostFaults(EntriesOf(file.value.drift));
      assert forall e: Entry :: Legible(e) <==>
        e.Entry? && (e.mode == Some("managed") ==> e.address.Some? && e.actions.Some?);
      assert forall e: Entry :: LegibleDrift(e) <==>
        e.Entry? && (e.mode == None || e.mode == Some("managed") ==>
                       e.actions.Some? && (e.actions == Some(["delete"]) ==> e.address.Some?));
    }
  }

  /** The lost addresses are those of the managed entries whose drift is a lone delete. */
  lemma {:induction false} CollectLostMembers(es: seq<Entry>)
    ensures CollectLost(es).Read? <==> forall e :: e in es ==> LegibleDrift(e)
    ensures CollectLost(es).Read? ==>
              forall x :: x in CollectLost(es).value <==>
                exists e :: e in es && e.Entry? && (e.mode == None || e.mode == Some("managed"))
                            && e.actions == Some(["delete"]) && e.address == Some(x)
  {
    if es != [] {
      CollectLostMembers(es[1..]);
      assert forall e :: e in es <==> e == es[0] || e in es[1..];
    }
  }

  // ----- The fingerprint ignores data sources and the order of entries -----

  function ManagedEntries(es: seq<Entry>): seq<Entry> {
    if es == [] then []
    else (if Managed(es[0]) then [es[0]] else []) + ManagedEntries(es[1..])
  }

  lemma {:induction false} CollectConcat(a: seq<Entry>, b: seq<Entry>)
    requires Collect(a).Read?
    ensures Collect(a + b) == Prepend(Collect(a).value, Collect(b))
  {
    if a == [] {
      assert a + b == b;
      PrependNothing(Collect(b));
    } else {
      assert (a + b)[1..] == a[1..] + b;
      CollectConcat(a[1..], b);
      if Managed(a[0]) {
        PrependTwice([ChangeOf(a[0])], Collect(a[1..]).value, Collect(b));
      }
    }
  }

  lemma {:induction false} CollectManaged(es: seq<Entry>)
    requires Collect(es).Read?
    ensures Collect(ManagedEntries(es)) == Collect(es)
  {
    if es != [] {
      CollectManaged(es[1..]);
      if Managed(es[0]) {
        assert ManagedEntries(es)[1..] == ManagedEntries(es[1..]);
      } else {
        assert ManagedEntries(es) == ManagedEntries(es[1..]);
      }
    }
  }

  /** Taking an entry out of a readable list takes out its change, if it has one. */
  lemma CollectWithout(front: seq<Entry>, e: Entry, back: seq<Entry>)
    requires Collect(front + ([e] + back)).Read?
    ensures Collect(front + back).Read? && Legible(e)
    ensures multiset(Collect(front + ([e] + back)).value) ==
            multiset(Collect(front + back).value) + (if Managed(e) then multiset{ChangeOf(e)} else multiset{})
  {
    CollectFaults(front + ([e] + back));
    forall d | d in front || d == e || d in back ensures Legible(d) {
      assert d in front + ([e] + back);
    }
    CollectFaults(front);
    CollectFaults(back);
    CollectConcat(front, back);
    CollectConcat(front, [e] + back);
    assert ([e] + back)[1..] == back;
  }

  lemma {:induction false} CollectPermuted(a: seq<Entry>, b: seq<Entry>)
    requires multiset(a) == multiset(b)
    requires Collect(a).Read? && Collect(b).Read?
    ensures multiset(Collect(a).value) == multiset(Collect(b).value)
    decreases |a|
  {
    if a == [] {
      assert |multiset(b)| == |b|;
    } else {
      var (front, back) := Around(a, b);
      WithoutHead(a, front, back);
      assert a == [] + ([a[0]] + a[1..]) && a[1..] == [] + a[1..];
      CollectWithout([], a[0], a[1..]);
      CollectWithout(front, a[0], back);
      CollectPermuted(a[1..], front + back);
    }
  }

  /** The changes of two readable lists with the same managed entries up to order, each address once, have one text. */
  lemma EntryOrderIrrelevant(a: seq<Entry>, b: seq<Entry>)
    requires Collect(a).Read? && Collect(b).Read?
    requires multiset(ManagedEntries(a)) == multiset(ManagedEntries(b))
    requires Distinct(Collect(a).value)
    ensures PlanCanonical(Collect(a).value) == PlanCanonical(Collect(b).value)
  {
    CollectManaged(a);
    CollectManaged(b);
    CollectPermuted(ManagedEntries(a), ManagedEntries(b));
    DistinctPlansHaveOneText(Collect(a).value, Collect(b).value);
  }

  /** Sorting again changes nothing, so the text of the sorted list is the text of the list read. */
  lemma SortedText(cs: seq<Change>)
    ensures PlanCanonical(SortChanges(cs)) == PlanCanonical(cs)
  {
    forall x ensures ActionsAt(SortChanges(cs), x) == ActionsAt(cs, x) {
      SortStable(cs, x);
    }
    SameTextIff(SortChanges(cs), cs);
  }

  function EntriesOf(s: Section): seq<Entry> {
    if s.Entries? then s.entries else []
  }

  lemma ChangesText(s: Section)
    requires ChangesOf(s).Read?
    ensures Collect(EntriesOf(s)).Read?
    ensures PlanCanonical(ChangesOf(s).value) == PlanCanonical(Collect(EntriesOf(s)).value)
  {
    if s.Entries? {
      SortedText(Collect(s.entries).value);
    }
  }

  lemma SectionChanges(s: Section)
    requires ChangesOf(s).Read?
    ensures Collect(EntriesOf(s)).Read?
    ensures multiset(ChangesOf(s).value) == multiset(Collect(EntriesOf(s)).value)
    ensures Distinct(ChangesOf(s).value) ==> Distinct(Collect(EntriesOf(s)).value)
  {
    if s.Entries? {
      SortSorts(Collect(s.entries).value);
      if Distinct(ChangesOf(s).value) {
        DistinctPermuted(ChangesOf(s).value, Collect(s.entries).value);
      }
    }
  }

  /**
   The fingerprint of a file does not depend on data sources, on the order of the entries,
   or on anything but its managed entries, when each address is planned once.
   */
  lemma DigestIgnoresOrder(first: Reading<Plan>, second: Reading<Plan>, hash: string -> string)
    requires Readable(first) && Readable(second)
    requires multiset(ManagedEntries(EntriesOf(first.value.changes)))
          == multiset(ManagedEntries(EntriesOf(second.value.changes)))
    requires Distinct(ChangesOf(first.value.changes).value)
    ensures Digest(first, hash) == Digest(second, hash)
  {
    SectionChanges(first.value.changes);
    ChangesText(first.value.changes);
    ChangesText(second.value.changes);
    EntryOrderIrrelevant(EntriesOf(first.value.changes), EntriesOf(second.value.changes));
  }

  // ----- The policy -----

  datatype Operation = Apply | Destroy | Drift

  const KNOWN_ACTIONS := {"no-op", "create", "update", "delete"}
  const TAINTED := "replace_because_tainted"

  function Allowed(op: Operation): set<string>
    requires op != Drift
  {
    if op == Apply then {"no-op", "create", "update"} else {"no-op", "delete"}
  }

  function ActionSet(c: Change): set<string> {
    set a | a in c.actions
  }

  datatype Problem =
    | UnknownAction(address: string, unknown: set<string>)
    | LostCreate(address: string)
    | NotAllowed(address: string, actions: seq<string>)

  /**
   What each operation may do. Apply: no create at an address the refresh lost, and a
   delete only for a tainted resource. Destroy: nothing is created or updated. Never an
   action the gate does not know.
   */
  predicate Permitted(op: Operation, c: Change, lost: set<string>)
    requires op != Drift
  {
    && (forall a :: a in c.actions ==> a in KNOWN_ACTIONS)
    && (op == Apply ==> ("create" in c.actions ==> c.address !in lost))
    && (op == Apply ==> ("delete" in c.actions ==> c.reason == Some(TAINTED)))
    && (op == Destroy ==> "create" !in c.actions && "update" !in c.actions)
  }

  /** The changes of a list that the policy refuses. */
  function Refused(op: Operation, cs: seq<Change>, lost: set<string>): seq<Change>
    requires op != Drift
  {
    if cs == [] then []
    else (if Permitted(op, cs[0], lost) then [] else [cs[0]]) + Refused(op, cs[1..], lost)
  }

  /** The problem reported for a refused change: unknown actions first, then a lost address. */
  function ProblemOf(op: Operation, c: Change, lost: set<string>): Problem {
    if !(ActionSet(c) <= KNOWN_ACTIONS) then UnknownAction(c.address, ActionSet(c) - KNOWN_ACTIONS)
    else if op == Apply && c.address in lost && "create" in c.actions then LostCreate(c.address)
    else NotAllowed(c.address, c.actions)
  }

  function ProblemsOf(op: Operation, cs: seq<Change>, lost: set<string>): (ps: seq<Problem>)
    ensures |ps| == |cs|
    ensures forall i :: 0 <= i < |cs| ==> ps[i] == ProblemOf(op, cs[i], lost)
  {
    if cs == [] then [] else [ProblemOf(op, cs[0], lost)] + ProblemsOf(op, cs[1..], lost)
  }

  function Verdict(op: Operation, c: Change, lost: set<string>): seq<Problem>
    requires op != Drift
  {
    if Permitted(op, c, lost) then [] else [ProblemOf(op, c, lost)]
  }

  lemma {:induction false} RefusedSnoc(op: Operation, cs: seq<Change>, c: Change, lost: set<string>)
    requires op != Drift
    ensures Refused(op, cs + [c], lost) == Refused(op, cs, lost) + (if Permitted(op, c, lost) then [] else [c])
  {
    if cs == [] {
      assert cs + [c] == [c];
    } else {
      assert (cs + [c])[1..] == cs[1..] + [c];
      RefusedSnoc(op, cs[1..], c, lost);
    }
  }

  lemma ProblemsSnoc(op: Operation, cs: seq<Change>, c: Change, lost: set<string>)
    requires op != Drift
    ensures ProblemsOf(op, Refused(op, cs + [c], lost), lost) ==
            ProblemsOf(op, Refused(op, cs, lost), lost) + Verdict(op, c, lost)
  {
    RefusedSnoc(op, cs, c, lost);
    var refused := Refused(op, cs, lost);
    if Permitted(op, c, lost) {
      assert refused + [] == refused;
    } else {
      ProblemsOfSnoc(op, refused, c, lost);
    }
  }

  lemma ProblemsOfSnoc(op: Operation, cs: seq<Change>, c: Change, lost: set<string>)
    ensures ProblemsOf(op, cs + [c], lost) == ProblemsOf(op, cs, lost) + [ProblemOf(op, c, lost)]
  {
  }

  lemma UnknownVerdict(op: Operation, c: Change, lost: set<string>)
    requires op != Drift && ActionSet(c) - KNOWN_ACTIONS != {}
    ensures Verdict(op, c, lost) == [UnknownAction(c.address, ActionSet(c) - KNOWN_ACTIONS)]
  {
    var a :| a in ActionSet(c) - KNOWN_ACTIONS;
    assert a in c.actions;
  }

  /** The set differences the code takes are the parts of the policy they stand for. */
  lemma KnownVerdict(op: Operation, c: Change, lost: set<string>)
    requires op != Drift && ActionSet(c) - KNOWN_ACTIONS == {}
    ensures var refused := ActionSet(c) - Allowed(op);
            Verdict(op, c, lost) ==
            if op == Apply && c.address in lost && "create" in c.actions then [LostCreate(c.address)]
            else if refused == {} || (op == Apply && refused == {"delete"} && c.reason == Some(TAINTED)) then []
            else [NotAllowed(c.address, c.actions)]
  {
    var refused := ActionSet(c) - Allowed(op);
    assert forall a :: a in c.actions <==> a in ActionSet(c);
    assert forall a :: a in c.actions ==> a in KNOWN_ACTIONS by {
      assert forall a :: a in ActionSet(c) ==> a !in ActionSet(c) - KNOWN_ACTIONS;
    }
    assert "create" in refused <==> op == Destroy && "create" in c.actions;
    assert "update" in refused <==> op == Destroy && "update" in c.actions;
    assert "delete" in refused <==> op == Apply && "delete" in c.actions;
    assert op == Apply ==> refused <= {"delete"};
  }

  /** The body of the loop: the problem of one change, if it has one. */
  method JudgeChange(op: Operation, change: Change, lost: set<string>) returns (found: seq<Problem>)
    requires op != Drift
    ensures found == Verdict(op, change, lost)
    ensures var known := forall a :: a in change.actions ==> a in ["no-op", "create", "update", "delete"];
            var recreates := op == Apply && change.address in lost && "create" in change.actions;
            && (!known ==> |found| == 1 && found[0].UnknownAction? && found[0].address == change.address
                           && forall a :: a in found[0].unknown <==>
                                a in change.actions && a !in ["no-op", "create", "update", "delete"])
            && (known && recreates ==> found == [LostCreate(change.address)])
            && (known && !recreates && op == Apply ==>
                  found == if "delete" in change.actions && change.reason != Some("replace_because_tainted")
                           then [NotAllowed(change.address, change.actions)] else [])
            && (known && op == Destroy ==>
                  found == if "create" in change.actions || "update" in change.actions
                           then [NotAllowed(change.address, change.actions)] else [])
  {
    var unknown := ActionSet(change) - KNOWN_ACTIONS;
    if unknown != {} {
      UnknownVerdict(op, change, lost);
      assert exists a :: a in unknown;
      assert forall a :: a in unknown <==> a in change.actions && a !in ["no-op", "create", "update", "delete"];
      return [UnknownAction(change.address, unknown)];
    }
    KnownVerdict(op, change, lost);
    assert forall a :: a in change.actions ==> a in ["no-op", "create", "update", "delete"] by {
      assert forall a :: a in change.actions ==> a in ActionSet(change) && a !in unknown;
    }
    if op == Apply && change.address in lost && "create" in change.actions {
      return [LostCreate(change.address)];
    }
    var refused := ActionSet(change) - Allowed(op);
    if refused == {} { return []; }
    if op == Apply && refused == {"delete"} && change.reason == Some(TAINTED) { return []; }
    return [NotAllowed(change.address, change.actions)];
  }

  /** violations: exactly one problem for each change the policy refuses, in order. */
  method Violations(op: Operation, changes: seq<Change>, lost: set<string>) returns (found: seq<Problem>)
    requires op != Drift
    ensures found == ProblemsOf(op, Refused(op, changes, lost), lost)
    ensures found == [] <==> forall c :: c in changes ==> Permitted(op, c, lost)
  {
    found := [];
    var i := 0;
    while i < |changes|
      invariant 0 <= i <= |changes|
      invariant found == ProblemsOf(op, Refused(op, changes[..i], lost), lost)
    {
      assert changes[..i + 1] == changes[..i] + [changes[i]];
      ProblemsSnoc(op, changes[..i], changes[i], lost);
      var problem := JudgeChange(op, changes[i], lost);
      found := found + problem;
      i := i + 1;
    }
    assert changes[..|changes|] == changes;
    RefusedEmptyIff(op, changes, lost);
  }

  lemma {:induction false} RefusedEmptyIff(op: Operation, cs: seq<Change>, lost: set<string>)
    requires op != Drift
    ensures Refused(op, cs, lost) == [] <==> forall c :: c in cs ==> Permitted(op, c, lost)
  {
    if cs != [] {
      RefusedEmptyIff(op, cs[1..], lost);
      assert forall c :: c in cs <==> c == cs[0] || c in cs[1..];
    }
  }

  // ----- The exit status -----

  /** Some managed resource would change. */
  predicate HasChanges(cs: seq<Change>) {
    exists c :: c in cs && c.actions != ["no-op"]
  }

  /** The addresses reported as tainted replacements, in order. */
  function TaintedAddresses(cs: seq<Change>): seq<string> {
    if cs == [] then []
    else (if cs[0].reason == Some(TAINTED) then [cs[0].address] else []) + TaintedAddresses(cs[1..])
  }

  lemma {:induction false} TaintedSnoc(cs: seq<Change>, c: Change)
    ensures TaintedAddresses([]) == []
    ensures TaintedAddresses(cs + [c]) ==
            TaintedAddresses(cs) + (if c.reason == Some("replace_because_tainted") then [c.address] else [])
  {
    if cs == [] {
      assert cs + [c] == [c];
    } else {
      assert (cs + [c])[1..] == cs[1..] + [c];
      TaintedSnoc(cs[1..], c);
    }
  }

  lemma {:induction false} TaintedMembers(cs: seq<Change>, x: string)
    ensures x in TaintedAddresses(cs) <==>
      exists c :: c in cs && c.reason == Some("replace_because_tainted") && c.address == x
  {
    if cs != [] {
      TaintedMembers(cs[1..], x);
      assert forall c :: c in cs <==> c == cs[0] || c in cs[1..];
    }
  }

  /** Every tainted replacement is reported, whether or not it is allowed. */
  method ReportTainted(changes: seq<Change>) returns (tainted: seq<string>)
    ensures tainted == TaintedAddresses(changes)
  {
    tainted := [];
    var i := 0;
    while i < |changes|
      invariant 0 <= i <= |changes|
      invariant tainted == TaintedAddresses(changes[..i])
    {
      var change := changes[i];
      assert changes[..i + 1] == changes[..i] + [change];
      TaintedSnoc(changes[..i], change);
      i := i + 1;
      if change.reason == Some(TAINTED) {
        tainted := tainted + [change.address];
      }
    }
    assert changes[..|changes|] == changes;
  }

  /** A plan the gate can judge: it can be loaded and both sections can be read. */
  predicate Readable(file: Reading<Plan>) {
    file.Read? && ChangesOf(file.value.changes).Read? && LostOf(file.value.drift).Read?
  }

  /** An exception the gate does not catch reaches the interpreter, which exits with status 1. */
  predicate Crashes(file: Reading<Plan>) {
    || file.Crashed?
    || (file.Read?
        && (|| ChangesOf(file.value.changes).Crashed?
            || (ChangesOf(file.value.changes).Read? && LostOf(file.value.drift).Crashed?)))
  }

  /**
   When unreadable input is not reported as such: the load raised an exception the gate
   does not catch; the first faulty entry of the changes is not an object; or all changes
   are in order and the first faulty entry of the drift is not an object.
   */
  lemma CrashesIff(file: Reading<Plan>)
    ensures Crashes(file) <==>
      || file.Crashed?
      || (file.Read? && FirstFaultIsScalar(EntriesOf(file.value.changes)))
      || (file.Read? && !file.value.changes.NotIterable?
          && (forall e :: e in EntriesOf(file.value.changes) ==> Legible(e))
          && FirstLostFaultIsScalar(EntriesOf(file.value.drift)))
  {
    if file.Read? {
      CollectCrashes(EntriesOf(file.value.changes));
      CollectFaults(EntriesOf(file.value.changes));
      CollectLostFaults(EntriesOf(file.value.drift));
    }
  }

  /** A well-formed JSON plan with an entry that is not an object: unreadable, yet not reported as such. */
  lemma ScalarEntryCrashes(drift: Section)
    ensures Crashes(Read(Plan(Entries([Scalar]), drift))) && !Readable(Read(Plan(Entries([Scalar]), drift)))
  {
    assert !Legible([Scalar][0]);
  }

  function Digest(file: Reading<Plan>, hash: string -> string): string
    requires Readable(file)
  {
    hash(PlanCanonical(ChangesOf(file.value.changes).value))
  }

  /** The plan keeps the policy of the operation and is the plan that was expected. */
  predicate Accepted(op: Operation, file: Reading<Plan>, expected: Option<string>, hash: string -> string)
    requires op != Drift
  {
    && Readable(file)
    && (forall c :: c in ChangesOf(file.value.changes).value ==> Permitted(op, c, LostOf(file.value.drift).value))
    && (expected.Some? ==> expected.value == Digest(file, hash))
  }

  lemma PermittedIff(op: Operation, c: Change, lost: set<string>)
    requires op != Drift
    ensures Permitted(op, c, lost) <==>
      && (forall a :: a in c.actions ==> a in ["no-op", "create", "update", "delete"])
      && (op == Apply ==> ("delete" in c.actions ==> c.reason == Some("replace_because_tainted"))
                          && ("create" in c.actions ==> c.address !in lost))
      && (op == Destroy ==> "create" !in c.actions && "update" !in c.actions)
  {
  }

  /**
   What the policy asks of one managed entry. No action outside the four. In apply, a delete
   only as the replacement of a tainted resource, and no create at an address whose drift is
   a lone delete. In destroy, nothing is created or updated.
   */
  ghost predicate EntryKeepsPolicy(op: Operation, e: Entry, drift: seq<Entry>)
    requires e.Entry? && e.address.Some? && e.actions.Some?
  {
    && (forall a :: a in e.actions.value ==> a in ["no-op", "create", "update", "delete"])
    && (op == Apply && "delete" in e.actions.value ==> e.reason == Some("replace_because_tainted"))
    && (op == Apply && "create" in e.actions.value ==>
          !exists d :: d in drift && d.Entry? && (d.mode == None || d.mode == Some("managed"))
                       && d.actions == Some(["delete"]) && d.address == e.address)
    && (op == Destroy ==> "create" !in e.actions.value && "update" !in e.actions.value)
  }

  function ManagedEntry(c: Change): Entry {
    Entry(Some("managed"), Some(c.address), Some(c.actions), c.reason)
  }

  lemma EntryPermitted(op: Operation, c: Change, drift: Section)
    requires op != Drift && LostOf(drift).Read?
    ensures Permitted(op, c, LostOf(drift).value) <==>
      EntryKeepsPolicy(op, ManagedEntry(c), EntriesOf(drift))
  {
    PermittedIff(op, c, LostOf(drift).value);
    CollectLostMembers(EntriesOf(drift));
  }

  /** The changes read are those of the managed entries, field by field. */
  lemma ChangesAreEntries(s: Section)
    requires ChangesOf(s).Read?
    ensures forall c :: c in ChangesOf(s).value <==>
              ManagedEntry(c) in EntriesOf(s)
    ensures forall e :: e in EntriesOf(s) && e.Entry? && e.mode == Some("managed") ==>
              e.address.Some? && e.actions.Some?
  {
    var cs, es := ChangesOf(s).value, EntriesOf(s);
    CollectFaults(es);
    ChangesFields(s);
    forall c ensures c in cs <==> ManagedEntry(c) in es {
      var e := ManagedEntry(c);
      assert c == Change(c.address, c.actions, c.reason);
      assert multiset(cs)[c] == multiset(es)[e];
      assert c in cs <==> c in multiset(cs);
      assert e in es <==> e in multiset(es);
    }
    forall e | e in es && e.Entry? && e.mode == Some("managed") ensures e.address.Some? && e.actions.Some? {
      assert Legible(e);
    }
  }

  /**
   The law of the gate, over the entries of the file: a plan is accepted exactly when it can
   be read, each managed entry keeps the policy, and the fingerprint is the expected one, if
   one is expected.
   */
  lemma AcceptedIff(op: Operation, file: Reading<Plan>, expected: Option<string>, hash: string -> string)
    requires op != Drift
    ensures Accepted(op, file, expected, hash) <==>
      && Readable(file)
      && (expected == None || expected == Some(Digest(file, hash)))
      && (forall e :: e in EntriesOf(file.value.changes) && e.Entry? && e.mode == Some("managed") ==>
            && e.address.Some? && e.actions.Some?
            && EntryKeepsPolicy(op, e, EntriesOf(file.value.drift)))
  {
    if Readable(file) {
      var (changes, drift) := (file.value.changes, file.value.drift);
      ChangesAreEntries(changes);
      forall c ensures Permitted(op, c, LostOf(drift).value) <==>
        EntryKeepsPolicy(op, ManagedEntry(c), EntriesOf(drift))
      {
        EntryPermitted(op, c, drift);
      }
      forall e | e in EntriesOf(changes) && e.Entry? && e.mode == Some("managed")
        ensures exists c :: e == ManagedEntry(c)
      {
        var c := Change(e.address.value, e.actions.value, e.reason);
        assert e == ManagedEntry(c);
      }
    }
  }

  /** What is announced of a section, over its entries: that something changes, and which addresses are tainted. */
  lemma AnnouncedIff(s: Section)
    requires ChangesOf(s).Read?
    ensures HasChanges(ChangesOf(s).value) <==>
      exists e :: e in EntriesOf(s) && e.Entry? && e.mode == Some("managed") && e.actions != Some(["no-op"])
    ensures forall x :: x in TaintedAddresses(ChangesOf(s).value) <==>
      exists e :: e in EntriesOf(s) && e.Entry? && e.mode == Some("managed")
                  && e.reason == Some("replace_because_tainted") && e.address == Some(x)
  {
    var cs, es := ChangesOf(s).value, EntriesOf(s);
    ChangesAreEntries(s);
    forall x ensures x in TaintedAddresses(cs) <==>
      exists c :: c in cs && c.reason == Some("replace_because_tainted") && c.address == x
    {
      TaintedMembers(cs, x);
    }
    forall e | e in es && e.Entry? && e.mode == Some("managed") ensures exists c :: c in cs && e == ManagedEntry(c) {
      assert e == ManagedEntry(Change(e.address.value, e.actions.value, e.reason));
    }
    assert forall c :: c in cs ==> ManagedEntry(c) in es;
  }

  /** What the drift operation makes of a file. */
  function DriftOf(file: Reading<Plan>): Reading<nat> {
    match file
    case Read(plan) => DriftCount(plan.drift)
    case Unreadable => Unreadable
    case Crashed => Crashed
  }

  /** What the gate prints for later steps. */
  datatype Output =
    | Nothing
    | Drifted(count: nat)
    | Judged(digest: string, changes: bool, tainted: seq<string>, problems: seq<Problem>)

  /**
   The gate. `file` is what loading gives: a plan, an exception the gate reports (no file,
   malformed JSON, not an object), or one it does not catch (JSON nested too deeply).
   `hash` is SHA-256 in hexadecimal.
   */
  method RunGate(op: Operation, file: Reading<Plan>, expected: Option<string>, hash: string -> string)
    returns (status: nat, output: Output)
    ensures op == Drift ==>
              match DriftOf(file)
              case Read(count) => status == 0 && output == Drifted(count)
              case Unreadable => status == 2 && output == Nothing
              case Crashed => status == 1 && output == Nothing
    ensures op == Drift ==>
              (status == 0 <==> file.Read? && !file.value.drift.NotIterable?
                                && forall e :: e in EntriesOf(file.value.drift) ==> e.Entry? && e.address.Some?)
    ensures op == Drift && status == 0 ==> output == Drifted(|EntriesOf(file.value.drift)|)
    ensures op != Drift ==> (status == 0 <==> Accepted(op, file, expected, hash))
    ensures op != Drift && status == 0 ==>
              file.Read?
              && forall e :: e in EntriesOf(file.value.changes) && e.Entry? && e.mode == Some("managed") ==>
                   && e.actions.Some?
                   && (op == Apply && "delete" in e.actions.value ==> e.reason == Some("replace_because_tainted"))
                   && (op == Destroy ==> "create" !in e.actions.value && "update" !in e.actions.value)
    ensures op != Drift ==> (status == 2 <==> !Readable(file) && !Crashes(file))
    ensures op != Drift && !Readable(file) ==> output == Nothing
    ensures op != Drift && Readable(file) ==>
              var (cs, lost) := (ChangesOf(file.value.changes).value, LostOf(file.value.drift).value);
              output == Judged(Digest(file, hash), HasChanges(cs), TaintedAddresses(cs),
                               ProblemsOf(op, Refused(op, cs, lost), lost))
    ensures output.Judged? ==>
              (output.changes <==> exists e :: e in EntriesOf(file.value.changes) && e.Entry?
                                               && e.mode == Some("managed") && e.actions != Some(["no-op"]))
    ensures status <= 2
  {
    output := Nothing;
    if file.Crashed? { return 1, output; }
    if file.Unreadable? { return 2, output; }
    var plan := file.value;
    if op == Drift {
      var drifted := DriftCount(plan.drift);
      if !drifted.Read? { return 2, output; }
      return 0, Drifted(drifted.value);
    }
    var changes := ManagedChanges(plan.changes);
    if changes.Crashed? { return 1, output; }
    if changes.Unreadable? { return 2, output; }
    var lost := LostOf(plan.drift);
    if lost.Crashed? { return 1, output; }
    if lost.Unreadable? { return 2, output; }

    var digest := hash(PlanCanonical(changes.value));
    var tainted := ReportTainted(changes.value);
    status := 0;
    var problems := Violations(op, changes.value, lost.value);
    if problems != [] {
      status := 1;
    }
    if expected.Some? && expected.value != digest {
      status := 1;
    }
    output := Judged(digest, HasChanges(changes.value), tainted, problems);
    AcceptedIff(op, file, expected, hash);
    AnnouncedIff(plan.changes);
  }
}

/** What the counters and the partial batch response add up to, for one batch and over whole runs. */
module Accounting {
  import opened Wrappers
  import opened Telemetry
  import opened Protocol
  import opened Machine
  import opened Invariants
  import opened Processing

  /** The topic was called for this message (whether or not the call succeeded). */
  predicate Called(r: Result) {
    match r
    case Kept(_, a) => a.Alerted?
    case Invalid => false
    case AlertLost => true
    case Transient(a) => a.Alerted?
  }

  /** Messages whose alert went out but whose counters were dropped by a later failure. */
  function Dropped(results: seq<Result>): nat {
    if results == [] then 0
    else Dropped(results[..|results| - 1])
           + (if results[|results| - 1] == Transient(Alerted) then 1 else 0)
  }

  predicate AlreadyCalled(t: Task) {
    (t.Storing? && t.alert.Alerted?) || (t.Finished? && Called(t.result))
  }

  lemma {:induction false} SettleCalls(s: Settings, st: Stores, body: Body, now: nat, t: Task, f: Faults)
    ensures var (st', r) := Settle(s, st, body, now, t, f);
      |st'.calls| + (if AlreadyCalled(t) then 1 else 0) == |st.calls| + (if Called(r) then 1 else 0)
    decreases t.Rank()
  {
    if !t.Finished? {
      SettleStep(s, st, body, now, t, f);
      var (st', t') := Advance(s, st, body, now, t, f.For(t));
      SettleCalls(s, st', body, now, t', f);
    }
  }

  lemma {:induction false} SettleInserts(s: Settings, st: Stores, body: Body, now: nat, t: Task, f: Faults)
    requires !t.Finished?
    ensures var (st', r) := Settle(s, st, body, now, t, f);
      |st'.inserts| >= |st.inserts| + (if r.Kept? && r.inserted then 1 else 0)
    decreases t.Rank()
  {
    SettleStep(s, st, body, now, t, f);
    var (st', t') := Advance(s, st, body, now, t, f.For(t));
    if !t'.Finished? {
      SettleInserts(s, st', body, now, t', f);
    }
  }

  /** Each record is stored, skipped or reported, and what is reported covers both failure counters. */
  lemma {:induction false} EveryRecordCounted(ids: seq<nat>, results: seq<Result>)
    requires |ids| == |results|
    ensures var totals, failures := Totals(results), Failures(ids, results);
      && |ids| == totals.stored + totals.duplicates + |failures|
      && totals.invalid + totals.publishFailures <= |failures|
      && totals.published + totals.suppressed <= totals.stored + totals.duplicates
    decreases |ids|
  {
    if ids != [] {
      var last := |ids| - 1;
      EveryRecordCounted(ids[..last], results[..last]);
      assert Totals(results) == Tally(Totals(results[..last]), results[last]);
    }
  }

  lemma ResultsSnoc(rs: seq<Result>, r: Result)
    ensures Totals(rs + [r]) == Tally(Totals(rs), r)
    ensures Dropped(rs + [r]) == Dropped(rs) + (if r == Transient(Alerted) then 1 else 0)
  {
    assert (rs + [r])[..|rs|] == rs;
  }

  /**
   For every batch and every pattern of failures, the alerts counted fall short of
   the successful calls to the topic by exactly the messages whose hot write
   failed afterwards, and every counted insert happened.
   */
  lemma {:induction false} AlertsAccounted(s: Settings, st: Stores, bodies: seq<Body>, now: nat, faults: seq<Faults>)
    requires |bodies| == |faults|
    ensures var (st', results) := ProcessBatch(s, st, bodies, now, faults);
      var totals := Totals(results);
      && |st'.calls| == |st.calls| + totals.published + Dropped(results) + totals.publishFailures
      && |st.inserts| + totals.stored <= |st'.inserts|
    decreases |bodies|
  {
    if bodies != [] {
      var n := |bodies| - 1;
      AlertsAccounted(s, st, bodies[..n], now, faults[..n]);
      var (st1, rs) := ProcessBatch(s, st, bodies[..n], now, faults[..n]);
      SettleCalls(s, st1, bodies[n], now, Fresh, faults[n]);
      SettleInserts(s, st1, bodies[n], now, Fresh, faults[n]);
      ResultsSnoc(rs, Process(s, st1, bodies[n], now, faults[n]).1);
    }
  }

  /** `at` lists, in increasing order, exactly the positions of the results that raised. */
  predicate RaisedAt(at: seq<nat>, results: seq<Result>) {
    && (forall p :: 0 <= p < |at| ==> at[p] < |results|)
    && (forall p, q :: 0 <= p < q < |at| ==> at[p] < at[q])
    && (forall k {:trigger k in at} :: 0 <= k < |results| ==> (k in at <==> !results[k].Kept?))
  }

  lemma RaisedSnoc(at: seq<nat>, rs: seq<Result>, r: Result)
    requires RaisedAt(at, rs)
    ensures RaisedAt(if r.Kept? then at else at + [|rs|], rs + [r])
  {
  }

  function Raised(results: seq<Result>): (at: seq<nat>)
    ensures forall p :: 0 <= p < |at| ==> at[p] < |results|
  {
    if results == [] then []
    else
      var last := |results| - 1;
      Raised(results[..last]) + (if results[last].Kept? then [] else [last])
  }

  lemma {:induction false} RaisedExact(results: seq<Result>)
    ensures RaisedAt(Raised(results), results)
    decreases |results|
  {
    if results != [] {
      var last := |results| - 1;
      RaisedExact(results[..last]);
      RaisedSnoc(Raised(results[..last]), results[..last], results[last]);
      assert results[..last] + [results[last]] == results;
    }
  }

  /** The response names exactly the records that raised, in batch order. */
  lemma {:induction false} FailuresExact(ids: seq<nat>, results: seq<Result>)
    requires |ids| == |results|
    ensures RaisedAt(Raised(results), results)
    ensures |Failures(ids, results)| == |Raised(results)|
    ensures forall p :: 0 <= p < |Raised(results)| ==> Failures(ids, results)[p] == ids[Raised(results)[p]]
    decreases |ids|
  {
    RaisedExact(results);
    if ids != [] {
      FailuresExact(ids[..|ids| - 1], results[..|ids| - 1]);
    }
  }

  // ----- The same over every interleaving -----

  /** The counters of an invocation in progress. */
  predicate CountsOk(v: Invocation) {
    && v.pos == v.counts.stored + v.counts.duplicates + |v.failures|
    && v.counts.invalid + v.counts.publishFailures <= |v.failures|
    && v.counts.published + v.counts.suppressed <= v.counts.stored + v.counts.duplicates
  }

  lemma {:induction false} CountsKept(d: Deployment, run: seq<Step>, w: World)
    requires Reaches(d, run, w)
    ensures forall i :: 0 <= i < |w.invs| ==> CountsOk(w.invs[i])
    decreases |run|
  {
    if run != [] {
      var before := LastStep(d, run, w);
      CountsKept(d, run[..|run| - 1], before);
      assert forall i :: 0 <= i < |before.invs| ==> CountsOk(before.invs[i]);
    }
  }

  /** A sum over the invocations. */
  function Total(invs: seq<Invocation>, f: Invocation -> nat): nat {
    if invs == [] then 0 else Total(invs[..|invs| - 1], f) + f(invs[|invs| - 1])
  }

  lemma {:induction false} TotalUpdate(invs: seq<Invocation>, i: nat, v: Invocation, f: Invocation -> nat)
    requires i < |invs|
    ensures Total(invs[i := v], f) + f(invs[i]) == Total(invs, f) + f(v)
    decreases |invs|
  {
    var last := |invs| - 1;
    if i == last {
      assert invs[i := v][..last] == invs[..last];
    } else {
      TotalUpdate(invs[..last], i, v, f);
      assert invs[i := v][..last] == invs[..last][i := v];
    }
  }

  lemma {:induction false} TotalSplits(invs: seq<Invocation>, f: Invocation -> nat, g: Invocation -> nat,
                                       h: Invocation -> nat)
    requires forall i :: 0 <= i < |invs| ==> f(invs[i]) == g(invs[i]) + h(invs[i])
    ensures Total(invs, f) == Total(invs, g) + Total(invs, h)
    decreases |invs|
  {
    if invs != [] {
      TotalSplits(invs[..|invs| - 1], f, g, h);
    }
  }

  lemma {:induction false} TotalZero(invs: seq<Invocation>, f: Invocation -> nat)
    ensures Total(invs, f) == 0 <==> forall i :: 0 <= i < |invs| ==> f(invs[i]) == 0
    decreases |invs|
  {
    if invs != [] {
      TotalZero(invs[..|invs| - 1], f);
      assert forall i :: 0 <= i < |invs| - 1 ==> invs[..|invs| - 1][i] == invs[i];
    }
  }

  // What leaves the function: the counters of the invocations that lived to emit them.

  function BatchShown(v: Invocation): nat { if v.emitted then |v.batch| else 0 }
  function KeptShown(v: Invocation): nat { if v.emitted then v.counts.stored + v.counts.duplicates else 0 }
  function FailuresShown(v: Invocation): nat { if v.emitted then |v.failures| else 0 }

  /**
   The metrics account for the records of the invocations that emitted them: over any run
   these records are MessagesStored + DuplicatesSkipped + the failures those invocations
   hold. The records of an invocation that died before its last line show nowhere.
   */
  lemma EmittedRecordsCounted(d: Deployment, run: seq<Step>, w: World)
    requires Reaches(d, run, w)
    ensures Total(w.invs, BatchShown) == Total(w.invs, KeptShown) + Total(w.invs, FailuresShown)
    ensures forall i :: 0 <= i < |w.invs| && w.invs[i].emitted ==>
      w.invs[i].counts.invalid + w.invs[i].counts.publishFailures <= |w.invs[i].failures|
  {
    CountsKept(d, run, w);
    Reachable(d, run, w);
    forall i | 0 <= i < |w.invs|
      ensures BatchShown(w.invs[i]) == KeptShown(w.invs[i]) + FailuresShown(w.invs[i])
    {
      assert InvocationOk(d, w.clock, w.msgs, w.invs[i]) && CountsOk(w.invs[i]);
    }
    TotalSplits(w.invs, BatchShown, KeptShown, FailuresShown);
  }

  // ----- Calls to the topic -----

  /** The calls to the topic that were reported successful, or that were not. */
  function CountCalls(calls: seq<AlertCall>, reported: bool): nat {
    if calls == [] then 0
    else CountCalls(calls[..|calls| - 1], reported) + (if calls[|calls| - 1].reported == reported then 1 else 0)
  }

  lemma CountCallsSnoc(calls: seq<AlertCall>, c: AlertCall, reported: bool)
    ensures CountCalls(calls + [c], reported) == CountCalls(calls, reported) + (if c.reported == reported then 1 else 0)
  {
    assert (calls + [c])[..|calls|] == calls;
  }

  /** An alert that went out for the reading the invocation was about to store when it stopped, or is. */
  function Midway(v: Invocation): nat { if v.task.Storing? && v.task.alert.Alerted? then 1 else 0 }

  function PublishedShown(v: Invocation): nat { if v.emitted then v.counts.published else 0 }
  function PublishedHidden(v: Invocation): nat { if v.emitted then 0 else v.counts.published }
  function FailedShown(v: Invocation): nat { if v.emitted then v.counts.publishFailures else 0 }
  function FailedHidden(v: Invocation): nat { if v.emitted then 0 else v.counts.publishFailures }

  function Published(v: Invocation): nat { v.counts.published }
  function Failed(v: Invocation): nat { v.counts.publishFailures }
  function Alerts(v: Invocation): nat { Published(v) + Midway(v) }

  /** This call is a hot write that fails after the alert of its message went out. */
  predicate Drops(t: Task, o: Outcome) {
    t.Storing? && t.alert.Alerted? && Raises(o)
  }

  predicate DropsIn(d: Deployment, w: World, s: Step)
    requires Sound(w) && Enabled(d, w, s)
  {
    s.Work? && Drops(w.invs[s.i].task, s.o)
  }

  /** How often that happened in a run. */
  function DroppedIn(d: Deployment, run: seq<Step>): nat
    requires After(d, run).Some?
  {
    if run == [] then 0
    else
      var last := |run| - 1;
      DroppedIn(d, run[..last]) + (if DropsIn(d, After(d, run[..last]).value, run[last]) then 1 else 0)
  }

  /** What a task says of its message's alert: the call succeeded and is not yet counted or dropped. */
  function Pending(t: Task): nat {
    if t.Storing? && t.alert.Alerted? then 1
    else if t.Finished? && t.result.Kept? && t.result.alert.Alerted? then 1
    else 0
  }

  lemma CallPending(s: Settings, st: Stores, body: Body, now: nat, t: Task, o: Outcome)
    requires !t.Finished?
    ensures var (st', t') := Advance(s, st, body, now, t, o);
      && CountCalls(st'.calls, true) + Pending(t)
         == CountCalls(st.calls, true) + Pending(t') + (if Drops(t, o) then 1 else 0)
      && CountCalls(st'.calls, false)
         == CountCalls(st.calls, false) + (if t'.Finished? && t'.result.AlertLost? then 1 else 0)
  {
    if t.Publishing? {
      var c := AlertCall(t.claim, t.record.deviceId, t.record.seqNo, !o.Refused?, !Raises(o));
      CountCallsSnoc(st.calls, c, true);
      CountCallsSnoc(st.calls, c, false);
    }
  }

  lemma ProgressPending(v: Invocation, m: nat, t: Task)
    requires !v.task.Finished?
    ensures Alerts(Progress(v, m, t)) + Pending(v.task) == Alerts(v) + Pending(t)
    ensures Failed(Progress(v, m, t)) == Failed(v) + (if t.Finished? && t.result.AlertLost? then 1 else 0)
  {
  }

  lemma WorkAccounted(d: Deployment, w: World, i: nat, o: Outcome)
    requires Sound(w) && Enabled(d, w, Work(i, o))
    ensures var w' := Apply(d, w, Work(i, o));
      && CountCalls(w'.st.calls, true) + Alerts(w.invs[i])
         == CountCalls(w.st.calls, true) + Alerts(w'.invs[i]) + (if Drops(w.invs[i].task, o) then 1 else 0)
      && CountCalls(w'.st.calls, false) + Failed(w.invs[i]) == CountCalls(w.st.calls, false) + Failed(w'.invs[i])
  {
    var v := w.invs[i];
    var m := v.batch[v.pos];
    CallPending(d.settings, w.st, w.msgs[m].body, v.now, v.task, o);
    ProgressPending(v, m, Advance(d.settings, w.st, w.msgs[m].body, v.now, v.task, o).1);
  }

  /** Steps other than calls leave the counters, the tasks and the calls to the topic alone. */
  lemma OtherStepAccounted(d: Deployment, w: World, s: Step)
    requires Sound(w) && Enabled(d, w, s) && !s.Work?
    ensures var w' := Apply(d, w, s);
      && w'.st.calls == w.st.calls
      && Total(w'.invs, Alerts) == Total(w.invs, Alerts)
      && Total(w'.invs, Failed) == Total(w.invs, Failed)
  {
    var w' := Apply(d, w, s);
    if s.Crash? || s.Emit? || s.Respond? {
      TotalUpdate(w.invs, s.i, w'.invs[s.i], Alerts);
      TotalUpdate(w.invs, s.i, w'.invs[s.i], Failed);
    } else if s.Invoke? {
      assert w'.invs[..|w.invs|] == w.invs;
    }
  }

  lemma StepAccounted(d: Deployment, w: World, s: Step)
    requires Sound(w) && Enabled(d, w, s)
    ensures var w' := Apply(d, w, s);
      && CountCalls(w'.st.calls, true) + Total(w.invs, Alerts)
         == CountCalls(w.st.calls, true) + Total(w'.invs, Alerts) + (if DropsIn(d, w, s) then 1 else 0)
      && CountCalls(w'.st.calls, false) + Total(w.invs, Failed)
         == CountCalls(w.st.calls, false) + Total(w'.invs, Failed)
  {
    if s.Work? {
      var w' := Apply(d, w, s);
      WorkAccounted(d, w, s.i, s.o);
      TotalUpdate(w.invs, s.i, w'.invs[s.i], Alerts);
      TotalUpdate(w.invs, s.i, w'.invs[s.i], Failed);
    } else {
      OtherStepAccounted(d, w, s);
    }
  }

  lemma {:induction false} CallsCounted(d: Deployment, run: seq<Step>, w: World)
    requires Reaches(d, run, w)
    ensures CountCalls(w.st.calls, true) == Total(w.invs, Alerts) + DroppedIn(d, run)
    ensures CountCalls(w.st.calls, false) == Total(w.invs, Failed)
    decreases |run|
  {
    if run != [] {
      var before := LastStep(d, run, w);
      CallsCounted(d, run[..|run| - 1], before);
      StepAccounted(d, before, run[|run| - 1]);
    }
  }

  /**
   Over every interleaving of invocations, crashes and faults, where each call to the topic
   shows. A successful one: in AlertsPublished, in the counters of an invocation that has
   not emitted them, with a reading about to be stored, or with one whose hot write failed
   afterwards. A failed one: in AlertPublishFailures, or in counters not emitted.
   */
  lemma AlertsAccountedInEveryRun(d: Deployment, run: seq<Step>, w: World)
    requires Reaches(d, run, w)
    ensures CountCalls(w.st.calls, true)
            == Total(w.invs, PublishedShown) + Total(w.invs, PublishedHidden) + Total(w.invs, Midway)
               + DroppedIn(d, run)
    ensures CountCalls(w.st.calls, false) == Total(w.invs, FailedShown) + Total(w.invs, FailedHidden)
  {
    CallsCounted(d, run, w);
    TotalSplits(w.invs, Alerts, Published, Midway);
    TotalSplits(w.invs, Published, PublishedShown, PublishedHidden);
    TotalSplits(w.invs, Failed, FailedShown, FailedHidden);
  }

  /**
   When the metrics are exact. AlertsPublished equals the successful calls if and only if
   no hot write failed after one, none is waiting for its hot write, and no invocation
   kept a published alert to itself; AlertPublishFailures equals the failed calls if and
   only if no invocation kept a failed one to itself.
   */
  lemma AlertMetricsExact(d: Deployment, run: seq<Step>, w: World)
    requires Reaches(d, run, w)
    ensures Total(w.invs, PublishedShown) <= CountCalls(w.st.calls, true)
    ensures Total(w.invs, PublishedShown) == CountCalls(w.st.calls, true) <==>
      DroppedIn(d, run) == 0
      && forall i :: 0 <= i < |w.invs| ==> Midway(w.invs[i]) == 0 && PublishedHidden(w.invs[i]) == 0
    ensures Total(w.invs, FailedShown) <= CountCalls(w.st.calls, false)
    ensures Total(w.invs, FailedShown) == CountCalls(w.st.calls, false) <==>
      forall i :: 0 <= i < |w.invs| ==> FailedHidden(w.invs[i]) == 0
  {
    AlertsAccountedInEveryRun(d, run, w);
    TotalZero(w.invs, PublishedHidden);
    TotalZero(w.invs, Midway);
    TotalZero(w.invs, FailedHidden);
  }

  // ----- Acknowledgements -----

  function CountAcks(acks: seq<Ack>, p: Ack -> bool): nat {
    if acks == [] then 0 else CountAcks(acks[..|acks| - 1], p) + (if p(acks[|acks| - 1]) then 1 else 0)
  }

  predicate AckAlerted(a: Ack) { a.alert == Alerted }
  predicate AckSuppressed(a: Ack) { a.alert == Suppressed }

  function Suppressions(v: Invocation): nat { v.counts.suppressed }
  function SuppressedShown(v: Invocation): nat { if v.emitted then v.counts.suppressed else 0 }
  function SuppressedHidden(v: Invocation): nat { if v.emitted then 0 else v.counts.suppressed }
  function KeptRecords(v: Invocation): nat { v.counts.stored + v.counts.duplicates }

  /** The call that ends a kept message acknowledges it, with the alert its counters show. */
  lemma WorkAcknowledges(d: Deployment, w: World, i: nat, o: Outcome)
    requires Sound(w) && Enabled(d, w, Work(i, o))
    ensures var v := w.invs[i];
      var m := v.batch[v.pos];
      var t := Advance(d.settings, w.st, w.msgs[m].body, v.now, v.task, o).1;
      var w' := Apply(d, w, Work(i, o));
      && w'.invs[i] == Progress(v, m, t)
      && (if t.Finished? && t.result.Kept?
          then v.task.Storing? && w'.acks == w.acks + [Ack(m, v.now, v.task.record, t.result.alert)]
          else w'.acks == w.acks)
  {
  }

  lemma CountAcksSnoc(acks: seq<Ack>, a: Ack, p: Ack -> bool)
    ensures CountAcks(acks + [a], p) == CountAcks(acks, p) + (if p(a) then 1 else 0)
  {
    assert (acks + [a])[..|acks|] == acks;
  }

  lemma WorkAcks(d: Deployment, w: World, i: nat, o: Outcome)
    requires Sound(w) && Enabled(d, w, Work(i, o))
    ensures var w' := Apply(d, w, Work(i, o));
      && CountAcks(w'.acks, AckAlerted) + Published(w.invs[i]) == CountAcks(w.acks, AckAlerted) + Published(w'.invs[i])
      && CountAcks(w'.acks, AckSuppressed) + Suppressions(w.invs[i])
         == CountAcks(w.acks, AckSuppressed) + Suppressions(w'.invs[i])
      && |w'.acks| + KeptRecords(w.invs[i]) == |w.acks| + KeptRecords(w'.invs[i])
  {
    var w' := Apply(d, w, Work(i, o));
    WorkAcknowledges(d, w, i, o);
    if w'.acks != w.acks {
      var a := w'.acks[|w.acks|];
      CountAcksSnoc(w.acks, a, AckAlerted);
      CountAcksSnoc(w.acks, a, AckSuppressed);
    }
  }

  lemma StepAcks(d: Deployment, w: World, s: Step)
    requires Sound(w) && Enabled(d, w, s)
    ensures var w' := Apply(d, w, s);
      && CountAcks(w'.acks, AckAlerted) + Total(w.invs, Published)
         == CountAcks(w.acks, AckAlerted) + Total(w'.invs, Published)
      && CountAcks(w'.acks, AckSuppressed) + Total(w.invs, Suppressions)
         == CountAcks(w.acks, AckSuppressed) + Total(w'.invs, Suppressions)
      && |w'.acks| + Total(w.invs, KeptRecords) == |w.acks| + Total(w'.invs, KeptRecords)
  {
    var w' := Apply(d, w, s);
    if s.Work? {
      WorkAcks(d, w, s.i, s.o);
    }
    if s.Work? || s.Crash? || s.Emit? || s.Respond? {
      TotalUpdate(w.invs, s.i, w'.invs[s.i], Published);
      TotalUpdate(w.invs, s.i, w'.invs[s.i], Suppressions);
      TotalUpdate(w.invs, s.i, w'.invs[s.i], KeptRecords);
    } else if s.Invoke? {
      assert w'.invs[..|w.invs|] == w.invs;
    }
  }

  lemma {:induction false} AcksCounted(d: Deployment, run: seq<Step>, w: World)
    requires Reaches(d, run, w)
    ensures CountAcks(w.acks, AckAlerted) == Total(w.invs, Published)
    ensures CountAcks(w.acks, AckSuppressed) == Total(w.invs, Suppressions)
    ensures |w.acks| == Total(w.invs, KeptRecords)
    decreases |run|
  {
    if run != [] {
      var before := LastStep(d, run, w);
      AcksCounted(d, run[..|run| - 1], before);
      StepAcks(d, before, run[|run| - 1]);
    }
  }

  /** How many acknowledgements carry smoke at or above a threshold. */
  function CriticalAcks(acks: seq<Ack>, smokeAlertPpm: real): nat {
    if acks == [] then 0
    else CriticalAcks(acks[..|acks| - 1], smokeAlertPpm)
           + (if acks[|acks| - 1].record.smokePpm >= smokeAlertPpm then 1 else 0)
  }

  lemma {:induction false} CriticalAcksSplit(acks: seq<Ack>, smokeAlertPpm: real)
    requires forall j :: 0 <= j < |acks| ==> (acks[j].alert != Quiet <==> acks[j].record.smokePpm >= smokeAlertPpm)
    ensures CriticalAcks(acks, smokeAlertPpm) == CountAcks(acks, AckAlerted) + CountAcks(acks, AckSuppressed)
    decreases |acks|
  {
    if acks != [] {
      CriticalAcksSplit(acks[..|acks| - 1], smokeAlertPpm);
    }
  }

  /**
   Over every interleaving: each kept record is one acknowledgement, shown in
   MessagesStored or DuplicatesSkipped once its invocation emits; AlertsSuppressed, shown
   or never emitted, counts the acknowledged readings that were suppressed; and every
   acknowledged critical reading is in exactly one of AlertsPublished and AlertsSuppressed.
   */
  lemma AcksAccountedInEveryRun(d: Deployment, run: seq<Step>, w: World)
    requires Reaches(d, run, w)
    ensures |w.acks| == Total(w.invs, KeptRecords)
    ensures CountAcks(w.acks, AckSuppressed) == Total(w.invs, SuppressedShown) + Total(w.invs, SuppressedHidden)
    ensures CriticalAcks(w.acks, d.settings.thresholds.smokeAlertPpm)
            == Total(w.invs, PublishedShown) + Total(w.invs, PublishedHidden)
               + Total(w.invs, SuppressedShown) + Total(w.invs, SuppressedHidden)
  {
    AcksCounted(d, run, w);
    Reachable(d, run, w);
    forall j | 0 <= j < |w.acks|
      ensures w.acks[j].alert != Quiet <==> w.acks[j].record.smokePpm >= d.settings.thresholds.smokeAlertPpm
    {
      assert AckOk(d.settings, w.st, w.msgs, w.acks[j]);
    }
    CriticalAcksSplit(w.acks, d.settings.thresholds.smokeAlertPpm);
    TotalSplits(w.invs, Published, PublishedShown, PublishedHidden);
    TotalSplits(w.invs, Suppressions, SuppressedShown, SuppressedHidden);
  }
}

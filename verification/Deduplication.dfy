/**
 Exactly-once storage over whole runs. TTL may delete expired items, so the
 conditional insert alone is not enough: the hot retention has to outlast every
 way a duplicate can come back. `Covers` is the exact bound.
 */
module Deduplication {
  import opened Wrappers
  import opened Telemetry
  import opened Protocol
  import opened Machine
  import opened Invariants
  import opened Processing

  /** Entry `j` is the first insert under its key: the first ingestion of the reading. */
  ghost predicate First(inserts: seq<Insert>, j: nat) {
    && j < |inserts|
    && forall i :: 0 <= i < j ==> inserts[i].key != inserts[j].key
  }

  /** The message is a copy of the reading with this key. */
  predicate Carries(d: Deployment, m: Message, key: HotKey) {
    d.settings.verdict(m.body).Accept? && HotKeyOf(d.settings.verdict(m.body).record) == key
  }

  /**
   The discipline asked of producers and operators: no message is redriven more
   than `redrives` times, and no copy of a reading is enqueued later than `slack`
   seconds after its first ingestion.
   */
  ghost predicate Disciplined(d: Deployment, redrives: nat, slack: nat, w: World) {
    && (forall m :: 0 <= m < |w.msgs| ==> w.msgs[m].redrives <= redrives)
    && (forall m, j: nat ::
          0 <= m < |w.msgs| && First(w.st.inserts, j) && Carries(d, w.msgs[m], w.st.inserts[j].key) ==>
        w.msgs[m].enqueued <= w.st.inserts[j].item.ingestedAt + slack)
  }

  /** The hot retention outlasts the latest moment a disciplined duplicate can be stored. */
  predicate Covers(d: Deployment, redrives: nat, slack: nat) {
    slack + Cycles(d, redrives) + d.sourceRetention + d.delivery + d.timeout <= d.settings.HotRetention() + 1
  }

  ghost predicate OncePerReading(inserts: seq<Insert>) {
    forall i, j :: 0 <= i < j < |inserts| ==> inserts[i].key != inserts[j].key
  }

  /** Some run of the deployment keeps the discipline and still stores a reading twice. */
  ghost predicate StoresTwice(d: Deployment, redrives: nat, slack: nat) {
    exists run, w :: Reaches(d, run, w) && Disciplined(d, redrives, slack, w) && !OncePerReading(w.st.inserts)
  }

  // ----- The bound suffices -----

  lemma DisciplinedBefore(d: Deployment, redrives: nat, slack: nat, w: World, s: Step)
    requires Sound(w) && Enabled(d, w, s)
    requires Disciplined(d, redrives, slack, Apply(d, w, s))
    ensures Disciplined(d, redrives, slack, w)
  {
    var w' := Apply(d, w, s);
    StepGrows(d, w, s);
    forall m, j: nat | 0 <= m < |w.msgs| && First(w.st.inserts, j) && Carries(d, w.msgs[m], w.st.inserts[j].key)
      ensures w.msgs[m].enqueued <= w.st.inserts[j].item.ingestedAt + slack
    {
      assert w'.st.inserts[j] == w.st.inserts[j];
      assert First(w'.st.inserts, j);
      assert w'.msgs[m].body == w.msgs[m].body;
    }
  }

  /** A reading already stored is still in the hot table when a disciplined copy is stored again. */
  lemma StillHot(d: Deployment, redrives: nat, slack: nat, w: World, i: nat, o: Outcome, j: nat)
    requires Invariant(d, w) && Enabled(d, w, Work(i, o)) && w.invs[i].task.Storing?
    requires Disciplined(d, redrives, slack, w) && Covers(d, redrives, slack)
    requires First(w.st.inserts, j) && w.st.inserts[j].key == HotKeyOf(w.invs[i].task.record)
    ensures w.st.inserts[j].key in w.st.hot
  {
    var v := w.invs[i];
    var m := v.batch[v.pos];
    assert InvocationOk(d, w.clock, w.msgs, v);
    assert TaskOk(d.settings, w.st, w.msgs[m].body, v.now, v.task);
    CyclesMonotone(d, w.msgs[m].redrives, redrives);
    assert w.msgs[m].enqueued <= w.st.inserts[j].item.ingestedAt + slack;
    assert InsertOk(d.settings, w.st, w.clock, w.st.inserts[j]);
  }

  lemma CallKeepsOnce(s: Settings, st: Stores, body: Body, now: nat, t: Task, o: Outcome)
    requires OncePerReading(st.inserts) && !t.Finished?
    requires t.Storing? ==>
      forall j :: 0 <= j < |st.inserts| && st.inserts[j].key == HotKeyOf(t.record) ==> st.inserts[j].key in st.hot
    ensures OncePerReading(Advance(s, st, body, now, t, o).0.inserts)
  {
  }

  lemma OnceKept(d: Deployment, redrives: nat, slack: nat, w: World, s: Step)
    requires Invariant(d, w) && Enabled(d, w, s)
    requires Disciplined(d, redrives, slack, w) && Covers(d, redrives, slack)
    requires OncePerReading(w.st.inserts)
    ensures OncePerReading(Apply(d, w, s).st.inserts)
  {
    if s.Work? {
      var v := w.invs[s.i];
      if v.task.Storing? {
        forall j | 0 <= j < |w.st.inserts| && w.st.inserts[j].key == HotKeyOf(v.task.record)
          ensures w.st.inserts[j].key in w.st.hot
        {
          StillHot(d, redrives, slack, w, s.i, s.o, j);
        }
      }
      CallKeepsOnce(d.settings, w.st, w.msgs[v.batch[v.pos]].body, v.now, v.task, s.o);
    } else {
      assert Apply(d, w, s).st.inserts == w.st.inserts;
    }
  }

  lemma {:induction false} ExactlyOnce(d: Deployment, redrives: nat, slack: nat, run: seq<Step>, w: World)
    requires Reaches(d, run, w) && Disciplined(d, redrives, slack, w) && Covers(d, redrives, slack)
    ensures OncePerReading(w.st.inserts)
    decreases |run|
  {
    if run != [] {
      var before := LastStep(d, run, w);
      DisciplinedBefore(d, redrives, slack, before, run[|run| - 1]);
      ExactlyOnce(d, redrives, slack, run[..|run| - 1], before);
      Reachable(d, run[..|run| - 1], before);
      OnceKept(d, redrives, slack, before, run[|run| - 1]);
    }
  }

  // ----- The bound is necessary -----

  /** One more delivery of message `m`, alive or dead, that has made no call yet. */
  function Received1(w: World, m: nat, live: bool): World
    requires m < |w.msgs|
  {
    w.(msgs := w.msgs[m := Received(w.msgs[m])],
       invs := w.invs + [Invocation(w.clock, [m], 0, Fresh, [], [], ZERO, live, false)])
  }

  lemma StartedDelivery(d: Deployment, run: seq<Step>, w: World, m: nat) returns (run': seq<Step>, w': World)
    requires Reaches(d, run, w) && Sound(w) && Receivable(d, w, m)
    ensures Reaches(d, run', w') && Sound(w') && w' == Received1(w, m, true)
  {
    Extend(d, run, w, Invoke([m]));
    run', w' := run + [Invoke([m])], Apply(d, w, Invoke([m]));
    assert w'.msgs == w.msgs[m := Received(w.msgs[m])];
  }

  lemma CrashedDelivery(d: Deployment, run: seq<Step>, w: World, m: nat) returns (run': seq<Step>, w': World)
    requires Reaches(d, run, w) && Sound(w) && Receivable(d, w, m)
    ensures Reaches(d, run', w') && Sound(w') && w' == Received1(w, m, false)
  {
    var run1, w1 := StartedDelivery(d, run, w, m);
    var crash := Crash(|w.invs|);
    Extend(d, run1, w1, crash);
    run', w' := run1 + [crash], Apply(d, w1, crash);
    assert w'.invs == Received1(w, m, false).invs;
  }

  /** `w'` differs from `w` by dead invocations and by what happened to message `m`, now in the source queue. */
  predicate Moved(w: World, w': World, m: nat, stay: nat, receives: nat, redrives: nat) {
    && m < |w.msgs| == |w'.msgs|
    && w'.msgs == w.msgs[m := w'.msgs[m]]
    && w'.msgs[m] == Message(w.msgs[m].body, w.msgs[m].enqueued, stay, Source, receives, redrives,
                             w'.msgs[m].lifetimeReceives)
    && w'.st == w.st
  }

  lemma {:induction false} ExhaustReceives(d: Deployment, run: seq<Step>, w: World, m: nat)
    returns (run': seq<Step>, w': World)
    requires Reaches(d, run, w) && Sound(w) && m < |w.msgs| && w.msgs[m].place.Source?
    requires w.clock < w.msgs[m].stay + d.sourceRetention && w.msgs[m].receives <= MAX_RECEIVE_COUNT
    ensures Reaches(d, run', w') && Sound(w') && w'.clock == w.clock
    ensures Moved(w, w', m, w.msgs[m].stay, MAX_RECEIVE_COUNT, w.msgs[m].redrives)
    decreases MAX_RECEIVE_COUNT - w.msgs[m].receives
  {
    if w.msgs[m].receives == MAX_RECEIVE_COUNT {
      run', w' := run, w;
    } else {
      var run1, w1 := CrashedDelivery(d, run, w, m);
      run', w' := ExhaustReceives(d, run1, w1, m);
    }
  }

  /** Into the DLQ, to the last second of its retention, and back to the source queue. */
  lemma OneCycle(d: Deployment, run: seq<Step>, w: World, m: nat) returns (run': seq<Step>, w': World)
    requires Reaches(d, run, w) && Sound(w) && d.Admitted()
    requires m < |w.msgs| && w.msgs[m].place.Source? && w.msgs[m].stay == w.clock && w.msgs[m].receives == 0
    ensures Reaches(d, run', w') && Sound(w') && w'.clock == w.clock + d.dlqRetention - 1
    ensures Moved(w, w', m, w'.clock, 0, w.msgs[m].redrives + 1)
  {
    var run1, w1 := ExhaustReceives(d, run, w, m);
    Extend(d, run1, w1, MoveToDlq(m));
    var w2 := Apply(d, w1, MoveToDlq(m));
    var run2 := run1 + [MoveToDlq(m)];
    Extend(d, run2, w2, Tick(d.dlqRetention - 1));
    var w3 := Apply(d, w2, Tick(d.dlqRetention - 1));
    var run3 := run2 + [Tick(d.dlqRetention - 1)];
    Extend(d, run3, w3, Redrive(m));
    run', w' := run3 + [Redrive(m)], Apply(d, w3, Redrive(m));
  }

  lemma {:induction false} ManyCycles(d: Deployment, run: seq<Step>, w: World, m: nat, n: nat)
    returns (run': seq<Step>, w': World)
    requires Reaches(d, run, w) && Sound(w) && d.Admitted()
    requires m < |w.msgs| && w.msgs[m].place.Source? && w.msgs[m].stay == w.clock && w.msgs[m].receives == 0
    ensures Reaches(d, run', w') && Sound(w') && w'.clock == w.clock + Cycles(d, n)
    ensures Moved(w, w', m, w'.clock, 0, w.msgs[m].redrives + n)
    decreases n
  {
    if n == 0 {
      run', w' := run, w;
    } else {
      var run1, w1 := ManyCycles(d, run, w, m, n - 1);
      run', w' := OneCycle(d, run1, w1, m);
    }
  }

  /** With no faults, an unseen valid reading ends up inserted by a single call. */
  lemma QuietSettle(s: Settings, st: Stores, body: Body, now: nat, t: Task)
    requires s.verdict(body).Accept? && HotKeyOf(s.verdict(body).record) !in st.hot
    requires t.Fresh? || (!t.Finished? && t.record == s.verdict(body).record)
    ensures var r := s.verdict(body).record;
      var st' := Settle(s, st, body, now, t, NO_FAULTS).0;
      && st'.inserts == st.inserts + [Insert(HotKeyOf(r), NewItem(s, r, now))]
      && st'.hot == st.hot[HotKeyOf(r) := NewItem(s, r, now)]
    decreases t.Rank()
  {
    SettleStep(s, st, body, now, t, NO_FAULTS);
    if !t.Storing? {
      var (st', t') := Advance(s, st, body, now, t, Done);
      QuietSettle(s, st', body, now, t');
    }
  }

  /** A message delivered alone, `delay` seconds before its calls are made, is inserted when its key is absent. */
  lemma StoreAfter(d: Deployment, run: seq<Step>, w: World, m: nat, delay: nat, expire: bool)
    returns (run': seq<Step>, w': World)
    requires Reaches(d, run, w) && Sound(w) && Receivable(d, w, m) && delay <= d.timeout
    requires d.settings.verdict(w.msgs[m].body).Accept?
    requires var k := HotKeyOf(d.settings.verdict(w.msgs[m].body).record);
      if expire then k in w.st.hot && w.st.hot[k].expiresAt < w.clock + delay else k !in w.st.hot
    ensures Reaches(d, run', w') && Sound(w') && w'.clock == w.clock + delay
    ensures w'.msgs == w.msgs[m := Received(w.msgs[m])]
    ensures var r := d.settings.verdict(w.msgs[m].body).record;
      && w'.st.inserts == w.st.inserts + [Insert(HotKeyOf(r), NewItem(d.settings, r, w.clock))]
      && HotKeyOf(r) in w'.st.hot && w'.st.hot[HotKeyOf(r)] == NewItem(d.settings, r, w.clock)
  {
    var k := HotKeyOf(d.settings.verdict(w.msgs[m].body).record);
    var s1 := Invoke([m]);
    Extend(d, run, w, s1);
    var w1 := Apply(d, w, s1);
    assert w1.msgs == w.msgs[m := Received(w.msgs[m])];
    Extend(d, run + [s1], w1, Tick(delay));
    var run2, w2 := run + [s1] + [Tick(delay)], Apply(d, w1, Tick(delay));
    if expire {
      Extend(d, run2, w2, ExpireHot(k));
      run2, w2 := run2 + [ExpireHot(k)], Apply(d, w2, ExpireHot(k));
    }
    run', w' := SoloRun(d, run2, w2, |w.invs|, NO_FAULTS);
    QuietSettle(d.settings, w2.st, w2.msgs[m].body, w.clock, Fresh);
  }

  /** A reading stored at time zero and its copy enqueued `slack` seconds later. */
  lemma StoredThenDuplicated(d: Deployment, slack: nat, body: Body) returns (run: seq<Step>, w: World)
    requires d.Admitted() && d.settings.verdict(body).Accept?
    ensures Reaches(d, run, w) && Sound(w) && w.clock == slack
    ensures |w.msgs| == 2 && w.msgs[1] == Message(body, slack, slack, Source, 0, 0, 0)
    ensures w.msgs[0].body == body && w.msgs[0].enqueued == 0 && w.msgs[0].redrives == 0
    ensures var r := d.settings.verdict(body).record;
      && w.st.inserts == [Insert(HotKeyOf(r), NewItem(d.settings, r, 0))]
      && HotKeyOf(r) in w.st.hot && w.st.hot[HotKeyOf(r)] == NewItem(d.settings, r, 0)
  {
    assert Reaches(d, [], INITIAL);
    Extend(d, [], INITIAL, Enqueue(body));
    var w1 := Apply(d, INITIAL, Enqueue(body));
    var run2, w2 := StoreAfter(d, [] + [Enqueue(body)], w1, 0, 0, false);
    Extend(d, run2, w2, Tick(slack));
    var w3 := Apply(d, w2, Tick(slack));
    Extend(d, run2 + [Tick(slack)], w3, Enqueue(body));
    run, w := run2 + [Tick(slack)] + [Enqueue(body)], Apply(d, w3, Enqueue(body));
  }

  /**
   Whenever the bound fails, a run breaks exactly-once within the discipline: the
   copy is enqueued at the last allowed second, waits out every retention, and is
   stored at the last second of its invocation, after TTL removed the first item.
   */
  lemma BoundIsNecessary(d: Deployment, redrives: nat, slack: nat, body: Body)
    requires d.Admitted() && d.settings.verdict(body).Accept? && !Covers(d, redrives, slack)
    ensures StoresTwice(d, redrives, slack)
  {
    var run1, w1 := StoredThenDuplicated(d, slack, body);
    var run2, w2 := ManyCycles(d, run1, w1, 1, redrives);
    var wait := Tick(d.sourceRetention + d.delivery - 1);
    Extend(d, run2, w2, wait);
    var w3 := Apply(d, w2, wait);
    assert w3.msgs[1].body == body;
    var run4, w4 := StoreAfter(d, run2 + [wait], w3, 1, d.timeout, true);
    assert w4.msgs[0] == w1.msgs[0];
    assert w4.st.inserts[0] == w1.st.inserts[0] && w4.st.inserts[1].key == w1.st.inserts[0].key;
    assert !OncePerReading(w4.st.inserts);
    assert Disciplined(d, redrives, slack, w4) by {
      forall j: nat | First(w4.st.inserts, j) ensures j == 0 {
      }
    }
  }

  lemma {:induction false} CyclesAre(d: Deployment, redrives: nat)
    requires d.dlqRetention > 0
    ensures Cycles(d, redrives) == redrives * (d.dlqRetention - 1)
  {
    if redrives > 0 {
      CyclesAre(d, redrives - 1);
    }
  }

  /**
   The exactly-once theorem. For a deployment that accepts some body: every
   disciplined run stores each reading at most once, ever, if and only if the hot
   retention covers the slack, the DLQ cycles, the source retention, the delivery
   delay and the timeout.
   */
  lemma ExactlyOnceIff(d: Deployment, redrives: nat, slack: nat, body: Body)
    requires d.Admitted() && d.settings.verdict(body).Accept?
    ensures slack + redrives * (d.dlqRetention - 1) + d.sourceRetention + d.delivery + d.timeout
            <= 86400 * d.settings.hotRetentionDays + 1
            <==> !StoresTwice(d, redrives, slack)
  {
    CyclesAre(d, redrives);
    if Covers(d, redrives, slack) {
      forall run, w | Reaches(d, run, w) && Disciplined(d, redrives, slack, w)
        ensures OncePerReading(w.st.inserts)
      {
        ExactlyOnce(d, redrives, slack, run, w);
      }
    } else {
      BoundIsNecessary(d, redrives, slack, body);
    }
  }

  // ----- The deployed constants -----

  /** modules/ingest: the hot retention derived from the two queue retentions. */
  function DerivedRetentionDays(dlq: nat, source: nat): nat {
    (dlq + source + SECONDS_PER_DAY - 1) / SECONDS_PER_DAY + 1
  }

  /** The derivation is the sum of the retentions in whole days, rounded up, and one day more. */
  lemma DerivedRetentionIs(dlq: nat, source: nat)
    requires dlq + source > 0
    ensures var days := DerivedRetentionDays(dlq, source);
      86400 * (days - 2) < dlq + source <= 86400 * (days - 1)
  {
  }

  /**
   The derivation is enough for one redrive and a duplicate enqueued up to a day less
   the delivery delay and one function timeout after the first ingestion, whatever the
   retentions.
   */
  lemma DerivedRetentionSuffices(d: Deployment, run: seq<Step>, w: World)
    requires d.Admitted()
    requires d.settings.hotRetentionDays == DerivedRetentionDays(d.dlqRetention, d.sourceRetention)
    requires Reaches(d, run, w) && Disciplined(d, 1, 86400 - d.delivery - d.timeout, w)
    ensures OncePerReading(w.st.inserts)
  {
    assert Cycles(d, 0) == 0;
    assert Cycles(d, 1) == d.dlqRetention - 1;
    ExactlyOnce(d, 1, 86400 - d.delivery - d.timeout, run, w);
  }

  /** modules/messaging: four and fourteen days of queue retention, with `days` of hot retention. */
  predicate DeployedQueues(d: Deployment, days: nat) {
    && d.sourceRetention == 345600
    && d.dlqRetention == 1209600
    && d.settings.hotRetentionDays == days
  }

  /** 19 days are derived; one day less, or a second redrive, breaks exactly-once. */
  lemma DeployedRetentionIsTight(d: Deployment, body: Body)
    requires d.Admitted() && d.settings.verdict(body).Accept?
    ensures DerivedRetentionDays(1209600, 345600) == 19
    ensures DeployedQueues(d, 18) ==> StoresTwice(d, 1, 86400 - d.delivery - d.timeout)
    ensures DeployedQueues(d, 19) ==> StoresTwice(d, 2, 0)
    ensures DeployedQueues(d, 19) ==> !StoresTwice(d, 1, 86400 - d.delivery - d.timeout)
  {
    assert Cycles(d, 0) == 0;
    assert Cycles(d, 1) == d.dlqRetention - 1;
    assert Cycles(d, 2) == 2 * (d.dlqRetention - 1);
    ExactlyOnceIff(d, 1, 86400 - d.delivery - d.timeout, body);
    ExactlyOnceIff(d, 2, 0, body);
  }
}

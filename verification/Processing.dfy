/**
 Processing without interference: a message from start to end, a batch from first
 to last record. `SoloRun` and `BatchRun` show that these are runs of the machine.
 */
module Processing {
  import opened Wrappers
  import opened Telemetry
  import opened Protocol
  import opened Machine
  import opened Invariants

  /** The environment's answer to each of the at most four calls one message makes. */
  datatype Faults = Faults(cold: Outcome, claim: Outcome, publish: Outcome, hot: Outcome) {
    function For(t: Task): Outcome {
      match t
      case Archiving(_) => cold
      case Claiming(_) => claim
      case Publishing(_, _) => publish
      case Storing(_, _) => hot
      case Fresh => Done
      case Finished(_) => Done
    }
  }

  const NO_FAULTS := Faults(Done, Done, Done, Done)

  /** Runs task `t` to its end. */
  function Settle(s: Settings, st: Stores, body: Body, now: nat, t: Task, f: Faults): (Stores, Result)
    decreases t.Rank()
  {
    if t.Finished? then (st, t.result)
    else
      var (st', t') := Advance(s, st, body, now, t, f.For(t));
      Settle(s, st', body, now, t', f)
  }

  /** `Settle` one call at a time. */
  lemma SettleStep(s: Settings, st: Stores, body: Body, now: nat, t: Task, f: Faults)
    requires !t.Finished?
    ensures var (st', t') := Advance(s, st, body, now, t, f.For(t));
      Settle(s, st, body, now, t, f)
        == if t'.Finished? then (st', t'.result) else Settle(s, st', body, now, t', f)
  {
  }

  function Process(s: Settings, st: Stores, body: Body, now: nat, f: Faults): (Stores, Result) {
    Settle(s, st, body, now, Fresh, f)
  }

  /** The records of a batch in order, each on the stores the previous one left. */
  function ProcessBatch(s: Settings, st: Stores, bodies: seq<Body>, now: nat, faults: seq<Faults>)
    : (p: (Stores, seq<Result>))
    requires |bodies| == |faults|
    ensures |p.1| == |bodies|
  {
    if bodies == [] then (st, [])
    else
      var last := |bodies| - 1;
      var (st', results) := ProcessBatch(s, st, bodies[..last], now, faults[..last]);
      var (st'', r) := Process(s, st', bodies[last], now, faults[last]);
      (st'', results + [r])
  }

  function Failures(ids: seq<nat>, results: seq<Result>): seq<nat>
    requires |ids| == |results|
  {
    if ids == [] then []
    else
      var last := |ids| - 1;
      Failures(ids[..last], results[..last]) + (if results[last].Kept? then [] else [ids[last]])
  }

  function Totals(results: seq<Result>): Counts {
    if results == [] then ZERO else Tally(Totals(results[..|results| - 1]), results[|results| - 1])
  }

  /** One more record at the end of a batch. */
  lemma BatchSnoc(s: Settings, st: Stores, bodies: seq<Body>, now: nat, faults: seq<Faults>, ids: seq<nat>, k: nat)
    requires k < |bodies| && k < |faults| && k < |ids|
    ensures var (st1, rs) := ProcessBatch(s, st, bodies[..k], now, faults[..k]);
      var (st2, r) := Process(s, st1, bodies[k], now, faults[k]);
      && ProcessBatch(s, st, bodies[..k + 1], now, faults[..k + 1]) == (st2, rs + [r])
      && Failures(ids[..k + 1], rs + [r]) == Failures(ids[..k], rs) + (if r.Kept? then [] else [ids[k]])
      && Totals(rs + [r]) == Tally(Totals(rs), r)
  {
    assert bodies[..k + 1][..k] == bodies[..k] && faults[..k + 1][..k] == faults[..k];
    assert ids[..k + 1][..k] == ids[..k];
    var (st1, rs) := ProcessBatch(s, st, bodies[..k], now, faults[..k]);
    var r := Process(s, st1, bodies[k], now, faults[k]).1;
    assert (rs + [r])[..k] == rs;
  }

  // ----- They are runs of the machine -----

  /** Two worlds that differ only in their stores, invocations and acknowledgements. */
  predicate SameElsewhere(w: World, w': World) {
    w'.clock == w.clock && w'.msgs == w.msgs && w'.abandoned == w.abandoned && w.acks <= w'.acks
  }

  predicate CanWork(d: Deployment, w: World, i: nat) {
    && Sound(w)
    && i < |w.invs|
    && w.invs[i].live
    && w.invs[i].pos < |w.invs[i].batch|
    && w.clock <= w.invs[i].now + d.timeout
  }

  /** One call of invocation `i`, answered with `o`. */
  lemma SoloStep(d: Deployment, run: seq<Step>, w: World, i: nat, o: Outcome) returns (run': seq<Step>, w': World)
    requires Reaches(d, run, w) && CanWork(d, w, i)
    ensures Reaches(d, run', w') && Sound(w') && SameElsewhere(w, w')
    ensures var v := w.invs[i];
      var m := v.batch[v.pos];
      var (st, t) := Advance(d.settings, w.st, w.msgs[m].body, v.now, v.task, o);
      && w'.st == st && w'.invs == w.invs[i := Progress(v, m, t)]
      && (!t.Finished? ==> CanWork(d, w', i) && w'.invs[i] == v.(task := t))
  {
    Extend(d, run, w, Work(i, o));
    run', w' := run + [Work(i, o)], Apply(d, w, Work(i, o));
  }

  /** Left alone, an invocation takes its current message to the end that `Settle` computes. */
  lemma {:induction false} SoloRun(d: Deployment, run: seq<Step>, w: World, i: nat, f: Faults)
    returns (run': seq<Step>, w': World)
    requires Reaches(d, run, w) && CanWork(d, w, i)
    ensures Reaches(d, run', w') && Sound(w') && SameElsewhere(w, w')
    ensures var v := w.invs[i];
      var m := v.batch[v.pos];
      var (st, r) := Settle(d.settings, w.st, w.msgs[m].body, v.now, v.task, f);
      w'.st == st && w'.invs == w.invs[i := Progress(v, m, Finished(r))]
    decreases w.invs[i].task.Rank()
  {
    var v := w.invs[i];
    var body := w.msgs[v.batch[v.pos]].body;
    SettleStep(d.settings, w.st, body, v.now, v.task, f);
    var run1, w1 := SoloStep(d, run, w, i, f.For(v.task));
    var t1 := Advance(d.settings, w.st, body, v.now, v.task, f.For(v.task)).1;
    if t1.Finished? {
      run', w' := run1, w1;
    } else {
      run', w' := SoloRun(d, run1, w1, i, f);
      var r := Settle(d.settings, w1.st, body, v.now, t1, f).1;
      assert Progress(v.(task := t1), v.batch[v.pos], Finished(r)) == Progress(v, v.batch[v.pos], Finished(r));
      assert w1.invs[i := w'.invs[i]] == w.invs[i := w'.invs[i]];
    }
  }

  function Bodies(msgs: seq<Message>, batch: seq<nat>): (bodies: seq<Body>)
    requires forall p :: 0 <= p < |batch| ==> batch[p] < |msgs|
    ensures |bodies| == |batch|
    ensures forall p :: 0 <= p < |batch| ==> bodies[p] == msgs[batch[p]].body
  {
    seq(|batch|, p requires 0 <= p < |batch| => msgs[batch[p]].body)
  }

  /** An invocation that has not yet looked at its first record. */
  predicate JustInvoked(v: Invocation) {
    v.pos == 0 && v.task.Fresh? && v.acked == [] && v.failures == [] && v.counts == ZERO
  }

  /** Invocation `v` after the records whose results are `results`. */
  predicate Reports(v: Invocation, results: seq<Result>) {
    && |results| <= |v.batch|
    && v.pos == |results|
    && v.task.Fresh?
    && v.failures == Failures(v.batch[..|results|], results)
    && v.counts == Totals(results)
  }

  lemma ReportsSnoc(v: Invocation, results: seq<Result>, r: Result)
    requires Reports(v, results) && v.pos < |v.batch|
    ensures Reports(Progress(v, v.batch[v.pos], Finished(r)), results + [r])
  {
    var n := |results|;
    assert v.batch[..n + 1][..n] == v.batch[..n] && (results + [r])[..n] == results;
  }

  /**
   Left alone, an invocation handles the first `|faults|` records of its batch
   exactly as the sequential handler does: same stores, failures and counters.
   */
  lemma {:induction false} BatchRun(d: Deployment, run: seq<Step>, w: World, i: nat, faults: seq<Faults>)
    returns (run': seq<Step>, w': World)
    requires Reaches(d, run, w) && CanWork(d, w, i) && JustInvoked(w.invs[i])
    requires |faults| <= |w.invs[i].batch|
    ensures Reaches(d, run', w') && Sound(w') && SameElsewhere(w, w') && |w'.invs| == |w.invs|
    ensures var v, v' := w.invs[i], w'.invs[i];
      var (st, results) := ProcessBatch(d.settings, w.st, Bodies(w.msgs, v.batch)[..|faults|], v.now, faults);
      && v'.batch == v.batch && v'.now == v.now && v'.live
      && w'.st == st
      && Reports(v', results)
    decreases |faults|
  {
    if faults == [] {
      run', w' := run, w;
    } else {
      var n := |faults| - 1;
      var batch := w.invs[i].batch;
      var bodies := Bodies(w.msgs, batch);
      var run1, w1 := BatchRun(d, run, w, i, faults[..n]);
      run', w' := SoloRun(d, run1, w1, i, faults[n]);
      BatchSnoc(d.settings, w.st, bodies, w.invs[i].now, faults, batch, n);
      assert faults[..n + 1] == faults;
      ReportsSnoc(w1.invs[i], ProcessBatch(d.settings, w.st, bodies[..n], w.invs[i].now, faults[..n]).1,
                  Process(d.settings, w1.st, bodies[n], w.invs[i].now, faults[n]).1);
    }
  }
}

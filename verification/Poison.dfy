/** What a message that breaks the contract costs before it reaches the DLQ. */
module Poison {
  import opened Wrappers
  import opened Telemetry
  import opened Protocol
  import opened Machine
  import opened Invariants

  function Batches(invs: seq<Invocation>): (b: seq<seq<nat>>)
    ensures |b| == |invs| && forall i :: 0 <= i < |invs| ==> b[i] == invs[i].batch
  {
    seq(|invs|, i requires 0 <= i < |invs| => invs[i].batch)
  }

  /** In how many batches message `m` was delivered. */
  function Deliveries(batches: seq<seq<nat>>, m: nat): nat {
    if batches == [] then 0
    else Deliveries(batches[..|batches| - 1], m) + (if m in batches[|batches| - 1] then 1 else 0)
  }

  /** How many of these messages break the contract. */
  function Rejected(s: Settings, msgs: seq<Message>, batch: seq<nat>): nat
    requires forall p :: 0 <= p < |batch| ==> batch[p] < |msgs|
  {
    if batch == [] then 0
    else
      var last := |batch| - 1;
      Rejected(s, msgs, batch[..last]) + (if s.verdict(msgs[batch[last]].body).Reject? then 1 else 0)
  }

  lemma {:induction false} UnknownNotDelivered(batches: seq<seq<nat>>, m: nat)
    requires forall i :: 0 <= i < |batches| ==> m !in batches[i]
    ensures Deliveries(batches, m) == 0
    decreases |batches|
  {
    if batches != [] {
      UnknownNotDelivered(batches[..|batches| - 1], m);
    }
  }

  lemma {:induction false} RejectedStable(s: Settings, msgs: seq<Message>, msgs': seq<Message>, batch: seq<nat>)
    requires forall p :: 0 <= p < |batch| ==> batch[p] < |msgs|
    requires QueueGrows(msgs, msgs')
    ensures Rejected(s, msgs', batch) == Rejected(s, msgs, batch)
    decreases |batch|
  {
    if batch != [] {
      RejectedStable(s, msgs, msgs', batch[..|batch| - 1]);
    }
  }

  ghost predicate DeliveriesOk(w: World) {
    forall m :: 0 <= m < |w.msgs| ==> Deliveries(Batches(w.invs), m) == w.msgs[m].lifetimeReceives
  }

  /** An invocation has counted every message it rejected, and failed it. */
  ghost predicate RejectionOk(s: Settings, msgs: seq<Message>, v: Invocation) {
    && v.pos <= |v.batch|
    && (forall p :: 0 <= p < |v.batch| ==> v.batch[p] < |msgs|)
    && v.counts.invalid == Rejected(s, msgs, v.batch[..v.pos])
    && (forall p :: 0 <= p < v.pos && !s.verdict(msgs[v.batch[p]].body).Accept? ==> v.batch[p] in v.failures)
    && (!v.task.Fresh? && v.pos < |v.batch| ==> s.verdict(msgs[v.batch[v.pos]].body).Accept?)
  }

  ghost predicate RejectionsOk(s: Settings, w: World) {
    forall i :: 0 <= i < |w.invs| ==> RejectionOk(s, w.msgs, w.invs[i])
  }

  lemma RejectionSurvives(s: Settings, msgs: seq<Message>, msgs': seq<Message>, v: Invocation)
    requires RejectionOk(s, msgs, v) && QueueGrows(msgs, msgs')
    ensures RejectionOk(s, msgs', v)
  {
    RejectedStable(s, msgs, msgs', v.batch[..v.pos]);
  }

  lemma RejectionProgress(s: Settings, st: Stores, msgs: seq<Message>, v: Invocation, o: Outcome)
    requires RejectionOk(s, msgs, v) && v.pos < |v.batch| && !v.task.Finished?
    ensures RejectionOk(s, msgs, Progress(v, v.batch[v.pos],
                                          Advance(s, st, msgs[v.batch[v.pos]].body, v.now, v.task, o).1))
  {
    var m := v.batch[v.pos];
    var t' := Advance(s, st, msgs[m].body, v.now, v.task, o).1;
    var v' := Progress(v, m, t');
    if t'.Finished? {
      assert v.batch[..v.pos + 1][..v.pos] == v.batch[..v.pos];
      assert v'.counts.invalid == v.counts.invalid + (if s.verdict(msgs[m].body).Reject? then 1 else 0);
      forall p | 0 <= p < v'.pos && !s.verdict(msgs[v.batch[p]].body).Accept? ensures v.batch[p] in v'.failures {
        if p == v.pos {
          assert v'.failures[|v.failures|] == m;
        }
      }
    }
  }

  /** A new invocation delivers each message of its batch once more. */
  lemma InvokeDelivers(d: Deployment, w: World, batch: seq<nat>, m: nat)
    requires Sound(w) && Enabled(d, w, Invoke(batch)) && m < |w.msgs|
    requires Deliveries(Batches(w.invs), m) == w.msgs[m].lifetimeReceives
    ensures var w' := Apply(d, w, Invoke(batch)); Deliveries(Batches(w'.invs), m) == w'.msgs[m].lifetimeReceives
  {
    var b' := Batches(Apply(d, w, Invoke(batch)).invs);
    assert b'[..|w.invs|] == Batches(w.invs);
    assert b'[|w.invs|] == batch;
  }

  lemma SameBatches(d: Deployment, w: World, s: Step)
    requires Sound(w) && Enabled(d, w, s) && !s.Invoke?
    ensures Batches(Apply(d, w, s).invs) == Batches(w.invs)
  {
    var w' := Apply(d, w, s);
    assert forall i :: 0 <= i < |w.invs| ==> w'.invs[i].batch == w.invs[i].batch;
  }

  lemma SameReceives(d: Deployment, w: World, s: Step, m: nat)
    requires Sound(w) && Enabled(d, w, s) && !s.Invoke? && m < |w.msgs|
    ensures Apply(d, w, s).msgs[m].lifetimeReceives == w.msgs[m].lifetimeReceives
  {
  }

  lemma DeliveriesKept(d: Deployment, w: World, s: Step)
    requires Sound(w) && Enabled(d, w, s) && DeliveriesOk(w)
    ensures DeliveriesOk(Apply(d, w, s))
  {
    var w' := Apply(d, w, s);
    forall m | 0 <= m < |w'.msgs| ensures Deliveries(Batches(w'.invs), m) == w'.msgs[m].lifetimeReceives {
      if s.Invoke? {
        InvokeDelivers(d, w, s.batch, m);
      } else {
        SameBatches(d, w, s);
        if m < |w.msgs| {
          SameReceives(d, w, s, m);
        } else {
          UnknownNotDelivered(Batches(w.invs), m);
        }
      }
    }
  }

  lemma RejectionsKept(d: Deployment, w: World, s: Step)
    requires Sound(w) && Enabled(d, w, s) && RejectionsOk(d.settings, w)
    ensures RejectionsOk(d.settings, Apply(d, w, s))
  {
    var w' := Apply(d, w, s);
    StepGrows(d, w, s);
    forall i | 0 <= i < |w'.invs| ensures RejectionOk(d.settings, w'.msgs, w'.invs[i]) {
      if i < |w.invs| {
        if s.Work? && s.i == i {
          RejectionProgress(d.settings, w.st, w.msgs, w.invs[i], s.o);
        } else {
          assert RejectionOk(d.settings, w.msgs, w.invs[i]);
          RejectionSurvives(d.settings, w.msgs, w'.msgs, w.invs[i]);
        }
      }
    }
  }

  lemma {:induction false} PoisonInvariant(d: Deployment, run: seq<Step>, w: World)
    requires Reaches(d, run, w)
    ensures DeliveriesOk(w) && RejectionsOk(d.settings, w)
    decreases |run|
  {
    if run != [] {
      var before := LastStep(d, run, w);
      PoisonInvariant(d, run[..|run| - 1], before);
      DeliveriesKept(d, before, run[|run| - 1]);
      RejectionsKept(d, before, run[|run| - 1]);
    }
  }

  /**
   A message lying in the DLQ was delivered exactly five times per stay. Each
   delivery that got to process a body that is not accepted reported it as failed.
   An invocation's InvalidPayloads are the contract violations it processed.
   */
  lemma PoisonCost(d: Deployment, run: seq<Step>, w: World, m: nat)
    requires Reaches(d, run, w) && m < |w.msgs| && w.msgs[m].place.Dlq?
    ensures Deliveries(Batches(w.invs), m) == 5 * (w.msgs[m].redrives + 1)
    ensures forall i :: 0 <= i < |w.invs| ==>
      var v := w.invs[i];
      && v.pos <= |v.batch|
      && (forall p :: 0 <= p < |v.batch| ==> v.batch[p] < |w.msgs|)
      && v.counts.invalid == Rejected(d.settings, w.msgs, v.batch[..v.pos])
      && (m in v.batch[..v.pos] && !d.settings.verdict(w.msgs[m].body).Accept? ==> m in v.failures)
  {
    Reachable(d, run, w);
    PoisonInvariant(d, run, w);
    assert MessageOk(d, w.clock, w.msgs[m]);
    assert forall i :: 0 <= i < |w.invs| ==> RejectionOk(d.settings, w.msgs, w.invs[i]);
  }

  // ----- What one violation adds to InvalidPayloads over a whole run -----

  /** The InvalidPayloads metric: the counters of the invocations that lived to emit them. */
  function InvalidPayloads(invs: seq<Invocation>): nat {
    if invs == [] then 0
    else
      var v := invs[|invs| - 1];
      InvalidPayloads(invs[..|invs| - 1]) + (if v.emitted then v.counts.invalid else 0)
  }

  predicate InBounds(invs: seq<Invocation>, msgs: seq<Message>) {
    forall i :: 0 <= i < |invs| ==>
      invs[i].pos <= |invs[i].batch| && forall p :: 0 <= p < |invs[i].batch| ==> invs[i].batch[p] < |msgs|
  }

  /** The batches of the invocations that emitted their counters; nothing for the others. */
  function EmittedBatches(invs: seq<Invocation>): (b: seq<seq<nat>>)
    ensures |b| == |invs| && forall i :: 0 <= i < |invs| ==> b[i] == if invs[i].emitted then invs[i].batch else []
  {
    seq(|invs|, i requires 0 <= i < |invs| => if invs[i].emitted then invs[i].batch else [])
  }

  /** The part of the metric that comes from violations other than message `m`. */
  function OthersTotal(s: Settings, msgs: seq<Message>, invs: seq<Invocation>, m: nat): nat
    requires InBounds(invs, msgs)
  {
    if invs == [] then 0
    else
      var v := invs[|invs| - 1];
      OthersTotal(s, msgs, invs[..|invs| - 1], m) + (if v.emitted then Others(s, msgs, v.batch, m) else 0)
  }

  function Others(s: Settings, msgs: seq<Message>, batch: seq<nat>, m: nat): nat
    requires forall p :: 0 <= p < |batch| ==> batch[p] < |msgs|
  {
    if batch == [] then 0
    else
      var last := |batch| - 1;
      Others(s, msgs, batch[..last], m)
      + (if batch[last] != m && s.verdict(msgs[batch[last]].body).Reject? then 1 else 0)
  }

  lemma {:induction false} RejectedSplit(s: Settings, msgs: seq<Message>, batch: seq<nat>, m: nat)
    requires forall p :: 0 <= p < |batch| ==> batch[p] < |msgs|
    requires m < |msgs| && NoDuplicates(batch)
    ensures Rejected(s, msgs, batch)
            == Others(s, msgs, batch, m) + (if m in batch && s.verdict(msgs[m].body).Reject? then 1 else 0)
    decreases |batch|
  {
    if batch != [] {
      var last := |batch| - 1;
      RejectedSplit(s, msgs, batch[..last], m);
      assert m in batch <==> m in batch[..last] || batch[last] == m;
    }
  }

  lemma {:induction false} TotalSplit(s: Settings, msgs: seq<Message>, invs: seq<Invocation>, m: nat)
    requires InBounds(invs, msgs) && m < |msgs|
    requires forall i :: 0 <= i < |invs| ==> CountedWhenEmitted(s, msgs, invs[i])
    ensures InvalidPayloads(invs)
            == OthersTotal(s, msgs, invs, m)
               + (if s.verdict(msgs[m].body).Reject? then Deliveries(EmittedBatches(invs), m) else 0)
    decreases |invs|
  {
    if invs != [] {
      var last := |invs| - 1;
      TotalSplit(s, msgs, invs[..last], m);
      assert EmittedBatches(invs)[..last] == EmittedBatches(invs[..last]);
      assert CountedWhenEmitted(s, msgs, invs[last]);
      if invs[last].emitted {
        RejectedSplit(s, msgs, invs[last].batch, m);
      }
    }
  }

  /** An invocation that emitted its counters had counted every violation of its batch. */
  ghost predicate CountedWhenEmitted(s: Settings, msgs: seq<Message>, v: Invocation) {
    && NoDuplicates(v.batch)
    && (forall p :: 0 <= p < |v.batch| ==> v.batch[p] < |msgs|)
    && (v.emitted ==> v.pos == |v.batch| && v.counts.invalid == Rejected(s, msgs, v.batch))
  }

  lemma EmittedCount(d: Deployment, run: seq<Step>, w: World, i: nat)
    requires Reaches(d, run, w) && i < |w.invs|
    ensures CountedWhenEmitted(d.settings, w.msgs, w.invs[i])
  {
    Reachable(d, run, w);
    PoisonInvariant(d, run, w);
    var v := w.invs[i];
    assert InvocationOk(d, w.clock, w.msgs, v) && RejectionOk(d.settings, w.msgs, v);
    assert v.batch[..|v.batch|] == v.batch;
  }

  /** Every delivery of the message belonged to an invocation that emitted its counters. */
  predicate AllEmitted(invs: seq<Invocation>, m: nat) {
    forall i :: 0 <= i < |invs| && m in invs[i].batch ==> invs[i].emitted
  }

  lemma {:induction false} EmittedDeliveries(invs: seq<Invocation>, m: nat)
    ensures Deliveries(EmittedBatches(invs), m) <= Deliveries(Batches(invs), m)
    ensures Deliveries(EmittedBatches(invs), m) == Deliveries(Batches(invs), m) <==> AllEmitted(invs, m)
    decreases |invs|
  {
    if invs != [] {
      var last := |invs| - 1;
      EmittedDeliveries(invs[..last], m);
      assert EmittedBatches(invs)[..last] == EmittedBatches(invs[..last]);
      assert Batches(invs)[..last] == Batches(invs[..last]);
      assert AllEmitted(invs, m) <==>
        AllEmitted(invs[..last], m) && (m in invs[last].batch ==> invs[last].emitted);
    }
  }

  /**
   A contract violation lying in the DLQ has added at most five per stay to the
   InvalidPayloads metric, and exactly five per stay if and only if every invocation it
   was delivered to lived to emit its counters.
   */
  lemma PoisonTotal(d: Deployment, run: seq<Step>, w: World, m: nat)
    requires Reaches(d, run, w) && m < |w.msgs| && w.msgs[m].place.Dlq?
    requires d.settings.verdict(w.msgs[m].body).Reject?
    ensures InBounds(w.invs, w.msgs)
    ensures var added := InvalidPayloads(w.invs) - OthersTotal(d.settings, w.msgs, w.invs, m);
            var budget := 5 * (w.msgs[m].redrives + 1);
            0 <= added <= budget && (added == budget <==> AllEmitted(w.invs, m))
  {
    PoisonCost(d, run, w, m);
    forall i | 0 <= i < |w.invs| ensures CountedWhenEmitted(d.settings, w.msgs, w.invs[i]) {
      EmittedCount(d, run, w, i);
    }
    TotalSplit(d.settings, w.msgs, w.invs, m);
    EmittedDeliveries(w.invs, m);
  }

  /**
   A body that makes processing raise anything else, an overflow say, reaches the DLQ by
   the same five deliveries per stay and is reported by each that processed it, but adds
   nothing to InvalidPayloads.
   */
  lemma UnreadableCost(d: Deployment, run: seq<Step>, w: World, m: nat)
    requires Reaches(d, run, w) && m < |w.msgs| && w.msgs[m].place.Dlq?
    requires d.settings.verdict(w.msgs[m].body).Unreadable?
    ensures Deliveries(Batches(w.invs), m) == 5 * (w.msgs[m].redrives + 1)
    ensures InBounds(w.invs, w.msgs)
    ensures forall i :: 0 <= i < |w.invs| && m in w.invs[i].batch[..w.invs[i].pos] ==> m in w.invs[i].failures
    ensures InvalidPayloads(w.invs) == OthersTotal(d.settings, w.msgs, w.invs, m)
  {
    PoisonCost(d, run, w, m);
    forall i | 0 <= i < |w.invs| ensures CountedWhenEmitted(d.settings, w.msgs, w.invs[i]) {
      EmittedCount(d, run, w, i);
    }
    TotalSplit(d.settings, w.msgs, w.invs, m);
  }
}

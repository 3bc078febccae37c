/** No message is lost, and every message costs a bounded number of receives. */
module Delivery {
  import opened Wrappers
  import opened Telemetry
  import opened Protocol
  import opened Machine
  import opened Invariants

  /** The body was valid, is archived under its own cold key, and its reading was inserted in the hot table. */
  ghost predicate Handled(s: Settings, st: Stores, body: Body) {
    && s.verdict(body).Accept?
    && (ColdKeyOf(s.verdict(body).record), body) in st.written
    && ColdKeyOf(s.verdict(body).record) in st.cold
    && Inserted(st, HotKeyOf(s.verdict(body).record))
  }

  lemma AckedIsHandled(d: Deployment, w: World, m: nat)
    requires Invariant(d, w) && Acked(w, m)
    ensures m < |w.msgs| && Handled(d.settings, w.st, w.msgs[m].body)
  {
    var j :| 0 <= j < |w.acks| && w.acks[j].msg == m;
    assert AckOk(d.settings, w.st, w.msgs, w.acks[j]);
    var p := (ColdKeyOf(w.acks[j].record), w.msgs[m].body);
    assert WrittenOk(d.settings, w.st, w.msgs, p);
  }

  lemma DeletedIsHandled(d: Deployment, run: seq<Step>, w: World, m: nat)
    requires Reaches(d, run, w) && m < |w.msgs| && w.msgs[m].place.Deleted?
    ensures Handled(d.settings, w.st, w.msgs[m].body)
  {
    Reachable(d, run, w);
    AckedIsHandled(d, w, m);
  }

  lemma ExpiredIsOld(d: Deployment, run: seq<Step>, w: World, m: nat)
    requires Reaches(d, run, w) && d.Admitted() && m < |w.msgs| && w.msgs[m].place.Expired?
    ensures w.msgs[m].enqueued + d.sourceRetention <= w.clock
  {
    Reachable(d, run, w);
    assert MessageOk(d, w.clock, w.msgs[m]);
  }

  /** All an invocation acknowledged is handled, and none of it is reported as failed. */
  ghost predicate AcksHandled(s: Settings, w: World, v: Invocation) {
    forall m :: m in v.acked ==> m < |w.msgs| && m !in v.failures && Handled(s, w.st, w.msgs[m].body)
  }

  lemma AcknowledgedIsHandled(d: Deployment, run: seq<Step>, w: World, i: nat)
    requires Reaches(d, run, w) && i < |w.invs|
    ensures AcksHandled(d.settings, w, w.invs[i])
  {
    Reachable(d, run, w);
    assert InvocationOk(d, w.clock, w.msgs, w.invs[i]);
    forall m | m in w.invs[i].acked
      ensures m < |w.msgs| && m !in w.invs[i].failures && Handled(d.settings, w.st, w.msgs[m].body)
    {
      AckedIsHandled(d, w, m);
    }
  }

  /**
   Over every interleaving, a message leaves the queues only by being handled or
   by outliving the source retention. A message an invocation acknowledged is
   handled and not also failed, so an invalid one is never acknowledged or deleted.
   */
  lemma NoLoss(d: Deployment, run: seq<Step>, w: World)
    requires Reaches(d, run, w) && d.Admitted()
    ensures forall m :: 0 <= m < |w.msgs| && w.msgs[m].place.Deleted? ==> Handled(d.settings, w.st, w.msgs[m].body)
    ensures forall m :: 0 <= m < |w.msgs| && w.msgs[m].place.Expired? ==>
      w.msgs[m].enqueued + d.sourceRetention <= w.clock
    ensures forall i :: 0 <= i < |w.invs| ==> AcksHandled(d.settings, w, w.invs[i])
  {
    forall m | 0 <= m < |w.msgs| && w.msgs[m].place.Deleted? ensures Handled(d.settings, w.st, w.msgs[m].body) {
      DeletedIsHandled(d, run, w, m);
    }
    forall m | 0 <= m < |w.msgs| && w.msgs[m].place.Expired?
      ensures w.msgs[m].enqueued + d.sourceRetention <= w.clock
    {
      ExpiredIsOld(d, run, w, m);
    }
    forall i | 0 <= i < |w.invs| ensures AcksHandled(d.settings, w, w.invs[i]) {
      AcknowledgedIsHandled(d, run, w, i);
    }
  }

  /** What an invocation has processed is exactly what it acknowledged or failed. */
  lemma ProcessedIsReported(d: Deployment, run: seq<Step>, w: World, i: nat)
    requires Reaches(d, run, w) && i < |w.invs|
    ensures var v := w.invs[i];
      forall p :: 0 <= p < |v.batch| ==> (p < v.pos <==> v.batch[p] in v.acked || v.batch[p] in v.failures)
  {
    Reachable(d, run, w);
    assert InvocationOk(d, w.clock, w.msgs, w.invs[i]);
  }

  // ----- Retry budget -----

  function TotalReceives(msgs: seq<Message>): nat {
    if msgs == [] then 0 else TotalReceives(msgs[..|msgs| - 1]) + msgs[|msgs| - 1].lifetimeReceives
  }

  function TotalRedrives(msgs: seq<Message>): nat {
    if msgs == [] then 0 else TotalRedrives(msgs[..|msgs| - 1]) + msgs[|msgs| - 1].redrives
  }

  lemma {:induction false} BudgetOf(d: Deployment, clock: nat, msgs: seq<Message>)
    requires forall m :: 0 <= m < |msgs| ==> MessageOk(d, clock, msgs[m])
    ensures TotalReceives(msgs) <= 5 * (|msgs| + TotalRedrives(msgs))
    decreases |msgs|
  {
    if msgs != [] {
      var last := |msgs| - 1;
      assert MessageOk(d, clock, msgs[last]);
      BudgetOf(d, clock, msgs[..last]);
    }
  }

  /**
   In every run a message is received at most five times per stay, and all
   messages together at most five times per enqueue or redrive.
   */
  lemma RetryBudget(d: Deployment, run: seq<Step>, w: World)
    requires Reaches(d, run, w)
    ensures forall m :: 0 <= m < |w.msgs| ==> w.msgs[m].receives <= 5
    ensures TotalReceives(w.msgs) <= 5 * (|w.msgs| + TotalRedrives(w.msgs))
  {
    Reachable(d, run, w);
    forall m | 0 <= m < |w.msgs| ensures w.msgs[m].receives <= 5 {
      assert MessageOk(d, w.clock, w.msgs[m]);
    }
    BudgetOf(d, w.clock, w.msgs);
  }

  /** No invocation is handed more than ten records, and each at most once. */
  lemma {:induction false} BatchBound(d: Deployment, run: seq<Step>, w: World)
    requires Reaches(d, run, w)
    ensures forall i :: 0 <= i < |w.invs| ==> 1 <= |w.invs[i].batch| <= 10 && NoDuplicates(w.invs[i].batch)
    decreases |run|
  {
    if run != [] {
      var before := LastStep(d, run, w);
      BatchBound(d, run[..|run| - 1], before);
    }
  }
}

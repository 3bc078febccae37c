/**
 What becomes of every claim: at most one call to the topic, and a critical
 reading goes unalerted only for one of the named reasons.
 */
module AlertFates {
  import opened Wrappers
  import opened Telemetry
  import opened Protocol
  import opened Machine
  import opened Invariants
  import opened Processing
  import opened AlertSpacing

  /** The topic was called for claim `j`. */
  ghost predicate CalledFor(st: Stores, j: nat) {
    exists k :: 0 <= k < |st.calls| && st.calls[k].claim == j
  }

  /** Invocation `i` is between winning claim `j` and calling the topic. */
  predicate Holds(w: World, i: nat, j: nat) {
    i < |w.invs| && w.invs[i].live && w.invs[i].task.Publishing? && w.invs[i].task.claim == j
  }

  ghost predicate Held(w: World, j: nat) {
    exists i: nat :: Holds(w, i, j)
  }

  /** A claim whose invocation learnt that it won. */
  predicate Won(st: Stores, j: nat) {
    j < |st.claims| && st.claims[j].reply.Yes?
  }

  /** Exactly one of: called, abandoned by a crash, still held. */
  ghost predicate FateOk(w: World, j: nat) {
    && (CalledFor(w.st, j) || j in w.abandoned || Held(w, j))
    && !(CalledFor(w.st, j) && j in w.abandoned)
    && (Held(w, j) ==> !CalledFor(w.st, j) && j !in w.abandoned)
  }

  ghost predicate CallOk(st: Stores, c: AlertCall) {
    Won(st, c.claim) && st.claims[c.claim].device == c.device && (c.reported ==> c.delivered)
  }

  ghost predicate FatesOk(w: World) {
    && (forall j: nat :: Won(w.st, j) ==> FateOk(w, j))
    && (forall k :: 0 <= k < |w.st.calls| ==> CallOk(w.st, w.st.calls[k]))
    && (forall k, l :: 0 <= k < l < |w.st.calls| ==> w.st.calls[k].claim != w.st.calls[l].claim)
    && (forall i: nat, i': nat, j: nat :: Holds(w, i, j) && Holds(w, i', j) ==> i == i')
    && (forall i: nat, j: nat :: Holds(w, i, j) ==> Won(w.st, j))
    && (forall j :: j in w.abandoned ==> Won(w.st, j))
    && (forall i :: 0 <= i < |w.invs| && w.invs[i].pos == |w.invs[i].batch| ==> w.invs[i].task.Fresh?)
  }

  // ----- Steps that leave the claims and calls alone -----

  lemma WonSurvives(st: Stores, st': Stores, j: nat)
    requires Grows(st, st')
    ensures Won(st, j) ==> Won(st', j) && st'.claims[j] == st.claims[j]
  {
    if j < |st.claims| {
      assert st'.claims[j] == st.claims[j];
    }
  }

  /** Nothing is won, called, held or abandoned that was not before. */
  predicate SameFates(w: World, w': World) {
    && w'.st.claims == w.st.claims && w'.st.calls == w.st.calls && w'.abandoned == w.abandoned
    && |w.invs| <= |w'.invs|
    && (forall i :: 0 <= i < |w.invs| ==>
        (w'.invs[i].live == w.invs[i].live && w'.invs[i].task == w.invs[i].task)
        || (!(w.invs[i].live && w.invs[i].task.Publishing?) && !(w'.invs[i].live && w'.invs[i].task.Publishing?)))
    && (forall i :: |w.invs| <= i < |w'.invs| ==> w'.invs[i].task.Fresh?)
    && (forall i :: 0 <= i < |w'.invs| && w'.invs[i].pos == |w'.invs[i].batch| ==> w'.invs[i].task.Fresh?)
  }

  lemma SameFatesKeep(w: World, w': World)
    requires FatesOk(w) && SameFates(w, w')
    ensures FatesOk(w')
  {
    assert forall i: nat, j: nat :: Holds(w', i, j) <==> Holds(w, i, j);
    forall j: nat | Won(w'.st, j) ensures FateOk(w', j) {
      assert FateOk(w, j);
      assert Held(w, j) <==> Held(w', j) by {
        if Held(w, j) {
          var i: nat :| Holds(w, i, j);
          assert Holds(w', i, j);
        }
        if Held(w', j) {
          var i: nat :| Holds(w', i, j);
          assert Holds(w, i, j);
        }
      }
    }
  }

  // ----- Winning, calling, crashing -----

  lemma ClaimKeepsFates(d: Deployment, w: World, i: nat, o: Outcome)
    requires Sound(w) && Enabled(d, w, Work(i, o)) && FatesOk(w) && w.invs[i].task.Claiming?
    requires Apply(d, w, Work(i, o)).st.claims != w.st.claims
    ensures FatesOk(Apply(d, w, Work(i, o)))
  {
    var w' := Apply(d, w, Work(i, o));
    var n := |w.st.claims|;
    assert !CalledFor(w.st, n) && n !in w.abandoned && !Held(w, n);
    assert forall i': nat, j: nat :: j != n ==> (Holds(w', i', j) <==> Holds(w, i', j));
    forall i': nat | Holds(w', i', n) ensures i' == i && Won(w'.st, n) {
      if i' != i {
        assert Holds(w, i', n);
      }
    }
    forall j: nat | Won(w'.st, j) ensures FateOk(w', j) {
      if j < n {
        assert w'.st.claims[j] == w.st.claims[j] && Won(w.st, j) && FateOk(w, j);
        if Held(w, j) {
          var i': nat :| Holds(w, i', j);
          assert Holds(w', i', j);
        }
      } else {
        assert Holds(w', i, n);
      }
    }
    forall k | 0 <= k < |w'.st.calls| ensures CallOk(w'.st, w'.st.calls[k]) {
      assert CallOk(w.st, w.st.calls[k]);
    }
    forall i': nat, j: nat | Holds(w', i', j) ensures Won(w'.st, j) {
      if j != n {
        assert Holds(w, i', j);
        WonSurvives(w.st, w'.st, j);
      }
    }
  }

  /** After its call to the topic an invocation holds its claim no longer; all others hold theirs. */
  lemma HoldsAfterCall(d: Deployment, w: World, i: nat, o: Outcome)
    requires Sound(w) && Enabled(d, w, Work(i, o)) && w.invs[i].task.Publishing?
    ensures forall i': nat, j: nat :: Holds(Apply(d, w, Work(i, o)), i', j) <==> Holds(w, i', j) && i' != i
  {
  }

  lemma CalledAfterCall(d: Deployment, w: World, i: nat, o: Outcome)
    requires Sound(w) && Enabled(d, w, Work(i, o)) && w.invs[i].task.Publishing?
    ensures var st' := Apply(d, w, Work(i, o)).st;
      && st'.claims == w.st.claims && |st'.calls| == |w.st.calls| + 1 && w.st.calls <= st'.calls
      && st'.calls[|w.st.calls|].claim == w.invs[i].task.claim
      && forall j: nat :: CalledFor(st', j) <==> CalledFor(w.st, j) || j == w.invs[i].task.claim
  {
    var st', n := Apply(d, w, Work(i, o)).st, |w.st.calls|;
    forall j: nat ensures CalledFor(st', j) <==> CalledFor(w.st, j) || j == w.invs[i].task.claim {
      if CalledFor(w.st, j) {
        var k :| 0 <= k < n && w.st.calls[k].claim == j;
        assert st'.calls[k].claim == j;
      }
      assert st'.calls[n].claim == w.invs[i].task.claim;
    }
  }

  lemma CallFate(d: Deployment, w: World, i: nat, o: Outcome, j: nat)
    requires Sound(w) && Enabled(d, w, Work(i, o)) && FatesOk(w) && w.invs[i].task.Publishing? && Won(w.st, j)
    ensures FateOk(Apply(d, w, Work(i, o)), j)
  {
    var w', c := Apply(d, w, Work(i, o)), w.invs[i].task.claim;
    HoldsAfterCall(d, w, i, o);
    CalledAfterCall(d, w, i, o);
    assert Holds(w, i, c) && FateOk(w, c) && FateOk(w, j);
    if Held(w, j) && j != c {
      var i': nat :| Holds(w, i', j);
      assert Holds(w', i', j);
    }
    if Held(w', j) {
      var i': nat :| Holds(w', i', j);
      assert Holds(w, i', j);
    }
  }

  lemma CallKeepsFates(d: Deployment, w: World, i: nat, o: Outcome)
    requires Sound(w) && Enabled(d, w, Work(i, o)) && FatesOk(w) && w.invs[i].task.Publishing?
    requires TasksOk(d.settings, w)
    ensures FatesOk(Apply(d, w, Work(i, o)))
  {
    var w', c := Apply(d, w, Work(i, o)), w.invs[i].task.claim;
    var n := |w.st.calls|;
    HoldsAfterCall(d, w, i, o);
    CalledAfterCall(d, w, i, o);
    assert Holds(w, i, c) && Won(w.st, c) && FateOk(w, c);
    forall j: nat | Won(w'.st, j) ensures FateOk(w', j) {
      CallFate(d, w, i, o, j);
    }
    forall k | 0 <= k < n ensures CallOk(w'.st, w'.st.calls[k]) && w'.st.calls[k].claim != c {
      assert w'.st.calls[k] == w.st.calls[k] && CallOk(w.st, w.st.calls[k]);
      assert w.st.calls[k].claim == c ==> CalledFor(w.st, c);
    }
  }

  lemma CrashKeepsFates(d: Deployment, w: World, i: nat)
    requires Sound(w) && Enabled(d, w, Crash(i)) && FatesOk(w) && w.invs[i].task.Publishing?
    ensures FatesOk(Apply(d, w, Crash(i)))
  {
    var w' := Apply(d, w, Crash(i));
    var c := w.invs[i].task.claim;
    assert Holds(w, i, c) && Won(w.st, c) && FateOk(w, c);
    assert !Held(w', c) by {
      forall i': nat | Holds(w', i', c) ensures false {
        assert i' != i && Holds(w, i', c);
      }
    }
    forall j: nat | Won(w'.st, j) ensures FateOk(w', j) {
      assert FateOk(w, j);
      if Held(w, j) && j != c {
        var i': nat :| Holds(w, i', j);
        assert Holds(w', i', j);
      }
      if Held(w', j) {
        var i': nat :| Holds(w', i', j);
        assert Holds(w, i', j);
      }
    }
    forall i': nat, j: nat | Holds(w', i', j) ensures Holds(w, i', j) {
    }
  }

  lemma OtherWork(d: Deployment, w: World, i: nat, o: Outcome)
    requires Sound(w) && Enabled(d, w, Work(i, o)) && FatesOk(w)
    requires !w.invs[i].task.Publishing? && Apply(d, w, Work(i, o)).st.claims == w.st.claims
    ensures SameFates(w, Apply(d, w, Work(i, o)))
  {
    var v := w.invs[i];
    var t' := Advance(d.settings, w.st, w.msgs[v.batch[v.pos]].body, v.now, v.task, o).1;
    assert !t'.Publishing?;
  }

  lemma QueueStepSameFates(d: Deployment, w: World, s: Step)
    requires Sound(w) && Enabled(d, w, s) && !s.Work?
    requires forall i :: 0 <= i < |w.invs| && w.invs[i].pos == |w.invs[i].batch| ==> w.invs[i].task.Fresh?
    requires s.Crash? ==> !w.invs[s.i].task.Publishing?
    ensures SameFates(w, Apply(d, w, s))
  {
  }

  lemma FatesKept(d: Deployment, w: World, s: Step)
    requires Sound(w) && TasksOk(d.settings, w) && Enabled(d, w, s) && FatesOk(w)
    ensures FatesOk(Apply(d, w, s))
  {
    var w' := Apply(d, w, s);
    if s.Work? && w.invs[s.i].task.Publishing? {
      CallKeepsFates(d, w, s.i, s.o);
    } else if s.Work? && w'.st.claims != w.st.claims {
      assert w.invs[s.i].task.Claiming?;
      ClaimKeepsFates(d, w, s.i, s.o);
    } else if s.Crash? && w.invs[s.i].task.Publishing? {
      CrashKeepsFates(d, w, s.i);
    } else {
      if s.Work? {
        OtherWork(d, w, s.i, s.o);
      } else {
        QueueStepSameFates(d, w, s);
      }
      SameFatesKeep(w, w');
    }
  }

  lemma {:induction false} FatesHold(d: Deployment, run: seq<Step>, w: World)
    requires Reaches(d, run, w)
    ensures FatesOk(w)
    decreases |run|
  {
    if run != [] {
      var before := LastStep(d, run, w);
      FatesHold(d, run[..|run| - 1], before);
      Reachable(d, run[..|run| - 1], before);
      FatesKept(d, before, run[|run| - 1]);
    }
  }

  // ----- Main results -----

  lemma DistinctBelow(s: seq<nat>, n: nat)
    requires NoDuplicates(s) && forall i :: 0 <= i < |s| ==> s[i] < n
    ensures |s| <= n
    decreases |s|
  {
    if s != [] {
      var last := s[|s| - 1];
      // Remove `last` and let `n - 1` take its place, so that the rest stays below n - 1.
      var rest := seq(|s| - 1, i requires 0 <= i < |s| - 1 => if s[i] == n - 1 then last else s[i]);
      DistinctBelow(rest, n - 1);
    }
  }

  /** Calls to the topic never outnumber claims, and no claim is used for two of them. */
  lemma CallsNeverOutnumberClaims(d: Deployment, run: seq<Step>, w: World)
    requires Reaches(d, run, w)
    ensures |w.st.calls| <= |w.st.claims|
    ensures forall k, l :: 0 <= k < l < |w.st.calls| ==> w.st.calls[k].claim != w.st.calls[l].claim
  {
    FatesHold(d, run, w);
    forall k | 0 <= k < |w.st.calls| ensures w.st.calls[k].claim < |w.st.claims| {
      assert CallOk(w.st, w.st.calls[k]);
    }
    DistinctBelow(seq(|w.st.calls|, k requires 0 <= k < |w.st.calls| => w.st.calls[k].claim), |w.st.claims|);
  }

  /** Any two alerts about one device were called for under claims more than the window apart. */
  ghost predicate AlertsSpaced(s: Settings, st: Stores) {
    forall k, l :: 0 <= k < |st.calls| && 0 <= l < |st.calls| && k != l && st.calls[k].device == st.calls[l].device ==>
      MoreThanWindowApart(s, st, st.calls[k].claim, st.calls[l].claim)
  }

  predicate MoreThanWindowApart(s: Settings, st: Stores, i: nat, j: nat) {
    && i < |st.claims| && j < |st.claims|
    && (|| st.claims[i].now + s.Window() < st.claims[j].now
        || st.claims[j].now + s.Window() < st.claims[i].now)
  }

  ghost predicate AlwaysOneAlertPerWindow(d: Deployment) {
    forall run, w :: Reaches(d, run, w) ==> AlertsSpaced(d.settings, w.st)
  }

  lemma AlertsAreSpaced(d: Deployment, run: seq<Step>, w: World)
    requires Reaches(d, run, w) && SlotOutlivesWindow(d)
    ensures AlertsSpaced(d.settings, w.st)
  {
    SpacingHolds(d, run, w);
    FatesHold(d, run, w);
    forall k, l | 0 <= k < |w.st.calls| && 0 <= l < |w.st.calls| && k != l
                  && w.st.calls[k].device == w.st.calls[l].device
      ensures MoreThanWindowApart(d.settings, w.st, w.st.calls[k].claim, w.st.calls[l].claim)
    {
      assert CallOk(w.st, w.st.calls[k]) && CallOk(w.st, w.st.calls[l]);
      assert w.st.calls[k].claim != w.st.calls[l].claim;
    }
  }

  /**
   At most one alert per device and window, over every run: it holds exactly when the
   window plus the timeout fits in the slot's TTL of one day.
   */
  lemma OneAlertPerWindowIff(d: Deployment, body: Body)
    requires d.Admitted()
    requires d.settings.verdict(body).Accept? && d.settings.Critical(d.settings.verdict(body).record)
    ensures AlwaysOneAlertPerWindow(d) <==> 60 * d.settings.suppressionMinutes + d.timeout <= 86400
  {
    if SlotOutlivesWindow(d) {
      forall run, w | Reaches(d, run, w) ensures AlertsSpaced(d.settings, w.st) {
        AlertsAreSpaced(d, run, w);
      }
    } else {
      var run, w := TwoAlertsInWindow(d, body);
      assert w.st.calls[0].device == w.st.calls[1].device;
      assert !MoreThanWindowApart(d.settings, w.st, w.st.calls[0].claim, w.st.calls[1].claim);
      assert !AlertsSpaced(d.settings, w.st);
    }
  }

  /**
   Which claims never reach the topic: those whose own answer was lost, those whose
   invocation died first, and those still on their way. So a failed publish is the only
   lost alert that leaves a call behind for AlertPublishFailures to count.
   */
  lemma ClaimsWithoutCall(d: Deployment, run: seq<Step>, w: World, j: nat)
    requires Reaches(d, run, w) && j < |w.st.claims|
    ensures CalledFor(w.st, j) <==> Won(w.st, j) && j !in w.abandoned && !Held(w, j)
  {
    FatesHold(d, run, w);
    forall k | 0 <= k < |w.st.calls| ensures Won(w.st, w.st.calls[k].claim) {
      assert CallOk(w.st, w.st.calls[k]);
    }
    assert Won(w.st, j) ==> FateOk(w, j);
  }

  /** An alert went out under claim `j`. */
  ghost predicate DeliveredFor(st: Stores, j: nat) {
    exists k :: 0 <= k < |st.calls| && st.calls[k].claim == j && st.calls[k].delivered
  }

  /**
   Why claim `j` may have alerted nobody: its own answer was lost, its invocation
   died before calling the topic, has not called it yet, or the call failed.
   */
  ghost predicate Unalerted(w: World, j: nat) {
    || !Won(w.st, j)
    || j in w.abandoned
    || Held(w, j)
    || exists k :: 0 <= k < |w.st.calls| && w.st.calls[k].claim == j && !w.st.calls[k].reported
  }

  /** The claim that covers an acknowledged critical reading, and the alert that named it if it was published. */
  lemma CoveringClaim(d: Deployment, run: seq<Step>, w: World, a: nat) returns (j: nat)
    requires Reaches(d, run, w) && a < |w.acks| && d.settings.Critical(w.acks[a].record)
    ensures j < |w.st.claims| && w.st.claims[j].device == w.acks[a].record.deviceId
    ensures w.acks[a].now <= w.st.claims[j].now + d.settings.Window()
    ensures w.acks[a].alert.Alerted? ==> NamedAlert(w.st, w.acks[a].record)
    ensures !w.acks[a].alert.Quiet?
  {
    Reachable(d, run, w);
    var ack := w.acks[a];
    assert AckOk(d.settings, w.st, w.msgs, ack);
    if ack.alert.Alerted? {
      var k :| 0 <= k < |w.st.calls|
        && w.st.calls[k].device == ack.record.deviceId && w.st.calls[k].seqNo == ack.record.seqNo
        && w.st.calls[k].reported && w.st.calls[k].claim < |w.st.claims|
        && w.st.claims[w.st.calls[k].claim] == Claim(ack.record.deviceId, ack.now, Yes);
      FatesHold(d, run, w);
      assert CallOk(w.st, w.st.calls[k]);
      j := w.st.calls[k].claim;
    } else {
      j :| 0 <= j < |w.st.claims| && w.st.claims[j].device == ack.record.deviceId
           && ack.now <= w.st.claims[j].now + d.settings.Window();
    }
  }

  lemma EveryClaimEnds(d: Deployment, run: seq<Step>, w: World, j: nat)
    requires Reaches(d, run, w) && j < |w.st.claims|
    ensures DeliveredFor(w.st, j) || Unalerted(w, j)
  {
    FatesHold(d, run, w);
    if Won(w.st, j) {
      assert FateOk(w, j);
      if CalledFor(w.st, j) {
        var k :| 0 <= k < |w.st.calls| && w.st.calls[k].claim == j;
        assert CallOk(w.st, w.st.calls[k]);
      }
    }
  }

  /** An alert about this very reading went out. */
  ghost predicate NamedAlert(st: Stores, r: TelemetryRecord) {
    exists k :: 0 <= k < |st.calls|
      && st.calls[k].delivered && st.calls[k].device == r.deviceId && st.calls[k].seqNo == r.seqNo
  }

  /**
   No critical reading is silently ignored: when it was acknowledged, some claim of
   its device closed the window over its processing time, and either an alert went
   out under that claim or one of the four reasons applies to it. If its own counters
   said "published", the alert named this very reading.
   */
  lemma NoSilentCritical(d: Deployment, run: seq<Step>, w: World, a: nat)
    requires Reaches(d, run, w) && a < |w.acks| && d.settings.Critical(w.acks[a].record)
    ensures exists j: nat ::
      && j < |w.st.claims|
      && w.st.claims[j].device == w.acks[a].record.deviceId
      && w.acks[a].now <= w.st.claims[j].now + d.settings.Window()
      && (DeliveredFor(w.st, j) || Unalerted(w, j))
    ensures w.acks[a].alert.Alerted? ==> NamedAlert(w.st, w.acks[a].record)
    ensures !w.acks[a].alert.Quiet?
  {
    var j := CoveringClaim(d, run, w, a);
    EveryClaimEnds(d, run, w, j);
  }

  // ----- One alert per window, not one per reading -----

  /** The successful call a free slot leads to. */
  function CallOf(st: Stores, r: TelemetryRecord): AlertCall {
    AlertCall(|st.claims|, r.deviceId, r.seqNo, true, true)
  }

  /** No later call of a message changes the calls to the topic. */
  lemma StoringCalls(s: Settings, st: Stores, body: Body, now: nat, r: TelemetryRecord, a: Alert, f: Faults)
    ensures Settle(s, st, body, now, Storing(r, a), f).0.calls == st.calls
  {
    SettleStep(s, st, body, now, Storing(r, a), f);
  }

  lemma CallsFromClaiming(s: Settings, st: Stores, body: Body, now: nat, r: TelemetryRecord, f: Faults)
    ensures var st' := Settle(s, st, body, now, Claiming(r), f).0;
      st'.calls == st.calls
        + (if ConditionalReply(SlotFree(st, r.deviceId, now), f.claim).Yes?
           then [AlertCall(|st.claims|, r.deviceId, r.seqNo, !f.publish.Refused?, !Raises(f.publish))] else [])
  {
    SettleStep(s, st, body, now, Claiming(r), f);
    var (st1, t1) := Advance(s, st, body, now, Claiming(r), f.claim);
    if t1.Publishing? {
      SettleStep(s, st1, body, now, t1, f);
      StoringCalls(s, CallPublish(st1, t1.claim, r, f.publish), body, now, r, Alerted, f);
    } else if t1.Storing? {
      StoringCalls(s, st1, body, now, r, Suppressed, f);
    }
  }

  /**
   Under any faults, and whatever is stored, processing an accepted body calls the topic
   exactly when its smoke is at or above the threshold, archiving did not raise, the slot
   was free and the claim was answered.
   */
  lemma CriticalCallsIff(s: Settings, st: Stores, body: Body, now: nat, f: Faults)
    requires s.verdict(body).Accept?
    ensures var r := s.verdict(body).record;
      var free := r.deviceId !in st.slots || st.slots[r.deviceId].suppressUntil < now;
      Process(s, st, body, now, f).0.calls == st.calls
        + (if r.smokePpm >= s.thresholds.smokeAlertPpm && f.cold != Refused && f.cold != Lost && free && f.claim == Done
           then [AlertCall(|st.claims|, r.deviceId, r.seqNo, f.publish != Refused, f.publish in {Done, Replayed})]
           else [])
  {
    var r := s.verdict(body).record;
    SettleStep(s, st, body, now, Fresh, f);
    SettleStep(s, st, body, now, Archiving(r), f);
    var st1 := PutCold(st, ColdKeyOf(r), body, f.cold);
    CallsFromClaiming(s, st1, body, now, r, f);
    StoringCalls(s, st1, body, now, r, Quiet, f);
  }

  /**
   The stored copy of a critical reading does not matter: processing it again without
   faults alerts exactly when the slot is free.
   */
  lemma DuplicateAlertsIff(s: Settings, st: Stores, body: Body, now: nat)
    requires s.verdict(body).Accept? && s.Critical(s.verdict(body).record)
    requires HotKeyOf(s.verdict(body).record) in st.hot
    ensures var (st', result) := Process(s, st, body, now, NO_FAULTS);
      var free := SlotFree(st, s.verdict(body).record.deviceId, now);
      && result == Kept(false, if free then Alerted else Suppressed)
      && st'.inserts == st.inserts && st'.hot == st.hot
      && st'.calls == st.calls + (if free then [CallOf(st, s.verdict(body).record)] else [])
  {
    var r := s.verdict(body).record;
    SettleStep(s, st, body, now, Fresh, NO_FAULTS);
    SettleStep(s, st, body, now, Archiving(r), NO_FAULTS);
    var st1 := PutCold(st, ColdKeyOf(r), body, Done);
    SettleStep(s, st1, body, now, Claiming(r), NO_FAULTS);
    var st2 := ClaimSlot(s, st1, r.deviceId, now, Done);
    if SlotFree(st, r.deviceId, now) {
      SettleStep(s, st2, body, now, Publishing(r, |st1.claims|), NO_FAULTS);
      SettleStep(s, CallPublish(st2, |st1.claims|, r, Done), body, now, Storing(r, Alerted), NO_FAULTS);
    } else {
      SettleStep(s, st2, body, now, Storing(r, Suppressed), NO_FAULTS);
    }
  }

  /** A first, fault-free look at a critical reading of an unseen device stores it and alerts. */
  lemma FirstCritical(s: Settings, st: Stores, body: Body, now: nat)
    requires s.verdict(body).Accept? && s.Critical(s.verdict(body).record)
    requires HotKeyOf(s.verdict(body).record) !in st.hot
    requires s.verdict(body).record.deviceId !in st.slots
    ensures var r := s.verdict(body).record;
      var st' := Process(s, st, body, now, NO_FAULTS).0;
      && HotKeyOf(r) in st'.hot && |st'.inserts| == |st.inserts| + 1
      && st'.calls == st.calls + [CallOf(st, r)]
      && r.deviceId in st'.slots && st'.slots[r.deviceId] == NewSlot(s, now)
  {
    var r := s.verdict(body).record;
    SettleStep(s, st, body, now, Fresh, NO_FAULTS);
    SettleStep(s, st, body, now, Archiving(r), NO_FAULTS);
    var st1 := PutCold(st, ColdKeyOf(r), body, Done);
    SettleStep(s, st1, body, now, Claiming(r), NO_FAULTS);
    var st2 := ClaimSlot(s, st1, r.deviceId, now, Done);
    SettleStep(s, st2, body, now, Publishing(r, |st1.claims|), NO_FAULTS);
    SettleStep(s, CallPublish(st2, |st1.claims|, r, Done), body, now, Storing(r, Alerted), NO_FAULTS);
  }

  /** Delivers message `m` alone and processes it without faults. */
  lemma DeliverAndProcess(d: Deployment, run: seq<Step>, w: World, m: nat) returns (run': seq<Step>, w': World)
    requires Reaches(d, run, w) && Sound(w) && Receivable(d, w, m)
    ensures Reaches(d, run', w') && Sound(w') && w'.clock == w.clock
    ensures w'.msgs == w.msgs[m := Received(w.msgs[m])]
    ensures w'.st == Process(d.settings, w.st, w.msgs[m].body, w.clock, NO_FAULTS).0
  {
    Extend(d, run, w, Invoke([m]));
    var w1 := Apply(d, w, Invoke([m]));
    assert w1.msgs == w.msgs[m := Received(w.msgs[m])];
    run', w' := SoloRun(d, run + [Invoke([m])], w1, |w.invs|, NO_FAULTS);
  }

  /**
   The dedup insert does not deduplicate alerts: a copy of a stored critical
   reading, processed after the window, alerts again although its hot item exists
   and is not inserted a second time.
   */
  lemma SameReadingAlertsTwice(d: Deployment, body: Body) returns (run: seq<Step>, w: World)
    requires d.Admitted() && d.settings.verdict(body).Accept? && d.settings.Critical(d.settings.verdict(body).record)
    ensures Reaches(d, run, w)
    ensures |w.st.inserts| == 1 && HotKeyOf(d.settings.verdict(body).record) in w.st.hot
    ensures |w.st.calls| == 2
    ensures forall k :: 0 <= k < 2 ==>
      var r := d.settings.verdict(body).record;
      w.st.calls[k].device == r.deviceId && w.st.calls[k].seqNo == r.seqNo && w.st.calls[k].delivered
  {
    assert Reaches(d, [], INITIAL);
    Extend(d, [], INITIAL, Enqueue(body));
    var w1 := Apply(d, INITIAL, Enqueue(body));
    FirstCritical(d.settings, EMPTY_STORES, body, 0);
    var run2, w2 := DeliverAndProcess(d, [] + [Enqueue(body)], w1, 0);
    var wait := Tick(d.settings.Window() + 1);
    Extend(d, run2, w2, wait);
    var w3 := Apply(d, w2, wait);
    Extend(d, run2 + [wait], w3, Enqueue(body));
    var w4 := Apply(d, w3, Enqueue(body));
    DuplicateAlertsIff(d.settings, w4.st, body, w4.clock);
    run, w := DeliverAndProcess(d, run2 + [wait] + [Enqueue(body)], w4, 1);
  }
}

/** The per-device suppression window under concurrency, stale clocks and TTL. */
module AlertSpacing {
  import opened Wrappers
  import opened Telemetry
  import opened Protocol
  import opened Machine
  import opened Invariants
  import opened Processing

  /** Claims of one device, in commit order, are more than the window apart. */
  ghost predicate Spaced(s: Settings, claims: seq<Claim>) {
    forall i, j :: 0 <= i < j < |claims| && claims[i].device == claims[j].device ==>
      claims[i].now + s.Window() < claims[j].now
  }

  /** The slot outlives the window even for the most stale invocation. */
  predicate SlotOutlivesWindow(d: Deployment) {
    d.settings.Window() + d.timeout <= SECONDS_PER_DAY
  }

  /** Every earlier claim is still guarded by the slot, or so old that no live invocation can be near it. */
  ghost predicate Guarded(s: Settings, st: Stores, clock: nat) {
    forall j :: 0 <= j < |st.claims| ==>
      if st.claims[j].device in st.slots
      then st.claims[j].now + s.Window() <= st.slots[st.claims[j].device].suppressUntil
      else st.claims[j].now + SECONDS_PER_DAY < clock
  }

  /** One call made at `clock` by an invocation that started at `now` keeps the device guarded and spaced. */
  lemma CallKeepsSpacing(d: Deployment, st: Stores, clock: nat, body: Body, now: nat, t: Task, o: Outcome)
    requires Guarded(d.settings, st, clock) && Spaced(d.settings, st.claims)
    requires !t.Finished? && clock <= now + d.timeout && SlotOutlivesWindow(d)
    ensures var st' := Advance(d.settings, st, body, now, t, o).0;
      Guarded(d.settings, st', clock) && Spaced(d.settings, st'.claims)
  {
  }

  lemma TtlKeepsSpacing(s: Settings, st: Stores, clock: nat, device: string)
    requires Guarded(s, st, clock) && SlotLogged(s, st, device) && st.slots[device].expiresAt < clock
    ensures Guarded(s, st.(slots := st.slots - {device}), clock)
  {
  }

  lemma SpacingKept(d: Deployment, w: World, s: Step)
    requires Sound(w) && Enabled(d, w, s) && SlotOutlivesWindow(d)
    requires s.ExpireSlot? ==> SlotLogged(d.settings, w.st, s.device)
    requires Guarded(d.settings, w.st, w.clock) && Spaced(d.settings, w.st.claims)
    ensures var w' := Apply(d, w, s); Guarded(d.settings, w'.st, w'.clock) && Spaced(d.settings, w'.st.claims)
  {
    if s.Work? {
      var v := w.invs[s.i];
      CallKeepsSpacing(d, w.st, w.clock, w.msgs[v.batch[v.pos]].body, v.now, v.task, s.o);
    } else if s.ExpireSlot? {
      TtlKeepsSpacing(d.settings, w.st, w.clock, s.device);
    } else {
      var w' := Apply(d, w, s);
      assert w'.st.claims == w.st.claims && w'.st.slots == w.st.slots && w.clock <= w'.clock;
    }
  }

  lemma {:induction false} SpacingHolds(d: Deployment, run: seq<Step>, w: World)
    requires Reaches(d, run, w) && SlotOutlivesWindow(d)
    ensures Guarded(d.settings, w.st, w.clock) && Spaced(d.settings, w.st.claims)
    decreases |run|
  {
    if run != [] {
      var before := LastStep(d, run, w);
      SpacingHolds(d, run[..|run| - 1], before);
      Reachable(d, run[..|run| - 1], before);
      SpacingKept(d, before, run[|run| - 1]);
    }
  }

  ghost predicate AlwaysSpaced(d: Deployment) {
    forall run, w :: Reaches(d, run, w) ==> Spaced(d.settings, w.st.claims)
  }

  // ----- The condition is necessary -----

  /** The record of the message an invocation is at. */
  function CurrentRecord(d: Deployment, w: World, i: nat): TelemetryRecord
    requires CanWork(d, w, i) && d.settings.verdict(w.msgs[w.invs[i].batch[w.invs[i].pos]].body).Accept?
  {
    d.settings.verdict(w.msgs[w.invs[i].batch[w.invs[i].pos]].body).record
  }

  /** Brings the current message of an invocation through its slot claim and its alert, and stops there. */
  lemma AlertRun(d: Deployment, run: seq<Step>, w: World, i: nat) returns (run': seq<Step>, w': World)
    requires Reaches(d, run, w) && CanWork(d, w, i) && w.invs[i].task.Fresh?
    requires d.settings.verdict(w.msgs[w.invs[i].batch[w.invs[i].pos]].body).Accept?
    requires d.settings.Critical(CurrentRecord(d, w, i))
    requires SlotFree(w.st, CurrentRecord(d, w, i).deviceId, w.invs[i].now)
    ensures Reaches(d, run', w') && Sound(w') && w'.clock == w.clock && w'.msgs == w.msgs
    ensures var r := CurrentRecord(d, w, i);
      && w'.st.claims == w.st.claims + [Claim(r.deviceId, w.invs[i].now, Yes)]
      && w'.st.slots == w.st.slots[r.deviceId := NewSlot(d.settings, w.invs[i].now)]
      && w'.st.calls == w.st.calls + [AlertCall(|w.st.claims|, r.deviceId, r.seqNo, true, true)]
  {
    var run1, w1 := SoloStep(d, run, w, i, Done);
    var run2, w2 := SoloStep(d, run1, w1, i, Done);
    var run3, w3 := SoloStep(d, run2, w2, i, Done);
    run', w' := SoloStep(d, run3, w3, i, Done);
  }

  /** One delivery of message `m` that alerts `delay` seconds after it started; TTL may remove the old slot first. */
  lemma AlertAfter(d: Deployment, run: seq<Step>, w: World, m: nat, delay: nat, expire: bool)
    returns (run': seq<Step>, w': World)
    requires Reaches(d, run, w) && Sound(w) && Receivable(d, w, m) && delay <= d.timeout
    requires var v := d.settings.verdict(w.msgs[m].body);
      && v.Accept? && d.settings.Critical(v.record)
      && if expire then v.record.deviceId in w.st.slots
                        && w.st.slots[v.record.deviceId].expiresAt < w.clock + delay
         else v.record.deviceId !in w.st.slots
    ensures Reaches(d, run', w') && Sound(w') && w'.clock == w.clock + delay
    ensures w'.msgs == w.msgs[m := Received(w.msgs[m])]
    ensures var r := d.settings.verdict(w.msgs[m].body).record;
      && w'.st.claims == w.st.claims + [Claim(r.deviceId, w.clock, Yes)]
      && r.deviceId in w'.st.slots && w'.st.slots[r.deviceId] == NewSlot(d.settings, w.clock)
      && w'.st.calls == w.st.calls + [AlertCall(|w.st.claims|, r.deviceId, r.seqNo, true, true)]
  {
    var device := d.settings.verdict(w.msgs[m].body).record.deviceId;
    Extend(d, run, w, Invoke([m]));
    var w1 := Apply(d, w, Invoke([m]));
    assert w1.msgs == w.msgs[m := Received(w.msgs[m])];
    Extend(d, run + [Invoke([m])], w1, Tick(delay));
    var run2, w2 := run + [Invoke([m])] + [Tick(delay)], Apply(d, w1, Tick(delay));
    if expire {
      Extend(d, run2, w2, ExpireSlot(device));
      run2, w2 := run2 + [ExpireSlot(device)], Apply(d, w2, ExpireSlot(device));
    }
    run', w' := AlertRun(d, run2, w2, |w.invs|);
  }

  /**
   When the window plus one function timeout exceeds the slot's one-day TTL, an
   invocation that started inside the window can find the slot already deleted:
   two alerts about one device go out under claims inside one window.
   */
  lemma TwoAlertsInWindow(d: Deployment, body: Body) returns (run: seq<Step>, w: World)
    requires d.Admitted() && !SlotOutlivesWindow(d)
    requires d.settings.verdict(body).Accept? && d.settings.Critical(d.settings.verdict(body).record)
    ensures Reaches(d, run, w)
    ensures var r := d.settings.verdict(body).record;
      && |w.st.claims| == 2 && w.st.claims[0].device == w.st.claims[1].device
      && w.st.claims[0].now <= w.st.claims[1].now <= w.st.claims[0].now + d.settings.Window()
      && w.st.calls == [AlertCall(0, r.deviceId, r.seqNo, true, true), AlertCall(1, r.deviceId, r.seqNo, true, true)]
  {
    assert Reaches(d, [], INITIAL);
    Extend(d, [], INITIAL, Enqueue(body));
    var w1 := Apply(d, INITIAL, Enqueue(body));
    var run2, w2 := AlertAfter(d, [] + [Enqueue(body)], w1, 0, 0, false);
    var wait := Tick(SECONDS_PER_DAY + 1 - d.timeout);
    Extend(d, run2, w2, wait);
    var w3 := Apply(d, w2, wait);
    Extend(d, run2 + [wait], w3, Enqueue(body));
    var w4 := Apply(d, w3, Enqueue(body));
    run, w := AlertAfter(d, run2 + [wait] + [Enqueue(body)], w4, 1, d.timeout, true);
  }

  lemma WindowTooLong(d: Deployment, body: Body)
    requires d.Admitted() && !SlotOutlivesWindow(d)
    requires d.settings.verdict(body).Accept? && d.settings.Critical(d.settings.verdict(body).record)
    ensures !AlwaysSpaced(d)
  {
    var run, w := TwoAlertsInWindow(d, body);
    assert !Spaced(d.settings, w.st.claims);
  }

  /**
   The spacing theorem: for a deployment that can see a critical reading, claims
   are spaced in every run if and only if the window plus the timeout fits in the
   slot's TTL of one day.
   */
  lemma SpacingIff(d: Deployment, body: Body)
    requires d.Admitted()
    requires d.settings.verdict(body).Accept? && d.settings.Critical(d.settings.verdict(body).record)
    ensures AlwaysSpaced(d) <==> 60 * d.settings.suppressionMinutes + d.timeout <= 86400
  {
    if SlotOutlivesWindow(d) {
      forall run, w | Reaches(d, run, w) ensures Spaced(d.settings, w.st.claims) {
        SpacingHolds(d, run, w);
      }
    } else {
      WindowTooLong(d, body);
    }
  }

  /** The deployed 30 minutes are safe; the longest window the validations admit is not. */
  lemma AdmittedWindows(d: Deployment, body: Body)
    requires d.Admitted()
    requires d.settings.verdict(body).Accept? && d.settings.Critical(d.settings.verdict(body).record)
    ensures d.settings.suppressionMinutes == 30 ==> AlwaysSpaced(d)
    ensures d.settings.suppressionMinutes == 1440 ==> !AlwaysSpaced(d)
  {
    SpacingIff(d, body);
  }
}

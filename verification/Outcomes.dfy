/**
 What processing one message comes to, in closed form: its result and the stores it
 leaves, read off the record, the stores it found and the answers it got.
 */
module Outcomes {
  import opened Wrappers
  import opened Telemetry
  import opened Protocol
  import opened Machine
  import opened Processing

  /** A call that the code sees as an exception. */
  predicate Fails(o: Outcome) {
    o == Refused || o == Lost
  }

  lemma StoringResult(s: Settings, st: Stores, body: Body, now: nat, r: TelemetryRecord, a: Alert, f: Faults)
    ensures var key := HotKey(r.deviceId, r.seqNo);
      Settle(s, st, body, now, Storing(r, a), f).1
        == if Fails(f.hot) then Transient(a) else Kept(key !in st.hot && f.hot == Done, a)
    ensures var key := HotKey(r.deviceId, r.seqNo);
      var st' := Settle(s, st, body, now, Storing(r, a), f).0;
      && st'.hot == (if key !in st.hot && f.hot != Refused
                     then st.hot[key := HotItem(r, now, now + 86400 * s.hotRetentionDays)] else st.hot)
      && st'.slots == st.slots && st'.cold == st.cold && st'.calls == st.calls && st'.claims == st.claims
  {
    SettleStep(s, st, body, now, Storing(r, a), f);
  }

  /** The alert of a critical reading that has been archived. */
  function AlertOf(free: bool, f: Faults): Alert {
    if free && f.claim == Done then Alerted else Suppressed
  }

  lemma ClaimingResult(s: Settings, st: Stores, body: Body, now: nat, r: TelemetryRecord, f: Faults)
    ensures var free := r.deviceId !in st.slots || st.slots[r.deviceId].suppressUntil < now;
      var key := HotKey(r.deviceId, r.seqNo);
      Settle(s, st, body, now, Claiming(r), f).1
        == if Fails(f.claim) then Transient(Quiet)
           else if free && f.claim == Done && Fails(f.publish) then AlertLost
           else if Fails(f.hot) then Transient(AlertOf(free, f))
           else Kept(key !in st.hot && f.hot == Done, AlertOf(free, f))
  {
    SettleStep(s, st, body, now, Claiming(r), f);
    var (st1, t1) := Advance(s, st, body, now, Claiming(r), f.claim);
    if t1.Publishing? {
      SettleStep(s, st1, body, now, t1, f);
      StoringResult(s, CallPublish(st1, t1.claim, r, f.publish), body, now, r, Alerted, f);
    } else if t1.Storing? {
      StoringResult(s, st1, body, now, r, Suppressed, f);
    }
  }

  lemma ClaimingStores(s: Settings, st: Stores, body: Body, now: nat, r: TelemetryRecord, f: Faults)
    ensures var free := r.deviceId !in st.slots || st.slots[r.deviceId].suppressUntil < now;
      var key := HotKey(r.deviceId, r.seqNo);
      var st' := Settle(s, st, body, now, Claiming(r), f).0;
      var stores := !Fails(f.claim) && !(free && f.claim == Done && Fails(f.publish));
      && st'.cold == st.cold
      && st'.slots == (if free && f.claim != Refused
                       then st.slots[r.deviceId := Slot(now + 60 * s.suppressionMinutes, now + 86400)] else st.slots)
      && st'.calls == st.calls
           + (if free && f.claim == Done
              then [AlertCall(|st.claims|, r.deviceId, r.seqNo, f.publish != Refused, !Fails(f.publish))] else [])
      && st'.hot == (if stores && key !in st.hot && f.hot != Refused
                     then st.hot[key := HotItem(r, now, now + 86400 * s.hotRetentionDays)] else st.hot)
  {
    SettleStep(s, st, body, now, Claiming(r), f);
    var (st1, t1) := Advance(s, st, body, now, Claiming(r), f.claim);
    if t1.Publishing? {
      SettleStep(s, st1, body, now, t1, f);
      StoringResult(s, CallPublish(st1, t1.claim, r, f.publish), body, now, r, Alerted, f);
    } else if t1.Storing? {
      StoringResult(s, st1, body, now, r, Suppressed, f);
    }
  }

  /**
   The result of processing an accepted body. A failed archive or claim raises before
   anything else; a failed publish raises as a lost alert; a failed hot write raises last,
   taking the alert's counters with it; otherwise the message is kept, as stored exactly
   when its key was absent and the insert was answered.
   */
  lemma ResultOf(s: Settings, st: Stores, body: Body, now: nat, f: Faults)
    requires s.verdict(body).Accept?
    ensures var r := s.verdict(body).record;
      var critical := r.smokePpm >= s.thresholds.smokeAlertPpm;
      var free := r.deviceId !in st.slots || st.slots[r.deviceId].suppressUntil < now;
      var alert := if critical then AlertOf(free, f) else Quiet;
      Process(s, st, body, now, f).1
        == if Fails(f.cold) || (critical && Fails(f.claim)) then Transient(Quiet)
           else if alert == Alerted && Fails(f.publish) then AlertLost
           else if Fails(f.hot) then Transient(alert)
           else Kept(HotKey(r.deviceId, r.seqNo) !in st.hot && f.hot == Done, alert)
  {
    var r := s.verdict(body).record;
    SettleStep(s, st, body, now, Fresh, f);
    SettleStep(s, st, body, now, Archiving(r), f);
    var st1 := PutCold(st, ColdKeyOf(r), body, f.cold);
    ClaimingResult(s, st1, body, now, r, f);
    StoringResult(s, st1, body, now, r, Quiet, f);
  }

  /** The stores it leaves: object, slot, calls to the topic and item, with their keys and timestamps. */
  lemma StoresAfter(s: Settings, st: Stores, body: Body, now: nat, f: Faults)
    requires s.verdict(body).Accept?
    ensures var r := s.verdict(body).record;
      var t := r.tsDevice;
      var critical := r.smokePpm >= s.thresholds.smokeAlertPpm;
      var free := r.deviceId !in st.slots || st.slots[r.deviceId].suppressUntil < now;
      var claims := !Fails(f.cold) && critical && free;
      var calls := claims && f.claim == Done;
      var stores := !Fails(f.cold) && !(critical && Fails(f.claim)) && !(calls && Fails(f.publish));
      var key := HotKey(r.deviceId, r.seqNo);
      var st' := Process(s, st, body, now, f).0;
      && st'.cold == (if f.cold == Refused then st.cold
                      else st.cold[ColdKey(t.year, t.month, t.day, t.hour, r.deviceId, r.seqNo) := body])
      && st'.slots == (if claims && f.claim != Refused
                       then st.slots[r.deviceId := Slot(now + 60 * s.suppressionMinutes, now + 86400)] else st.slots)
      && st'.calls == st.calls
           + (if calls then [AlertCall(|st.claims|, r.deviceId, r.seqNo, f.publish != Refused, !Fails(f.publish))]
              else [])
      && st'.hot == (if stores && key !in st.hot && f.hot != Refused
                     then st.hot[key := HotItem(r, now, now + 86400 * s.hotRetentionDays)] else st.hot)
  {
    var r := s.verdict(body).record;
    SettleStep(s, st, body, now, Fresh, f);
    SettleStep(s, st, body, now, Archiving(r), f);
    var st1 := PutCold(st, ColdKeyOf(r), body, f.cold);
    if Fails(f.cold) {
    } else if r.smokePpm >= s.thresholds.smokeAlertPpm {
      ClaimingStores(s, st1, body, now, r, f);
    } else {
      StoringResult(s, st1, body, now, r, Quiet, f);
    }
  }

  /** A body that is not accepted leaves everything as it was. */
  lemma NotAccepted(s: Settings, st: Stores, body: Body, now: nat, f: Faults)
    requires !s.verdict(body).Accept?
    ensures Process(s, st, body, now, f) == (st, if s.verdict(body) == Reject then Invalid else Transient(Quiet))
  {
    SettleStep(s, st, body, now, Fresh, f);
  }

  // ----- What the counters count -----

  function CountResults(results: seq<Result>, p: Result -> bool): nat {
    if results == [] then 0
    else CountResults(results[..|results| - 1], p) + (if p(results[|results| - 1]) then 1 else 0)
  }

  predicate IsStored(r: Result) { r.Kept? && r.inserted }
  predicate IsDuplicate(r: Result) { r.Kept? && !r.inserted }
  predicate IsInvalid(r: Result) { r == Invalid }
  predicate IsAlerted(r: Result) { r.Kept? && r.alert == Alerted }
  predicate IsSuppressed(r: Result) { r.Kept? && r.alert == Suppressed }
  predicate IsAlertLost(r: Result) { r == AlertLost }

  /** Each counter is the number of results of its kind, and counts nothing else. */
  lemma {:induction false} TotalsExact(results: seq<Result>)
    ensures Totals(results).stored == CountResults(results, IsStored)
    ensures Totals(results).duplicates == CountResults(results, IsDuplicate)
    ensures Totals(results).invalid == CountResults(results, IsInvalid)
    ensures Totals(results).published == CountResults(results, IsAlerted)
    ensures Totals(results).suppressed == CountResults(results, IsSuppressed)
    ensures Totals(results).publishFailures == CountResults(results, IsAlertLost)
    decreases |results|
  {
    if results != [] {
      TotalsExact(results[..|results| - 1]);
    }
  }

  /** How many records of a batch were kept and carry smoke at or above the threshold. */
  function KeptCritical(s: Settings, bodies: seq<Body>, results: seq<Result>): nat
    requires |bodies| == |results|
  {
    if bodies == [] then 0
    else
      var last := |bodies| - 1;
      var v := s.verdict(bodies[last]);
      KeptCritical(s, bodies[..last], results[..last])
      + (if results[last].Kept? && v.Accept? && v.record.smokePpm >= s.thresholds.smokeAlertPpm then 1 else 0)
  }

  lemma KeptAlert(s: Settings, st: Stores, body: Body, now: nat, f: Faults)
    ensures var r := Process(s, st, body, now, f).1;
      var v := s.verdict(body);
      r.Kept? ==> v.Accept? && (r.alert != Quiet <==> v.record.smokePpm >= s.thresholds.smokeAlertPpm)
  {
    if s.verdict(body).Accept? {
      ResultOf(s, st, body, now, f);
    } else {
      NotAccepted(s, st, body, now, f);
    }
  }

  /** AlertsPublished + AlertsSuppressed is the number of kept critical readings of a batch, under any faults. */
  lemma {:induction false} KeptCriticalCounted(
      s: Settings, st: Stores, bodies: seq<Body>, now: nat, faults: seq<Faults>)
    requires |bodies| == |faults|
    ensures var results := ProcessBatch(s, st, bodies, now, faults).1;
      Totals(results).published + Totals(results).suppressed == KeptCritical(s, bodies, results)
    decreases |bodies|
  {
    if bodies != [] {
      var n := |bodies| - 1;
      KeptCriticalCounted(s, st, bodies[..n], now, faults[..n]);
      var (st1, rs) := ProcessBatch(s, st, bodies[..n], now, faults[..n]);
      var r := Process(s, st1, bodies[n], now, faults[n]).1;
      KeptAlert(s, st1, bodies[n], now, faults[n]);
      assert (rs + [r])[..n] == rs;
    }
  }
}

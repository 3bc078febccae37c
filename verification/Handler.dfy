/**
 `lambda_handler` and the functions it calls, in the source's own form: a cloud
 object whose stores the client calls change, exceptions as `Result` values, and
 a batch loop that updates totals and appends failures.
 */
module Handler {
  import opened Wrappers
  import opened Telemetry
  import opened Protocol
  import opened Processing
  import opened Machine
  import Risk

  /** One SQS record as the event carries it. */
  datatype Record = Record(messageId: nat, body: Body)

  /** The table, the bucket and the topic behind the three boto3 clients. */
  class Cloud {
    var hot: map<HotKey, HotItem>
    var slots: map<string, Slot>
    var cold: map<ColdKey, Body>
    ghost var written: set<(ColdKey, Body)>
    var claims: seq<Claim>
    var calls: seq<AlertCall>
    var inserts: seq<Insert>

    constructor ()
      ensures View() == EMPTY_STORES
    {
      hot, slots, cold, written := map[], map[], map[], {};
      claims, calls, inserts := [], [], [];
    }

    ghost function View(): Stores
      reads this
    {
      Stores(hot, slots, cold, written, claims, calls, inserts)
    }

    /** cold_store.store_raw_copy: overwrites the object at the record's key. */
    method StoreRawCopy(r: TelemetryRecord, body: Body, o: Outcome) returns (ok: bool)
      modifies this
      ensures View() == PutCold(old(View()), ColdKeyOf(r), body, o)
      ensures var t := r.tsDevice;
        cold == if o == Refused then old(cold)
                else old(cold)[ColdKey(t.year, t.month, t.day, t.hour, r.deviceId, r.seqNo) := body]
      ensures ok <==> o == Done || o == Replayed
    {
      var key := ColdKeyOf(r);
      if !o.Refused? {
        cold := cold[key := body];
        written := written + {(key, body)};
      }
      ok := !Raises(o);
    }

    /** alerts.try_acquire_alert_slot: the conditional claim. */
    method TryAcquireAlertSlot(s: Settings, device: string, now: nat, o: Outcome) returns (reply: Reply)
      modifies this
      ensures View() == ClaimSlot(s, old(View()), device, now, o)
      ensures reply == ConditionalReply(SlotFree(old(View()), device, now), o)
      ensures reply.Yes? ==> |claims| == |old(claims)| + 1
      ensures var free := device !in old(slots) || old(slots)[device].suppressUntil < now;
        && slots == (if free && o != Refused
                     then old(slots)[device := Slot(now + 60 * s.suppressionMinutes, now + 86400)] else old(slots))
        && (reply == Yes <==> free && o == Done)
        && (reply == Fault <==> o == Refused || o == Lost)
    {
      var suppressUntil := now + 60 * s.suppressionMinutes;
      var free := device !in slots || slots[device].suppressUntil < now;
      reply := ConditionalReply(free, o);
      if Writes(free, o) {
        slots := slots[device := Slot(suppressUntil, now + SECONDS_PER_DAY)];
        claims := claims + [Claim(device, now, reply)];
      }
    }

    /** alerts.publish_alert: one message to the topic. */
    method PublishAlert(claim: nat, r: TelemetryRecord, o: Outcome) returns (ok: bool)
      modifies this
      ensures View() == CallPublish(old(View()), claim, r, o)
      ensures calls == old(calls) + [AlertCall(claim, r.deviceId, r.seqNo, o != Refused, ok)]
      ensures ok <==> o == Done || o == Replayed
    {
      calls := calls + [AlertCall(claim, r.deviceId, r.seqNo, !o.Refused?, !Raises(o))];
      ok := !Raises(o);
    }

    /** persistence.store_telemetry: insert unless the key is already there. */
    method StoreTelemetry(s: Settings, r: TelemetryRecord, now: nat, o: Outcome) returns (reply: Reply)
      modifies this
      ensures View() == InsertHot(s, old(View()), r, now, o)
      ensures reply == ConditionalReply(HotKeyOf(r) !in old(hot), o)
      ensures var key := HotKey(r.deviceId, r.seqNo);
        && hot == (if key !in old(hot) && o != Refused
                   then old(hot)[key := HotItem(r, now, now + 86400 * s.hotRetentionDays)] else old(hot))
        && (reply == Yes <==> key !in old(hot) && o == Done)
        && (reply == Fault <==> o == Refused || o == Lost)
      ensures forall k :: k in old(hot) ==> k in hot && hot[k] == old(hot)[k]
    {
      var key := HotKeyOf(r);
      var unseen := key !in hot;
      reply := ConditionalReply(unseen, o);
      if Writes(unseen, o) {
        var item := HotItem(r, now, now + SECONDS_PER_DAY * s.hotRetentionDays);
        hot := hot[key := item];
        inserts := inserts + [Insert(key, item)];
      }
    }

    /** The end of handler._process_message: the hot write and the counters it returns. */
    method StoreReading(s: Settings, body: Body, r: TelemetryRecord, alert: Alert, now: nat, f: Faults)
      returns (result: Result)
      modifies this
      ensures (View(), result) == Settle(s, old(View()), body, now, Storing(r, alert), f)
    {
      SettleStep(s, View(), body, now, Storing(r, alert), f);
      var stored := StoreTelemetry(s, r, now, f.hot);
      match stored
      case Yes => return Kept(true, alert);
      case No => return Kept(false, alert);
      case Fault => return Transient(alert);
    }

    /** The middle of handler._process_message: a critical reading claims its slot and alerts before it is stored. */
    method AlertAndStore(s: Settings, body: Body, r: TelemetryRecord, now: nat, f: Faults) returns (result: Result)
      modifies this
      ensures (View(), result) == Settle(s, old(View()), body, now, Claiming(r), f)
    {
      SettleStep(s, View(), body, now, Claiming(r), f);
      var reply := TryAcquireAlertSlot(s, r.deviceId, now, f.claim);
      match reply
      case Fault => return Transient(Quiet);
      case No => result := StoreReading(s, body, r, Suppressed, now, f);
      case Yes =>
        SettleStep(s, View(), body, now, Publishing(r, |claims| - 1), f);
        var published := PublishAlert(|claims| - 1, r, f.publish);
        if !published {
          return AlertLost;
        }
        result := StoreReading(s, body, r, Alerted, now, f);
    }

    /** handler._process_message after validation, with the raised exception as the result. */
    method ProcessDecided(s: Settings, body: Body, v: Verdict, now: nat, f: Faults) returns (result: Result)
      requires v == s.verdict(body)
      modifies this
      ensures (View(), result) == Process(s, old(View()), body, now, f)
    {
      SettleStep(s, View(), body, now, Fresh, f);
      match v
      case Reject => return Invalid;
      case Unreadable => return Transient(Quiet);
      case Accept(r) =>
        var assessment := Risk.Evaluate(r, s.thresholds);
        SettleStep(s, View(), body, now, Archiving(r), f);
        var archived := StoreRawCopy(r, body, f.cold);
        if !archived {
          return Transient(Quiet);
        }
        if assessment.level.Critical? {
          result := AlertAndStore(s, body, r, now, f);
        } else {
          result := StoreReading(s, body, r, Quiet, now, f);
        }
    }

    /** handler._process_message: `s.verdict` stands for decoding and validating the body. */
    method ProcessMessage(s: Settings, body: Body, now: nat, f: Faults) returns (result: Result)
      modifies this
      ensures (View(), result) == Process(s, old(View()), body, now, f)
    {
      result := ProcessDecided(s, body, s.verdict(body), now, f);
    }

    /**
     handler.lambda_handler: the partial batch response and the emitted counters.
     Only the records whose processing raised are reported, in batch order.
     */
    method LambdaHandler(s: Settings, records: seq<Record>, now: nat, faults: seq<Faults>)
      returns (failures: seq<nat>, totals: Counts)
      requires |faults| == |records|
      modifies this
      ensures var (st, results) := ProcessBatch(s, old(View()), RecordBodies(records), now, faults);
        && View() == st
        && failures == Failures(RecordIds(records), results)
        && totals == Totals(results)
    {
      failures := [];
      totals := ZERO;
      ghost var bodies := RecordBodies(records);
      ghost var ids := RecordIds(records);
      ghost var results := [];
      var k := 0;
      while k < |records|
        invariant 0 <= k <= |records|
        invariant (View(), results) == ProcessBatch(s, old(View()), bodies[..k], now, faults[..k])
        invariant failures == Failures(ids[..k], results)
        invariant totals == Totals(results)
      {
        var result := ProcessMessage(s, records[k].body, now, faults[k]);
        BatchSnoc(s, old(View()), bodies, now, faults, ids, k);
        results := results + [result];
        match result {
          case Kept(inserted, alert) =>
            totals := AddOutcome(totals, inserted, alert);
          case Invalid =>
            totals := totals.(invalid := totals.invalid + 1);
            failures := failures + [records[k].messageId];
          case AlertLost =>
            totals := totals.(publishFailures := totals.publishFailures + 1);
            failures := failures + [records[k].messageId];
          case Transient(_) =>
            failures := failures + [records[k].messageId];
        }
        k := k + 1;
      }
      assert bodies[..k] == bodies && faults[..k] == faults && ids[..k] == ids;
    }
  }

  /** Adds the counters one processed message returned. */
  method AddOutcome(totals: Counts, inserted: bool, alert: Alert) returns (sum: Counts)
    ensures sum == Tally(totals, Kept(inserted, alert))
    ensures sum.stored == totals.stored + (if inserted then 1 else 0)
    ensures sum.duplicates == totals.duplicates + (if inserted then 0 else 1)
    ensures sum.published == totals.published + (if alert == Alerted then 1 else 0)
    ensures sum.suppressed == totals.suppressed + (if alert == Suppressed then 1 else 0)
    ensures sum.invalid == totals.invalid && sum.publishFailures == totals.publishFailures
  {
    sum := totals;
    if inserted {
      sum := sum.(stored := sum.stored + 1);
    } else {
      sum := sum.(duplicates := sum.duplicates + 1);
    }
    if alert.Alerted? {
      sum := sum.(published := sum.published + 1);
    } else if alert.Suppressed? {
      sum := sum.(suppressed := sum.suppressed + 1);
    }
  }

  function RecordBodies(records: seq<Record>): (bodies: seq<Body>)
    ensures |bodies| == |records|
    ensures forall k :: 0 <= k < |records| ==> bodies[k] == records[k].body
  {
    seq(|records|, k requires 0 <= k < |records| => records[k].body)
  }

  function RecordIds(records: seq<Record>): (ids: seq<nat>)
    ensures |ids| == |records|
    ensures forall k :: 0 <= k < |records| ==> ids[k] == records[k].messageId
  {
    seq(|records|, k requires 0 <= k < |records| => records[k].messageId)
  }
}

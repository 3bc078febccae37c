/**
 One message, one external call at a time: what the S3 put, the slot claim, the
 publish and the conditional insert do to the stores, and the order in which
 `_process_message` makes them. Both the sequential handler and the concurrent
 machine are built from the single function `Advance`.
 */
module Protocol {
  import opened Wrappers
  import opened Telemetry
  import Risk

  const SECONDS_PER_DAY: nat := 86400

  type Body = string

  /** What decoding and validating a body yields: a record, a contract violation, or any other exception. */
  datatype Verdict = Accept(record: TelemetryRecord) | Reject | Unreadable

  /** The function configuration. `verdict` stands for `json.loads` followed by `validate_payload`. */
  datatype Settings = Settings(
    verdict: Body -> Verdict,
    thresholds: Risk.Thresholds,
    suppressionMinutes: nat,
    hotRetentionDays: nat)
  {
    predicate Critical(r: TelemetryRecord) {
      Risk.SmokeFires(r, thresholds)
    }

    function Window(): nat {
      60 * suppressionMinutes
    }

    function HotRetention(): nat {
      SECONDS_PER_DAY * hotRetentionDays
    }
  }

  /**
   How the environment answers one client call.
   Done: applied and reported. Refused: not applied, reported as an error.
   Lost: applied, but reported as an error. Replayed: applied, the answer was lost
   inside the SDK and its own retry of a conditional put met the item just written.
   */
  datatype Outcome = Done | Refused | Lost | Replayed

  datatype Reply = Yes | No | Fault

  function ConditionalReply(holds: bool, o: Outcome): Reply {
    match o
    case Done => if holds then Yes else No
    case Replayed => No
    case Refused => Fault
    case Lost => Fault
  }

  predicate Writes(holds: bool, o: Outcome) {
    holds && !o.Refused?
  }

  predicate Raises(o: Outcome) {
    o.Refused? || o.Lost?
  }

  datatype HotItem = HotItem(record: TelemetryRecord, ingestedAt: nat, expiresAt: nat)
  datatype Slot = Slot(suppressUntil: nat, expiresAt: nat)

  // Histories. They only grow, in commit order.
  datatype Claim = Claim(device: string, now: nat, reply: Reply)
  datatype AlertCall = AlertCall(claim: nat, device: string, seqNo: nat, delivered: bool, reported: bool)
  datatype Insert = Insert(key: HotKey, item: HotItem)

  datatype Stores = Stores(
    hot: map<HotKey, HotItem>,
    slots: map<string, Slot>,
    cold: map<ColdKey, Body>,
    written: set<(ColdKey, Body)>,
    claims: seq<Claim>,
    calls: seq<AlertCall>,
    inserts: seq<Insert>)

  // ----- The four effects -----

  function PutCold(st: Stores, key: ColdKey, body: Body, o: Outcome): Stores {
    if o.Refused? then st
    else st.(cold := st.cold[key := body], written := st.written + {(key, body)})
  }

  predicate SlotFree(st: Stores, device: string, now: nat) {
    device !in st.slots || st.slots[device].suppressUntil < now
  }

  function NewSlot(s: Settings, now: nat): Slot {
    Slot(now + s.Window(), now + SECONDS_PER_DAY)
  }

  function ClaimSlot(s: Settings, st: Stores, device: string, now: nat, o: Outcome): Stores {
    var free := SlotFree(st, device, now);
    if !Writes(free, o) then st
    else st.(slots := st.slots[device := NewSlot(s, now)],
             claims := st.claims + [Claim(device, now, ConditionalReply(free, o))])
  }

  function CallPublish(st: Stores, claim: nat, r: TelemetryRecord, o: Outcome): Stores {
    st.(calls := st.calls + [AlertCall(claim, r.deviceId, r.seqNo, !o.Refused?, !Raises(o))])
  }

  function NewItem(s: Settings, r: TelemetryRecord, now: nat): HotItem {
    HotItem(r, now, now + s.HotRetention())
  }

  function InsertHot(s: Settings, st: Stores, r: TelemetryRecord, now: nat, o: Outcome): Stores {
    var key := HotKeyOf(r);
    if !Writes(key !in st.hot, o) then st
    else st.(hot := st.hot[key := NewItem(s, r, now)],
             inserts := st.inserts + [Insert(key, NewItem(s, r, now))])
  }

  // ----- Processing one message -----

  /** Whether this message raised an alert, was suppressed, or needed none. */
  datatype Alert = Quiet | Suppressed | Alerted

  /** How `_process_message` ends. `Kept` returns counters, the others raise. */
  datatype Result =
    | Kept(inserted: bool, alert: Alert)
    | Invalid
    | AlertLost
    | Transient(dropped: Alert)

  /** Where an invocation stands within one message. `claim` indexes the claim it won. */
  datatype Task =
    | Fresh
    | Archiving(record: TelemetryRecord)
    | Claiming(record: TelemetryRecord)
    | Publishing(record: TelemetryRecord, claim: nat)
    | Storing(record: TelemetryRecord, alert: Alert)
    | Finished(result: Result)
  {
    function Rank(): nat {
      match this
      case Fresh => 5
      case Archiving(_) => 4
      case Claiming(_) => 3
      case Publishing(_, _) => 2
      case Storing(_, _) => 1
      case Finished(_) => 0
    }
  }

  /** The next call of a message in progress, answered with `o`. */
  function Advance(s: Settings, st: Stores, body: Body, now: nat, t: Task, o: Outcome): (p: (Stores, Task))
    requires !t.Finished?
    ensures p.1.Rank() < t.Rank()
  {
    match t
    case Fresh =>
      (match s.verdict(body)
       case Accept(r) => (st, Archiving(r))
       case Reject => (st, Finished(Invalid))
       case Unreadable => (st, Finished(Transient(Quiet))))
    case Archiving(r) =>
      (PutCold(st, ColdKeyOf(r), body, o),
       if Raises(o) then Finished(Transient(Quiet))
       else if s.Critical(r) then Claiming(r)
       else Storing(r, Quiet))
    case Claiming(r) =>
      (ClaimSlot(s, st, r.deviceId, now, o),
       match ConditionalReply(SlotFree(st, r.deviceId, now), o)
       case Yes => Publishing(r, |st.claims|)
       case No => Storing(r, Suppressed)
       case Fault => Finished(Transient(Quiet)))
    case Publishing(r, c) =>
      (CallPublish(st, c, r, o),
       if Raises(o) then Finished(AlertLost) else Storing(r, Alerted))
    case Storing(r, a) =>
      (InsertHot(s, st, r, now, o),
       match ConditionalReply(HotKeyOf(r) !in st.hot, o)
       case Yes => Finished(Kept(true, a))
       case No => Finished(Kept(false, a))
       case Fault => Finished(Transient(a)))
  }

  /**
   The order of effects, one store per call: deciding touches nothing, archiving the
   bucket, claiming the slots, publishing the topic, storing the table. Only an archived
   reading gets further, only a critical one claims, only a won claim publishes, and only
   the hot write, made at the end, lets the message be kept.
   */
  lemma OneEffectPerCall(s: Settings, st: Stores, body: Body, now: nat, t: Task, o: Outcome)
    requires !t.Finished?
    ensures var (st', t') := Advance(s, st, body, now, t, o);
      && (t.Fresh? ==> st' == st)
      && (t.Archiving? ==> st' == st.(cold := st'.cold, written := st'.written))
      && (t.Claiming? ==> st' == st.(slots := st'.slots, claims := st'.claims))
      && (t.Publishing? ==> st' == st.(calls := st'.calls) && |st'.calls| == |st.calls| + 1)
      && (t.Storing? ==> st' == st.(hot := st'.hot, inserts := st'.inserts) && t'.Finished?)
    ensures var (st', t') := Advance(s, st, body, now, t, o);
      && (t.Archiving? && !t'.Finished? ==>
            ColdKeyOf(t.record) in st'.cold && st'.cold[ColdKeyOf(t.record)] == body
            && (t'.Claiming? <==> s.Critical(t.record)))
      && (t'.Claiming? ==> t.Archiving?)
      && (t'.Publishing? ==> t.Claiming? && SlotFree(st, t.record.deviceId, now) && |st'.claims| == |st.claims| + 1)
      && (t'.Storing? && t'.alert.Alerted? ==> t.Publishing?)
      && (t'.Finished? && t'.result.Kept? ==> t.Storing? && HotKeyOf(t.record) in st'.hot)
  {
  }

  // ----- Counters -----

  datatype Counts = Counts(stored: nat, duplicates: nat, invalid: nat,
                           published: nat, suppressed: nat, publishFailures: nat)

  const ZERO := Counts(0, 0, 0, 0, 0, 0)

  function Tally(c: Counts, r: Result): Counts {
    match r
    case Kept(inserted, alert) =>
      c.(stored := c.stored + (if inserted then 1 else 0),
         duplicates := c.duplicates + (if inserted then 0 else 1),
         published := c.published + (if alert.Alerted? then 1 else 0),
         suppressed := c.suppressed + (if alert.Suppressed? then 1 else 0))
    case Invalid => c.(invalid := c.invalid + 1)
    case AlertLost => c.(publishFailures := c.publishFailures + 1)
    case Transient(_) => c
  }
}

/** The validator plugged into the machine: what the contract guarantees about everything ever stored. */
module Ingest {
  import opened Wrappers
  import opened Telemetry
  import opened Protocol
  import opened Machine
  import opened Invariants
  import opened Processing
  import opened Handler
  import opened HotCold
  import opened Items
  import Contract
  import Keys
  import Poison
  import Risk

  /** `json.loads`: a value, a JSONDecodeError, or another exception (a number of too many digits, say). */
  datatype Decoded = Value(data: Contract.Json) | NotJson | Broken

  /** json.loads, then validate_payload, as `_process_message` calls them. */
  function VerdictOf(rd: Contract.Reader, decode: Body -> Decoded, body: Body): Verdict {
    match decode(body)
    case NotJson => Reject
    case Broken => Unreadable
    case Value(data) =>
      match Contract.Judge(rd, data)
      case Valid(r) => Accept(r)
      case Violated(_) => Reject
      case Overflow => Unreadable
  }

  function SettingsWith(rd: Contract.Reader, decode: Body -> Decoded, thresholds: Risk.Thresholds,
                        suppressionMinutes: nat, hotRetentionDays: nat): Settings
  {
    Settings(body => VerdictOf(rd, decode, body), thresholds, suppressionMinutes, hotRetentionDays)
  }

  lemma AcceptedRecord(rd: Contract.Reader, decode: Body -> Decoded, body: Body)
    ensures VerdictOf(rd, decode, body).Accept? ==>
              && decode(body).Value? && Contract.Meets(rd, decode(body).data)
              && Contract.RecordOk(rd, VerdictOf(rd, decode, body).record)
              && |VerdictOf(rd, decode, body).record.deviceId| == Keys.DEVICE_LENGTH
  {
    if VerdictOf(rd, decode, body).Accept? {
      Contract.ValidIffMeets(rd, decode(body).data);
      Contract.ValidatedRecordOk(rd, decode(body).data);
    }
  }

  /** A field overflows, so that validation raises OverflowError whatever else is wrong. */
  predicate OverflowsIn(rd: Contract.Reader, data: Contract.Json) {
    data.Object? && Contract.Complete(data.fields) && Contract.Overflows(rd, data.fields)
  }

  /** `v` is the outcome the contract prescribes: the record, a permanent failure or a transient one. */
  ghost predicate Prescribed(rd: Contract.Reader, d: Decoded, v: Verdict) {
    && (v.Accept? <==> d.Value? && Contract.Meets(rd, d.data))
    && (v.Accept? ==> v.record == Contract.RecordOf(rd, d.data.fields))
    && (v.Unreadable? <==> d.Broken? || (d.Value? && OverflowsIn(rd, d.data)))
    && (v.Reject? <==> d.NotJson? || (d.Value? && !Contract.Meets(rd, d.data) && !OverflowsIn(rd, d.data)))
  }

  lemma PrescribedIsUnique(rd: Contract.Reader, d: Decoded, v1: Verdict, v2: Verdict)
    ensures Prescribed(rd, d, v1) && Prescribed(rd, d, v2) ==> v1 == v2
  {
  }

  /** The machine's verdict on a body is the outcome the contract prescribes. */
  lemma VerdictIsPrescribed(rd: Contract.Reader, decode: Body -> Decoded, body: Body)
    ensures Prescribed(rd, decode(body), VerdictOf(rd, decode, body))
  {
    if decode(body).Value? {
      JudgementIsPrescribed(rd, decode(body).data);
    }
  }

  lemma JudgementIsPrescribed(rd: Contract.Reader, data: Contract.Json)
    ensures Contract.Judge(rd, data).Valid? <==> Contract.Meets(rd, data)
    ensures Contract.Judge(rd, data).Valid? ==> Contract.Judge(rd, data).record == Contract.RecordOf(rd, data.fields)
    ensures Contract.Judge(rd, data).Overflow? <==> OverflowsIn(rd, data)
  {
    Contract.ValidIffMeets(rd, data);
    if Contract.Meets(rd, data) {
      Contract.MeetingDoesNotOverflow(rd, data.fields);
    } else {
      Contract.ErrorsExact(rd, data);
    }
  }

  /** Decoding and validation as the handler performs them, errors collected along the way. */
  method Decide(rd: Contract.Reader, decode: Body -> Decoded, body: Body) returns (v: Verdict)
    ensures Prescribed(rd, decode(body), v)
  {
    var decoded := decode(body);
    match decoded
    case NotJson => return Reject;
    case Broken => return Unreadable;
    case Value(data) =>
      JudgementIsPrescribed(rd, data);
      var j := Contract.ValidatePayload(rd, data);
      match j
      case Valid(r) => return Accept(r);
      case Violated(_) => return Reject;
      case Overflow => return Unreadable;
  }

  /** One message from its text to the stores: decoding, validation and the effects. */
  method ProcessText(cloud: Cloud, rd: Contract.Reader, decode: Body -> Decoded, thresholds: Risk.Thresholds,
                     suppressionMinutes: nat, hotRetentionDays: nat, body: Body, now: nat, f: Faults)
    returns (result: Result)
    modifies cloud
    ensures (cloud.View(), result)
            == Process(SettingsWith(rd, decode, thresholds, suppressionMinutes, hotRetentionDays), old(cloud.View()),
                       body, now, f)
    ensures result.Invalid? <==>
      decode(body).NotJson? || (decode(body).Value? && !Contract.Meets(rd, decode(body).data)
                                && !OverflowsIn(rd, decode(body).data))
  {
    var s := SettingsWith(rd, decode, thresholds, suppressionMinutes, hotRetentionDays);
    var v := Decide(rd, decode, body);
    VerdictIsPrescribed(rd, decode, body);
    PrescribedIsUnique(rd, decode(body), v, VerdictOf(rd, decode, body));
    InvalidIffRejected(s, cloud.View(), body, now, Fresh, f);
    result := cloud.ProcessDecided(s, body, v, now, f);
  }

  /** Only a rejected body ends as a contract violation. */
  lemma {:induction false} InvalidIffRejected(s: Settings, st: Stores, body: Body, now: nat, t: Task, f: Faults)
    requires !t.Finished?
    ensures Settle(s, st, body, now, t, f).1.Invalid? <==> t.Fresh? && s.verdict(body).Reject?
    decreases t.Rank()
  {
    SettleStep(s, st, body, now, t, f);
    var (st', t') := Advance(s, st, body, now, t, f.For(t));
    if !t'.Finished? {
      InvalidIffRejected(s, st', body, now, t', f);
    }
  }

  /** The deployment's verdict is the contract's. */
  ghost predicate Validates(rd: Contract.Reader, decode: Body -> Decoded, d: Deployment) {
    d.settings == SettingsWith(rd, decode, d.settings.thresholds, d.settings.suppressionMinutes,
                               d.settings.hotRetentionDays)
  }

  lemma AcceptedByDeployment(rd: Contract.Reader, decode: Body -> Decoded, d: Deployment, body: Body)
    requires Validates(rd, decode, d)
    ensures d.settings.verdict(body).Accept? ==>
              var r := d.settings.verdict(body).record;
              && decode(body).Value? && Contract.Meets(rd, decode(body).data)
              && Contract.Judge(rd, decode(body).data) == Contract.Valid(r)
              && Contract.RecordOk(rd, r) && |r.deviceId| == Keys.DEVICE_LENGTH
  {
    assert d.settings.verdict(body) == VerdictOf(rd, decode, body);
    AcceptedRecord(rd, decode, body);
  }

  /**
   In every reachable world every hot item holds an in-range record of the
   contract, and its archived object decodes to a payload that meets the contract
   and carries the same device and sequence number.
   */
  lemma StoredMeetsContract(rd: Contract.Reader, decode: Body -> Decoded, d: Deployment, run: seq<Step>, w: World,
                            key: HotKey)
    requires Validates(rd, decode, d) && Reaches(d, run, w) && key in w.st.hot
    ensures Contract.RecordOk(rd, w.st.hot[key].record)
    ensures HasObject(w.st, key)
    ensures var body := w.st.cold[ColdKeyOf(w.st.hot[key].record)];
      && decode(body).Value? && Contract.Meets(rd, decode(body).data)
      && Contract.Judge(rd, decode(body).data).Valid?
      && HotKeyOf(Contract.Judge(rd, decode(body).data).record) == key
  {
    HotHasCold(d, run, w, key);
    var body := w.st.cold[ColdKeyOf(w.st.hot[key].record)];
    AcceptedByDeployment(rd, decode, d, body);
    var original := StoredBody(d, run, w, key);
    AcceptedByDeployment(rd, decode, d, original);
  }

  /** The body a hot item was built from. */
  lemma StoredBody(d: Deployment, run: seq<Step>, w: World, key: HotKey) returns (body: Body)
    requires Reaches(d, run, w) && key in w.st.hot
    ensures d.settings.verdict(body) == Accept(w.st.hot[key].record)
  {
    Reachable(d, run, w);
    assert HotLogged(w.st, key, w.st.hot[key]);
    var j :| 0 <= j < |w.st.inserts| && w.st.inserts[j] == Insert(key, w.st.hot[key]);
    assert InsertOk(d.settings, w.st, w.clock, w.st.inserts[j]);
    var p :| p in w.st.written && p.0 == ColdKeyOf(w.st.hot[key].record)
      && d.settings.verdict(p.1) == Accept(w.st.hot[key].record);
    body := p.1;
  }

  /**
   The bucket never mixes readings up: two archived objects of a run share the
   text of their key only if their readings share UTC date, hour, device and
   sequence number.
   */
  lemma ArchiveKeysDistinct(rd: Contract.Reader, decode: Body -> Decoded, d: Deployment, run: seq<Step>, w: World,
                            a: ColdKey, b: ColdKey, yearWidth: nat)
    requires Validates(rd, decode, d)
    requires Reaches(d, run, w) && a in w.st.cold && b in w.st.cold
    requires Keys.ObjectKey(a, yearWidth) == Keys.ObjectKey(b, yearWidth)
    ensures a == b
  {
    ArchivedDevice(rd, decode, d, run, w, a);
    ArchivedDevice(rd, decode, d, run, w, b);
    Keys.ObjectKeyInjective(a, b, yearWidth);
  }

  lemma ArchivedDevice(rd: Contract.Reader, decode: Body -> Decoded, d: Deployment, run: seq<Step>, w: World,
                       k: ColdKey)
    requires Validates(rd, decode, d)
    requires Reaches(d, run, w) && k in w.st.cold
    ensures |k.device| == Keys.DEVICE_LENGTH
  {
    Reachable(d, run, w);
    var p := (k, w.st.cold[k]);
    assert WrittenOk(d.settings, w.st, w.msgs, p);
    AcceptedByDeployment(rd, decode, d, p.1);
  }

  /**
   The contract alone does not make the table a view of the archive: two conforming
   bodies of one device, hour and sequence number may carry different temperatures.
   */
  lemma ContractAllowsReuse(rd: Contract.Reader, decode: Body -> Decoded, d: Deployment, iso: UtcTime -> string,
                            r: TelemetryRecord, tempC: real, a: Body, b: Body)
    requires Validates(rd, decode, d) && d.Admitted()
    requires Contract.RecordOk(rd, r) && -20.0 <= tempC <= 80.0 && tempC != r.tempC
    requires rd.parseTs(iso(r.tsDevice)) == Contract.Aware(r.tsDevice)
    requires decode(a) == Value(Contract.Encode(iso, r))
    requires decode(b) == Value(Contract.Encode(iso, r.(tempC := tempC)))
    ensures !AlwaysAgrees(d, _ => true)
  {
    var r' := r.(tempC := tempC);
    Contract.EncodedValidates(rd, iso, r);
    Contract.EncodedValidates(rd, iso, r');
    assert d.settings.verdict(a) == VerdictOf(rd, decode, a) == Accept(r);
    assert d.settings.verdict(b) == VerdictOf(rd, decode, b) == Accept(r');
    FirstAndLastDiffer(d, _ => true, a, b);
  }

  /**
   The overflow in a run: a body that overflows is retried like a transient failure, five
   deliveries per stay, until it lies in the DLQ, and InvalidPayloads never shows it.
   */
  lemma OverflowIsTransient(rd: Contract.Reader, decode: Body -> Decoded, d: Deployment, run: seq<Step>, w: World,
                            m: nat)
    requires Validates(rd, decode, d) && Reaches(d, run, w) && m < |w.msgs| && w.msgs[m].place.Dlq?
    requires decode(w.msgs[m].body).Value? && OverflowsIn(rd, decode(w.msgs[m].body).data)
    ensures Poison.Deliveries(Poison.Batches(w.invs), m) == 5 * (w.msgs[m].redrives + 1)
    ensures Poison.InBounds(w.invs, w.msgs)
    ensures Poison.InvalidPayloads(w.invs) == Poison.OthersTotal(d.settings, w.msgs, w.invs, m)
  {
    VerdictIsPrescribed(rd, decode, w.msgs[m].body);
    assert d.settings.verdict(w.msgs[m].body) == VerdictOf(rd, decode, w.msgs[m].body);
    Poison.UnreadableCost(d, run, w, m);
  }
}

/**
 What every step of the machine keeps. Each element of a world has its own small
 predicate; the lemmas say how these survive growth of the histories and one
 call of `Advance`, and `Invariant` collects them for every reachable world.
 */
module Invariants {
  import opened Wrappers
  import opened Telemetry
  import opened Protocol
  import opened Machine

  // ----- The queue -----

  /** How far `redrives` stays in the DLQ can push the start of the last stay. */
  function Cycles(d: Deployment, redrives: nat): nat {
    if redrives == 0 then 0
    else Cycles(d, redrives - 1) + (if d.dlqRetention == 0 then 0 else d.dlqRetention - 1)
  }

  lemma {:induction false} CyclesMonotone(d: Deployment, a: nat, b: nat)
    requires a <= b
    ensures Cycles(d, a) <= Cycles(d, b)
  {
    if a < b {
      CyclesMonotone(d, a, b - 1);
    }
  }

  ghost predicate MessageOk(d: Deployment, clock: nat, m: Message) {
    && m.receives <= MAX_RECEIVE_COUNT
    && m.lifetimeReceives == MAX_RECEIVE_COUNT * m.redrives + m.receives
    && m.enqueued <= m.stay <= clock
    && m.stay <= m.enqueued + Cycles(d, m.redrives)
    && (m.place.Dlq? ==> m.receives == MAX_RECEIVE_COUNT)
    && (m.place.Expired? ==> m.stay + d.sourceRetention <= clock || m.stay + d.dlqRetention <= clock)
  }

  ghost predicate QueueOk(d: Deployment, w: World) {
    forall m :: 0 <= m < |w.msgs| ==> MessageOk(d, w.clock, w.msgs[m])
  }

  lemma QueueKept(d: Deployment, w: World, s: Step)
    requires Sound(w) && Enabled(d, w, s) && QueueOk(d, w)
    ensures QueueOk(d, Apply(d, w, s))
  {
    var w' := Apply(d, w, s);
    forall m | 0 <= m < |w'.msgs| ensures MessageOk(d, w'.clock, w'.msgs[m]) {
      if m < |w.msgs| {
        assert MessageOk(d, w.clock, w.msgs[m]);
        if s.Redrive? && s.m == m {
          assert Cycles(d, w.msgs[m].redrives + 1) == Cycles(d, w.msgs[m].redrives) + (d.dlqRetention - 1);
        }
      }
    }
  }

  // ----- Growth -----

  /** The histories of `b` extend those of `a`. */
  ghost predicate Grows(a: Stores, b: Stores) {
    && a.claims <= b.claims
    && a.calls <= b.calls
    && a.inserts <= b.inserts
    && a.written <= b.written
  }

  /** Messages are never forgotten and keep their body; redrives only accumulate. */
  ghost predicate QueueGrows(a: seq<Message>, b: seq<Message>) {
    && |a| <= |b|
    && forall m :: 0 <= m < |a| ==>
      && b[m].body == a[m].body
      && b[m].enqueued == a[m].enqueued
      && a[m].redrives <= b[m].redrives
  }

  lemma AdvanceGrows(s: Settings, st: Stores, body: Body, now: nat, t: Task, o: Outcome)
    requires !t.Finished?
    ensures Grows(st, Advance(s, st, body, now, t, o).0)
  {
  }

  lemma StepGrows(d: Deployment, w: World, s: Step)
    requires Sound(w) && Enabled(d, w, s)
    ensures var w' := Apply(d, w, s);
      && Grows(w.st, w'.st)
      && QueueGrows(w.msgs, w'.msgs)
      && w.acks <= w'.acks
      && w.clock <= w'.clock
      && w.abandoned <= w'.abandoned
  {
    if s.Work? {
      var v := w.invs[s.i];
      AdvanceGrows(d.settings, w.st, w.msgs[v.batch[v.pos]].body, v.now, v.task, s.o);
    }
  }

  // ----- Invocations -----

  /** Every message of a batch was received while its stay lasted, and is counted once processed. */
  ghost predicate InvocationOk(d: Deployment, clock: nat, msgs: seq<Message>, v: Invocation) {
    && v.now <= clock
    && NoDuplicates(v.batch)
    && v.pos <= |v.batch|
    && (forall p :: 0 <= p < |v.batch| ==>
        && v.batch[p] < |msgs|
        && v.now < msgs[v.batch[p]].enqueued + Cycles(d, msgs[v.batch[p]].redrives) + d.sourceRetention + d.delivery)
    && (forall p :: 0 <= p < |v.batch| ==>
        ((v.batch[p] in v.acked || v.batch[p] in v.failures) <==> p < v.pos))
    && (forall m :: !(m in v.acked && m in v.failures))
    && |v.acked| + |v.failures| == v.pos
    && (v.emitted ==> v.pos == |v.batch|)
  }

  ghost predicate InvocationsOk(d: Deployment, w: World) {
    forall i :: 0 <= i < |w.invs| ==> InvocationOk(d, w.clock, w.msgs, w.invs[i])
  }

  lemma InvocationSurvives(d: Deployment, clock: nat, msgs: seq<Message>, v: Invocation,
                           clock': nat, msgs': seq<Message>)
    requires InvocationOk(d, clock, msgs, v)
    requires clock <= clock' && QueueGrows(msgs, msgs')
    ensures InvocationOk(d, clock', msgs', v)
  {
    forall p | 0 <= p < |v.batch|
      ensures v.now < msgs'[v.batch[p]].enqueued + Cycles(d, msgs'[v.batch[p]].redrives)
                      + d.sourceRetention + d.delivery
    {
      CyclesMonotone(d, msgs[v.batch[p]].redrives, msgs'[v.batch[p]].redrives);
    }
  }

  lemma ProgressKept(d: Deployment, clock: nat, msgs: seq<Message>, v: Invocation, t: Task)
    requires InvocationOk(d, clock, msgs, v) && v.pos < |v.batch|
    ensures InvocationOk(d, clock, msgs, Progress(v, v.batch[v.pos], t))
  {
    var m := v.batch[v.pos];
    assert m !in v.acked && m !in v.failures;
  }

  lemma NewInvocationOk(d: Deployment, w: World, batch: seq<nat>)
    requires Sound(w) && Enabled(d, w, Invoke(batch)) && QueueOk(d, w)
    ensures var w' := Apply(d, w, Invoke(batch)); InvocationOk(d, w'.clock, w'.msgs, w'.invs[|w.invs|])
  {
    var w' := Apply(d, w, Invoke(batch));
    forall p | 0 <= p < |batch|
      ensures w.clock < w'.msgs[batch[p]].enqueued
                        + Cycles(d, w'.msgs[batch[p]].redrives) + d.sourceRetention + d.delivery
    {
      assert Receivable(d, w, batch[p]) && MessageOk(d, w.clock, w.msgs[batch[p]]);
    }
  }

  lemma OldInvocationOk(d: Deployment, w: World, s: Step, i: nat)
    requires Sound(w) && Enabled(d, w, s) && i < |w.invs| && InvocationOk(d, w.clock, w.msgs, w.invs[i])
    ensures var w' := Apply(d, w, s); InvocationOk(d, w'.clock, w'.msgs, w'.invs[i])
  {
    var w' := Apply(d, w, s);
    StepGrows(d, w, s);
    InvocationSurvives(d, w.clock, w.msgs, w.invs[i], w'.clock, w'.msgs);
    if s.Work? && s.i == i {
      var v := w.invs[i];
      ProgressKept(d, w'.clock, w'.msgs, v,
                   Advance(d.settings, w.st, w.msgs[v.batch[v.pos]].body, v.now, v.task, s.o).1);
    }
  }

  lemma InvocationsKept(d: Deployment, w: World, s: Step)
    requires Sound(w) && Enabled(d, w, s) && QueueOk(d, w) && InvocationsOk(d, w)
    ensures InvocationsOk(d, Apply(d, w, s))
  {
    var w' := Apply(d, w, s);
    forall i | 0 <= i < |w'.invs| ensures InvocationOk(d, w'.clock, w'.msgs, w'.invs[i]) {
      if i < |w.invs| {
        OldInvocationOk(d, w, s, i);
      } else {
        NewInvocationOk(d, w, s.batch);
      }
    }
  }

  // ----- The stores -----

  ghost predicate Inserted(st: Stores, key: HotKey) {
    exists j :: 0 <= j < |st.inserts| && st.inserts[j].key == key
  }

  ghost predicate HotLogged(st: Stores, key: HotKey, item: HotItem) {
    exists j :: 0 <= j < |st.inserts| && st.inserts[j] == Insert(key, item)
  }

  ghost predicate SlotLogged(s: Settings, st: Stores, device: string) {
    && device in st.slots
    && exists j :: 0 <= j < |st.claims| && st.claims[j].device == device
                   && st.slots[device] == NewSlot(s, st.claims[j].now)
  }

  /** An insert belongs to an archived, valid body; it is alive or past its expiry. */
  ghost predicate InsertOk(s: Settings, st: Stores, clock: nat, e: Insert) {
    && e.item == NewItem(s, e.item.record, e.item.ingestedAt)
    && e.key == HotKeyOf(e.item.record)
    && ((e.key in st.hot && st.hot[e.key] == e.item) || e.item.expiresAt < clock)
    && (exists p :: p in st.written && p.0 == ColdKeyOf(e.item.record) && s.verdict(p.1) == Accept(e.item.record))
  }

  ghost predicate Enqueued(msgs: seq<Message>, body: Body) {
    exists m :: 0 <= m < |msgs| && msgs[m].body == body
  }

  /** A body was only ever archived under the key of the record it carries. */
  ghost predicate WrittenOk(s: Settings, st: Stores, msgs: seq<Message>, p: (ColdKey, Body)) {
    && s.verdict(p.1).Accept?
    && p.0 == ColdKeyOf(s.verdict(p.1).record)
    && p.0 in st.cold
    && Enqueued(msgs, p.1)
  }

  ghost predicate StoresOk(s: Settings, st: Stores, clock: nat, msgs: seq<Message>) {
    && (forall k :: k in st.hot ==> HotLogged(st, k, st.hot[k]))
    && (forall dev :: dev in st.slots ==> SlotLogged(s, st, dev))
    && (forall j :: 0 <= j < |st.inserts| ==> InsertOk(s, st, clock, st.inserts[j]))
    && (forall k :: k in st.cold ==> (k, st.cold[k]) in st.written)
    && (forall p :: p in st.written ==> WrittenOk(s, st, msgs, p))
  }

  // ----- Messages in progress -----

  /** The body was archived under the key of its record. */
  ghost predicate Archived(s: Settings, st: Stores, body: Body, r: TelemetryRecord) {
    s.verdict(body) == Accept(r) && (ColdKeyOf(r), body) in st.written
  }

  /** Some claim of this device closes the window over `now`. */
  ghost predicate Covered(s: Settings, st: Stores, device: string, now: nat) {
    exists j :: 0 <= j < |st.claims| && st.claims[j].device == device && now <= st.claims[j].now + s.Window()
  }

  /** A publish for this very reading was reported successful, under a claim made at `now`. */
  ghost predicate Published(st: Stores, r: TelemetryRecord, now: nat) {
    exists k :: 0 <= k < |st.calls|
      && st.calls[k].device == r.deviceId && st.calls[k].seqNo == r.seqNo && st.calls[k].reported
      && st.calls[k].claim < |st.claims|
      && st.claims[st.calls[k].claim] == Claim(r.deviceId, now, Yes)
  }

  ghost predicate AlertOk(s: Settings, st: Stores, r: TelemetryRecord, now: nat, a: Alert) {
    match a
    case Quiet => !s.Critical(r)
    case Suppressed => s.Critical(r) && Covered(s, st, r.deviceId, now)
    case Alerted => s.Critical(r) && Published(st, r, now)
  }

  ghost predicate TaskOk(s: Settings, st: Stores, body: Body, now: nat, t: Task) {
    match t
    case Fresh => true
    case Archiving(r) => s.verdict(body) == Accept(r)
    case Claiming(r) => Archived(s, st, body, r) && s.Critical(r)
    case Publishing(r, c) =>
      Archived(s, st, body, r) && s.Critical(r) && c < |st.claims| && st.claims[c] == Claim(r.deviceId, now, Yes)
    case Storing(r, a) => Archived(s, st, body, r) && AlertOk(s, st, r, now, a)
    case Finished(_) => true
  }

  ghost predicate TasksOk(s: Settings, w: World) {
    forall i :: 0 <= i < |w.invs| && w.invs[i].pos < |w.invs[i].batch| && w.invs[i].batch[w.invs[i].pos] < |w.msgs| ==>
      TaskOk(s, w.st, w.msgs[w.invs[i].batch[w.invs[i].pos]].body, w.invs[i].now, w.invs[i].task)
  }

  /** All an acknowledged message is owed: archived, inserted, and its alert accounted for. */
  ghost predicate AckOk(s: Settings, st: Stores, msgs: seq<Message>, a: Ack) {
    && a.msg < |msgs|
    && Archived(s, st, msgs[a.msg].body, a.record)
    && Inserted(st, HotKeyOf(a.record))
    && AlertOk(s, st, a.record, a.now, a.alert)
  }

  ghost predicate Acked(w: World, m: nat) {
    exists j :: 0 <= j < |w.acks| && w.acks[j].msg == m
  }

  ghost predicate AcksOk(s: Settings, w: World) {
    && (forall j :: 0 <= j < |w.acks| ==> AckOk(s, w.st, w.msgs, w.acks[j]))
    && AckedListed(w)
  }

  lemma AlertSurvives(s: Settings, st: Stores, st': Stores, r: TelemetryRecord, now: nat, a: Alert)
    requires AlertOk(s, st, r, now, a) && Grows(st, st')
    ensures AlertOk(s, st', r, now, a)
  {
    match a
    case Quiet =>
    case Suppressed =>
      var j :| 0 <= j < |st.claims| && st.claims[j].device == r.deviceId && now <= st.claims[j].now + s.Window();
      assert st'.claims[j] == st.claims[j];
    case Alerted =>
      var k :| 0 <= k < |st.calls|
        && st.calls[k].device == r.deviceId && st.calls[k].seqNo == r.seqNo && st.calls[k].reported
        && st.calls[k].claim < |st.claims|
        && st.claims[st.calls[k].claim] == Claim(r.deviceId, now, Yes);
      assert st'.calls[k] == st.calls[k];
      assert st'.claims[st.calls[k].claim] == st.claims[st.calls[k].claim];
  }

  lemma InsertedSurvives(st: Stores, st': Stores, key: HotKey)
    requires Inserted(st, key) && Grows(st, st')
    ensures Inserted(st', key)
  {
    var j :| 0 <= j < |st.inserts| && st.inserts[j].key == key;
    assert st'.inserts[j] == st.inserts[j];
  }

  lemma TaskSurvives(s: Settings, st: Stores, st': Stores, body: Body, now: nat, t: Task)
    requires TaskOk(s, st, body, now, t) && Grows(st, st')
    ensures TaskOk(s, st', body, now, t)
  {
    if t.Storing? {
      AlertSurvives(s, st, st', t.record, now, t.alert);
    }
  }

  lemma AckSurvives(s: Settings, st: Stores, st': Stores, msgs: seq<Message>, msgs': seq<Message>, a: Ack)
    requires AckOk(s, st, msgs, a) && Grows(st, st') && QueueGrows(msgs, msgs')
    ensures AckOk(s, st', msgs', a)
  {
    InsertedSurvives(st, st', HotKeyOf(a.record));
    AlertSurvives(s, st, st', a.record, a.now, a.alert);
  }

  // ----- One call keeps the stores and the message in order -----

  lemma AdvanceTaskOk(s: Settings, st: Stores, clock: nat, msgs: seq<Message>, body: Body, now: nat, t: Task,
                      o: Outcome)
    requires StoresOk(s, st, clock, msgs) && TaskOk(s, st, body, now, t) && !t.Finished?
    ensures TaskOk(s, Advance(s, st, body, now, t, o).0, body, now, Advance(s, st, body, now, t, o).1)
  {
    var (st', t') := Advance(s, st, body, now, t, o);
    match t
    case Fresh =>
    case Archiving(r) =>
    case Claiming(r) =>
      if t'.Storing? {
        if SlotFree(st, r.deviceId, now) {
          assert st'.claims[|st.claims|] == Claim(r.deviceId, now, No);
        } else {
          assert SlotLogged(s, st, r.deviceId);
          var j :| 0 <= j < |st.claims| && st.claims[j].device == r.deviceId
                   && st.slots[r.deviceId] == NewSlot(s, st.claims[j].now);
        }
        assert Covered(s, st', r.deviceId, now);
      }
    case Publishing(r, c) =>
      if t'.Storing? {
        var k := |st.calls|;
        assert st'.calls[k] == AlertCall(c, r.deviceId, r.seqNo, true, true);
        assert Published(st', r, now);
      }
    case Storing(r, a) =>
  }

  /** A kept message has an insert under its key, whoever made it. */
  lemma KeptIsInserted(s: Settings, st: Stores, clock: nat, msgs: seq<Message>, body: Body, now: nat, t: Task,
                       o: Outcome)
    requires StoresOk(s, st, clock, msgs) && t.Storing?
    requires Advance(s, st, body, now, t, o).1.result.Kept?
    ensures Inserted(Advance(s, st, body, now, t, o).0, HotKeyOf(t.record))
  {
    var st' := Advance(s, st, body, now, t, o).0;
    var key := HotKeyOf(t.record);
    if key in st.hot {
      assert HotLogged(st, key, st.hot[key]);
    } else {
      assert st'.inserts[|st.inserts|].key == key;
    }
  }

  lemma HotLoggedSurvives(st: Stores, st': Stores, key: HotKey, item: HotItem)
    requires HotLogged(st, key, item) && Grows(st, st')
    ensures HotLogged(st', key, item)
  {
    var j :| 0 <= j < |st.inserts| && st.inserts[j] == Insert(key, item);
    assert st'.inserts[j] == st.inserts[j];
  }

  lemma SlotLoggedSurvives(s: Settings, st: Stores, st': Stores, device: string)
    requires SlotLogged(s, st, device) && Grows(st, st')
    requires device in st'.slots && st'.slots[device] == st.slots[device]
    ensures SlotLogged(s, st', device)
  {
    var j :| 0 <= j < |st.claims| && st.claims[j].device == device
             && st.slots[device] == NewSlot(s, st.claims[j].now);
    assert st'.claims[j] == st.claims[j];
  }

  /** StoresOk survives when stores grow without dropping a live item, slot or object. */
  lemma StoresSurvive(s: Settings, st: Stores, st': Stores, clock: nat, clock': nat,
                      msgs: seq<Message>, msgs': seq<Message>)
    requires StoresOk(s, st, clock, msgs) && Grows(st, st') && clock <= clock' && QueueGrows(msgs, msgs')
    requires st'.inserts == st.inserts && st'.written == st.written && st'.cold == st.cold
    requires forall k :: k in st'.hot ==> k in st.hot && st'.hot[k] == st.hot[k]
    requires forall k :: k in st.hot && k !in st'.hot ==> st.hot[k].expiresAt < clock'
    requires forall dev :: dev in st'.slots ==> dev in st.slots && st'.slots[dev] == st.slots[dev]
    ensures StoresOk(s, st', clock', msgs')
  {
    forall k | k in st'.hot ensures HotLogged(st', k, st'.hot[k]) {
      HotLoggedSurvives(st, st', k, st.hot[k]);
    }
    forall dev | dev in st'.slots ensures SlotLogged(s, st', dev) {
      SlotLoggedSurvives(s, st, st', dev);
    }
    forall p | p in st'.written ensures WrittenOk(s, st', msgs', p) {
      assert WrittenOk(s, st, msgs, p);
      var m :| 0 <= m < |msgs| && msgs[m].body == p.1;
      assert msgs'[m].body == p.1;
    }
    forall j | 0 <= j < |st'.inserts| ensures InsertOk(s, st', clock', st'.inserts[j]) {
      assert InsertOk(s, st, clock, st.inserts[j]);
    }
  }

  lemma PutColdKeepsStores(s: Settings, st: Stores, clock: nat, msgs: seq<Message>, r: TelemetryRecord, body: Body,
                           o: Outcome)
    requires StoresOk(s, st, clock, msgs) && s.verdict(body) == Accept(r) && Enqueued(msgs, body)
    ensures StoresOk(s, PutCold(st, ColdKeyOf(r), body, o), clock, msgs)
  {
    var st' := PutCold(st, ColdKeyOf(r), body, o);
    forall k | k in st'.hot ensures HotLogged(st', k, st'.hot[k]) {
      HotLoggedSurvives(st, st', k, st.hot[k]);
    }
    forall dev | dev in st'.slots ensures SlotLogged(s, st', dev) {
      SlotLoggedSurvives(s, st, st', dev);
    }
    forall j | 0 <= j < |st'.inserts| ensures InsertOk(s, st', clock, st'.inserts[j]) {
      assert InsertOk(s, st, clock, st.inserts[j]);
    }
    forall p | p in st'.written ensures WrittenOk(s, st', msgs, p) {
      if p in st.written {
        assert WrittenOk(s, st, msgs, p);
      }
    }
  }

  lemma ClaimKeepsStores(s: Settings, st: Stores, clock: nat, msgs: seq<Message>, device: string, now: nat, o: Outcome)
    requires StoresOk(s, st, clock, msgs)
    ensures StoresOk(s, ClaimSlot(s, st, device, now, o), clock, msgs)
  {
    var st' := ClaimSlot(s, st, device, now, o);
    forall k | k in st'.hot ensures HotLogged(st', k, st'.hot[k]) {
      HotLoggedSurvives(st, st', k, st.hot[k]);
    }
    forall dev | dev in st'.slots ensures SlotLogged(s, st', dev) {
      if dev == device && st' != st {
        assert st'.claims[|st.claims|].device == device;
      } else {
        SlotLoggedSurvives(s, st, st', dev);
      }
    }
    forall j | 0 <= j < |st'.inserts| ensures InsertOk(s, st', clock, st'.inserts[j]) {
      assert InsertOk(s, st, clock, st.inserts[j]);
    }
    forall p | p in st'.written ensures WrittenOk(s, st', msgs, p) {
      assert WrittenOk(s, st, msgs, p);
    }
  }

  /** An earlier insert stays in order: either its key is untouched, or it had expired. */
  lemma OldInsertOk(s: Settings, st: Stores, clock: nat, r: TelemetryRecord, now: nat, o: Outcome, e: Insert)
    requires InsertOk(s, st, clock, e)
    ensures InsertOk(s, InsertHot(s, st, r, now, o), clock, e)
  {
    var st' := InsertHot(s, st, r, now, o);
    var p :| p in st.written && p.0 == ColdKeyOf(e.item.record) && s.verdict(p.1) == Accept(e.item.record);
    assert p in st'.written;
  }

  lemma NewInsertOk(s: Settings, st: Stores, clock: nat, r: TelemetryRecord, body: Body, now: nat, o: Outcome)
    requires Archived(s, st, body, r) && Writes(HotKeyOf(r) !in st.hot, o)
    ensures InsertOk(s, InsertHot(s, st, r, now, o), clock, Insert(HotKeyOf(r), NewItem(s, r, now)))
  {
    var p := (ColdKeyOf(r), body);
    assert p in InsertHot(s, st, r, now, o).written;
  }

  lemma InsertKeepsStores(s: Settings, st: Stores, clock: nat, msgs: seq<Message>, r: TelemetryRecord, body: Body,
                          now: nat, o: Outcome)
    requires StoresOk(s, st, clock, msgs) && Archived(s, st, body, r)
    ensures StoresOk(s, InsertHot(s, st, r, now, o), clock, msgs)
  {
    var st' := InsertHot(s, st, r, now, o);
    forall k | k in st'.hot ensures HotLogged(st', k, st'.hot[k]) {
      if k in st.hot {
        HotLoggedSurvives(st, st', k, st.hot[k]);
      } else {
        assert st'.inserts[|st.inserts|] == Insert(k, st'.hot[k]);
      }
    }
    forall dev | dev in st'.slots ensures SlotLogged(s, st', dev) {
      SlotLoggedSurvives(s, st, st', dev);
    }
    forall j | 0 <= j < |st'.inserts| ensures InsertOk(s, st', clock, st'.inserts[j]) {
      if j < |st.inserts| {
        OldInsertOk(s, st, clock, r, now, o, st.inserts[j]);
      } else {
        NewInsertOk(s, st, clock, r, body, now, o);
      }
    }
    forall p | p in st'.written ensures WrittenOk(s, st', msgs, p) {
      assert WrittenOk(s, st, msgs, p);
    }
  }

  lemma AdvanceKeepsStores(s: Settings, st: Stores, clock: nat, msgs: seq<Message>, body: Body, now: nat, t: Task,
                           o: Outcome)
    requires StoresOk(s, st, clock, msgs) && TaskOk(s, st, body, now, t) && !t.Finished? && Enqueued(msgs, body)
    ensures StoresOk(s, Advance(s, st, body, now, t, o).0, clock, msgs)
  {
    match t
    case Fresh =>
    case Archiving(r) => PutColdKeepsStores(s, st, clock, msgs, r, body, o);
    case Claiming(r) => ClaimKeepsStores(s, st, clock, msgs, r.deviceId, now, o);
    case Publishing(r, c) => StoresSurvive(s, st, CallPublish(st, c, r, o), clock, clock, msgs, msgs);
    case Storing(r, a) => InsertKeepsStores(s, st, clock, msgs, r, body, now, o);
  }

  lemma StoresKept(d: Deployment, w: World, s: Step)
    requires Sound(w) && Enabled(d, w, s)
    requires StoresOk(d.settings, w.st, w.clock, w.msgs) && TasksOk(d.settings, w)
    ensures var w' := Apply(d, w, s); StoresOk(d.settings, w'.st, w'.clock, w'.msgs)
  {
    var w' := Apply(d, w, s);
    StepGrows(d, w, s);
    if s.Work? {
      var v := w.invs[s.i];
      var m := v.batch[v.pos];
      assert Enqueued(w.msgs, w.msgs[m].body);
      AdvanceKeepsStores(d.settings, w.st, w.clock, w.msgs, w.msgs[m].body, v.now, v.task, s.o);
    } else {
      StoresSurvive(d.settings, w.st, w'.st, w.clock, w'.clock, w.msgs, w'.msgs);
    }
  }

  lemma TasksKept(d: Deployment, w: World, s: Step)
    requires Sound(w) && Enabled(d, w, s)
    requires StoresOk(d.settings, w.st, w.clock, w.msgs) && TasksOk(d.settings, w)
    ensures TasksOk(d.settings, Apply(d, w, s))
  {
    var w' := Apply(d, w, s);
    StepGrows(d, w, s);
    forall i | 0 <= i < |w'.invs| && w'.invs[i].pos < |w'.invs[i].batch| && w'.invs[i].batch[w'.invs[i].pos] < |w'.msgs|
      ensures TaskOk(d.settings, w'.st, w'.msgs[w'.invs[i].batch[w'.invs[i].pos]].body, w'.invs[i].now, w'.invs[i].task)
    {
      if i < |w.invs| {
        var v := w.invs[i];
        if s.Work? && s.i == i {
          AdvanceTaskOk(d.settings, w.st, w.clock, w.msgs, w.msgs[v.batch[v.pos]].body, v.now, v.task, s.o);
        } else {
          TaskSurvives(d.settings, w.st, w'.st, w.msgs[v.batch[v.pos]].body, v.now, v.task);
        }
      }
    }
  }

  lemma AckedSurvives(w: World, w': World, m: nat)
    requires Acked(w, m) && w.acks <= w'.acks
    ensures Acked(w', m)
  {
    var j :| 0 <= j < |w.acks| && w.acks[j].msg == m;
    assert w'.acks[j] == w.acks[j];
  }

  lemma NewAckOk(d: Deployment, w: World, i: nat, o: Outcome)
    requires Sound(w) && Enabled(d, w, Work(i, o))
    requires StoresOk(d.settings, w.st, w.clock, w.msgs) && TasksOk(d.settings, w)
    requires |WorkOn(d, w, i, o).acks| > |w.acks|
    ensures var w' := WorkOn(d, w, i, o); AckOk(d.settings, w'.st, w'.msgs, w'.acks[|w.acks|])
  {
    var v := w.invs[i];
    var body := w.msgs[v.batch[v.pos]].body;
    var st' := Advance(d.settings, w.st, body, v.now, v.task, o).0;
    assert TaskOk(d.settings, w.st, body, v.now, v.task);
    AdvanceGrows(d.settings, w.st, body, v.now, v.task, o);
    TaskSurvives(d.settings, w.st, st', body, v.now, v.task);
    KeptIsInserted(d.settings, w.st, w.clock, w.msgs, body, v.now, v.task, o);
  }

  lemma AckListKept(d: Deployment, w: World, s: Step)
    requires Sound(w) && Enabled(d, w, s)
    requires StoresOk(d.settings, w.st, w.clock, w.msgs) && TasksOk(d.settings, w)
    requires forall j :: 0 <= j < |w.acks| ==> AckOk(d.settings, w.st, w.msgs, w.acks[j])
    ensures var w' := Apply(d, w, s);
      forall j :: 0 <= j < |w'.acks| ==> AckOk(d.settings, w'.st, w'.msgs, w'.acks[j])
  {
    var w' := Apply(d, w, s);
    StepGrows(d, w, s);
    forall j | 0 <= j < |w'.acks| ensures AckOk(d.settings, w'.st, w'.msgs, w'.acks[j]) {
      if j < |w.acks| {
        AckSurvives(d.settings, w.st, w'.st, w.msgs, w'.msgs, w.acks[j]);
      } else {
        NewAckOk(d, w, s.i, s.o);
      }
    }
  }

  /** Acknowledged and deleted messages are in the list of acknowledgements. */
  ghost predicate AckedListed(w: World) {
    && (forall i, m :: 0 <= i < |w.invs| && m in w.invs[i].acked ==> Acked(w, m))
    && (forall m :: 0 <= m < |w.msgs| && w.msgs[m].place.Deleted? ==> Acked(w, m))
  }

  lemma AckedListedKept(d: Deployment, w: World, s: Step)
    requires Sound(w) && Enabled(d, w, s) && TasksOk(d.settings, w) && AckedListed(w)
    ensures AckedListed(Apply(d, w, s))
  {
    var w' := Apply(d, w, s);
    assert w.acks <= w'.acks;
    forall i, m | 0 <= i < |w'.invs| && m in w'.invs[i].acked ensures Acked(w', m) {
      if i < |w.invs| && m in w.invs[i].acked {
        AckedSurvives(w, w', m);
      } else {
        assert w'.acks[|w.acks|].msg == m;
      }
    }
    forall m | 0 <= m < |w'.msgs| && w'.msgs[m].place.Deleted? ensures Acked(w', m) {
      AckedSurvives(w, w', m);
    }
  }

  // ----- Every reachable world -----

  ghost predicate Invariant(d: Deployment, w: World) {
    && Sound(w)
    && QueueOk(d, w)
    && InvocationsOk(d, w)
    && StoresOk(d.settings, w.st, w.clock, w.msgs)
    && TasksOk(d.settings, w)
    && AcksOk(d.settings, w)
  }

  lemma InvariantKept(d: Deployment, w: World, s: Step)
    requires Invariant(d, w) && Enabled(d, w, s)
    ensures Invariant(d, Apply(d, w, s))
  {
    QueueKept(d, w, s);
    InvocationsKept(d, w, s);
    StoresKept(d, w, s);
    TasksKept(d, w, s);
    AckListKept(d, w, s);
    AckedListedKept(d, w, s);
  }

  /** The last step of a nonempty run and the world before it. */
  lemma LastStep(d: Deployment, run: seq<Step>, w: World) returns (before: World)
    requires Reaches(d, run, w) && run != []
    ensures Reaches(d, run[..|run| - 1], before) && Sound(before)
    ensures Enabled(d, before, run[|run| - 1]) && w == Apply(d, before, run[|run| - 1])
  {
    before := After(d, run[..|run| - 1]).value;
  }

  lemma {:induction false} Reachable(d: Deployment, run: seq<Step>, w: World)
    requires Reaches(d, run, w)
    ensures Invariant(d, w)
    decreases |run|
  {
    if run != [] {
      var before := LastStep(d, run, w);
      Reachable(d, run[..|run| - 1], before);
      InvariantKept(d, before, run[|run| - 1]);
    }
  }
}

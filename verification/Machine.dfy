/**
 The deployed system as a step machine: any number of invocations run
 concurrently over the stores, the source queue and the DLQ. A `Step` carries
 every choice of the environment, so a run is a sequence of steps.

 The queue is more adversarial than the service: it ignores the visibility
 timeout, and a deleted message may reappear while its retention lasts.
 */
module Machine {
  import opened Wrappers
  import opened Telemetry
  import opened Protocol

  const MAX_RECEIVE_COUNT: nat := 5
  const BATCH_SIZE: nat := 10

  /**
   Settings plus the timing constants of the queues and the function. `delivery`
   bounds the time from a receive to the start of the invocation it leads to.
   */
  datatype Deployment = Deployment(
    settings: Settings,
    timeout: nat,
    batchingWindow: nat,
    delivery: nat,
    sourceRetention: nat,
    dlqRetention: nat)
  {
    /** How long a received message stays hidden from other receives. */
    function VisibilityTimeout(): nat {
      6 * timeout + batchingWindow
    }

    /**
     The ranges the Terraform validations and preconditions enforce. A batch that has
     not started when its messages become visible again is not started at all.
     */
    predicate Admitted() {
      && 1 <= timeout <= 900
      && batchingWindow <= 300
      && delivery <= VisibilityTimeout()
      && 1 <= settings.suppressionMinutes <= 1440
      && 0 < sourceRetention < dlqRetention
    }
  }

  datatype Place = Source | Dlq | Deleted | Expired

  /** `stay` is the timestamp the current retention counts from. */
  datatype Message = Message(
    body: Body,
    enqueued: nat,
    stay: nat,
    place: Place,
    receives: nat,
    redrives: nat,
    lifetimeReceives: nat)

  /** `emitted` says that the counters have left the function: it emits them once, at its end. */
  datatype Invocation = Invocation(
    now: nat,
    batch: seq<nat>,
    pos: nat,
    task: Task,
    acked: seq<nat>,
    failures: seq<nat>,
    counts: Counts,
    live: bool,
    emitted: bool)

  /** An acknowledgement: the message, the record it carried and the `now` it was processed with. */
  datatype Ack = Ack(msg: nat, now: nat, record: TelemetryRecord, alert: Alert)

  datatype World = World(
    clock: nat,
    msgs: seq<Message>,
    invs: seq<Invocation>,
    st: Stores,
    acks: seq<Ack>,
    abandoned: set<nat>)

  const EMPTY_STORES := Stores(map[], map[], map[], {}, [], [], [])
  const INITIAL := World(0, [], [], EMPTY_STORES, [], {})

  datatype Step =
    | Tick(d: nat)
    | Enqueue(body: Body)
    | Invoke(batch: seq<nat>)
    | Work(i: nat, o: Outcome)
    | Crash(i: nat)
    | Emit(i: nat)
    | Respond(i: nat, deleted: set<nat>)
    | MoveToDlq(m: nat)
    | Expire(m: nat)
    | Redrive(m: nat)
    | Reappear(m: nat)
    | ExpireHot(key: HotKey)
    | ExpireSlot(device: string)

  /**
   A receive and the start of its invocation are one step, taken when the invocation
   starts; the receive itself fell within the retention, up to `delivery` seconds before.
   */
  predicate Receivable(d: Deployment, w: World, m: nat) {
    && m < |w.msgs|
    && w.msgs[m].place.Source?
    && w.msgs[m].receives < MAX_RECEIVE_COUNT
    && w.clock < w.msgs[m].stay + d.sourceRetention + d.delivery
  }

  predicate NoDuplicates<T(==)>(s: seq<T>) {
    forall i, j :: 0 <= i < j < |s| ==> s[i] != s[j]
  }

  predicate Enabled(d: Deployment, w: World, s: Step) {
    match s
    case Tick(_) => true
    case Enqueue(_) => true
    case Invoke(batch) =>
      && 1 <= |batch| <= BATCH_SIZE
      && NoDuplicates(batch)
      && forall p :: 0 <= p < |batch| ==> Receivable(d, w, batch[p])
    case Work(i, _) =>
      && i < |w.invs|
      && w.invs[i].live
      && w.invs[i].pos < |w.invs[i].batch|
      && w.clock <= w.invs[i].now + d.timeout
    case Crash(i) => i < |w.invs| && w.invs[i].live
    case Emit(i) =>
      && i < |w.invs|
      && w.invs[i].live
      && w.invs[i].pos == |w.invs[i].batch|
      && !w.invs[i].emitted
      && w.clock <= w.invs[i].now + d.timeout
    case Respond(i, deleted) =>
      && i < |w.invs|
      && w.invs[i].live
      && w.invs[i].pos == |w.invs[i].batch|
      && w.invs[i].emitted
      && forall m :: m in deleted ==> m in w.invs[i].acked
    case MoveToDlq(m) =>
      m < |w.msgs| && w.msgs[m].place.Source? && w.msgs[m].receives == MAX_RECEIVE_COUNT
    case Expire(m) =>
      && m < |w.msgs|
      && (|| (w.msgs[m].place.Source? && w.msgs[m].stay + d.sourceRetention <= w.clock)
          || (w.msgs[m].place.Dlq? && w.msgs[m].stay + d.dlqRetention <= w.clock))
    case Redrive(m) =>
      m < |w.msgs| && w.msgs[m].place.Dlq? && w.clock < w.msgs[m].stay + d.dlqRetention
    case Reappear(m) =>
      m < |w.msgs| && w.msgs[m].place.Deleted? && w.clock < w.msgs[m].stay + d.sourceRetention
    case ExpireHot(key) => key in w.st.hot && w.st.hot[key].expiresAt < w.clock
    case ExpireSlot(device) => device in w.st.slots && w.st.slots[device].expiresAt < w.clock
  }

  function Received(m: Message): Message {
    m.(receives := m.receives + 1, lifetimeReceives := m.lifetimeReceives + 1)
  }

  function AfterReceive(msgs: seq<Message>, batch: seq<nat>): (r: seq<Message>)
    ensures |r| == |msgs|
    ensures forall m :: 0 <= m < |msgs| ==> r[m] == if m in batch then Received(msgs[m]) else msgs[m]
  {
    seq(|msgs|, m requires 0 <= m < |msgs| => if m in batch then Received(msgs[m]) else msgs[m])
  }

  function AfterRespond(msgs: seq<Message>, deleted: set<nat>): (r: seq<Message>)
    ensures |r| == |msgs|
    ensures forall m :: 0 <= m < |msgs| ==>
      r[m] == if m in deleted && msgs[m].place.Source? then msgs[m].(place := Deleted) else msgs[m]
  {
    seq(|msgs|, m requires 0 <= m < |msgs| =>
      if m in deleted && msgs[m].place.Source? then msgs[m].(place := Deleted) else msgs[m])
  }

  /** The invocation after its current message ended in task `t`. */
  function Progress(v: Invocation, m: nat, t: Task): Invocation {
    if !t.Finished? then v.(task := t)
    else v.(task := Fresh, pos := v.pos + 1, counts := Tally(v.counts, t.result),
            acked := if t.result.Kept? then v.acked + [m] else v.acked,
            failures := if t.result.Kept? then v.failures else v.failures + [m])
  }

  /** Facts every world keeps that make the steps well defined. */
  predicate Sound(w: World) {
    forall i :: 0 <= i < |w.invs| ==>
      && w.invs[i].pos <= |w.invs[i].batch|
      && !w.invs[i].task.Finished?
      && (forall p :: 0 <= p < |w.invs[i].batch| ==> w.invs[i].batch[p] < |w.msgs|)
  }

  function WorkOn(d: Deployment, w: World, i: nat, o: Outcome): (w': World)
    requires Sound(w) && i < |w.invs| && w.invs[i].pos < |w.invs[i].batch|
    requires w.invs[i].batch[w.invs[i].pos] < |w.msgs| && !w.invs[i].task.Finished?
    ensures Sound(w')
  {
    var v := w.invs[i];
    var m := v.batch[v.pos];
    var (st', t') := Advance(d.settings, w.st, w.msgs[m].body, v.now, v.task, o);
    w.(st := st',
       invs := w.invs[i := Progress(v, m, t')],
       acks := if t'.Finished? && t'.result.Kept? && v.task.Storing?
               then w.acks + [Ack(m, v.now, v.task.record, v.task.alert)] else w.acks)
  }

  function Apply(d: Deployment, w: World, s: Step): (w': World)
    requires Sound(w) && Enabled(d, w, s)
    ensures Sound(w')
  {
    match s
    case Tick(t) => w.(clock := w.clock + t)
    case Enqueue(body) =>
      w.(msgs := w.msgs + [Message(body, w.clock, w.clock, Source, 0, 0, 0)])
    case Invoke(batch) =>
      w.(msgs := AfterReceive(w.msgs, batch),
         invs := w.invs + [Invocation(w.clock, batch, 0, Fresh, [], [], ZERO, true, false)])
    case Work(i, o) => WorkOn(d, w, i, o)
    case Crash(i) =>
      w.(invs := w.invs[i := w.invs[i].(live := false)],
         abandoned := if w.invs[i].task.Publishing? then w.abandoned + {w.invs[i].task.claim} else w.abandoned)
    case Emit(i) => w.(invs := w.invs[i := w.invs[i].(emitted := true)])
    case Respond(i, deleted) =>
      w.(invs := w.invs[i := w.invs[i].(live := false)], msgs := AfterRespond(w.msgs, deleted))
    case MoveToDlq(m) => w.(msgs := w.msgs[m := w.msgs[m].(place := Dlq)])
    case Expire(m) => w.(msgs := w.msgs[m := w.msgs[m].(place := Expired)])
    case Redrive(m) =>
      w.(msgs := w.msgs[m := w.msgs[m].(place := Source, stay := w.clock, receives := 0,
                                        redrives := w.msgs[m].redrives + 1)])
    case Reappear(m) => w.(msgs := w.msgs[m := w.msgs[m].(place := Source)])
    case ExpireHot(key) => w.(st := w.st.(hot := w.st.hot - {key}))
    case ExpireSlot(device) => w.(st := w.st.(slots := w.st.slots - {device}))
  }

  // ----- Runs -----

  /** The world after a run, or None when some step was not enabled. */
  function After(d: Deployment, run: seq<Step>): (w: Option<World>)
    ensures w.Some? ==> Sound(w.value)
  {
    if run == [] then Some(INITIAL)
    else
      var last := |run| - 1;
      var w := After(d, run[..last]);
      if w.Some? && Enabled(d, w.value, run[last]) then Some(Apply(d, w.value, run[last])) else None
  }

  /** The world `w` is reached by `run`. */
  predicate Reaches(d: Deployment, run: seq<Step>, w: World) {
    After(d, run) == Some(w)
  }

  lemma Extend(d: Deployment, run: seq<Step>, w: World, s: Step)
    requires Reaches(d, run, w) && Sound(w) && Enabled(d, w, s)
    ensures Reaches(d, run + [s], Apply(d, w, s))
  {
    assert (run + [s])[..|run|] == run;
  }
}

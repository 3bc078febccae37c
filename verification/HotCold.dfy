/** The hot table as a view derived from the cold archive. */
module HotCold {
  import opened Wrappers
  import opened Telemetry
  import opened Protocol
  import opened Machine
  import opened Invariants
  import opened Processing
  import opened AlertFates

  /** The archived object of a hot item exists. */
  predicate HasObject(st: Stores, key: HotKey)
    requires key in st.hot
  {
    ColdKeyOf(st.hot[key].record) in st.cold
  }

  /** Re-validating that object gives the item back, up to ingestion time and expiry. */
  predicate Agrees(s: Settings, st: Stores, key: HotKey)
    requires key in st.hot
  {
    HasObject(st, key) && s.verdict(st.cold[ColdKeyOf(st.hot[key].record)]) == Accept(st.hot[key].record)
  }

  predicate SameColdKey(s: Settings, a: Body, b: Body) {
    && s.verdict(a).Accept?
    && s.verdict(b).Accept?
    && ColdKeyOf(s.verdict(a).record) == ColdKeyOf(s.verdict(b).record)
  }

  /** Among the messages of a run, the cold key determines the reading. */
  predicate MessagesDetermine(s: Settings, msgs: seq<Message>) {
    forall m, n :: 0 <= m < |msgs| && 0 <= n < |msgs| && SameColdKey(s, msgs[m].body, msgs[n].body) ==>
      s.verdict(msgs[m].body) == s.verdict(msgs[n].body)
  }

  /** The producers of a run: every body they enqueue satisfies `p`. */
  predicate Sends(p: Body -> bool, w: World) {
    forall m :: 0 <= m < |w.msgs| ==> p(w.msgs[m].body)
  }

  /** Valid bodies from these producers that share device, sequence number, UTC date and hour carry one reading. */
  ghost predicate Determines(s: Settings, p: Body -> bool) {
    forall a, b :: p(a) && p(b) && SameColdKey(s, a, b) ==> s.verdict(a) == s.verdict(b)
  }

  /** In every run of these producers every hot item agrees with its archived object. */
  ghost predicate AlwaysAgrees(d: Deployment, p: Body -> bool) {
    forall run, w, key :: Reaches(d, run, w) && Sends(p, w) && key in w.st.hot ==> Agrees(d.settings, w.st, key)
  }

  /**
   In every reachable world each hot item is stored under its record's key, with
   the expiry of its ingestion time, and has an object at its record's cold key;
   that object is a valid body with the same device and sequence number.
   */
  lemma HotHasCold(d: Deployment, run: seq<Step>, w: World, key: HotKey)
    requires Reaches(d, run, w) && key in w.st.hot
    ensures key == HotKeyOf(w.st.hot[key].record)
    ensures w.st.hot[key] == NewItem(d.settings, w.st.hot[key].record, w.st.hot[key].ingestedAt)
    ensures HasObject(w.st, key)
    ensures var v := d.settings.verdict(w.st.cold[ColdKeyOf(w.st.hot[key].record)]);
      v.Accept? && ColdKeyOf(v.record) == ColdKeyOf(w.st.hot[key].record)
  {
    Reachable(d, run, w);
    var item := w.st.hot[key];
    assert HotLogged(w.st, key, item);
    var j :| 0 <= j < |w.st.inserts| && w.st.inserts[j] == Insert(key, item);
    assert InsertOk(d.settings, w.st, w.clock, w.st.inserts[j]);
    var p :| p in w.st.written && p.0 == ColdKeyOf(item.record) && d.settings.verdict(p.1) == Accept(item.record);
    assert WrittenOk(d.settings, w.st, w.msgs, p);
    var q := (p.0, w.st.cold[p.0]);
    assert WrittenOk(d.settings, w.st, w.msgs, q);
  }

  /** A fault-free processing archives the body and leaves the items already in the table alone. */
  lemma {:induction false} SettleArchives(s: Settings, st: Stores, body: Body, now: nat, t: Task)
    requires s.verdict(body).Accept?
    requires t.Fresh? || (!t.Finished? && t.record == s.verdict(body).record)
    ensures var r := s.verdict(body).record;
      var st' := Settle(s, st, body, now, t, NO_FAULTS).0;
      && st'.cold == (if t.Fresh? || t.Archiving? then st.cold[ColdKeyOf(r) := body] else st.cold)
      && (forall k :: k in st.hot ==> k in st'.hot && st'.hot[k] == st.hot[k])
      && HotKeyOf(r) in st'.hot
      && (HotKeyOf(r) !in st.hot ==> st'.hot[HotKeyOf(r)].record == r)
    decreases t.Rank()
  {
    SettleStep(s, st, body, now, t, NO_FAULTS);
    if !t.Storing? {
      var (st', t') := Advance(s, st, body, now, t, Done);
      SettleArchives(s, st', body, now, t');
    }
  }

  /** In any run whose own messages are determined by their cold keys, the hot table is a view of the archive. */
  lemma AgreesWithin(d: Deployment, run: seq<Step>, w: World, key: HotKey)
    requires Reaches(d, run, w) && MessagesDetermine(d.settings, w.msgs) && key in w.st.hot
    ensures Agrees(d.settings, w.st, key)
  {
    HotHasCold(d, run, w, key);
    Reachable(d, run, w);
    var item := w.st.hot[key];
    assert HotLogged(w.st, key, item);
    var j :| 0 <= j < |w.st.inserts| && w.st.inserts[j] == Insert(key, item);
    assert InsertOk(d.settings, w.st, w.clock, w.st.inserts[j]);
    var p :| p in w.st.written && p.0 == ColdKeyOf(item.record) && d.settings.verdict(p.1) == Accept(item.record);
    var q := (p.0, w.st.cold[p.0]);
    assert WrittenOk(d.settings, w.st, w.msgs, p) && WrittenOk(d.settings, w.st, w.msgs, q);
    var m :| 0 <= m < |w.msgs| && w.msgs[m].body == p.1;
    var n :| 0 <= n < |w.msgs| && w.msgs[n].body == q.1;
    assert SameColdKey(d.settings, w.msgs[m].body, w.msgs[n].body);
  }

  /** A producer sends a valid body, and it is delivered and processed without faults. */
  lemma SendAndProcess(d: Deployment, run: seq<Step>, w: World, body: Body) returns (run': seq<Step>, w': World)
    requires d.Admitted() && Reaches(d, run, w) && Sound(w) && d.settings.verdict(body).Accept?
    ensures Reaches(d, run', w') && Sound(w')
    ensures |w'.msgs| == |w.msgs| + 1 && w'.msgs[|w.msgs|].body == body
    ensures forall m :: 0 <= m < |w.msgs| ==> w'.msgs[m] == w.msgs[m]
    ensures var r := d.settings.verdict(body).record;
      && w'.st.cold == w.st.cold[ColdKeyOf(r) := body]
      && (forall k :: k in w.st.hot ==> k in w'.st.hot && w'.st.hot[k] == w.st.hot[k])
      && HotKeyOf(r) in w'.st.hot
      && (HotKeyOf(r) !in w.st.hot ==> w'.st.hot[HotKeyOf(r)].record == r)
  {
    Extend(d, run, w, Enqueue(body));
    var w1 := Apply(d, w, Enqueue(body));
    SettleArchives(d.settings, w1.st, body, w1.clock, Fresh);
    run', w' := DeliverAndProcess(d, run + [Enqueue(body)], w1, |w.msgs|);
  }

  /** Hot keeps the first writer and cold the last one: two readings with one cold key leave them apart. */
  lemma FirstAndLastDiffer(d: Deployment, p: Body -> bool, a: Body, b: Body)
    requires d.Admitted() && p(a) && p(b)
    requires SameColdKey(d.settings, a, b) && d.settings.verdict(a) != d.settings.verdict(b)
    ensures !AlwaysAgrees(d, p)
  {
    var key := HotKeyOf(d.settings.verdict(a).record);
    assert Reaches(d, [], INITIAL);
    var run1, w1 := SendAndProcess(d, [], INITIAL, a);
    var run2, w2 := SendAndProcess(d, run1, w1, b);
    assert Sends(p, w2);
    assert !Agrees(d.settings, w2.st, key);
  }

  /**
   For every class of producers: each hot item equals its re-validated cold body in
   every run exactly when the cold key determines the reading among the bodies they send.
   */
  lemma HotIsViewOfColdIff(d: Deployment, p: Body -> bool)
    requires d.Admitted()
    ensures AlwaysAgrees(d, p) <==> Determines(d.settings, p)
  {
    if Determines(d.settings, p) {
      forall run, w, key | Reaches(d, run, w) && Sends(p, w) && key in w.st.hot ensures Agrees(d.settings, w.st, key) {
        AgreesWithin(d, run, w, key);
      }
    } else {
      var a, b :| p(a) && p(b) && SameColdKey(d.settings, a, b) && d.settings.verdict(a) != d.settings.verdict(b);
      FirstAndLastDiffer(d, p, a, b);
    }
  }

  predicate SameReading(s: Settings, a: Body, b: Body) {
    && s.verdict(a).Accept?
    && s.verdict(b).Accept?
    && HotKeyOf(s.verdict(a).record) == HotKeyOf(s.verdict(b).record)
  }

  /** The producers' side of the bargain: a device never uses one sequence number for two readings. */
  ghost predicate NumbersNotReused(s: Settings, p: Body -> bool) {
    forall a, b :: p(a) && p(b) && SameReading(s, a, b) ==> s.verdict(a) == s.verdict(b)
  }

  /** Then the hot table is a view of the archive in every run. */
  lemma UniqueNumbersAgree(d: Deployment, p: Body -> bool)
    requires NumbersNotReused(d.settings, p)
    ensures AlwaysAgrees(d, p)
  {
    forall run, w, key | Reaches(d, run, w) && Sends(p, w) && key in w.st.hot ensures Agrees(d.settings, w.st, key) {
      forall m, n | 0 <= m < |w.msgs| && 0 <= n < |w.msgs| && SameColdKey(d.settings, w.msgs[m].body, w.msgs[n].body)
        ensures d.settings.verdict(w.msgs[m].body) == d.settings.verdict(w.msgs[n].body)
      {
        assert SameReading(d.settings, w.msgs[m].body, w.msgs[n].body);
      }
      AgreesWithin(d, run, w, key);
    }
  }
}

/** The hot table as a refinement of a plain grow-only map from readings to the item first stored for them. */
module FirstSeen {
  import opened Wrappers
  import opened Telemetry
  import opened Protocol
  import opened Machine
  import opened Invariants
  import opened Deduplication

  /** The abstract table: first writer wins, nothing ever leaves. */
  function Seen(inserts: seq<Insert>): (m: map<HotKey, HotItem>)
    ensures forall k :: k in m ==> exists j :: 0 <= j < |inserts| && inserts[j] == Insert(k, m[k])
    ensures forall j :: 0 <= j < |inserts| ==> inserts[j].key in m
  {
    if inserts == [] then map[]
    else
      var m := Seen(inserts[..|inserts| - 1]);
      var e := inserts[|inserts| - 1];
      assert forall j :: 0 <= j < |inserts| - 1 ==> inserts[..|inserts| - 1][j] == inserts[j];
      if e.key in m then m else m[e.key := e.item]
  }

  /** The abstract step: nothing, or one reading seen for the first time. */
  predicate SeesAtMostOne(before: map<HotKey, HotItem>, after: map<HotKey, HotItem>) {
    after == before
    || exists k :: k in after && k !in before && after == before[k := after[k]]
  }

  /**
   In any step an item that has not expired stays with its value, an expired one keeps it
   until TTL removes it, and at most one absent key is inserted.
   */
  lemma LiveItemNeverAltered(d: Deployment, w: World, s: Step)
    requires Sound(w) && Enabled(d, w, s)
    ensures var w' := Apply(d, w, s);
      && (forall k :: k in w.st.hot && k in w'.st.hot ==> w'.st.hot[k] == w.st.hot[k])
      && (forall k :: k in w.st.hot && w.clock <= w.st.hot[k].expiresAt ==> k in w'.st.hot)
      && (w'.st.inserts == w.st.inserts
          || exists e :: w'.st.inserts == w.st.inserts + [e] && e.key !in w.st.hot
                         && w'.st.hot == w.st.hot[e.key := e.item])
  {
    if s.Work? && w.invs[s.i].task.Storing? {
      var v := w.invs[s.i];
      var e := Insert(HotKeyOf(v.task.record), NewItem(d.settings, v.task.record, v.now));
      assert Apply(d, w, s).st.inserts == w.st.inserts
             || Apply(d, w, s).st.inserts == w.st.inserts + [e];
    }
  }

  lemma SeenSnoc(inserts: seq<Insert>, e: Insert)
    ensures Seen(inserts + [e]) == if e.key in Seen(inserts) then Seen(inserts) else Seen(inserts)[e.key := e.item]
  {
    assert (inserts + [e])[..|inserts|] == inserts;
  }

  lemma SeenKeepsEntry(inserts: seq<Insert>, j: nat)
    requires OncePerReading(inserts) && j < |inserts|
    ensures inserts[j].key in Seen(inserts) && Seen(inserts)[inserts[j].key] == inserts[j].item
  {
    var k :| 0 <= k < |inserts| && inserts[k] == Insert(inserts[j].key, Seen(inserts)[inserts[j].key]);
  }

  lemma HotIsLogged(d: Deployment, run: seq<Step>, w: World, key: HotKey) returns (j: nat)
    requires Reaches(d, run, w) && key in w.st.hot
    ensures j < |w.st.inserts| && w.st.inserts[j] == Insert(key, w.st.hot[key])
  {
    Reachable(d, run, w);
    assert HotLogged(w.st, key, w.st.hot[key]);
    j :| 0 <= j < |w.st.inserts| && w.st.inserts[j] == Insert(key, w.st.hot[key]);
  }

  /** With one insert per reading, the table holds part of the abstract map. */
  lemma HotWithinSeen(d: Deployment, run: seq<Step>, w: World, key: HotKey)
    requires Reaches(d, run, w) && OncePerReading(w.st.inserts) && key in w.st.hot
    ensures key in Seen(w.st.inserts) && w.st.hot[key] == Seen(w.st.inserts)[key]
  {
    var j := HotIsLogged(d, run, w, key);
    SeenKeepsEntry(w.st.inserts, j);
  }

  lemma NewInsertIsNewlySeen(before: seq<Insert>, e: Insert)
    requires OncePerReading(before + [e])
    ensures e.key !in Seen(before) && Seen(before + [e]) == Seen(before)[e.key := e.item]
  {
    SeenSnoc(before, e);
    var after := before + [e];
    assert after[|before|] == e;
    assert forall j :: 0 <= j < |before| ==> after[j] == before[j];
  }

  /**
   A step from `w` to `w'` is an abstract step: a stutter, or the first sight of a reading
   that was never stored before; and the table holds part of the abstract map.
   */
  ghost predicate AbstractStep(w: World, w': World) {
    && SeesAtMostOne(Seen(w.st.inserts), Seen(w'.st.inserts))
    && (forall k :: k in w'.st.hot ==> k in Seen(w'.st.inserts) && w'.st.hot[k] == Seen(w'.st.inserts)[k])
    && (w'.st.inserts != w.st.inserts ==> Seen(w'.st.inserts) != Seen(w.st.inserts))
  }

  /** Within the discipline, every step of every run is an abstract step. */
  lemma RefinesFirstSeen(d: Deployment, redrives: nat, slack: nat, run: seq<Step>, w: World, s: Step)
    requires Reaches(d, run, w) && Sound(w) && Enabled(d, w, s)
    ensures Covers(d, redrives, slack) && Disciplined(d, redrives, slack, Apply(d, w, s)) ==>
              AbstractStep(w, Apply(d, w, s))
  {
    var w' := Apply(d, w, s);
    Extend(d, run, w, s);
    if Covers(d, redrives, slack) && Disciplined(d, redrives, slack, w') {
      ExactlyOnce(d, redrives, slack, run + [s], w');
      forall k | k in w'.st.hot ensures k in Seen(w'.st.inserts) && w'.st.hot[k] == Seen(w'.st.inserts)[k] {
        HotWithinSeen(d, run + [s], w', k);
      }
      LiveItemNeverAltered(d, w, s);
      if w'.st.inserts != w.st.inserts {
        var e :| w'.st.inserts == w.st.inserts + [e];
        NewInsertIsNewlySeen(w.st.inserts, e);
      }
    }
  }
}

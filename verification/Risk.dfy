/** Fire-risk classification of a validated record. */
module Risk {
  import opened Telemetry

  datatype Level = NoRisk | Elevated | Critical

  datatype Rule = HotAndDry | Smoke

  datatype Assessment = Assessment(level: Level, reasons: seq<Rule>)

  datatype Thresholds = Thresholds(smokeAlertPpm: real, tempAlertC: real, rhAlertPct: real)

  predicate SmokeFires(r: TelemetryRecord, t: Thresholds) {
    r.smokePpm >= t.smokeAlertPpm
  }

  predicate HotAndDryFires(r: TelemetryRecord, t: Thresholds) {
    r.tempC >= t.tempAlertC && r.rhPct <= t.rhAlertPct
  }

  /**
   CRITICAL is smoke at or above its threshold; ELEVATED is hot and dry without it. Both
   reasons accumulate, hot and dry first.
   */
  method Evaluate(r: TelemetryRecord, t: Thresholds) returns (a: Assessment)
    ensures a.level == Critical <==> r.smokePpm >= t.smokeAlertPpm
    ensures a.level == Elevated <==>
      r.tempC >= t.tempAlertC && r.rhPct <= t.rhAlertPct && r.smokePpm < t.smokeAlertPpm
    ensures a.reasons == (if r.tempC >= t.tempAlertC && r.rhPct <= t.rhAlertPct then [HotAndDry] else [])
                         + (if r.smokePpm >= t.smokeAlertPpm then [Smoke] else [])
    ensures a == Assess(r, t)
  {
    var reasons: seq<Rule> := [];
    var level := NoRisk;
    if HotAndDryFires(r, t) {
      level := Elevated;
      reasons := reasons + [HotAndDry];
    }
    if SmokeFires(r, t) {
      level := Critical;
      reasons := reasons + [Smoke];
    }
    return Assessment(level, reasons);
  }

  /** The assessment `Evaluate` computes step by step. */
  function Assess(r: TelemetryRecord, t: Thresholds): Assessment {
    Assessment(if SmokeFires(r, t) then Critical else if HotAndDryFires(r, t) then Elevated else NoRisk,
               (if HotAndDryFires(r, t) then [HotAndDry] else []) + (if SmokeFires(r, t) then [Smoke] else []))
  }

  function Severity(l: Level): nat {
    match l
    case NoRisk => 0
    case Elevated => 1
    case Critical => 2
  }

  /** More smoke, more heat or drier air never lowers the level. */
  lemma WorseNeverLowers(r: TelemetryRecord, worse: TelemetryRecord, t: Thresholds)
    requires worse.smokePpm >= r.smokePpm && worse.tempC >= r.tempC && worse.rhPct <= r.rhPct
    ensures Severity(Assess(worse, t).level) >= Severity(Assess(r, t).level)
    ensures Assess(r, t).level == Critical <==> r.smokePpm >= t.smokeAlertPpm
  {
  }
}

/**
 The frozen telemetry contract v1: the validator that accumulates every error,
 and the declarative contract it decides.
 */
module Contract {
  import opened Wrappers
  import opened Telemetry

  /** The keys of a payload: those the contract names, and any other. */
  datatype Key =
    | SchemaVersion | DeviceId | GatewayId | TsDevice | SeqNo | Lat | Lon | ElevationM | TempC | RhPct
    | SmokePpm | WindSpeedMs | WindDirDeg | BatteryPct | Status
    | Other(name: string)

  datatype Double = Finite(r: real) | NaN | PosInf | NegInf

  datatype Json =
    | Null
    | Bool(b: bool)
    | Int(n: int)
    | Float(x: Double)
    | Str(s: string)
    | Array(items: seq<Json>)
    | Object(fields: map<Key, Json>)

  type Payload = map<Key, Json>

  /** `datetime.fromisoformat` followed by `astimezone(UTC)`, which can leave the date range. */
  datatype Timestamp = NotIso | Naive | Aware(utc: UtcTime) | OutOfRange

  /** The parts of the runtime the validator relies on: the `\d` class and the timestamp parser. */
  datatype Reader = Reader(isDigit: char -> bool, parseTs: string -> Timestamp)

  datatype Reason =
    | WrongVersion | PatternMismatch | NotAString | NotIso8601 | NoTimezone | NotNatural
    | IsNull | NotANumber | NotFinite | BelowMinimum | AboveMaximum | NotInEnum

  datatype Problem =
    | NotAnObject
    | UnknownKeys(keys: set<Key>)
    | MissingKeys(keys: set<Key>)
    | Bad(key: Key, why: Reason)

  /** Overflow is the OverflowError that escapes as a transient failure. */
  datatype Judgement = Valid(record: TelemetryRecord) | Violated(problems: seq<Problem>) | Overflow

  const REQUIRED: set<Key> :=
    {DeviceId, GatewayId, TsDevice, SeqNo, Lat, Lon, ElevationM, TempC, RhPct, SmokePpm,
     WindSpeedMs, WindDirDeg, BatteryPct, Status}

  const ALLOWED: set<Key> := REQUIRED + {SchemaVersion}

  /** The order in which fields are checked. */
  const CHECKED: seq<Key> :=
    [SchemaVersion, DeviceId, GatewayId, TsDevice, SeqNo, Lat, Lon, ElevationM, TempC, RhPct, SmokePpm,
     WindSpeedMs, WindDirDeg, BatteryPct, Status]

  const STATUSES: set<string> := {"OK", "DEGRADED", "LOW_BATTERY"}

  // ----- Shapes and ranges -----

  predicate AllDigits(rd: Reader, s: string) {
    forall i :: 0 <= i < |s| ==> rd.isDigit(s[i])
  }

  predicate DeviceIdMatches(rd: Reader, s: string) {
    |s| == 12 && s[..6] == "PYRO-T" && s[6] in "123" && s[7] == '-' && AllDigits(rd, s[8..])
  }

  predicate GatewayIdMatches(rd: Reader, s: string) {
    |s| >= 5 && s[..3] == "GW-" && AllDigits(rd, s[3..])
  }

  datatype Range = Range(min: Option<real>, max: Option<real>, nullable: bool)

  function RangeOf(key: Key): Option<Range> {
    match key
    case Lat => Some(Range(Some(-90.0), Some(90.0), false))
    case Lon => Some(Range(Some(-180.0), Some(180.0), false))
    case ElevationM => Some(Range(None, None, false))
    case TempC => Some(Range(Some(-20.0), Some(80.0), false))
    case RhPct => Some(Range(Some(0.0), Some(100.0), false))
    case SmokePpm => Some(Range(Some(0.0), None, false))
    case WindSpeedMs => Some(Range(Some(0.0), None, true))
    case WindDirDeg => Some(Range(Some(0.0), Some(360.0), true))
    case BatteryPct => Some(Range(Some(0.0), Some(100.0), false))
    case _ => None
  }

  function Pow2(n: nat): nat {
    if n == 0 then 1 else 2 * Pow2(n - 1)
  }

  /** From this magnitude on, converting an integer to a double raises OverflowError. */
  const DOUBLE_LIMIT: int := Pow2(1024) - Pow2(970)

  /** `float(value)` of a number. */
  function AsDouble(v: Json): Option<Double> {
    match v
    case Int(n) => if -DOUBLE_LIMIT < n < DOUBLE_LIMIT then Some(Finite(n as real)) else None
    case Float(x) => Some(x)
    case _ => None
  }

  predicate IsNumber(v: Json) {
    v.Int? || v.Float?
  }

  predicate TooLarge(v: Json) {
    IsNumber(v) && AsDouble(v).None?
  }

  // ----- The declarative contract -----

  predicate Within(r: real, range: Range) {
    (range.min.Some? ==> range.min.value <= r) && (range.max.Some? ==> r <= range.max.value)
  }

  predicate NumberOk(v: Json, range: Range) {
    if v.Null? then range.nullable
    else AsDouble(v).Some? && AsDouble(v).value.Finite? && Within(AsDouble(v).value.r, range)
  }

  predicate Complete(p: Payload) {
    REQUIRED <= p.Keys
  }

  /** What the contract says of one field. */
  predicate FieldOk(rd: Reader, p: Payload, key: Key)
    requires Complete(p)
  {
    match key
    case SchemaVersion => SchemaVersion in p ==> p[SchemaVersion] == Str("1.0")
    case DeviceId => p[DeviceId].Str? && DeviceIdMatches(rd, p[DeviceId].s)
    case GatewayId => p[GatewayId].Str? && GatewayIdMatches(rd, p[GatewayId].s)
    case TsDevice => p[TsDevice].Str? && rd.parseTs(p[TsDevice].s).Aware?
    case SeqNo => p[SeqNo].Int? && p[SeqNo].n >= 0
    case Status => p[Status].Str? && p[Status].s in STATUSES
    case Other(_) => true
    case number => NumberOk(p[number], RangeOf(number).value)
  }

  predicate FieldsOk(rd: Reader, p: Payload)
    requires Complete(p)
  {
    forall key {:trigger FieldOk(rd, p, key)} :: key in ALLOWED ==> FieldOk(rd, p, key)
  }

  /** A payload conforms: an object with exactly the allowed keys, every field in order. */
  predicate Meets(rd: Reader, data: Json) {
    && data.Object?
    && data.fields.Keys <= ALLOWED
    && Complete(data.fields)
    && FieldsOk(rd, data.fields)
  }

  // ----- The error list -----

  function NumberProblems(key: Key, v: Json, range: Range): seq<Problem> {
    if v.Null? then (if range.nullable then [] else [Bad(key, IsNull)])
    else if !IsNumber(v) then [Bad(key, NotANumber)]
    else if AsDouble(v).None? then []
    else if !AsDouble(v).value.Finite? then [Bad(key, NotFinite)]
    else
      var r := AsDouble(v).value.r;
      (if range.min.Some? && r < range.min.value then [Bad(key, BelowMinimum)] else [])
      + (if range.max.Some? && r > range.max.value then [Bad(key, AboveMaximum)] else [])
  }

  function TimestampProblems(rd: Reader, v: Json): seq<Problem> {
    if !v.Str? then [Bad(TsDevice, NotAString)]
    else
      match rd.parseTs(v.s)
      case NotIso => [Bad(TsDevice, NotIso8601)]
      case Naive => [Bad(TsDevice, NoTimezone)]
      case Aware(_) => []
      case OutOfRange => []
  }

  function FieldProblems(rd: Reader, p: Payload, key: Key): seq<Problem>
    requires Complete(p)
  {
    match key
    case SchemaVersion =>
      if SchemaVersion in p && p[SchemaVersion] != Str("1.0") then [Bad(key, WrongVersion)] else []
    case DeviceId =>
      if !p[key].Str? || !DeviceIdMatches(rd, p[key].s) then [Bad(key, PatternMismatch)] else []
    case GatewayId =>
      if !p[key].Str? || !GatewayIdMatches(rd, p[key].s) then [Bad(key, PatternMismatch)] else []
    case TsDevice => TimestampProblems(rd, p[TsDevice])
    case SeqNo => if !p[key].Int? || p[key].n < 0 then [Bad(key, NotNatural)] else []
    case Status => if !p[key].Str? || p[key].s !in STATUSES then [Bad(key, NotInEnum)] else []
    case Other(_) => []
    case number => NumberProblems(number, p[number], RangeOf(number).value)
  }

  function Problems(rd: Reader, p: Payload, keys: seq<Key>): seq<Problem>
    requires Complete(p)
  {
    if keys == [] then [] else FieldProblems(rd, p, keys[0]) + Problems(rd, p, keys[1..])
  }

  predicate NumberOverflows(p: Payload)
    requires Complete(p)
  {
    exists key :: key in REQUIRED && RangeOf(key).Some? && TooLarge(p[key])
  }

  /** Some field makes the validator raise OverflowError. */
  predicate Overflows(rd: Reader, p: Payload)
    requires Complete(p)
  {
    (p[TsDevice].Str? && rd.parseTs(p[TsDevice].s).OutOfRange?) || NumberOverflows(p)
  }

  function KeyProblems(p: Payload): seq<Problem> {
    if p.Keys <= ALLOWED then [] else [UnknownKeys(p.Keys - ALLOWED)]
  }

  function OptionalNumber(v: Json): Option<real> {
    if AsDouble(v).Some? && AsDouble(v).value.Finite? then Some(AsDouble(v).value.r) else None
  }

  function ValueOf(x: Option<real>): real {
    if x.Some? then x.value else 0.0
  }

  function NumberOf(v: Json): real {
    ValueOf(OptionalNumber(v))
  }

  function StringOf(v: Json): string {
    if v.Str? then v.s else ""
  }

  function InstantOf(rd: Reader, v: Json): UtcTime {
    if v.Str? && rd.parseTs(v.s).Aware? then rd.parseTs(v.s).utc else EPOCH
  }

  function NaturalOf(v: Json): nat {
    if v.Int? && v.n >= 0 then v.n else 0
  }

  const EPOCH := UtcTime(1970, 1, 1, 0, 0)

  function RecordOf(rd: Reader, p: Payload): TelemetryRecord
    requires Complete(p)
  {
    TelemetryRecord(StringOf(p[DeviceId]), StringOf(p[GatewayId]), InstantOf(rd, p[TsDevice]), NaturalOf(p[SeqNo]),
                    NumberOf(p[Lat]), NumberOf(p[Lon]), NumberOf(p[ElevationM]), NumberOf(p[TempC]),
                    NumberOf(p[RhPct]), NumberOf(p[SmokePpm]),
                    OptionalNumber(p[WindSpeedMs]), OptionalNumber(p[WindDirDeg]),
                    NumberOf(p[BatteryPct]), StringOf(p[Status]))
  }

  function JudgeFields(rd: Reader, p: Payload): Judgement
    requires Complete(p)
  {
    var problems := KeyProblems(p) + Problems(rd, p, CHECKED);
    if Overflows(rd, p) then Overflow
    else if problems != [] then Violated(problems)
    else Valid(RecordOf(rd, p))
  }

  /** The outcome of validation. */
  function Judge(rd: Reader, data: Json): Judgement {
    if !data.Object? then Violated([NotAnObject])
    else
      var p := data.fields;
      if !Complete(p) then Violated(KeyProblems(p) + [MissingKeys(REQUIRED - p.Keys)])
      else JudgeFields(rd, p)
  }

  // ----- The error list names each violated clause once, in order -----

  /** The fields that violate the contract, in checking order. */
  function Violators(rd: Reader, p: Payload, keys: seq<Key>): seq<Key>
    requires Complete(p)
  {
    if keys == [] then []
    else (if FieldOk(rd, p, keys[0]) then [] else [keys[0]]) + Violators(rd, p, keys[1..])
  }

  predicate LessThan(v: Json, bound: Option<real>) {
    bound.Some? && ((v.Int? && v.n as real < bound.value) || (v.Float? && v.x.Finite? && v.x.r < bound.value))
  }

  predicate MoreThan(v: Json, bound: Option<real>) {
    bound.Some? && ((v.Int? && v.n as real > bound.value) || (v.Float? && v.x.Finite? && v.x.r > bound.value))
  }

  /** The clause a numeric value breaks. */
  predicate BreaksNumber(v: Json, range: Range, why: Reason) {
    match why
    case IsNull => v.Null? && !range.nullable
    case NotANumber => !v.Null? && !v.Int? && !v.Float?
    case NotFinite => v.Float? && !v.x.Finite?
    case BelowMinimum => LessThan(v, range.min)
    case AboveMaximum => MoreThan(v, range.max)
    case _ => false
  }

  /** The clause of the contract a field breaks, stated of the field alone. */
  predicate Breaks(rd: Reader, p: Payload, key: Key, why: Reason)
    requires Complete(p)
  {
    match key
    case SchemaVersion => why.WrongVersion? && SchemaVersion in p && p[SchemaVersion] != Str("1.0")
    case DeviceId => why.PatternMismatch? && !(p[DeviceId].Str? && DeviceIdMatches(rd, p[DeviceId].s))
    case GatewayId => why.PatternMismatch? && !(p[GatewayId].Str? && GatewayIdMatches(rd, p[GatewayId].s))
    case TsDevice =>
      || (why.NotAString? && !p[TsDevice].Str?)
      || (why.NotIso8601? && p[TsDevice].Str? && rd.parseTs(p[TsDevice].s).NotIso?)
      || (why.NoTimezone? && p[TsDevice].Str? && rd.parseTs(p[TsDevice].s).Naive?)
    case SeqNo => why.NotNatural? && !(p[SeqNo].Int? && p[SeqNo].n >= 0)
    case Status => why.NotInEnum? && !(p[Status].Str? && p[Status].s in STATUSES)
    case Other(_) => false
    case number => BreaksNumber(p[number], RangeOf(number).value, why)
  }

  lemma OneClause(v: Json, range: Range)
    requires range.min.Some? && range.max.Some? ==> range.min.value <= range.max.value
    ensures forall w1, w2 :: BreaksNumber(v, range, w1) && BreaksNumber(v, range, w2) ==> w1 == w2
  {
  }

  lemma NumberBreaksOne(key: Key, v: Json)
    requires RangeOf(key).Some? && !TooLarge(v)
    ensures NumberOk(v, RangeOf(key).value) <==> forall why :: !BreaksNumber(v, RangeOf(key).value, why)
    ensures forall w1, w2 ::
      BreaksNumber(v, RangeOf(key).value, w1) && BreaksNumber(v, RangeOf(key).value, w2) ==> w1 == w2
  {
    var range := RangeOf(key).value;
    OneClause(v, range);
    if !NumberOk(v, range) {
      assert BreaksNumber(v, range, if v.Null? then IsNull else if !IsNumber(v) then NotANumber
                                    else if !AsDouble(v).value.Finite? then NotFinite
                                    else if LessThan(v, range.min) then BelowMinimum else AboveMaximum);
    }
  }

  /** The clauses exclude each other: a field that is not in order breaks exactly one, a field in order none. */
  lemma BreaksOne(rd: Reader, p: Payload, key: Key)
    requires Complete(p) && !Overflows(rd, p)
    ensures FieldOk(rd, p, key) <==> forall why :: !Breaks(rd, p, key, why)
    ensures forall w1, w2 :: Breaks(rd, p, key, w1) && Breaks(rd, p, key, w2) ==> w1 == w2
  {
    if RangeOf(key).Some? {
      NumberNotTooLarge(rd, p, key);
      NumberBreaksOne(key, p[key]);
      assert FieldOk(rd, p, key) == NumberOk(p[key], RangeOf(key).value);
      assert forall why :: Breaks(rd, p, key, why) == BreaksNumber(p[key], RangeOf(key).value, why);
    } else if !FieldOk(rd, p, key) {
      assert Breaks(rd, p, key, match key
        case SchemaVersion => WrongVersion
        case SeqNo => NotNatural
        case Status => NotInEnum
        case TsDevice =>
          if !p[TsDevice].Str? then NotAString else if rd.parseTs(p[TsDevice].s).NotIso? then NotIso8601 else NoTimezone
        case _ => PatternMismatch);
    }
  }

  lemma NumberProblemsExact(key: Key, v: Json)
    requires RangeOf(key).Some? && !TooLarge(v)
    ensures var problems := NumberProblems(key, v, RangeOf(key).value);
      && |problems| == (if NumberOk(v, RangeOf(key).value) then 0 else 1)
      && forall i :: 0 <= i < |problems| ==>
        problems[i].Bad? && problems[i].key == key && BreaksNumber(v, RangeOf(key).value, problems[i].why)
  {
  }

  lemma NumberNotTooLarge(rd: Reader, p: Payload, key: Key)
    requires Complete(p) && !Overflows(rd, p) && RangeOf(key).Some?
    ensures key in p && !TooLarge(p[key])
  {
    assert key in REQUIRED;
  }

  /** Problem `i` is about field `bad[i]` and reports a clause the field breaks. */
  predicate Names(rd: Reader, p: Payload, problems: seq<Problem>, bad: seq<Key>)
    requires Complete(p)
  {
    && |problems| == |bad|
    && forall i :: 0 <= i < |bad| ==>
      problems[i].Bad? && problems[i].key == bad[i] && Breaks(rd, p, bad[i], problems[i].why)
  }

  /** A field has one problem, the clause it breaks, when it violates the contract, and none when it does not. */
  lemma OneProblemPerField(rd: Reader, p: Payload, key: Key)
    requires Complete(p) && !Overflows(rd, p)
    ensures |FieldProblems(rd, p, key)| == if FieldOk(rd, p, key) then 0 else 1
    ensures Names(rd, p, FieldProblems(rd, p, key), if FieldOk(rd, p, key) then [] else [key])
  {
    if RangeOf(key).Some? {
      NumberNotTooLarge(rd, p, key);
      NumberProblemsExact(key, p[key]);
      assert FieldProblems(rd, p, key) == NumberProblems(key, p[key], RangeOf(key).value);
      assert FieldOk(rd, p, key) == NumberOk(p[key], RangeOf(key).value);
      assert forall why :: Breaks(rd, p, key, why) == BreaksNumber(p[key], RangeOf(key).value, why);
    }
  }

  lemma {:induction false} NoProblemsFieldsOk(rd: Reader, p: Payload, keys: seq<Key>)
    requires Complete(p) && !Overflows(rd, p) && Problems(rd, p, keys) == []
    ensures forall i :: 0 <= i < |keys| ==> FieldOk(rd, p, keys[i])
    decreases |keys|
  {
    if keys != [] {
      assert |FieldProblems(rd, p, keys[0])| + |Problems(rd, p, keys[1..])| == 0;
      OneProblemPerField(rd, p, keys[0]);
      NoProblemsFieldsOk(rd, p, keys[1..]);
    }
  }

  lemma NamesConcat(rd: Reader, p: Payload, p1: seq<Problem>, b1: seq<Key>, p2: seq<Problem>, b2: seq<Key>)
    requires Complete(p) && Names(rd, p, p1, b1) && Names(rd, p, p2, b2)
    ensures Names(rd, p, p1 + p2, b1 + b2)
  {
  }

  lemma {:induction false} ProblemsNameViolators(rd: Reader, p: Payload, keys: seq<Key>)
    requires Complete(p) && !Overflows(rd, p)
    ensures Names(rd, p, Problems(rd, p, keys), Violators(rd, p, keys))
    decreases |keys|
  {
    if keys != [] {
      OneProblemPerField(rd, p, keys[0]);
      ProblemsNameViolators(rd, p, keys[1..]);
      NamesConcat(rd, p, FieldProblems(rd, p, keys[0]), if FieldOk(rd, p, keys[0]) then [] else [keys[0]],
                  Problems(rd, p, keys[1..]), Violators(rd, p, keys[1..]));
    }
  }

  lemma CheckedCovers(key: Key)
    ensures key in CHECKED <==> key in ALLOWED
  {
    if key in ALLOWED {
      var at := match key
        case SchemaVersion => 0 case DeviceId => 1 case GatewayId => 2 case TsDevice => 3 case SeqNo => 4 case Lat => 5
        case Lon => 6 case ElevationM => 7 case TempC => 8 case RhPct => 9 case SmokePpm => 10
        case WindSpeedMs => 11 case WindDirDeg => 12 case BatteryPct => 13 case _ => 14;
      assert CHECKED[at] == key;
    }
  }

  lemma CheckedFieldsOk(rd: Reader, p: Payload)
    requires Complete(p)
    ensures FieldsOk(rd, p) <==> forall i :: 0 <= i < |CHECKED| ==> FieldOk(rd, p, CHECKED[i])
  {
    if FieldsOk(rd, p) {
      forall i | 0 <= i < |CHECKED| ensures FieldOk(rd, p, CHECKED[i]) {
        CheckedCovers(CHECKED[i]);
      }
    }
    if forall i :: 0 <= i < |CHECKED| ==> FieldOk(rd, p, CHECKED[i]) {
      forall key {:trigger FieldOk(rd, p, key)} | key in ALLOWED ensures FieldOk(rd, p, key) {
        CheckedCovers(key);
      }
    }
  }

  lemma MeetingDoesNotOverflow(rd: Reader, p: Payload)
    requires Complete(p) && FieldsOk(rd, p)
    ensures !Overflows(rd, p)
  {
    assert FieldOk(rd, p, TsDevice);
    forall key | key in REQUIRED && RangeOf(key).Some? ensures !TooLarge(p[key]) {
      assert FieldOk(rd, p, key);
    }
  }

  lemma {:induction false} OkFieldsNoProblems(rd: Reader, p: Payload, keys: seq<Key>)
    requires Complete(p) && !Overflows(rd, p)
    requires forall i :: 0 <= i < |keys| ==> FieldOk(rd, p, keys[i])
    ensures Problems(rd, p, keys) == []
    decreases |keys|
  {
    if keys != [] {
      OneProblemPerField(rd, p, keys[0]);
      OkFieldsNoProblems(rd, p, keys[1..]);
    }
  }

  /** Soundness and completeness: a record comes back exactly for the payloads that meet the contract. */
  lemma ValidIffMeets(rd: Reader, data: Json)
    ensures Judge(rd, data).Valid? <==> Meets(rd, data)
    ensures Judge(rd, data).Valid? ==> Judge(rd, data).record == RecordOf(rd, data.fields)
  {
    if data.Object? && Complete(data.fields) {
      CheckedFieldsOk(rd, data.fields);
      if FieldsOk(rd, data.fields) {
        MeetingDoesNotOverflow(rd, data.fields);
        OkFieldsNoProblems(rd, data.fields, CHECKED);
      } else if !Overflows(rd, data.fields) && Problems(rd, data.fields, CHECKED) == [] {
        NoProblemsFieldsOk(rd, data.fields, CHECKED);
      }
    }
  }

  /**
   For every other payload: nothing but the key problems when a key is missing;
   the overflow, whatever else is wrong; and otherwise the unknown keys, if any,
   followed by one problem for each violating field, in checking order, reporting the
   one clause the field breaks (`BreaksOne`).
   */
  lemma ErrorsExact(rd: Reader, data: Json)
    requires !Meets(rd, data)
    ensures Judge(rd, data).Overflow? <==> data.Object? && Complete(data.fields) && Overflows(rd, data.fields)
    ensures data.Object? && !Complete(data.fields) ==>
      Judge(rd, data) == Violated(KeyProblems(data.fields) + [MissingKeys(REQUIRED - data.fields.Keys)])
    ensures Judge(rd, data).Violated? && data.Object? && Complete(data.fields) ==>
      var p := data.fields;
      var problems, head := Judge(rd, data).problems, KeyProblems(p);
      && head <= problems && problems != []
      && Names(rd, p, problems[|head|..],
               Violators(rd, p, [SchemaVersion, DeviceId, GatewayId, TsDevice, SeqNo, Lat, Lon, ElevationM,
                                 TempC, RhPct, SmokePpm, WindSpeedMs, WindDirDeg, BatteryPct, Status]))
    ensures data.Object? ==>
      && KeyProblems(data.fields) == (if data.fields.Keys <= ALLOWED then []
                                      else [UnknownKeys(data.fields.Keys - ALLOWED)])
      && REQUIRED == {DeviceId, GatewayId, TsDevice, SeqNo, Lat, Lon, ElevationM, TempC, RhPct, SmokePpm,
                      WindSpeedMs, WindDirDeg, BatteryPct, Status}
      && ALLOWED == REQUIRED + {SchemaVersion}
  {
    ValidIffMeets(rd, data);
    if data.Object? && Complete(data.fields) && !Overflows(rd, data.fields) {
      ProblemsNameViolators(rd, data.fields, CHECKED);
      assert (KeyProblems(data.fields) + Problems(rd, data.fields, CHECKED))[|KeyProblems(data.fields)|..]
        == Problems(rd, data.fields, CHECKED);
    }
  }

  // ----- The contract written out -----

  lemma NumericKeys(key: Key)
    ensures key in REQUIRED && RangeOf(key).Some? <==>
            key in {Lat, Lon, ElevationM, TempC} || key in {RhPct, SmokePpm, WindSpeedMs, WindDirDeg, BatteryPct}
  {
  }

  /** A number the validator can use: an integer within the range of doubles, or a finite float. */
  predicate Measures(v: Json) {
    (v.Int? && -DOUBLE_LIMIT < v.n < DOUBLE_LIMIT) || (v.Float? && v.x.Finite?)
  }

  function Measure(v: Json): real
    requires Measures(v)
  {
    if v.Int? then v.n as real else v.x.r
  }

  lemma NumberOkIff(v: Json, range: Range)
    ensures NumberOk(v, range) <==>
      (v == Null && range.nullable) || (Measures(v) && Within(Measure(v), range))
    ensures OptionalNumber(v) == if Measures(v) then Some(Measure(v)) else None
  {
  }

  /** Where the reading was taken: no null, and the ranges of the globe and of the sensor. */
  lemma PlaceOkIff(rd: Reader, p: Payload)
    requires Complete(p)
    ensures FieldOk(rd, p, Lat) <==> Measures(p[Lat]) && -90.0 <= Measure(p[Lat]) <= 90.0
    ensures FieldOk(rd, p, Lon) <==> Measures(p[Lon]) && -180.0 <= Measure(p[Lon]) <= 180.0
    ensures FieldOk(rd, p, ElevationM) <==> Measures(p[ElevationM])
    ensures FieldOk(rd, p, TempC) <==> Measures(p[TempC]) && -20.0 <= Measure(p[TempC]) <= 80.0
  {
    NumberOkIff(p[Lat], RangeOf(Lat).value);
    NumberOkIff(p[Lon], RangeOf(Lon).value);
    NumberOkIff(p[ElevationM], RangeOf(ElevationM).value);
    NumberOkIff(p[TempC], RangeOf(TempC).value);
  }

  /** The air and the battery: null only from a device without an anemometer. */
  lemma AirOkIff(rd: Reader, p: Payload)
    requires Complete(p)
    ensures FieldOk(rd, p, RhPct) <==> Measures(p[RhPct]) && 0.0 <= Measure(p[RhPct]) <= 100.0
    ensures FieldOk(rd, p, SmokePpm) <==> Measures(p[SmokePpm]) && 0.0 <= Measure(p[SmokePpm])
    ensures FieldOk(rd, p, WindSpeedMs) <==>
      p[WindSpeedMs] == Null || (Measures(p[WindSpeedMs]) && 0.0 <= Measure(p[WindSpeedMs]))
    ensures FieldOk(rd, p, WindDirDeg) <==>
      p[WindDirDeg] == Null || (Measures(p[WindDirDeg]) && 0.0 <= Measure(p[WindDirDeg]) <= 360.0)
    ensures FieldOk(rd, p, BatteryPct) <==> Measures(p[BatteryPct]) && 0.0 <= Measure(p[BatteryPct]) <= 100.0
  {
    NumberOkIff(p[RhPct], RangeOf(RhPct).value);
    NumberOkIff(p[SmokePpm], RangeOf(SmokePpm).value);
    NumberOkIff(p[WindSpeedMs], RangeOf(WindSpeedMs).value);
    NumberOkIff(p[WindDirDeg], RangeOf(WindDirDeg).value);
    NumberOkIff(p[BatteryPct], RangeOf(BatteryPct).value);
  }

  /** The texts: version, the two id patterns, the timestamp, and the three states; and the sequence number. */
  lemma TextOkIff(rd: Reader, p: Payload)
    requires Complete(p)
    ensures FieldOk(rd, p, SchemaVersion) <==> SchemaVersion !in p || p[SchemaVersion] == Str("1.0")
    ensures FieldOk(rd, p, DeviceId) <==>
      p[DeviceId].Str?
      && (var s := p[DeviceId].s;
          |s| == 12 && s[..6] == "PYRO-T" && s[6] in ['1', '2', '3'] && s[7] == '-'
          && forall i :: 8 <= i < 12 ==> rd.isDigit(s[i]))
    ensures FieldOk(rd, p, GatewayId) <==>
      p[GatewayId].Str?
      && (var s := p[GatewayId].s; |s| >= 5 && s[..3] == "GW-" && forall i :: 3 <= i < |s| ==> rd.isDigit(s[i]))
    ensures FieldOk(rd, p, TsDevice) <==> p[TsDevice].Str? && rd.parseTs(p[TsDevice].s).Aware?
    ensures FieldOk(rd, p, SeqNo) <==> p[SeqNo].Int? && p[SeqNo].n >= 0
    ensures FieldOk(rd, p, Status) <==>
      p[Status] == Str("OK") || p[Status] == Str("DEGRADED") || p[Status] == Str("LOW_BATTERY")
  {
    if p[DeviceId].Str? && |p[DeviceId].s| == 12 {
      DigitsFrom(rd, p[DeviceId].s, 8);
    }
    if p[GatewayId].Str? && |p[GatewayId].s| >= 5 {
      DigitsFrom(rd, p[GatewayId].s, 3);
    }
  }

  lemma DigitsFrom(rd: Reader, s: string, from: nat)
    requires from <= |s|
    ensures AllDigits(rd, s[from..]) <==> forall i :: from <= i < |s| ==> rd.isDigit(s[i])
  {
    assert forall i :: from <= i < |s| ==> s[i] == s[from..][i - from];
  }

  lemma EveryFieldOk(rd: Reader, p: Payload)
    requires Complete(p)
    ensures FieldsOk(rd, p) <==>
      && FieldOk(rd, p, SchemaVersion) && FieldOk(rd, p, DeviceId) && FieldOk(rd, p, GatewayId)
      && FieldOk(rd, p, TsDevice) && FieldOk(rd, p, SeqNo) && FieldOk(rd, p, Lat) && FieldOk(rd, p, Lon)
      && FieldOk(rd, p, ElevationM) && FieldOk(rd, p, TempC) && FieldOk(rd, p, RhPct) && FieldOk(rd, p, SmokePpm)
      && FieldOk(rd, p, WindSpeedMs) && FieldOk(rd, p, WindDirDeg) && FieldOk(rd, p, BatteryPct)
      && FieldOk(rd, p, Status)
  {
  }

  lemma KeysAre()
    ensures REQUIRED == {DeviceId, GatewayId, TsDevice, SeqNo, Lat, Lon, ElevationM, TempC, RhPct, SmokePpm,
                         WindSpeedMs, WindDirDeg, BatteryPct, Status}
    ensures ALLOWED == {SchemaVersion, DeviceId, GatewayId, TsDevice, SeqNo, Lat, Lon, ElevationM, TempC, RhPct,
                        SmokePpm, WindSpeedMs, WindDirDeg, BatteryPct, Status}
  {
  }

  /**
   A record comes back exactly for an object that has all fourteen required keys, no key but
   these and the version, and every field in order: the contract, field by field.
   */
  lemma ConformsIff(rd: Reader, data: Json)
    ensures Judge(rd, data).Valid? <==>
      && data.Object?
      && {DeviceId, GatewayId, TsDevice, SeqNo, Lat, Lon, ElevationM, TempC, RhPct, SmokePpm,
          WindSpeedMs, WindDirDeg, BatteryPct, Status} <= data.fields.Keys
      && data.fields.Keys <= {SchemaVersion, DeviceId, GatewayId, TsDevice, SeqNo, Lat, Lon, ElevationM, TempC, RhPct,
                              SmokePpm, WindSpeedMs, WindDirDeg, BatteryPct, Status}
      && FieldOk(rd, data.fields, SchemaVersion) && FieldOk(rd, data.fields, DeviceId)
      && FieldOk(rd, data.fields, GatewayId) && FieldOk(rd, data.fields, TsDevice) && FieldOk(rd, data.fields, SeqNo)
      && FieldOk(rd, data.fields, Lat) && FieldOk(rd, data.fields, Lon) && FieldOk(rd, data.fields, ElevationM)
      && FieldOk(rd, data.fields, TempC) && FieldOk(rd, data.fields, RhPct) && FieldOk(rd, data.fields, SmokePpm)
      && FieldOk(rd, data.fields, WindSpeedMs) && FieldOk(rd, data.fields, WindDirDeg)
      && FieldOk(rd, data.fields, BatteryPct) && FieldOk(rd, data.fields, Status)
  {
    KeysAre();
    ValidIffMeets(rd, data);
    if data.Object? && Complete(data.fields) {
      EveryFieldOk(rd, data.fields);
    }
  }

  /** No record comes back for a payload with null at a field other than the two of the anemometer. */
  lemma NullIsRejected(rd: Reader, p: Payload, key: Key)
    requires key in {Lat, Lon, ElevationM, TempC, RhPct, SmokePpm, BatteryPct} && key in p && p[key] == Null
    ensures !Judge(rd, Object(p)).Valid?
  {
    ConformsIff(rd, Object(p));
    if Complete(p) {
      PlaceOkIff(rd, p);
      AirOkIff(rd, p);
      assert !FieldOk(rd, p, key);
    }
  }

  lemma EncodedCalm(iso: UtcTime -> string, r: TelemetryRecord)
    ensures Encode(iso, r.(windSpeedMs := None, windDirDeg := None)).fields
            == Encode(iso, r).fields[WindSpeedMs := Null][WindDirDeg := Null]
  {
  }

  /** Null at an anemometer field is accepted and comes back as its absence. */
  lemma NullWindIsAccepted(rd: Reader, iso: UtcTime -> string, r: TelemetryRecord)
    requires RecordOk(rd, r) && rd.parseTs(iso(r.tsDevice)) == Aware(r.tsDevice)
    ensures Judge(rd, Object(Encode(iso, r).fields[WindSpeedMs := Null][WindDirDeg := Null]))
            == Valid(r.(windSpeedMs := None, windDirDeg := None))
  {
    EncodedValidates(rd, iso, r.(windSpeedMs := None, windDirDeg := None));
    EncodedCalm(iso, r);
  }

  /** A validated record holds the payload's own texts and instant. */
  lemma RecordTexts(rd: Reader, data: Json)
    ensures Judge(rd, data).Valid? ==>
      var p, r := data.fields, Judge(rd, data).record;
      && data.Object? && Complete(p)
      && p[DeviceId] == Str(r.deviceId) && p[GatewayId] == Str(r.gatewayId) && p[Status] == Str(r.status)
      && p[SeqNo] == Int(r.seqNo) && p[TsDevice].Str? && rd.parseTs(p[TsDevice].s) == Aware(r.tsDevice)
  {
    ConformsIff(rd, data);
    ValidIffMeets(rd, data);
    if Judge(rd, data).Valid? {
      var p := data.fields;
      TextOkIff(rd, p);
      assert FieldOk(rd, p, DeviceId) && FieldOk(rd, p, GatewayId) && FieldOk(rd, p, Status);
      assert FieldOk(rd, p, SeqNo) && FieldOk(rd, p, TsDevice);
    }
  }

  /** Only the two fields of the anemometer may be null. */
  lemma NullableKeys(key: Key)
    requires RangeOf(key).Some?
    ensures RangeOf(key).value.nullable <==> key == WindSpeedMs || key == WindDirDeg
  {
  }

  lemma UsableNumber(v: Json, range: Range)
    requires NumberOk(v, range)
    ensures (v == Null && range.nullable && OptionalNumber(v) == None)
         || (OptionalNumber(v).Some? && v in Written(OptionalNumber(v).value))
  {
    NumberOkIff(v, range);
  }

  lemma RecordNumber(rd: Reader, p: Payload, key: Key)
    requires Complete(p) && FieldsOk(rd, p)
    requires key in {Lat, Lon, ElevationM, TempC, RhPct, SmokePpm, WindSpeedMs, WindDirDeg, BatteryPct}
    ensures key in p
    ensures (p[key] == Null && key in {WindSpeedMs, WindDirDeg} && OptionalNumber(p[key]) == None)
         || (OptionalNumber(p[key]).Some? && p[key] in Written(OptionalNumber(p[key]).value))
  {
    NumericKeys(key);
    NullableKeys(key);
    assert FieldOk(rd, p, key);
    UsableNumber(p[key], RangeOf(key).value);
  }

  /** And its own numbers; a null wind is an absent one. */
  lemma RecordNumbers(rd: Reader, data: Json)
    ensures Judge(rd, data).Valid? ==>
      var p, r := data.fields, Judge(rd, data).record;
      && data.Object? && Complete(p)
      && p[Lat] in Written(r.lat) && p[Lon] in Written(r.lon) && p[ElevationM] in Written(r.elevationM)
      && p[TempC] in Written(r.tempC) && p[RhPct] in Written(r.rhPct) && p[SmokePpm] in Written(r.smokePpm)
      && p[BatteryPct] in Written(r.batteryPct)
      && (if r.windSpeedMs.Some? then p[WindSpeedMs] in Written(r.windSpeedMs.value) else p[WindSpeedMs] == Null)
      && (if r.windDirDeg.Some? then p[WindDirDeg] in Written(r.windDirDeg.value) else p[WindDirDeg] == Null)
  {
    ValidIffMeets(rd, data);
    if Judge(rd, data).Valid? {
      RecordNumber(rd, data.fields, Lat);
      RecordNumber(rd, data.fields, Lon);
      RecordNumber(rd, data.fields, ElevationM);
      RecordNumber(rd, data.fields, TempC);
      RecordNumber(rd, data.fields, RhPct);
      RecordNumber(rd, data.fields, SmokePpm);
      RecordNumber(rd, data.fields, WindSpeedMs);
      RecordNumber(rd, data.fields, WindDirDeg);
      RecordNumber(rd, data.fields, BatteryPct);
    }
  }

  /** The ways a payload can hold a number: as a float, or as an integer. */
  ghost function Written(x: real): iset<Json> {
    iset v: Json | v == Float(Finite(x)) || (v.Int? && v.n as real == x)
  }

  // ----- The exception that is not a contract violation -----

  /** 2^1024 - 2^970: half way between the largest double and the next power of two. */
  lemma DoubleLimitIs()
    ensures var k := 0x2_000000000000000000000000; // 2^97
      DOUBLE_LIMIT == 0x3FFFFFFFFFFFFF * (k * k * k * k * k * k * k * k * k * k)
  {
    var k := 0x2_000000000000000000000000;
    Pow2Sum(970, 54);
    PowerOf97(k);
    assert Pow2(54) == 0x40000000000000 by {
      Pow2Sum(27, 27);
      Pow2Sum(13, 14);
      Pow2Sum(7, 7);
      Pow2Sum(6, 7);
      Pow2Small();
    }
  }

  lemma Pow2Small()
    ensures Pow2(6) == 64 && Pow2(7) == 128
  {
    assert Pow2(3) == 2 * Pow2(2) && Pow2(2) == 2 * Pow2(1) && Pow2(1) == 2 * Pow2(0);
    assert Pow2(6) == 2 * Pow2(5) && Pow2(5) == 2 * Pow2(4) && Pow2(4) == 2 * Pow2(3);
    assert Pow2(7) == 2 * Pow2(6);
  }

  lemma {:induction false} Pow2Sum(a: nat, b: nat)
    ensures Pow2(a + b) == Pow2(a) * Pow2(b)
  {
    if a > 0 {
      Pow2Sum(a - 1, b);
    }
  }

  lemma Pow2At97()
    ensures Pow2(97) == 0x2_000000000000000000000000
  {
    Pow2Small();
    Pow2Sum(6, 6);
    Pow2Sum(6, 7);
    Pow2Sum(12, 12);
    Pow2Sum(12, 13);
    Pow2Sum(24, 24);
    Pow2Sum(24, 25);
    Pow2Sum(48, 49);
  }

  lemma PowerOf97(k: nat)
    requires k == 0x2_000000000000000000000000
    ensures Pow2(970) == k * k * k * k * k * k * k * k * k * k
  {
    Pow2At97();
    Pow2Sum(97, 97);
    Pow2Sum(194, 97);
    Pow2Sum(291, 97);
    Pow2Sum(388, 97);
    Pow2Sum(485, 97);
    Pow2Sum(582, 97);
    Pow2Sum(679, 97);
    Pow2Sum(776, 97);
    Pow2Sum(873, 97);
  }

  /** Which payloads escape as OverflowError: complete ones, with such an integer or such a timestamp. */
  lemma OverflowIff(rd: Reader, data: Json)
    ensures Judge(rd, data) == Overflow <==>
      && data.Object?
      && {DeviceId, GatewayId, TsDevice, SeqNo, Lat, Lon, ElevationM, TempC, RhPct, SmokePpm,
          WindSpeedMs, WindDirDeg, BatteryPct, Status} <= data.fields.Keys
      && (|| (data.fields[TsDevice].Str? && rd.parseTs(data.fields[TsDevice].s).OutOfRange?)
          || (exists key ::
                key in {Lat, Lon, ElevationM, TempC, RhPct, SmokePpm, WindSpeedMs, WindDirDeg, BatteryPct}
                && data.fields[key].Int?
                && (data.fields[key].n >= DOUBLE_LIMIT || -data.fields[key].n >= DOUBLE_LIMIT)))
  {
    if data.Object? && Complete(data.fields) {
      forall key ensures key in REQUIRED && RangeOf(key).Some? <==>
        key in {Lat, Lon, ElevationM, TempC, RhPct, SmokePpm, WindSpeedMs, WindDirDeg, BatteryPct}
      {
        NumericKeys(key);
      }
      forall key | key in REQUIRED
        ensures TooLarge(data.fields[key]) <==>
          data.fields[key].Int? && (data.fields[key].n >= DOUBLE_LIMIT || -data.fields[key].n >= DOUBLE_LIMIT)
      {
      }
    }
  }

  /** An integer too large for a double in any numeric field of any complete payload escapes as OverflowError. */
  lemma HugeIntegerOverflows(rd: Reader, p: Payload, key: Key, n: int)
    requires Complete(p) && (n >= DOUBLE_LIMIT || -n >= DOUBLE_LIMIT)
    requires key in {Lat, Lon, ElevationM, TempC, RhPct, SmokePpm, WindSpeedMs, WindDirDeg, BatteryPct}
    ensures Judge(rd, Object(p[key := Int(n)])) == Overflow
  {
    NumericKeys(key);
    var q := p[key := Int(n)];
    assert Complete(q);
    assert TooLarge(q[key]);
  }

  /** So does a timestamp whose UTC instant leaves the date range. */
  lemma FarTimestampOverflows(rd: Reader, p: Payload, text: string)
    requires Complete(p) && rd.parseTs(text).OutOfRange?
    ensures Judge(rd, Object(p[TsDevice := Str(text)])) == Overflow
  {
    assert Complete(p[TsDevice := Str(text)]);
  }

  /** A record of the contract with its latitude replaced by the smallest such integer. */
  lemma OverflowingPayload(rd: Reader, iso: UtcTime -> string, r: TelemetryRecord)
    ensures Judge(rd, Object(Encode(iso, r).fields[Lat := Int(DOUBLE_LIMIT)])) == Overflow
  {
    EncodedComplete(iso, r);
    HugeIntegerOverflows(rd, Encode(iso, r).fields, Lat, DOUBLE_LIMIT);
  }

  // ----- Re-validation -----

  function EncodeOptional(x: Option<real>): Json {
    if x.None? then Null else Float(Finite(x.value))
  }

  /** The payload of a record, its timestamp written by `iso`. */
  function Encode(iso: UtcTime -> string, r: TelemetryRecord): Json {
    Object(map[
      DeviceId := Str(r.deviceId), GatewayId := Str(r.gatewayId),
      TsDevice := Str(iso(r.tsDevice)), SeqNo := Int(r.seqNo),
      Lat := Float(Finite(r.lat)), Lon := Float(Finite(r.lon)), ElevationM := Float(Finite(r.elevationM)),
      TempC := Float(Finite(r.tempC)), RhPct := Float(Finite(r.rhPct)), SmokePpm := Float(Finite(r.smokePpm)),
      WindSpeedMs := EncodeOptional(r.windSpeedMs), WindDirDeg := EncodeOptional(r.windDirDeg),
      BatteryPct := Float(Finite(r.batteryPct)), Status := Str(r.status)])
  }

  predicate IdsOk(rd: Reader, r: TelemetryRecord) {
    DeviceIdMatches(rd, r.deviceId) && GatewayIdMatches(rd, r.gatewayId) && r.status in STATUSES
  }

  predicate NumbersOk(r: TelemetryRecord) {
    && -90.0 <= r.lat <= 90.0 && -180.0 <= r.lon <= 180.0
    && -20.0 <= r.tempC <= 80.0 && 0.0 <= r.rhPct <= 100.0 && 0.0 <= r.smokePpm && 0.0 <= r.batteryPct <= 100.0
    && (r.windSpeedMs.Some? ==> 0.0 <= r.windSpeedMs.value)
    && (r.windDirDeg.Some? ==> 0.0 <= r.windDirDeg.value <= 360.0)
  }

  /** What every record the validator returns satisfies. */
  predicate RecordOk(rd: Reader, r: TelemetryRecord) {
    IdsOk(rd, r) && NumbersOk(r)
  }

  lemma FieldsGiveIds(rd: Reader, p: Payload)
    requires Complete(p) && FieldsOk(rd, p)
    ensures IdsOk(rd, RecordOf(rd, p))
  {
    assert FieldOk(rd, p, DeviceId) && FieldOk(rd, p, GatewayId) && FieldOk(rd, p, Status);
  }

  lemma NumberWithin(v: Json, range: Range)
    requires NumberOk(v, range)
    ensures OptionalNumber(v).Some? ==> Within(OptionalNumber(v).value, range)
    ensures OptionalNumber(v).None? ==> range.nullable
  {
  }

  lemma FieldWithin(rd: Reader, p: Payload, key: Key)
    requires Complete(p) && FieldsOk(rd, p) && key in REQUIRED && RangeOf(key).Some?
    ensures OptionalNumber(p[key]).Some? ==> Within(OptionalNumber(p[key]).value, RangeOf(key).value)
    ensures OptionalNumber(p[key]).None? ==> RangeOf(key).value.nullable
  {
    assert FieldOk(rd, p, key);
    NumberWithin(p[key], RangeOf(key).value);
  }

  lemma FieldsGiveNumbers(rd: Reader, p: Payload)
    requires Complete(p) && FieldsOk(rd, p)
    ensures NumbersOk(RecordOf(rd, p))
  {
    FieldWithin(rd, p, Lat);
    FieldWithin(rd, p, Lon);
    FieldWithin(rd, p, TempC);
    FieldWithin(rd, p, RhPct);
    FieldWithin(rd, p, SmokePpm);
    FieldWithin(rd, p, BatteryPct);
    FieldWithin(rd, p, WindSpeedMs);
    FieldWithin(rd, p, WindDirDeg);
  }

  lemma ValidatedRecordOk(rd: Reader, data: Json)
    ensures Judge(rd, data).Valid? ==> RecordOk(rd, Judge(rd, data).record)
  {
    ValidIffMeets(rd, data);
    if Judge(rd, data).Valid? {
      FieldsGiveIds(rd, data.fields);
      FieldsGiveNumbers(rd, data.fields);
    }
  }

  lemma EncodedComplete(iso: UtcTime -> string, r: TelemetryRecord)
    ensures Encode(iso, r).fields.Keys == REQUIRED
  {
  }

  lemma EncodedNumberOk(iso: UtcTime -> string, r: TelemetryRecord, key: Key)
    requires NumbersOk(r) && Complete(Encode(iso, r).fields) && key in REQUIRED && RangeOf(key).Some?
    ensures NumberOk(Encode(iso, r).fields[key], RangeOf(key).value)
  {
  }

  lemma EncodedFieldOk(rd: Reader, iso: UtcTime -> string, r: TelemetryRecord, key: Key)
    requires RecordOk(rd, r) && rd.parseTs(iso(r.tsDevice)) == Aware(r.tsDevice)
    requires Complete(Encode(iso, r).fields)
    ensures FieldOk(rd, Encode(iso, r).fields, key)
  {
    if RangeOf(key).Some? {
      assert key in REQUIRED;
      EncodedNumberOk(iso, r, key);
    }
  }

  lemma EncodedPlace(iso: UtcTime -> string, r: TelemetryRecord)
    ensures Complete(Encode(iso, r).fields)
    ensures var p := Encode(iso, r).fields;
      && NumberOf(p[Lat]) == r.lat && NumberOf(p[Lon]) == r.lon
      && NumberOf(p[ElevationM]) == r.elevationM && NumberOf(p[TempC]) == r.tempC
  {
  }

  lemma EncodedAir(iso: UtcTime -> string, r: TelemetryRecord)
    ensures Complete(Encode(iso, r).fields)
    ensures var p := Encode(iso, r).fields;
      && NumberOf(p[RhPct]) == r.rhPct && NumberOf(p[SmokePpm]) == r.smokePpm && NumberOf(p[BatteryPct]) == r.batteryPct
      && OptionalNumber(p[WindSpeedMs]) == r.windSpeedMs && OptionalNumber(p[WindDirDeg]) == r.windDirDeg
  {
  }

  lemma EncodedRecord(rd: Reader, iso: UtcTime -> string, r: TelemetryRecord)
    requires rd.parseTs(iso(r.tsDevice)) == Aware(r.tsDevice)
    requires Complete(Encode(iso, r).fields)
    ensures RecordOf(rd, Encode(iso, r).fields) == r
  {
    EncodedPlace(iso, r);
    EncodedAir(iso, r);
    var p := Encode(iso, r).fields;
    assert StringOf(p[DeviceId]) == r.deviceId && StringOf(p[GatewayId]) == r.gatewayId;
    assert StringOf(p[Status]) == r.status && NaturalOf(p[SeqNo]) == r.seqNo;
    assert InstantOf(rd, p[TsDevice]) == r.tsDevice;
  }

  /** A record that is in order encodes to a payload that validates to the same record. */
  lemma EncodedValidates(rd: Reader, iso: UtcTime -> string, r: TelemetryRecord)
    requires RecordOk(rd, r) && rd.parseTs(iso(r.tsDevice)) == Aware(r.tsDevice)
    ensures Judge(rd, Encode(iso, r)) == Valid(r)
  {
    EncodedComplete(iso, r);
    forall key {:trigger FieldOk(rd, Encode(iso, r).fields, key)} | key in ALLOWED
      ensures FieldOk(rd, Encode(iso, r).fields, key)
    {
      EncodedFieldOk(rd, iso, r, key);
    }
    EncodedRecord(rd, iso, r);
    ValidIffMeets(rd, Encode(iso, r));
  }

  /** Validation is stable: re-validating an encoded record returns the same record. */
  lemma Revalidates(rd: Reader, iso: UtcTime -> string, data: Json)
    ensures Judge(rd, data).Valid? ==>
              var r := Judge(rd, data).record;
              rd.parseTs(iso(r.tsDevice)) == Aware(r.tsDevice) ==> Judge(rd, Encode(iso, r)) == Valid(r)
  {
    ValidatedRecordOk(rd, data);
    if Judge(rd, data).Valid? {
      var r := Judge(rd, data).record;
      if rd.parseTs(iso(r.tsDevice)) == Aware(r.tsDevice) {
        EncodedValidates(rd, iso, r);
      }
    }
  }

  // ----- TelemetryRecord.tier -----

  /** `s.split(sep)[1]`: the text between the first and the second separator. */
  function SecondPart(s: string, sep: char): Option<string> {
    if s == "" then None
    else if s[0] == sep then Some(FirstPart(s[1..], sep))
    else SecondPart(s[1..], sep)
  }

  function FirstPart(s: string, sep: char): string {
    if s == "" || s[0] == sep then "" else [s[0]] + FirstPart(s[1..], sep)
  }

  function Tier(r: TelemetryRecord): Option<string> {
    SecondPart(r.deviceId, '-')
  }

  lemma {:induction false} FirstPartOf(a: string, sep: char, rest: string)
    requires sep !in a
    ensures FirstPart(a + [sep] + rest, sep) == a
  {
    if a != "" {
      FirstPartOf(a[1..], sep, rest);
      assert (a + [sep] + rest)[1..] == a[1..] + [sep] + rest;
    }
  }

  lemma {:induction false} SecondPartOf(a: string, sep: char, rest: string)
    requires sep !in a
    ensures SecondPart(a + [sep] + rest, sep) == Some(FirstPart(rest, sep))
  {
    if a == "" {
      assert (a + [sep] + rest)[1..] == rest;
    } else {
      SecondPartOf(a[1..], sep, rest);
      assert (a + [sep] + rest)[1..] == a[1..] + [sep] + rest;
    }
  }

  /** The tier of a validated record is one of the three, read off its device id. */
  lemma TierOfValidated(rd: Reader, data: Json)
    ensures Judge(rd, data).Valid? ==>
              var r := Judge(rd, data).record;
              |r.deviceId| == 12 && Tier(r) == Some(r.deviceId[5..7]) && r.deviceId[5..7] in {"T1", "T2", "T3"}
  {
    ValidatedRecordOk(rd, data);
    if Judge(rd, data).Valid? {
      TierOfDeviceId(rd, Judge(rd, data).record.deviceId);
    }
  }

  lemma TierOfDeviceId(rd: Reader, id: string)
    requires DeviceIdMatches(rd, id)
    ensures SecondPart(id, '-') == Some(id[5..7]) && id[5..7] in {"T1", "T2", "T3"}
  {
    var tier := id[5..7];
    assert id[..6][5] == 'T' && id[..6][4] == '-';
    assert tier == ['T', id[6]];
    SecondPartOf("PYRO", '-', tier + ['-'] + id[8..]);
    FirstPartOf(tier, '-', id[8..]);
    assert id[..4] == id[..6][..4] == "PYRO";
    assert id == id[..4] + ['-'] + (tier + ['-'] + id[8..]);
  }

  // ----- The validator as written: one shared, growing list of errors -----

  /** The list every check appends to. */
  class ErrorList {
    var entries: seq<Problem>

    constructor ()
      ensures entries == []
    {
      entries := [];
    }

    method Append(e: Problem)
      modifies this
      ensures entries == old(entries) + [e]
    {
      entries := entries + [e];
    }
  }

  /** A checked number: absent or rejected, a value, or the conversion overflowed. */
  datatype Checked = Overflowed | Number(value: Option<real>)

  method CheckNumber(errors: ErrorList, data: Payload, key: Key, range: Range) returns (c: Checked)
    requires key in data
    modifies errors
    ensures errors.entries == old(errors.entries) + NumberProblems(key, data[key], range)
    ensures c.Overflowed? <==> TooLarge(data[key])
    ensures c.Number? ==> c.value == OptionalNumber(data[key])
  {
    var value := data[key];
    if value.Null? {
      if !range.nullable {
        errors.Append(Bad(key, IsNull));
      }
      return Number(None);
    }
    if !IsNumber(value) {
      errors.Append(Bad(key, NotANumber));
      return Number(None);
    }
    var number := AsDouble(value);
    if number.None? {
      return Overflowed;
    }
    if !number.value.Finite? {
      errors.Append(Bad(key, NotFinite));
      return Number(None);
    }
    var r := number.value.r;
    if range.min.Some? && r < range.min.value {
      errors.Append(Bad(key, BelowMinimum));
    }
    if range.max.Some? && r > range.max.value {
      errors.Append(Bad(key, AboveMaximum));
    }
    return Number(Some(r));
  }

  /** None when `astimezone` leaves the date range; the fallback for every reported problem is the epoch. */
  method ParseTsDevice(rd: Reader, errors: ErrorList, raw: Json) returns (t: Option<UtcTime>)
    modifies errors
    ensures errors.entries == old(errors.entries) + TimestampProblems(rd, raw)
    ensures t.None? <==> raw.Str? && rd.parseTs(raw.s).OutOfRange?
    ensures t.Some? ==> t.value == InstantOf(rd, raw)
  {
    var fallback := EPOCH;
    if !raw.Str? {
      errors.Append(Bad(TsDevice, NotAString));
      return Some(fallback);
    }
    match rd.parseTs(raw.s)
    case NotIso =>
      errors.Append(Bad(TsDevice, NotIso8601));
      return Some(fallback);
    case Naive =>
      errors.Append(Bad(TsDevice, NoTimezone));
      return Some(fallback);
    case Aware(utc) => return Some(utc);
    case OutOfRange => return None;
  }

  lemma {:induction false} ProblemsSnoc(rd: Reader, p: Payload, keys: seq<Key>, key: Key)
    requires Complete(p)
    ensures Problems(rd, p, keys + [key]) == Problems(rd, p, keys) + FieldProblems(rd, p, key)
    decreases |keys|
  {
    if keys == [] {
      assert Problems(rd, p, [key][1..]) == [];
    } else {
      ProblemsSnoc(rd, p, keys[1..], key);
      assert (keys + [key])[1..] == keys[1..] + [key];
    }
  }

  /** `entries` holds the problems of the keys and of the fields `done`, in that order. */
  ghost predicate CheckedTo(rd: Reader, p: Payload, entries: seq<Problem>, done: seq<Key>)
    requires Complete(p)
  {
    entries == KeyProblems(p) + Problems(rd, p, done)
  }

  lemma CheckedNext(rd: Reader, p: Payload, before: seq<Problem>, after: seq<Problem>, done: seq<Key>, key: Key)
    requires Complete(p) && CheckedTo(rd, p, before, done)
    requires after == before + FieldProblems(rd, p, key)
    ensures CheckedTo(rd, p, after, done + [key])
  {
    ProblemsSnoc(rd, p, done, key);
  }

  /** A numeric field, checked in its turn. */
  method CheckField(rd: Reader, errors: ErrorList, p: Payload, key: Key, range: Range, ghost done: seq<Key>)
    returns (c: Checked)
    requires Complete(p) && RangeOf(key) == Some(range)
    requires CheckedTo(rd, p, errors.entries, done)
    modifies errors
    ensures CheckedTo(rd, p, errors.entries, done + [key])
    ensures key in p && (c.Overflowed? <==> TooLarge(p[key]))
    ensures c.Number? ==> c.value == OptionalNumber(p[key])
  {
    assert key in REQUIRED;
    ghost var before := errors.entries;
    c := CheckNumber(errors, p, key, range);
    CheckedNext(rd, p, before, errors.entries, done, key);
  }

  predicate PlaceOverflows(p: Payload)
    requires Complete(p)
  {
    TooLarge(p[Lat]) || TooLarge(p[Lon]) || TooLarge(p[ElevationM]) || TooLarge(p[TempC])
  }

  predicate AirOverflows(p: Payload)
    requires Complete(p)
  {
    || TooLarge(p[RhPct]) || TooLarge(p[SmokePpm]) || TooLarge(p[WindSpeedMs])
    || TooLarge(p[WindDirDeg]) || TooLarge(p[BatteryPct])
  }

  lemma NumberOverflowsSplit(p: Payload)
    requires Complete(p)
    ensures NumberOverflows(p) <==> PlaceOverflows(p) || AirOverflows(p)
  {
    forall key ensures key in REQUIRED && RangeOf(key).Some? <==>
      key in {Lat, Lon, ElevationM, TempC} || key in {RhPct, SmokePpm, WindSpeedMs, WindDirDeg, BatteryPct}
    {
      NumericKeys(key);
    }
  }

  /** The places where the checks may overflow, in their order. */
  lemma OverflowsSplit(rd: Reader, p: Payload)
    requires Complete(p)
    ensures Overflows(rd, p) <==>
      (p[TsDevice].Str? && rd.parseTs(p[TsDevice].s).OutOfRange?) || PlaceOverflows(p) || AirOverflows(p)
  {
    NumberOverflowsSplit(p);
  }

  lemma CheckingOrder()
    ensures [SchemaVersion, DeviceId, GatewayId, TsDevice, SeqNo] + [Lat, Lon, ElevationM, TempC]
            + [RhPct, SmokePpm, WindSpeedMs, WindDirDeg, BatteryPct] + [Status] == CHECKED
  {
  }

  lemma FieldsJudged(rd: Reader, p: Payload, entries: seq<Problem>, done: seq<Key>)
    requires Complete(p) && CheckedTo(rd, p, entries, done) && done == CHECKED && !Overflows(rd, p)
    ensures JudgeFields(rd, p) == if entries != [] then Violated(entries) else Valid(RecordOf(rd, p))
  {
  }

  /** Position and temperature, in the order of the source. */
  method CheckPlace(rd: Reader, errors: ErrorList, p: Payload, ghost done: seq<Key>)
    returns (ok: bool, lat: Option<real>, lon: Option<real>, elevationM: Option<real>, tempC: Option<real>)
    requires Complete(p) && CheckedTo(rd, p, errors.entries, done)
    modifies errors
    ensures ok <==> !PlaceOverflows(p)
    ensures ok ==> CheckedTo(rd, p, errors.entries, done + [Lat, Lon, ElevationM, TempC])
    ensures ok ==> lat == OptionalNumber(p[Lat]) && lon == OptionalNumber(p[Lon])
    ensures ok ==> elevationM == OptionalNumber(p[ElevationM]) && tempC == OptionalNumber(p[TempC])
  {
    ok, lat, lon, elevationM, tempC := false, None, None, None, None;
    ghost var keys := done;
    var cLat := CheckField(rd, errors, p, Lat, Range(Some(-90.0), Some(90.0), false), keys);
    keys := keys + [Lat];
    if cLat.Overflowed? { return; }
    var cLon := CheckField(rd, errors, p, Lon, Range(Some(-180.0), Some(180.0), false), keys);
    keys := keys + [Lon];
    if cLon.Overflowed? { return; }
    var cElevationM := CheckField(rd, errors, p, ElevationM, Range(None, None, false), keys);
    keys := keys + [ElevationM];
    if cElevationM.Overflowed? { return; }
    var cTempC := CheckField(rd, errors, p, TempC, Range(Some(-20.0), Some(80.0), false), keys);
    keys := keys + [TempC];
    if cTempC.Overflowed? { return; }
    assert keys == done + [Lat, Lon, ElevationM, TempC];
    return true, cLat.value, cLon.value, cElevationM.value, cTempC.value;
  }

  /** The other measurements, in the order of the source. */
  method CheckAir(rd: Reader, errors: ErrorList, p: Payload, ghost done: seq<Key>)
    returns (ok: bool, rhPct: Option<real>, smokePpm: Option<real>, windSpeedMs: Option<real>,
             windDirDeg: Option<real>, batteryPct: Option<real>)
    requires Complete(p) && CheckedTo(rd, p, errors.entries, done)
    modifies errors
    ensures ok <==> !AirOverflows(p)
    ensures ok ==> CheckedTo(rd, p, errors.entries, done + [RhPct, SmokePpm, WindSpeedMs, WindDirDeg, BatteryPct])
    ensures ok ==> rhPct == OptionalNumber(p[RhPct]) && smokePpm == OptionalNumber(p[SmokePpm])
    ensures ok ==> windSpeedMs == OptionalNumber(p[WindSpeedMs]) && windDirDeg == OptionalNumber(p[WindDirDeg])
    ensures ok ==> batteryPct == OptionalNumber(p[BatteryPct])
  {
    ok, rhPct, smokePpm, windSpeedMs, windDirDeg, batteryPct := false, None, None, None, None, None;
    ghost var keys := done;
    var cRhPct := CheckField(rd, errors, p, RhPct, Range(Some(0.0), Some(100.0), false), keys);
    keys := keys + [RhPct];
    if cRhPct.Overflowed? { return; }
    var cSmokePpm := CheckField(rd, errors, p, SmokePpm, Range(Some(0.0), None, false), keys);
    keys := keys + [SmokePpm];
    if cSmokePpm.Overflowed? { return; }
    var cWindSpeedMs := CheckField(rd, errors, p, WindSpeedMs, Range(Some(0.0), None, true), keys);
    keys := keys + [WindSpeedMs];
    if cWindSpeedMs.Overflowed? { return; }
    var cWindDirDeg := CheckField(rd, errors, p, WindDirDeg, Range(Some(0.0), Some(360.0), true), keys);
    keys := keys + [WindDirDeg];
    if cWindDirDeg.Overflowed? { return; }
    var cBatteryPct := CheckField(rd, errors, p, BatteryPct, Range(Some(0.0), Some(100.0), false), keys);
    keys := keys + [BatteryPct];
    if cBatteryPct.Overflowed? { return; }
    assert keys == done + [RhPct, SmokePpm, WindSpeedMs, WindDirDeg, BatteryPct];
    return true, cRhPct.value, cSmokePpm.value, cWindSpeedMs.value, cWindDirDeg.value, cBatteryPct.value;
  }

  /** The version, the two ids, the timestamp and the sequence number; None when the timestamp overflowed. */
  method CheckIdentity(rd: Reader, errors: ErrorList, p: Payload) returns (ts: Option<UtcTime>, seqNo: nat)
    requires Complete(p) && CheckedTo(rd, p, errors.entries, [])
    modifies errors
    ensures ts.None? <==> p[TsDevice].Str? && rd.parseTs(p[TsDevice].s).OutOfRange?
    ensures ts.Some? ==> CheckedTo(rd, p, errors.entries, [SchemaVersion, DeviceId, GatewayId, TsDevice, SeqNo])
    ensures ts.Some? ==> ts.value == InstantOf(rd, p[TsDevice]) && seqNo == NaturalOf(p[SeqNo])
  {
    seqNo := 0;
    ghost var before := errors.entries;
    if SchemaVersion in p && p[SchemaVersion] != Str("1.0") {
      errors.Append(Bad(SchemaVersion, WrongVersion));
    }
    CheckedNext(rd, p, before, errors.entries, [], SchemaVersion);
    assert [] + [SchemaVersion] == [SchemaVersion];

    before := errors.entries;
    if !p[DeviceId].Str? || !DeviceIdMatches(rd, p[DeviceId].s) {
      errors.Append(Bad(DeviceId, PatternMismatch));
    }
    CheckedNext(rd, p, before, errors.entries, [SchemaVersion], DeviceId);
    assert [SchemaVersion] + [DeviceId] == [SchemaVersion, DeviceId];

    before := errors.entries;
    if !p[GatewayId].Str? || !GatewayIdMatches(rd, p[GatewayId].s) {
      errors.Append(Bad(GatewayId, PatternMismatch));
    }
    CheckedNext(rd, p, before, errors.entries, [SchemaVersion, DeviceId], GatewayId);
    assert [SchemaVersion, DeviceId] + [GatewayId] == [SchemaVersion, DeviceId, GatewayId];

    before := errors.entries;
    ts := ParseTsDevice(rd, errors, p[TsDevice]);
    CheckedNext(rd, p, before, errors.entries, [SchemaVersion, DeviceId, GatewayId], TsDevice);
    assert [SchemaVersion, DeviceId, GatewayId] + [TsDevice] == [SchemaVersion, DeviceId, GatewayId, TsDevice];
    if ts.None? {
      return;
    }

    before := errors.entries;
    if !p[SeqNo].Int? || p[SeqNo].n < 0 {
      errors.Append(Bad(SeqNo, NotNatural));
    } else {
      seqNo := p[SeqNo].n;
    }
    CheckedNext(rd, p, before, errors.entries, [SchemaVersion, DeviceId, GatewayId, TsDevice], SeqNo);
    assert [SchemaVersion, DeviceId, GatewayId, TsDevice] + [SeqNo]
      == [SchemaVersion, DeviceId, GatewayId, TsDevice, SeqNo];
  }

  /** The last check, and the decision between the record and the collected problems. */
  method Conclude(rd: Reader, errors: ErrorList, p: Payload, r: TelemetryRecord, ghost done: seq<Key>)
    returns (j: Judgement)
    requires Complete(p) && CheckedTo(rd, p, errors.entries, done) && done + [Status] == CHECKED
    requires !Overflows(rd, p) && r == RecordOf(rd, p)
    modifies errors
    ensures j == JudgeFields(rd, p)
  {
    ghost var before := errors.entries;
    if !p[Status].Str? || p[Status].s !in STATUSES {
      errors.Append(Bad(Status, NotInEnum));
    }
    CheckedNext(rd, p, before, errors.entries, done, Status);
    FieldsJudged(rd, p, errors.entries, done + [Status]);
    j := if errors.entries != [] then Violated(errors.entries) else Valid(r);
  }

  /** The checks of the fields, once every required key is there. */
  method CheckFields(rd: Reader, errors: ErrorList, p: Payload) returns (j: Judgement)
    requires Complete(p) && CheckedTo(rd, p, errors.entries, [])
    modifies errors
    ensures j == JudgeFields(rd, p)
  {
    OverflowsSplit(rd, p);
    CheckingOrder();
    var ts, seqNo := CheckIdentity(rd, errors, p);
    if ts.None? {
      return Overflow;
    }
    ghost var identity := [SchemaVersion, DeviceId, GatewayId, TsDevice, SeqNo];
    var placed, lat, lon, elevationM, tempC := CheckPlace(rd, errors, p, identity);
    if !placed {
      return Overflow;
    }
    ghost var place := identity + [Lat, Lon, ElevationM, TempC];
    var aired, rhPct, smokePpm, windSpeedMs, windDirDeg, batteryPct := CheckAir(rd, errors, p, place);
    if !aired {
      return Overflow;
    }
    ghost var air := place + [RhPct, SmokePpm, WindSpeedMs, WindDirDeg, BatteryPct];
    var r := TelemetryRecord(
      StringOf(p[DeviceId]), StringOf(p[GatewayId]), ts.value, seqNo,
      ValueOf(lat), ValueOf(lon), ValueOf(elevationM), ValueOf(tempC), ValueOf(rhPct), ValueOf(smokePpm),
      windSpeedMs, windDirDeg, ValueOf(batteryPct), StringOf(p[Status]));
    j := Conclude(rd, errors, p, r, air);
  }

  /** contract.validate_payload: every problem is collected before anything is raised. */
  method ValidatePayload(rd: Reader, data: Json) returns (j: Judgement)
    ensures j == Judge(rd, data)
  {
    if !data.Object? {
      return Violated([NotAnObject]);
    }
    var p := data.fields;
    var errors := new ErrorList();
    if !(p.Keys <= ALLOWED) {
      errors.Append(UnknownKeys(p.Keys - ALLOWED));
    }
    if !(REQUIRED <= p.Keys) {
      errors.Append(MissingKeys(REQUIRED - p.Keys));
      return Violated(errors.entries);
    }
    assert Problems(rd, p, []) == [];
    j := CheckFields(rd, errors, p);
  }
}

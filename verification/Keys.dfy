/**
 The text of the store keys: `DEV#…`/`SEQ#…`, `ALERT#…`/`STATE` and the
 Hive-partitioned object key. Each can be read back, so distinct readings never
 share a key, however large the sequence number.
 */
module Keys {
  import opened Wrappers
  import opened Telemetry

  // ----- Decimal numbers, zero-padded -----

  function DigitChar(d: nat): char
    requires d < 10
  {
    '0' + (d as char)
  }

  predicate IsDigit(c: char) {
    '0' <= c <= '9'
  }

  function DigitValue(c: char): nat
    requires IsDigit(c)
  {
    (c - '0') as nat
  }

  /** `format(n, "d")`. */
  function Decimal(n: nat): (s: string)
    ensures |s| > 0
    ensures forall i :: 0 <= i < |s| ==> IsDigit(s[i])
  {
    if n < 10 then [DigitChar(n)] else Decimal(n / 10) + [DigitChar(n % 10)]
  }

  /** `format(n, "0<width>d")`: at least `width` digits, more when the number needs them. */
  function Padded(n: nat, width: nat): (s: string)
    ensures |s| >= width && |s| >= |Decimal(n)|
    ensures forall i :: 0 <= i < |s| ==> IsDigit(s[i])
  {
    Zeros(if |Decimal(n)| < width then width - |Decimal(n)| else 0) + Decimal(n)
  }

  function Zeros(k: nat): (s: string)
    ensures |s| == k
    ensures forall i :: 0 <= i < |s| ==> s[i] == '0'
  {
    if k == 0 then "" else Zeros(k - 1) + "0"
  }

  predicate AllDigits(s: string) {
    forall i :: 0 <= i < |s| ==> IsDigit(s[i])
  }

  /** The number a digit text denotes. */
  function ValueOf(s: string): nat
    requires AllDigits(s)
  {
    if s == "" then 0 else 10 * ValueOf(s[..|s| - 1]) + DigitValue(s[|s| - 1])
  }

  lemma DigitRoundTrip(d: nat)
    requires d < 10
    ensures IsDigit(DigitChar(d)) && DigitValue(DigitChar(d)) == d
  {
  }

  lemma {:induction false} DecimalRoundTrip(n: nat)
    ensures ValueOf(Decimal(n)) == n
  {
    if n >= 10 {
      DecimalRoundTrip(n / 10);
      DigitRoundTrip(n % 10);
      assert Decimal(n)[..|Decimal(n)| - 1] == Decimal(n / 10);
    }
  }

  lemma {:induction false} LeadingZeros(k: nat, s: string)
    requires AllDigits(s)
    ensures AllDigits(Zeros(k) + s) && ValueOf(Zeros(k) + s) == ValueOf(s)
    decreases |s|, k
  {
    var t := Zeros(k) + s;
    if s != "" {
      LeadingZeros(k, s[..|s| - 1]);
      assert t[..|t| - 1] == Zeros(k) + s[..|s| - 1];
    } else if k > 0 {
      LeadingZeros(k - 1, s);
      assert t[..|t| - 1] == Zeros(k - 1) + s;
    }
  }

  lemma PaddedRoundTrip(n: nat, width: nat)
    ensures ValueOf(Padded(n, width)) == n
  {
    DecimalRoundTrip(n);
    LeadingZeros(if |Decimal(n)| < width then width - |Decimal(n)| else 0, Decimal(n));
  }

  // ----- Hot table keys -----

  const SEQ_WIDTH: nat := 12

  function TelemetryPk(device: string): string {
    "DEV#" + device
  }

  function TelemetrySk(seqNo: nat): string {
    "SEQ#" + Padded(seqNo, SEQ_WIDTH)
  }

  function AlertPk(device: string): string {
    "ALERT#" + device
  }

  const ALERT_SK: string := "STATE"

  /** The two item families of the single table. */
  datatype TableKey = Reading(key: HotKey) | AlertSlot(device: string)

  function TableText(k: TableKey): (string, string) {
    match k
    case Reading(key) => (TelemetryPk(key.device), TelemetrySk(key.seqNo))
    case AlertSlot(device) => (AlertPk(device), ALERT_SK)
  }

  function ParseTableKey(t: (string, string)): Option<TableKey> {
    if |t.0| >= 4 && t.0[..4] == "DEV#" && |t.1| >= 4 && t.1[..4] == "SEQ#" && AllDigits(t.1[4..]) then
      Some(Reading(HotKey(t.0[4..], ValueOf(t.1[4..]))))
    else if |t.0| >= 6 && t.0[..6] == "ALERT#" && t.1 == ALERT_SK then
      Some(AlertSlot(t.0[6..]))
    else None
  }

  /** Every table key can be read back from its text. */
  lemma TableKeyRoundTrip(k: TableKey)
    ensures ParseTableKey(TableText(k)) == Some(k)
  {
    var t := TableText(k);
    match k
    case Reading(key) =>
      PaddedRoundTrip(key.seqNo, SEQ_WIDTH);
      assert t.0[4..] == key.device;
      assert t.1[4..] == Padded(key.seqNo, SEQ_WIDTH);
    case AlertSlot(device) =>
      assert t.0[0] == 'A';
      assert t.0[..4][0] == 'A';
      assert t.0[6..] == device;
  }

  /** Readings and slots, and different devices or sequence numbers, never share a key. */
  lemma TableTextInjective(a: TableKey, b: TableKey)
    requires TableText(a) == TableText(b)
    ensures a == b
  {
    TableKeyRoundTrip(a);
    TableKeyRoundTrip(b);
  }

  // ----- Object keys -----

  /**
   telemetry/dt=<date>/hour=<hour>/<device>-<seq>.json. `%Y` pads the year to four
   digits on some platforms only; `yearWidth` stands for the platform's choice.
   */
  function ObjectKey(k: ColdKey, yearWidth: nat): string {
    "telemetry/dt=" + (Padded(k.year, yearWidth) + ("-" + MonthOn(k)))
  }

  function MonthOn(k: ColdKey): string {
    Padded(k.month, 2) + ("-" + (Padded(k.day, 2) + ("/hour=" + HourOn(k))))
  }

  function HourOn(k: ColdKey): string {
    Padded(k.hour, 2) + ("/" + (k.device + ("-" + (Padded(k.seqNo, SEQ_WIDTH) + ".json"))))
  }

  /** Splits a leading number off a text. */
  function Number(s: string): (r: (nat, string))
    ensures |r.1| <= |s|
  {
    var n := DigitRun(s);
    (ValueOf(s[..n]), s[n..])
  }

  function DigitRun(s: string): (n: nat)
    ensures n <= |s| && AllDigits(s[..n])
  {
    if s == "" || !IsDigit(s[0]) then 0
    else
      var n := DigitRun(s[1..]);
      assert s[..n + 1] == [s[0]] + s[1..][..n];
      n + 1
  }

  function Literal(lit: string, s: string): Option<string> {
    if |lit| <= |s| && s[..|lit|] == lit then Some(s[|lit|..]) else None
  }

  /** A text that starts with a number and the literal after it. */
  function NumberThen(lit: string, s: string): Option<(nat, string)> {
    var (n, rest) := Number(s);
    var after := Literal(lit, rest);
    if after.None? then None else Some((n, after.value))
  }

  const DEVICE_LENGTH: nat := 12

  function ParseObjectKey(s: string): Option<ColdKey> {
    var s0 := Literal("telemetry/dt=", s);
    if s0.None? then None else
    var y := NumberThen("-", s0.value);
    if y.None? then None else
    var m := NumberThen("-", y.value.1);
    if m.None? then None else
    var d := NumberThen("/hour=", m.value.1);
    if d.None? then None else
    var h := NumberThen("/", d.value.1);
    if h.None? || |h.value.1| < DEVICE_LENGTH then None else
    var tail := Literal("-", h.value.1[DEVICE_LENGTH..]);
    if tail.None? then None else
    var q := NumberThen(".json", tail.value);
    if q.None? || q.value.1 != "" then None
    else Some(ColdKey(y.value.0, m.value.0, d.value.0, h.value.0, h.value.1[..DEVICE_LENGTH], q.value.0))
  }

  lemma {:induction false} DigitRunOf(s: string, rest: string)
    requires AllDigits(s) && (rest == "" || !IsDigit(rest[0]))
    ensures DigitRun(s + rest) == |s|
  {
    if s == "" {
      assert s + rest == rest;
    } else {
      DigitRunOf(s[1..], rest);
      assert (s + rest)[1..] == s[1..] + rest;
    }
  }

  lemma NumberThenRoundTrip(n: nat, width: nat, lit: string, rest: string)
    requires lit != "" && !IsDigit(lit[0])
    ensures NumberThen(lit, Padded(n, width) + (lit + rest)) == Some((n, rest))
  {
    var p := Padded(n, width);
    var s := p + (lit + rest);
    DigitRunOf(p, lit + rest);
    PaddedRoundTrip(n, width);
    assert s[..|p|] == p && s[|p|..] == lit + rest;
    LiteralRoundTrip(lit, rest);
  }

  lemma LiteralRoundTrip(lit: string, rest: string)
    ensures Literal(lit, lit + rest) == Some(rest)
  {
    assert (lit + rest)[..|lit|] == lit && (lit + rest)[|lit|..] == rest;
  }

  /** The object key can be read back for every date, hour, sequence number and twelve-character device id. */
  lemma ObjectKeyRoundTrip(k: ColdKey, yearWidth: nat)
    requires |k.device| == 12
    ensures ParseObjectKey(ObjectKey(k, yearWidth)) == Some(k)
  {
    var q := Padded(k.seqNo, SEQ_WIDTH) + ".json";
    var t := k.device + ("-" + q);
    assert ".json" + "" == ".json";
    LiteralRoundTrip("telemetry/dt=", Padded(k.year, yearWidth) + ("-" + MonthOn(k)));
    NumberThenRoundTrip(k.year, yearWidth, "-", MonthOn(k));
    NumberThenRoundTrip(k.month, 2, "-", Padded(k.day, 2) + ("/hour=" + HourOn(k)));
    NumberThenRoundTrip(k.day, 2, "/hour=", HourOn(k));
    NumberThenRoundTrip(k.hour, 2, "/", t);
    assert t[..DEVICE_LENGTH] == k.device && t[DEVICE_LENGTH..] == "-" + q;
    LiteralRoundTrip("-", q);
    NumberThenRoundTrip(k.seqNo, SEQ_WIDTH, ".json", "");
  }

  /** Two validated readings share an object key only if date, hour, device and sequence number agree. */
  lemma ObjectKeyInjective(a: ColdKey, b: ColdKey, yearWidth: nat)
    requires |a.device| == 12 && |b.device| == 12
    requires ObjectKey(a, yearWidth) == ObjectKey(b, yearWidth)
    ensures a == b
  {
    ObjectKeyRoundTrip(a, yearWidth);
    ObjectKeyRoundTrip(b, yearWidth);
  }

  // ----- Order -----

  /** Python's order on equally typed strings: by code point, a proper prefix first. */
  predicate Less(a: string, b: string) {
    b != "" && (a == "" || a[0] < b[0] || (a[0] == b[0] && Less(a[1..], b[1..])))
  }

  lemma {:induction false} LessIrreflexive(a: string)
    ensures !Less(a, a)
  {
    if a != "" {
      LessIrreflexive(a[1..]);
    }
  }

  lemma {:induction false} LessAsymmetric(a: string, b: string)
    requires Less(a, b)
    ensures !Less(b, a)
  {
    if a != "" && a[0] == b[0] {
      LessAsymmetric(a[1..], b[1..]);
    }
  }

  lemma {:induction false} SamePrefixLess(p: string, a: string, b: string)
    ensures Less(p + a, p + b) <==> Less(a, b)
  {
    if p == "" {
      assert p + a == a && p + b == b;
    } else {
      SamePrefixLess(p[1..], a, b);
      assert (p + a)[1..] == p[1..] + a && (p + b)[1..] == p[1..] + b;
    }
  }

  function Pow10(k: nat): (p: nat)
    ensures p >= 1
  {
    if k == 0 then 1 else 10 * Pow10(k - 1)
  }

  /** Among digit texts of one length, appending is monotone in the order. */
  lemma {:induction false} LessSnoc(a: string, b: string, c: char, d: char)
    requires |a| == |b|
    ensures Less(a + [c], b + [d]) <==> Less(a, b) || (a == b && c < d)
  {
    if a == "" {
      assert a + [c] == [c] && b + [d] == [d];
      assert [c][1..] == "" && [d][1..] == "";
    } else {
      assert (a + [c])[1..] == a[1..] + [c] && (b + [d])[1..] == b[1..] + [d];
      LessSnoc(a[1..], b[1..], c, d);
      assert a == b <==> a[0] == b[0] && a[1..] == b[1..];
      if a[0] == b[0] {
        LessIrreflexive(a);
      }
    }
  }

  /** Digit texts of one length are ordered like the numbers they denote. */
  lemma {:induction false} SameLengthOrder(a: string, b: string)
    requires |a| == |b| && AllDigits(a) && AllDigits(b)
    ensures Less(a, b) <==> ValueOf(a) < ValueOf(b)
    ensures a == b <==> ValueOf(a) == ValueOf(b)
    decreases |a|
  {
    if a != "" {
      var n := |a| - 1;
      SameLengthOrder(a[..n], b[..n]);
      LessSnoc(a[..n], b[..n], a[n], b[n]);
      assert a == a[..n] + [a[n]] && b == b[..n] + [b[n]];
    }
  }

  lemma {:induction false} DecimalLength(n: nat, k: nat)
    requires k > 0
    ensures |Decimal(n)| <= k <==> n < Pow10(k)
    decreases k
  {
    if k == 1 {
      assert Pow10(1) == 10 * Pow10(0) == 10;
    } else if n >= 10 {
      DecimalLength(n / 10, k - 1);
    } else {
      DecimalLength(n, k - 1);
    }
  }

  lemma PaddedLength(n: nat, width: nat)
    requires width > 0 && n < Pow10(width)
    ensures |Padded(n, width)| == width
  {
    DecimalLength(n, width);
  }

  lemma Limit()
    ensures Pow10(SEQ_WIDTH) == 1_000_000_000_000
  {
    assert Pow10(3) == 10 * Pow10(2) && Pow10(2) == 10 * Pow10(1) && Pow10(1) == 10 * Pow10(0);
    assert Pow10(6) == 10 * Pow10(5) && Pow10(5) == 10 * Pow10(4) && Pow10(4) == 10 * Pow10(3);
    assert Pow10(9) == 10 * Pow10(8) && Pow10(8) == 10 * Pow10(7) && Pow10(7) == 10 * Pow10(6);
    assert Pow10(12) == 10 * Pow10(11) && Pow10(11) == 10 * Pow10(10) && Pow10(10) == 10 * Pow10(9);
  }

  /** Below the padding limit, the text order of the sort keys is the numeric order. */
  lemma SortKeysInOrder(a: nat, b: nat)
    requires a < 1_000_000_000_000 && b < 1_000_000_000_000
    ensures Less(TelemetrySk(a), TelemetrySk(b)) <==> a < b
  {
    Limit();
    PaddedLength(a, SEQ_WIDTH);
    PaddedLength(b, SEQ_WIDTH);
    PaddedRoundTrip(a, SEQ_WIDTH);
    PaddedRoundTrip(b, SEQ_WIDTH);
    SameLengthOrder(Padded(a, SEQ_WIDTH), Padded(b, SEQ_WIDTH));
    SamePrefixLess("SEQ#", Padded(a, SEQ_WIDTH), Padded(b, SEQ_WIDTH));
  }

  /** The sort keys of all sequence numbers below `limit` are in numeric order. */
  ghost predicate OrderedBelow(limit: nat) {
    forall a: nat, b: nat :: a < limit && b < limit ==> (Less(TelemetrySk(a), TelemetrySk(b)) <==> a < b)
  }

  lemma {:induction false} DecimalOfPower(k: nat)
    ensures |Decimal(Pow10(k))| == k + 1 && Decimal(Pow10(k))[0] == '1'
  {
    if k > 0 {
      DecimalOfPower(k - 1);
      assert Pow10(k) / 10 == Pow10(k - 1);
    }
  }

  /** The largest number of `k` digits starts with a nine. */
  lemma {:induction false} DecimalOfNines(k: nat)
    requires k > 0
    ensures |Decimal(Pow10(k) - 1)| == k && Decimal(Pow10(k) - 1)[0] == '9'
  {
    if k == 1 {
      assert Pow10(1) == 10 * Pow10(0) == 10;
    } else {
      DecimalOfNines(k - 1);
      assert Pow10(k - 1) == 10 * Pow10(k - 2);
      assert (Pow10(k) - 1) / 10 == Pow10(k - 1) - 1;
    }
  }

  /** The first sequence number past the limit sorts before the last one below it. */
  lemma OrderBreaksAtLimit()
    ensures Less(TelemetrySk(1_000_000_000_000), TelemetrySk(999_999_999_999))
  {
    Limit();
    DecimalOfPower(SEQ_WIDTH);
    DecimalOfNines(SEQ_WIDTH);
    var a, b := Pow10(SEQ_WIDTH), Pow10(SEQ_WIDTH) - 1;
    assert Zeros(0) == "";
    assert Padded(a, SEQ_WIDTH) == Decimal(a) && Padded(b, SEQ_WIDTH) == Decimal(b);
    SamePrefixLess("SEQ#", Padded(a, SEQ_WIDTH), Padded(b, SEQ_WIDTH));
  }

  /** Text order is numeric order on all sequence numbers below a limit exactly when the limit is at most 10^12. */
  lemma OrderedIff(limit: nat)
    ensures OrderedBelow(limit) <==> limit <= 1_000_000_000_000
  {
    Limit();
    if limit <= Pow10(SEQ_WIDTH) {
      forall a: nat, b: nat | a < limit && b < limit ensures Less(TelemetrySk(a), TelemetrySk(b)) <==> a < b {
        SortKeysInOrder(a, b);
      }
    } else {
      OrderBreaksAtLimit();
      var a, b := Pow10(SEQ_WIDTH), Pow10(SEQ_WIDTH) - 1;
      assert Less(TelemetrySk(a), TelemetrySk(b)) && a < limit && b < limit;
    }
  }

  // ----- The texts themselves -----

  lemma DecimalDigits()
    ensures Decimal(1234567890) == "1234567890"
  {
    assert Decimal(12) == Decimal(1) + "2" == "12";
    assert Decimal(123) == Decimal(12) + "3" == "123";
    assert Decimal(1234) == Decimal(123) + "4" == "1234";
    assert Decimal(12345) == Decimal(1234) + "5" == "12345";
    assert Decimal(123456) == Decimal(12345) + "6" == "123456";
    assert Decimal(1234567) == Decimal(123456) + "7" == "1234567";
    assert Decimal(12345678) == Decimal(1234567) + "8" == "12345678";
    assert Decimal(123456789) == Decimal(12345678) + "9" == "123456789";
    assert Decimal(1234567890) == Decimal(123456789) + "0" == "1234567890";
  }

  /** Padding writes zeros in front of the decimal text, up to twelve characters in a sort key. */
  lemma PaddedText(n: nat, width: nat)
    ensures var zeros := if |Decimal(n)| < width then width - |Decimal(n)| else 0;
      |Padded(n, width)| == zeros + |Decimal(n)| && Padded(n, width)[zeros..] == Decimal(n)
      && forall i :: 0 <= i < zeros ==> Padded(n, width)[i] == '0'
    ensures |TelemetrySk(n)| == if |Decimal(n)| < 12 then 16 else 4 + |Decimal(n)|
  {
  }

  lemma PaddedTwo(n: nat)
    requires n < 100
    ensures Padded(n, 2) == [DigitChar(n / 10), DigitChar(n % 10)]
  {
    PaddedText(n, 2);
    if n >= 10 {
      assert Decimal(n) == Decimal(n / 10) + [DigitChar(n % 10)];
    }
  }

  lemma TableKeyExamples()
    ensures TableText(Reading(HotKey("PYRO-T1-0001", 42))) == ("DEV#PYRO-T1-0001", "SEQ#000000000042")
    ensures TableText(AlertSlot("PYRO-T1-0001")) == ("ALERT#PYRO-T1-0001", "STATE")
  {
    FortyTwo();
    assert "DEV#" + "PYRO-T1-0001" == "DEV#PYRO-T1-0001" && "ALERT#" + "PYRO-T1-0001" == "ALERT#PYRO-T1-0001";
    assert "SEQ#" + "000000000042" == "SEQ#000000000042";
  }

  lemma FortyTwo()
    ensures Padded(42, 12) == "000000000042"
  {
    PaddedText(42, 12);
    assert Decimal(42) == Decimal(4) + "2" == "42";
    assert Padded(42, 12) == Padded(42, 12)[..10] + Padded(42, 12)[10..];
  }

  lemma Joined(a: string, b: string, c: string)
    ensures a + (b + c) == a + b + c
  {
  }

  /** The parts of an object key, in their order, with their widths. */
  lemma ObjectKeyText(k: ColdKey, yearWidth: nat)
    ensures ObjectKey(k, yearWidth)
            == "telemetry/dt=" + Padded(k.year, yearWidth) + "-" + Padded(k.month, 2) + "-" + Padded(k.day, 2)
               + ("/hour=" + Padded(k.hour, 2) + "/" + k.device + "-" + Padded(k.seqNo, 12) + ".json")
  {
    var q := Padded(k.seqNo, 12);
    Joined(Padded(k.hour, 2) + "/" + k.device, "-", q + ".json");
    Joined(Padded(k.hour, 2) + "/" + k.device + "-", q, ".json");
    assert HourOn(k) == Padded(k.hour, 2) + "/" + k.device + "-" + q + ".json";
    assert MonthOn(k) == Padded(k.month, 2) + "-" + Padded(k.day, 2) + ("/hour=" + HourOn(k));
    assert "/hour=" + HourOn(k) == "/hour=" + Padded(k.hour, 2) + "/" + k.device + "-" + q + ".json";
  }

  /** A record's object key reads back to the UTC date and hour of its device timestamp, its device and number. */
  lemma ObjectKeyOfRecord(r: TelemetryRecord, yearWidth: nat)
    requires |r.deviceId| == 12
    ensures ParseObjectKey(ObjectKey(ColdKeyOf(r), yearWidth))
            == Some(ColdKey(r.tsDevice.year, r.tsDevice.month, r.tsDevice.day, r.tsDevice.hour, r.deviceId, r.seqNo))
  {
    ObjectKeyRoundTrip(ColdKeyOf(r), yearWidth);
  }

  /** A smaller character sorts first, whatever follows, and a proper prefix before the longer text. */
  lemma LessByFirst(a: char, b: char, s: string, t: string)
    ensures a < b ==> Less([a] + s, [b] + t)
    ensures Less(s, s + [a])
  {
    SamePrefixLess(s, "", [a]);
    assert s + "" == s;
  }
}

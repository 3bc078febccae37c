/** The DynamoDB item of a reading, and the whole-second timestamps of both item families. */
module Items {
  import opened Wrappers
  import opened Telemetry
  import opened Protocol
  import Keys
  import Contract

  // ----- Whole seconds -----

  const MICROS: nat := 1_000_000

  /** `int(t.timestamp())` of an instant counted in microseconds. */
  function WholeSeconds(t: nat): nat {
    t / MICROS
  }

  /**
   Adding whole seconds before truncating is the same as after. So every stored or
   compared timestamp depends only on the whole second of `now`, and the slot and
   the item carry the values the machine computes.
   */
  lemma TimestampsAreWhole(s: Settings, now: nat)
    ensures WholeSeconds(now) == now / 1_000_000
    ensures WholeSeconds(now + s.suppressionMinutes * 60 * 1_000_000) == NewSlot(s, WholeSeconds(now)).suppressUntil
    ensures WholeSeconds(now + 86400 * 1_000_000) == NewSlot(s, WholeSeconds(now)).expiresAt
    ensures WholeSeconds(now + s.hotRetentionDays * 86400 * 1_000_000) == WholeSeconds(now) + s.HotRetention()
  {
  }

  // ----- The item -----

  datatype Attr =
    | Pk | Sk | DeviceId | GatewayId | Tier | SeqNo | TsDevice | IngestedAt | Lat | Lon | ElevationM | TempC | RhPct
    | SmokePpm | BatteryPct | Status | ExpiresAt | WindSpeedMs | WindDirDeg

  datatype Value = Text(s: string) | Integer(n: int) | Number(r: real) | Instant(utc: UtcTime) | Micros(t: nat)

  type Item = map<Attr, Value>

  /** The attributes that depend on when the message was ingested. */
  const INGESTION: set<Attr> := {IngestedAt, ExpiresAt}

  function TierText(r: TelemetryRecord): string {
    if Contract.Tier(r).Some? then Contract.Tier(r).value else ""
  }

  /** What an item holds under each attribute; None for an absent anemometer. */
  function Attribute(r: TelemetryRecord, retentionDays: nat, now: nat, a: Attr): Option<Value> {
    match a
    case Pk => Some(Text(Keys.TelemetryPk(r.deviceId)))
    case Sk => Some(Text(Keys.TelemetrySk(r.seqNo)))
    case DeviceId => Some(Text(r.deviceId))
    case GatewayId => Some(Text(r.gatewayId))
    case Tier => Some(Text(TierText(r)))
    case SeqNo => Some(Integer(r.seqNo))
    case TsDevice => Some(Instant(r.tsDevice))
    case IngestedAt => Some(Micros(now))
    case Lat => Some(Number(r.lat))
    case Lon => Some(Number(r.lon))
    case ElevationM => Some(Number(r.elevationM))
    case TempC => Some(Number(r.tempC))
    case RhPct => Some(Number(r.rhPct))
    case SmokePpm => Some(Number(r.smokePpm))
    case BatteryPct => Some(Number(r.batteryPct))
    case Status => Some(Text(r.status))
    case ExpiresAt => Some(Integer(WholeSeconds(now + retentionDays * SECONDS_PER_DAY * MICROS)))
    case WindSpeedMs => if r.windSpeedMs.Some? then Some(Number(r.windSpeedMs.value)) else None
    case WindDirDeg => if r.windDirDeg.Some? then Some(Number(r.windDirDeg.value)) else None
  }

  /** An item as `BuildTelemetryItem` fills it. */
  ghost predicate IsItemOf(item: Item, r: TelemetryRecord, retentionDays: nat, now: nat) {
    && (forall a :: a in item <==> Attribute(r, retentionDays, now, a).Some?)
    && (forall a :: a in item ==> Some(item[a]) == Attribute(r, retentionDays, now, a))
  }

  /** The keys, the identity and the times of an item, by the field of the record each holds. */
  lemma ItemFields(item: Item, r: TelemetryRecord, retentionDays: nat, now: nat)
    requires IsItemOf(item, r, retentionDays, now)
    ensures forall a :: a in item <==>
      (a == WindSpeedMs ==> r.windSpeedMs.Some?) && (a == WindDirDeg ==> r.windDirDeg.Some?)
    ensures item[Pk] == Text("DEV#" + r.deviceId) && item[Sk] == Text(Keys.TelemetrySk(r.seqNo))
    ensures item[DeviceId] == Text(r.deviceId) && item[GatewayId] == Text(r.gatewayId)
    ensures Contract.Tier(r).Some? ==> item[Tier] == Text(Contract.Tier(r).value)
    ensures item[SeqNo] == Integer(r.seqNo) && item[TsDevice] == Instant(r.tsDevice)
    ensures item[IngestedAt] == Micros(now) && item[Status] == Text(r.status)
    ensures item[ExpiresAt] == Integer(now / 1_000_000 + 86400 * retentionDays)
  {
    ItemKeys(item, r, retentionDays, now);
    assert Some(item[Pk]) == Attribute(r, retentionDays, now, Pk);
    assert Some(item[Sk]) == Attribute(r, retentionDays, now, Sk);
    assert Some(item[DeviceId]) == Attribute(r, retentionDays, now, DeviceId);
    assert Some(item[GatewayId]) == Attribute(r, retentionDays, now, GatewayId);
    assert Some(item[Tier]) == Attribute(r, retentionDays, now, Tier);
    assert Some(item[SeqNo]) == Attribute(r, retentionDays, now, SeqNo);
    assert Some(item[TsDevice]) == Attribute(r, retentionDays, now, TsDevice);
    assert Some(item[IngestedAt]) == Attribute(r, retentionDays, now, IngestedAt);
    assert Some(item[Status]) == Attribute(r, retentionDays, now, Status);
    assert Some(item[ExpiresAt]) == Attribute(r, retentionDays, now, ExpiresAt);
  }

  lemma ItemKeys(item: Item, r: TelemetryRecord, retentionDays: nat, now: nat)
    requires IsItemOf(item, r, retentionDays, now)
    ensures forall a :: a in item <==>
      (a == WindSpeedMs ==> r.windSpeedMs.Some?) && (a == WindDirDeg ==> r.windDirDeg.Some?)
  {
    forall a ensures a in item <==> Attribute(r, retentionDays, now, a).Some? {
    }
  }

  lemma ItemPlace(item: Item, r: TelemetryRecord, retentionDays: nat, now: nat)
    requires IsItemOf(item, r, retentionDays, now)
    ensures Lat in item && Lon in item && ElevationM in item && TempC in item
    ensures item[Lat] == Number(r.lat) && item[Lon] == Number(r.lon)
    ensures item[ElevationM] == Number(r.elevationM) && item[TempC] == Number(r.tempC)
  {
    ItemKeys(item, r, retentionDays, now);
    assert Some(item[Lat]) == Attribute(r, retentionDays, now, Lat);
    assert Some(item[Lon]) == Attribute(r, retentionDays, now, Lon);
    assert Some(item[ElevationM]) == Attribute(r, retentionDays, now, ElevationM);
    assert Some(item[TempC]) == Attribute(r, retentionDays, now, TempC);
  }

  lemma ItemAir(item: Item, r: TelemetryRecord, retentionDays: nat, now: nat)
    requires IsItemOf(item, r, retentionDays, now)
    ensures RhPct in item && SmokePpm in item && BatteryPct in item
    ensures item[RhPct] == Number(r.rhPct) && item[SmokePpm] == Number(r.smokePpm)
    ensures item[BatteryPct] == Number(r.batteryPct)
  {
    ItemKeys(item, r, retentionDays, now);
    assert Some(item[RhPct]) == Attribute(r, retentionDays, now, RhPct);
    assert Some(item[SmokePpm]) == Attribute(r, retentionDays, now, SmokePpm);
    assert Some(item[BatteryPct]) == Attribute(r, retentionDays, now, BatteryPct);
  }

  /** The anemometer's measurements, only when present. */
  lemma ItemWind(item: Item, r: TelemetryRecord, retentionDays: nat, now: nat)
    requires IsItemOf(item, r, retentionDays, now)
    ensures (WindSpeedMs in item <==> r.windSpeedMs.Some?) && (WindDirDeg in item <==> r.windDirDeg.Some?)
    ensures r.windSpeedMs.Some? ==> item[WindSpeedMs] == Number(r.windSpeedMs.value)
    ensures r.windDirDeg.Some? ==> item[WindDirDeg] == Number(r.windDirDeg.value)
  {
    ItemKeys(item, r, retentionDays, now);
    assert WindSpeedMs in item ==> Some(item[WindSpeedMs]) == Attribute(r, retentionDays, now, WindSpeedMs);
    assert WindDirDeg in item ==> Some(item[WindDirDeg]) == Attribute(r, retentionDays, now, WindDirDeg);
  }

  /** The stored expiry is the one the machine's TTL goes by. */
  lemma StoredExpiry(s: Settings, item: Item, r: TelemetryRecord, now: nat)
    requires IsItemOf(item, r, s.hotRetentionDays, now)
    ensures ExpiresAt in item && item[ExpiresAt] == Integer(NewItem(s, r, WholeSeconds(now)).expiresAt)
  {
    ItemFields(item, r, s.hotRetentionDays, now);
  }

  predicate Anemometer(a: Attr) {
    a == WindSpeedMs || a == WindDirDeg
  }

  predicate Measured(a: Attr) {
    a in {Lat, Lon, ElevationM, TempC, RhPct, SmokePpm, BatteryPct}
  }

  /** The measurements every item has. */
  method Measurements(r: TelemetryRecord, retentionDays: nat, now: nat) returns (item: Item)
    ensures forall a :: a in item <==> Measured(a)
    ensures forall a :: a in item ==> Some(item[a]) == Attribute(r, retentionDays, now, a)
  {
    item := map[
      Lat := Number(r.lat),
      Lon := Number(r.lon),
      ElevationM := Number(r.elevationM),
      TempC := Number(r.tempC),
      RhPct := Number(r.rhPct),
      SmokePpm := Number(r.smokePpm),
      BatteryPct := Number(r.batteryPct)];
  }

  /** Keys, identity and times. */
  method IdentityAttributes(r: TelemetryRecord, retentionDays: nat, now: nat) returns (item: Item)
    ensures forall a :: a in item <==> !Measured(a) && !Anemometer(a)
    ensures forall a :: a in item ==> Some(item[a]) == Attribute(r, retentionDays, now, a)
  {
    item := map[
      Pk := Text(Keys.TelemetryPk(r.deviceId)),
      Sk := Text(Keys.TelemetrySk(r.seqNo)),
      DeviceId := Text(r.deviceId),
      GatewayId := Text(r.gatewayId),
      Tier := Text(TierText(r)),
      SeqNo := Integer(r.seqNo),
      TsDevice := Instant(r.tsDevice),
      IngestedAt := Micros(now),
      Status := Text(r.status),
      ExpiresAt := Integer(WholeSeconds(now + retentionDays * SECONDS_PER_DAY * MICROS))];
  }

  /** persistence.build_telemetry_item: a dict filled in place, the nullable fields only when present. */
  method BuildTelemetryItem(r: TelemetryRecord, retentionDays: nat, now: nat) returns (item: Item)
    ensures IsItemOf(item, r, retentionDays, now)
    ensures forall a :: a in item <==>
      (a == WindSpeedMs ==> r.windSpeedMs.Some?) && (a == WindDirDeg ==> r.windDirDeg.Some?)
    ensures item[Pk] == Text("DEV#" + r.deviceId) && item[Sk] == Text(Keys.TelemetrySk(r.seqNo))
    ensures item[DeviceId] == Text(r.deviceId) && item[GatewayId] == Text(r.gatewayId)
    ensures Contract.Tier(r).Some? ==> item[Tier] == Text(Contract.Tier(r).value)
    ensures item[SeqNo] == Integer(r.seqNo) && item[TsDevice] == Instant(r.tsDevice) && item[Status] == Text(r.status)
    ensures item[IngestedAt] == Micros(now) && item[ExpiresAt] == Integer(now / 1_000_000 + 86400 * retentionDays)
    ensures item[Lat] == Number(r.lat) && item[Lon] == Number(r.lon) && item[ElevationM] == Number(r.elevationM)
    ensures item[TempC] == Number(r.tempC) && item[RhPct] == Number(r.rhPct) && item[SmokePpm] == Number(r.smokePpm)
    ensures item[BatteryPct] == Number(r.batteryPct)
    ensures r.windSpeedMs.Some? ==> item[WindSpeedMs] == Number(r.windSpeedMs.value)
    ensures r.windDirDeg.Some? ==> item[WindDirDeg] == Number(r.windDirDeg.value)
  {
    item := IdentityAttributes(r, retentionDays, now);
    var measurements := Measurements(r, retentionDays, now);
    item := item + measurements;
    if r.windSpeedMs.Some? {
      item := item[WindSpeedMs := Number(r.windSpeedMs.value)];
    }
    if r.windDirDeg.Some? {
      item := item[WindDirDeg := Number(r.windDirDeg.value)];
    }
    forall a ensures a in item <==> Attribute(r, retentionDays, now, a).Some? {
      assert !Anemometer(a) ==> Attribute(r, retentionDays, now, a).Some?;
    }
    ItemFields(item, r, retentionDays, now);
    ItemPlace(item, r, retentionDays, now);
    ItemAir(item, r, retentionDays, now);
    ItemWind(item, r, retentionDays, now);
  }

  /** The item loses nothing of the record, and names its ingestion second and expiry. */
  lemma ItemDeterminesRecord(item: Item, r1: TelemetryRecord, days1: nat, now1: nat,
                             r2: TelemetryRecord, days2: nat, now2: nat)
    requires IsItemOf(item, r1, days1, now1) && IsItemOf(item, r2, days2, now2)
    ensures r1 == r2 && now1 == now2 && days1 == days2
  {
    forall a ensures Attribute(r1, days1, now1, a) == Attribute(r2, days2, now2, a) {
      if a in item {
        assert Some(item[a]) == Attribute(r1, days1, now1, a);
      }
    }
    SameIdentity(r1, days1, now1, r2, days2, now2);
    SamePlace(r1, days1, now1, r2, days2, now2);
    SameAir(r1, days1, now1, r2, days2, now2);
  }

  lemma SameIdentity(r1: TelemetryRecord, days1: nat, now1: nat, r2: TelemetryRecord, days2: nat, now2: nat)
    requires forall a :: Attribute(r1, days1, now1, a) == Attribute(r2, days2, now2, a)
    ensures r1.deviceId == r2.deviceId && r1.gatewayId == r2.gatewayId && r1.status == r2.status
    ensures r1.seqNo == r2.seqNo && r1.tsDevice == r2.tsDevice && now1 == now2 && days1 == days2
  {
    assert Attribute(r1, days1, now1, DeviceId) == Attribute(r2, days2, now2, DeviceId);
    assert Attribute(r1, days1, now1, GatewayId) == Attribute(r2, days2, now2, GatewayId);
    assert Attribute(r1, days1, now1, Status) == Attribute(r2, days2, now2, Status);
    assert Attribute(r1, days1, now1, SeqNo) == Attribute(r2, days2, now2, SeqNo);
    assert Attribute(r1, days1, now1, TsDevice) == Attribute(r2, days2, now2, TsDevice);
    assert Attribute(r1, days1, now1, IngestedAt) == Attribute(r2, days2, now2, IngestedAt);
    assert Attribute(r1, days1, now1, ExpiresAt) == Attribute(r2, days2, now2, ExpiresAt);
  }

  lemma SamePlace(r1: TelemetryRecord, days1: nat, now1: nat, r2: TelemetryRecord, days2: nat, now2: nat)
    requires forall a :: Attribute(r1, days1, now1, a) == Attribute(r2, days2, now2, a)
    ensures r1.lat == r2.lat && r1.lon == r2.lon && r1.elevationM == r2.elevationM && r1.tempC == r2.tempC
  {
    assert Attribute(r1, days1, now1, Lat) == Attribute(r2, days2, now2, Lat);
    assert Attribute(r1, days1, now1, Lon) == Attribute(r2, days2, now2, Lon);
    assert Attribute(r1, days1, now1, ElevationM) == Attribute(r2, days2, now2, ElevationM);
    assert Attribute(r1, days1, now1, TempC) == Attribute(r2, days2, now2, TempC);
  }

  lemma SameAir(r1: TelemetryRecord, days1: nat, now1: nat, r2: TelemetryRecord, days2: nat, now2: nat)
    requires forall a :: Attribute(r1, days1, now1, a) == Attribute(r2, days2, now2, a)
    ensures r1.rhPct == r2.rhPct && r1.smokePpm == r2.smokePpm && r1.batteryPct == r2.batteryPct
    ensures r1.windSpeedMs == r2.windSpeedMs && r1.windDirDeg == r2.windDirDeg
  {
    assert Attribute(r1, days1, now1, RhPct) == Attribute(r2, days2, now2, RhPct);
    assert Attribute(r1, days1, now1, SmokePpm) == Attribute(r2, days2, now2, SmokePpm);
    assert Attribute(r1, days1, now1, BatteryPct) == Attribute(r2, days2, now2, BatteryPct);
    assert Attribute(r1, days1, now1, WindSpeedMs) == Attribute(r2, days2, now2, WindSpeedMs);
    assert Attribute(r1, days1, now1, WindDirDeg) == Attribute(r2, days2, now2, WindDirDeg);
  }

  /** Two items of one record agree on everything but the ingestion attributes. */
  lemma ItemsOfOneRecord(item1: Item, item2: Item, r: TelemetryRecord, days: nat, now1: nat, now2: nat)
    requires IsItemOf(item1, r, days, now1) && IsItemOf(item2, r, days, now2)
    ensures item1 - INGESTION == item2 - INGESTION
  {
    forall a | a !in INGESTION ensures a in item1 <==> a in item2
                               ensures a in item1 ==> item1[a] == item2[a]
    {
      assert Attribute(r, days, now1, a) == Attribute(r, days, now2, a);
    }
  }

  /** Two items share their primary key exactly when they hold the same reading's device and sequence number. */
  lemma PrimaryKeyIsReading(item1: Item, item2: Item, r1: TelemetryRecord, r2: TelemetryRecord,
                            days: nat, now1: nat, now2: nat)
    requires IsItemOf(item1, r1, days, now1) && IsItemOf(item2, r2, days, now2)
    ensures Pk in item1 && Sk in item1 && Pk in item2 && Sk in item2
    ensures item1[Pk] == item2[Pk] && item1[Sk] == item2[Sk] <==> HotKeyOf(r1) == HotKeyOf(r2)
  {
    assert Attribute(r1, days, now1, Pk).Some? && Attribute(r1, days, now1, Sk).Some?;
    assert Attribute(r2, days, now2, Pk).Some? && Attribute(r2, days, now2, Sk).Some?;
    if item1[Pk] == item2[Pk] && item1[Sk] == item2[Sk] {
      Keys.TableTextInjective(Keys.Reading(HotKeyOf(r1)), Keys.Reading(HotKeyOf(r2)));
    }
  }
}

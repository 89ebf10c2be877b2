/**
 * `build_unit_stats` (generate_threat_report.py): one pass over every entry
 * of a fight keeps, per allowed unit, its earliest and latest reading (the
 * lowest threat among the earliest readings, the highest among the latest),
 * the sum of its threat percentages and its sample and tank counts; the
 * derived figures (duration, threat done, threat per second, mean percent,
 * tank ratio) are computed afterwards.  `classify_role` is the fixed
 * tank / healer / dps rule applied to those figures.
 */
module UnitStats {
  import opened ThreatLog

  /** The counters `build_unit_stats` keeps per unit while it scans. */
  datatype Acc = Acc(firstTime: real, lastTime: real, firstThreat: real, lastThreat: real,
                     pctSum: real, pctN: nat, tankCount: nat, samples: nat)

  /** The figures it reports per unit: the counters and what is derived from them. */
  datatype Stats = Stats(acc: Acc, duration: real, threatDone: real, tps: real, avgPct: real, tankRatio: real)

  function Min(a: real, b: real): real { if b < a then b else a }
  function Max(a: real, b: real): real { if b > a then b else a }

  /** The `setdefault` record for a unit's first entry. */
  function Init(e: Entry): Acc {
    Acc(e.time, e.time, e.threat, e.threat, 0.0, 0, 0, 0)
  }

  /** The updates `build_unit_stats` applies to a unit's record for one entry, in their order. */
  function Update(s: Acc, e: Entry): Acc {
    var s1 := if e.time < s.firstTime then s.(firstTime := e.time, firstThreat := e.threat) else s;
    var s2 := if e.time > s1.lastTime then s1.(lastTime := e.time, lastThreat := e.threat) else s1;
    var s3 := if e.time == s2.firstTime then s2.(firstThreat := Min(s2.firstThreat, e.threat)) else s2;
    var s4 := if e.time == s3.lastTime then s3.(lastThreat := Max(s3.lastThreat, e.threat)) else s3;
    s4.(pctSum := s4.pctSum + e.percent, pctN := s4.pctN + 1,
        tankCount := s4.tankCount + (if e.tank == 1 then 1 else 0), samples := s4.samples + 1)
  }

  /** Every entry of every snapshot, in order. */
  function AllEntries(snaps: seq<Snapshot>): seq<Entry> {
    if snaps == [] then [] else AllEntries(snaps[..|snaps| - 1]) + snaps[|snaps| - 1].entries
  }

  /** `per_unit` after one more entry: skipped unless allowed, else created or updated. */
  function Step(m: map<string, Acc>, e: Entry, allowed: set<string>): map<string, Acc> {
    if e.unit !in allowed then m
    else m[e.unit := Update(if e.unit in m then m[e.unit] else Init(e), e)]
  }

  /** `per_unit` after the scan over `es`. */
  function Scan(es: seq<Entry>, allowed: set<string>): map<string, Acc> {
    if es == [] then map[] else Step(Scan(es[..|es| - 1], allowed), es[|es| - 1], allowed)
  }

  /** The second loop of `build_unit_stats`: the derived figures of one unit. */
  function Derive(s: Acc): (r: Stats)
    ensures r.acc == s
    ensures r.duration >= 0.0 && r.threatDone >= 0.0
    ensures r.duration == 0.0 ==> r.tps == 0.0
    ensures r.duration > 0.0 ==> r.tps * r.duration == r.threatDone
    ensures s.tankCount <= s.samples ==> 0.0 <= r.tankRatio <= 1.0
    ensures s.pctN > 0 ==> r.avgPct * (s.pctN as real) == s.pctSum
    ensures s.pctN == 0 ==> r.avgPct == 0.0
  {
    var dt := Max(0.0, s.lastTime - s.firstTime);
    var dthreat := Max(0.0, s.lastThreat - s.firstThreat);
    Stats(s, dt, dthreat,
          if dt > 0.0 then dthreat / dt else 0.0,
          if s.pctN != 0 then s.pctSum / (s.pctN as real) else 0.0,
          if s.samples != 0 then (s.tankCount as real) / (s.samples as real) else 0.0)
  }

  /**
   * The values of the derived figures: duration and threat done are the
   * rises from the first to the last reading, floored at 0, and the tank
   * ratio is the share of tanking samples, or 0 without samples.
   */
  lemma {:induction false} DeriveValues(s: Acc)
    ensures Derive(s).duration == Max(0.0, s.lastTime - s.firstTime)
    ensures Derive(s).threatDone == Max(0.0, s.lastThreat - s.firstThreat)
    ensures s.samples > 0 ==> Derive(s).tankRatio * (s.samples as real) == s.tankCount as real
    ensures s.samples == 0 ==> Derive(s).tankRatio == 0.0
  {
  }

  /** What `build_unit_stats` returns. */
  function UnitStatsSpec(fight: Fight, allowed: set<string>): map<string, Stats> {
    var m := Scan(AllEntries(fight.snapshots), allowed);
    map u | u in m :: Derive(m[u])
  }

  /** `build_unit_stats` */
  method BuildUnitStats(fight: Fight, allowed: set<string>) returns (result: map<string, Stats>)
    ensures result == UnitStatsSpec(fight, allowed)
  {
    var snaps := fight.snapshots;
    var perUnit: map<string, Acc> := map[];
    for i := 0 to |snaps|
      invariant perUnit == Scan(AllEntries(snaps[..i]), allowed)
    {
      perUnit := AddEntries(perUnit, AllEntries(snaps[..i]), snaps[i].entries, allowed);
      assert snaps[..i + 1][..i] == snaps[..i];
    }
    assert snaps[..|snaps|] == snaps;
    result := DeriveAll(perUnit);
  }

  /** The entry loop of `build_unit_stats` over one snapshot, continuing the scan of the entries before it. */
  method AddEntries(perUnit: map<string, Acc>, ghost before: seq<Entry>, entries: seq<Entry>, allowed: set<string>)
    returns (r: map<string, Acc>)
    requires perUnit == Scan(before, allowed)
    ensures r == Scan(before + entries, allowed)
  {
    r := perUnit;
    assert before + entries[..0] == before;
    for j := 0 to |entries|
      invariant r == Scan(before + entries[..j], allowed)
    {
      assert (before + entries[..j + 1])[..|before| + j] == before + entries[..j];
      r := AddEntry(r, entries[j], allowed);
    }
    assert entries[..|entries|] == entries;
  }

  /** The body of the entry loop of `build_unit_stats`, updating the unit's record in place. */
  method AddEntry(perUnit: map<string, Acc>, e: Entry, allowed: set<string>) returns (r: map<string, Acc>)
    ensures r == Step(perUnit, e, allowed)
  {
    if e.unit !in allowed {
      return perUnit;
    }
    var s := if e.unit in perUnit then perUnit[e.unit] else Init(e);
    if e.time < s.firstTime {
      s := s.(firstTime := e.time, firstThreat := e.threat);
    }
    if e.time > s.lastTime {
      s := s.(lastTime := e.time, lastThreat := e.threat);
    }
    if e.time == s.firstTime {
      s := s.(firstThreat := Min(s.firstThreat, e.threat));
    }
    if e.time == s.lastTime {
      s := s.(lastThreat := Max(s.lastThreat, e.threat));
    }
    s := s.(pctSum := s.pctSum + e.percent, pctN := s.pctN + 1);
    s := s.(tankCount := s.tankCount + (if e.tank == 1 then 1 else 0), samples := s.samples + 1);
    r := perUnit[e.unit := s];
  }

  /** The second loop of `build_unit_stats`: the derived figures, unit by unit. */
  method DeriveAll(perUnit: map<string, Acc>) returns (result: map<string, Stats>)
    ensures result == map u | u in perUnit :: Derive(perUnit[u])
  {
    result := map[];
    var pending := perUnit.Keys;
    while pending != {}
      invariant pending <= perUnit.Keys
      invariant result == map u | u in perUnit.Keys - pending :: Derive(perUnit[u])
      decreases pending
    {
      var u :| u in pending;
      result := result[u := Derive(perUnit[u])];
      pending := pending - {u};
    }
  }

  // ---------------------------------------------------------------------
  // What the scan computes, entry by entry

  /** The number of entries of `u`. */
  function Samples(es: seq<Entry>, u: string): nat {
    if es == [] then 0 else Samples(es[..|es| - 1], u) + (if es[|es| - 1].unit == u then 1 else 0)
  }

  /** The number of entries of `u` that flag it as tanking (`tank == 1`). */
  function TankSamples(es: seq<Entry>, u: string): (n: nat)
    ensures n <= Samples(es, u)
  {
    if es == [] then 0
    else TankSamples(es[..|es| - 1], u) + (if es[|es| - 1].unit == u && es[|es| - 1].tank == 1 then 1 else 0)
  }

  /** The sum of the threat percentages of `u`'s entries. */
  function PercentSum(es: seq<Entry>, u: string): real {
    if es == [] then 0.0 else PercentSum(es[..|es| - 1], u) + (if es[|es| - 1].unit == u then es[|es| - 1].percent else 0.0)
  }

  /** `u` has an entry in `es`. */
  ghost predicate Appears(es: seq<Entry>, u: string) {
    exists k :: 0 <= k < |es| && es[k].unit == u
  }

  /** No entry of `u` is earlier than `firstTime`, and none at that time has less threat than `firstThreat`. */
  ghost predicate EarliestBound(s: Acc, es: seq<Entry>, u: string) {
    forall k :: 0 <= k < |es| && es[k].unit == u ==>
      s.firstTime <= es[k].time && (es[k].time == s.firstTime ==> s.firstThreat <= es[k].threat)
  }

  /** No entry of `u` is later than `lastTime`, and none at that time has more threat than `lastThreat`. */
  ghost predicate LatestBound(s: Acc, es: seq<Entry>, u: string) {
    forall k :: 0 <= k < |es| && es[k].unit == u ==>
      es[k].time <= s.lastTime && (es[k].time == s.lastTime ==> es[k].threat <= s.lastThreat)
  }

  /** Some entry of `u` is at `firstTime` with `firstThreat`. */
  ghost predicate EarliestSeen(s: Acc, es: seq<Entry>, u: string) {
    exists k :: 0 <= k < |es| && es[k].unit == u && es[k].time == s.firstTime && es[k].threat == s.firstThreat
  }

  /** Some entry of `u` is at `lastTime` with `lastThreat`. */
  ghost predicate LatestSeen(s: Acc, es: seq<Entry>, u: string) {
    exists k :: 0 <= k < |es| && es[k].unit == u && es[k].time == s.lastTime && es[k].threat == s.lastThreat
  }

  /** The record of `u` describes `u`'s entries in `es`. */
  ghost predicate Summarizes(s: Acc, es: seq<Entry>, u: string) {
    && EarliestBound(s, es, u) && EarliestSeen(s, es, u)
    && LatestBound(s, es, u) && LatestSeen(s, es, u)
    && s.samples == Samples(es, u) && s.pctN == s.samples
    && s.tankCount == TankSamples(es, u) && s.pctSum == PercentSum(es, u)
  }

  lemma {:induction false} FirstOfNew(es: seq<Entry>, e: Entry)
    requires !Appears(es, e.unit)
    ensures Summarizes(Update(Init(e), e), es + [e], e.unit)
  {
    var u := e.unit;
    var es' := es + [e];
    assert es'[..|es|] == es;
    assert es'[|es|] == e;
    assert Samples(es, u) == 0 && TankSamples(es, u) == 0 && PercentSum(es, u) == 0.0 by {
      NoSamples(es, u);
    }
  }

  lemma {:induction false} NoSamples(es: seq<Entry>, u: string)
    requires !Appears(es, u)
    ensures Samples(es, u) == 0 && TankSamples(es, u) == 0 && PercentSum(es, u) == 0.0
    decreases |es|
  {
    if es != [] {
      NoSamples(es[..|es| - 1], u);
    }
  }

  /** The earliest-reading half of `Update`: min at the earliest time. */
  lemma {:induction false} UpdateEarliest(s: Acc, es: seq<Entry>, e: Entry)
    requires EarliestBound(s, es, e.unit) && EarliestSeen(s, es, e.unit)
    ensures EarliestBound(Update(s, e), es + [e], e.unit) && EarliestSeen(Update(s, e), es + [e], e.unit)
  {
    var u := e.unit;
    var es' := es + [e];
    var r := Update(s, e);
    assert es'[|es|] == e;
    var k :| 0 <= k < |es| && es[k].unit == u && es[k].time == s.firstTime && es[k].threat == s.firstThreat;
    assert es'[k] == es[k];
    if e.time < s.firstTime {
      assert r.firstTime == e.time && r.firstThreat == e.threat;
    } else if e.time == s.firstTime && e.threat < s.firstThreat {
      assert r.firstTime == e.time && r.firstThreat == e.threat;
    } else {
      assert r.firstTime == s.firstTime && r.firstThreat == s.firstThreat;
    }
    forall i | 0 <= i < |es'| && es'[i].unit == u
      ensures r.firstTime <= es'[i].time && (es'[i].time == r.firstTime ==> r.firstThreat <= es'[i].threat)
    {
      if i < |es| {
        assert es'[i] == es[i];
      }
    }
  }

  /** The latest-reading half of `Update`: max at the latest time. */
  lemma {:induction false} UpdateLatest(s: Acc, es: seq<Entry>, e: Entry)
    requires LatestBound(s, es, e.unit) && LatestSeen(s, es, e.unit)
    ensures LatestBound(Update(s, e), es + [e], e.unit) && LatestSeen(Update(s, e), es + [e], e.unit)
  {
    var u := e.unit;
    var es' := es + [e];
    var r := Update(s, e);
    assert es'[|es|] == e;
    var k :| 0 <= k < |es| && es[k].unit == u && es[k].time == s.lastTime && es[k].threat == s.lastThreat;
    assert es'[k] == es[k];
    if e.time > s.lastTime {
      assert r.lastTime == e.time && r.lastThreat == e.threat;
    } else if e.time == s.lastTime && e.threat > s.lastThreat {
      assert r.lastTime == e.time && r.lastThreat == e.threat;
    } else {
      assert r.lastTime == s.lastTime && r.lastThreat == s.lastThreat;
    }
    forall i | 0 <= i < |es'| && es'[i].unit == u
      ensures es'[i].time <= r.lastTime && (es'[i].time == r.lastTime ==> es'[i].threat <= r.lastThreat)
    {
      if i < |es| {
        assert es'[i] == es[i];
      }
    }
  }

  /** Another unit's entry changes nothing about `u`. */
  lemma {:induction false} OtherUnit(s: Acc, es: seq<Entry>, e: Entry, u: string)
    requires e.unit != u && Summarizes(s, es, u)
    ensures Summarizes(s, es + [e], u)
  {
    var es' := es + [e];
    assert es'[..|es|] == es;
    forall i | 0 <= i < |es| ensures es'[i] == es[i] { }
    var k1 :| 0 <= k1 < |es| && es[k1].unit == u && es[k1].time == s.firstTime && es[k1].threat == s.firstThreat;
    var k2 :| 0 <= k2 < |es| && es[k2].unit == u && es[k2].time == s.lastTime && es[k2].threat == s.lastThreat;
    assert es'[k1] == es[k1] && es'[k2] == es[k2];
  }

  /**
   * After the scan, the units with a record are exactly the allowed units
   * with an entry, and each record holds the earliest time with the lowest
   * threat seen then, the latest time with the highest threat seen then,
   * the number of samples, of tanking samples, and the percent sum.
   */
  lemma {:induction false} ScanSummarizes(es: seq<Entry>, allowed: set<string>)
    ensures forall u :: u in Scan(es, allowed) <==> u in allowed && Appears(es, u)
    ensures forall u :: u in Scan(es, allowed) ==> Summarizes(Scan(es, allowed)[u], es, u)
    decreases |es|
  {
    if es != [] {
      var init := es[..|es| - 1];
      var e := es[|es| - 1];
      assert init + [e] == es;
      ScanSummarizes(init, allowed);
      ScanKeysStep(init, e, allowed);
      forall u | u in Scan(es, allowed) ensures Summarizes(Scan(es, allowed)[u], es, u) {
        RecordStep(Scan(init, allowed), init, e, allowed, u);
      }
    }
  }

  lemma {:induction false} RecordStep(m: map<string, Acc>, init: seq<Entry>, e: Entry, allowed: set<string>, u: string)
    requires forall v :: v in m <==> v in allowed && Appears(init, v)
    requires forall v :: v in m ==> Summarizes(m[v], init, v)
    requires u in Step(m, e, allowed)
    ensures Summarizes(Step(m, e, allowed)[u], init + [e], u)
  {
    if u != e.unit {
      OtherUnit(m[u], init, e, u);
    } else if u in m {
      UpdateEarliest(m[u], init, e);
      UpdateLatest(m[u], init, e);
      UpdateCounts(m[u], init, e);
    } else {
      FirstOfNew(init, e);
    }
  }

  lemma {:induction false} UpdateCounts(s: Acc, es: seq<Entry>, e: Entry)
    requires Summarizes(s, es, e.unit)
    ensures var r := Update(s, e);
      && r.samples == Samples(es + [e], e.unit) && r.pctN == r.samples
      && r.tankCount == TankSamples(es + [e], e.unit) && r.pctSum == PercentSum(es + [e], e.unit)
  {
    assert (es + [e])[..|es|] == es;
  }

  lemma {:induction false} ScanKeysStep(init: seq<Entry>, e: Entry, allowed: set<string>)
    requires forall u :: u in Scan(init, allowed) <==> u in allowed && Appears(init, u)
    ensures forall u :: u in Scan(init + [e], allowed) <==> u in allowed && Appears(init + [e], u)
  {
    var es := init + [e];
    assert es[..|es| - 1] == init;
    forall u ensures Appears(es, u) <==> Appears(init, u) || u == e.unit {
      if Appears(es, u) && u != e.unit {
        var k :| 0 <= k < |es| && es[k].unit == u;
        assert init[k] == es[k];
      }
      if Appears(init, u) {
        var k :| 0 <= k < |init| && init[k].unit == u;
        assert es[k] == init[k];
      }
      if u == e.unit {
        assert es[|init|] == e;
      }
    }
  }

  /**
   * The promises of `build_unit_stats`: units are allowed players with an
   * entry in the fight; `first_threat` is the lowest threat at the unit's
   * earliest time and `last_threat` the highest at its latest time; the
   * duration is the span from the earliest to the latest entry and the
   * threat done the rise from the first to the last threat, neither
   * negative; the rate is zero for a zero duration; the mean percent is
   * the unit's percent sum over its samples and the tank ratio its share
   * of tanking samples, in [0, 1].
   */
  lemma {:induction false} UnitStatsFacts(fight: Fight, allowed: set<string>, u: string)
    requires u in UnitStatsSpec(fight, allowed)
    ensures u in allowed && Appears(AllEntries(fight.snapshots), u)
    ensures var st := UnitStatsSpec(fight, allowed)[u];
      && Summarizes(st.acc, AllEntries(fight.snapshots), u)
      && st.duration >= 0.0 && st.threatDone >= 0.0
      && (st.duration == 0.0 ==> st.tps == 0.0)
      && 0.0 <= st.tankRatio <= 1.0
      && st.acc.samples > 0
  {
    var es := AllEntries(fight.snapshots);
    ScanSummarizes(es, allowed);
    var k :| 0 <= k < |es| && es[k].unit == u;
    SamplesPositive(es, u, k);
  }

  /**
   * The figures `build_unit_stats` reports for `u`, from its record: with
   * `UnitStatsFacts` the record's times, threats and counters are those of
   * `u`'s entries, so the duration is the span of its readings, the threat
   * done the rise of its threat, and the mean percent and tank ratio its
   * percent sum and tanking samples over its samples.
   */
  lemma {:induction false} UnitStatsValues(fight: Fight, allowed: set<string>, u: string)
    requires u in UnitStatsSpec(fight, allowed)
    ensures var st := UnitStatsSpec(fight, allowed)[u];
      && st.duration == Max(0.0, st.acc.lastTime - st.acc.firstTime)
      && st.threatDone == Max(0.0, st.acc.lastThreat - st.acc.firstThreat)
      && (st.acc.samples > 0 ==> st.tankRatio * (st.acc.samples as real) == st.acc.tankCount as real)
      && (st.acc.pctN > 0 ==> st.avgPct * (st.acc.pctN as real) == st.acc.pctSum)
  {
    var m := Scan(AllEntries(fight.snapshots), allowed);
    assert UnitStatsSpec(fight, allowed)[u] == Derive(m[u]);
    DeriveValues(m[u]);
  }

  lemma {:induction false} SamplesPositive(es: seq<Entry>, u: string, k: int)
    requires 0 <= k < |es| && es[k].unit == u
    ensures Samples(es, u) > 0
    decreases |es|
  {
    if k < |es| - 1 {
      SamplesPositive(es[..|es| - 1], u, k);
    }
  }

  // ---------------------------------------------------------------------
  // classify_role

  datatype Role = Tank | Healer | Dps

  /** The CSS class and the label the report shows for a role. */
  function RoleNames(r: Role): (string, string) {
    match r
    case Tank => ("tank", "Tank")
    case Healer => ("healer", "Healer")
    case Dps => ("dps", "DPS")
  }

  /** Counts scraped from the combat log for one player. */
  datatype Signals = Signals(heals: int, taunts: int, tankAbilities: int)

  /** `signals.get(player, {...: 0})` */
  function SignalsOf(player: string, signals: map<string, Signals>): Signals {
    if player in signals then signals[player] else Signals(0, 0, 0)
  }

  /** The tank test of `classify_role`. */
  predicate TankSignals(sig: Signals, avgPct: real, tankRatio: real) {
    sig.taunts >= 2 || tankRatio >= 0.55 || (sig.tankAbilities >= 8 && avgPct >= 60.0)
  }

  /** The healer threshold of `classify_role`: `max(10, (tank_abilities + taunts) * 2)`. */
  function HealThreshold(sig: Signals): (t: int)
    ensures t >= 10 && t >= (sig.tankAbilities + sig.taunts) * 2
    ensures t == 10 || t == (sig.tankAbilities + sig.taunts) * 2
  {
    if (sig.tankAbilities + sig.taunts) * 2 > 10 then (sig.tankAbilities + sig.taunts) * 2 else 10
  }

  /** `classify_role` */
  function ClassifyRole(player: string, avgPct: real, tankRatio: real, signals: map<string, Signals>): Role {
    var sig := SignalsOf(player, signals);
    if TankSignals(sig, avgPct, tankRatio) then Tank
    else if sig.heals >= HealThreshold(sig) then Healer
    else Dps
  }

  /**
   * The rule in full: tank on any tank signal; otherwise healer when the
   * heals reach both 10 and twice the tank signals; otherwise dps.
   */
  lemma {:induction false} ClassifyRoleRule(player: string, avgPct: real, tankRatio: real, signals: map<string, Signals>)
    ensures var sig := SignalsOf(player, signals);
      var role := ClassifyRole(player, avgPct, tankRatio, signals);
      && (role == Tank <==> TankSignals(sig, avgPct, tankRatio))
      && (role == Healer <==> !TankSignals(sig, avgPct, tankRatio)
                               && sig.heals >= 10 && sig.heals >= (sig.tankAbilities + sig.taunts) * 2)
  {
  }

  /** A player with no signals is a tank exactly when the tank ratio reaches 0.55, and never a healer. */
  lemma {:induction false} AbsentPlayerRole(player: string, avgPct: real, tankRatio: real, signals: map<string, Signals>)
    requires player !in signals
    ensures ClassifyRole(player, avgPct, tankRatio, signals) == (if tankRatio >= 0.55 then Tank else Dps)
  {
  }

  /** More tanking (a higher tank ratio or share of threat) never turns a tank into something else. */
  lemma {:induction false} TankMonotone(player: string, avgPct: real, tankRatio: real, avgPct': real, tankRatio': real,
                     signals: map<string, Signals>)
    requires avgPct <= avgPct' && tankRatio <= tankRatio'
    requires ClassifyRole(player, avgPct, tankRatio, signals) == Tank
    ensures ClassifyRole(player, avgPct', tankRatio', signals) == Tank
  {
  }
}

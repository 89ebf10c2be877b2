/**
 * The raid-wide roll-up of `render_report` (generate_threat_report.py):
 * every fight's per-unit figures are added into one record per unit
 * (threat done, duration, number of fights, and the lists of mean percents
 * and tank ratios), and a unit's summary line is its weighted threat per
 * second, its mean percent and its mean tank ratio.  The HTML is not
 * modelled.
 *
 * Inside one fight the source visits the units in descending order of
 * threat done; every unit occurs once per fight, so that order does not
 * change any record, and the model visits them in any order.
 */
module RaidSummary {
  import opened ThreatLog
  import opened UnitStats

  /** `raid_summary[unit]` */
  datatype Totals = Totals(threat: real, duration: real, fights: nat, pcts: seq<real>, ratios: seq<real>)

  const NoTotals := Totals(0.0, 0.0, 0, [], [])

  /** One fight's figures added into a unit's record. */
  function Add(t: Totals, s: Stats): Totals {
    Totals(t.threat + s.threatDone, t.duration + s.duration, t.fights + 1, t.pcts + [s.avgPct], t.ratios + [s.tankRatio])
  }

  /** `raid_summary` (a `defaultdict`) after one fight's units are added. */
  function Merge(summary: map<string, Totals>, stats: map<string, Stats>): map<string, Totals> {
    map u | u in summary.Keys + stats.Keys ::
      if u in stats then Add(if u in summary then summary[u] else NoTotals, stats[u]) else summary[u]
  }

  /** `raid_summary` after the loop over `fights`. */
  function RollUp(fights: seq<Fight>, players: set<string>): map<string, Totals> {
    if fights == [] then map[]
    else Merge(RollUp(fights[..|fights| - 1], players), UnitStatsSpec(fights[|fights| - 1], players))
  }

  /** The loop of `render_report` that fills `raid_summary`. */
  method BuildRaidSummary(fights: seq<Fight>, players: set<string>) returns (summary: map<string, Totals>)
    ensures summary == RollUp(fights, players)
  {
    summary := map[];
    for i := 0 to |fights|
      invariant summary == RollUp(fights[..i], players)
    {
      assert fights[..i + 1][..i] == fights[..i];
      var unitStats := BuildUnitStats(fights[i], players);
      summary := AddFight(summary, unitStats);
    }
    assert fights[..|fights|] == fights;
  }

  /** The inner loop: `raid_summary[unit][...] += ...` for each unit of one fight. */
  method AddFight(summary: map<string, Totals>, stats: map<string, Stats>) returns (r: map<string, Totals>)
    ensures r == Merge(summary, stats)
  {
    r := summary;
    var pending := stats.Keys;
    while pending != {}
      invariant pending <= stats.Keys
      invariant r == map u | u in summary.Keys + (stats.Keys - pending) ::
        if u in stats.Keys - pending then Add(if u in summary then summary[u] else NoTotals, stats[u]) else summary[u]
      decreases pending
    {
      var u :| u in pending;
      var t := if u in r then r[u] else NoTotals;
      r := r[u := Add(t, stats[u])];
      pending := pending - {u};
    }
  }

  // ---------------------------------------------------------------------
  // The summary line of a unit

  function Sum(xs: seq<real>): real {
    if xs == [] then 0.0 else Sum(xs[..|xs| - 1]) + xs[|xs| - 1]
  }

  /** `mean(xs) if xs else 0.0` */
  function Mean(xs: seq<real>): real {
    if xs == [] then 0.0 else Sum(xs) / (|xs| as real)
  }

  /** Weighted threat per second: total threat over total time in combat. */
  function SummaryTps(t: Totals): (tps: real)
    ensures t.duration > 0.0 ==> tps * t.duration == t.threat
    ensures t.duration <= 0.0 ==> tps == 0.0
  {
    if t.duration > 0.0 then t.threat / t.duration else 0.0
  }

  /** The role shown on a unit's summary line. */
  function SummaryRole(unit: string, t: Totals, signals: map<string, Signals>): Role {
    ClassifyRole(unit, Mean(t.pcts), Mean(t.ratios), signals)
  }

  /** Values in [0, 1] have a mean in [0, 1]. */
  lemma {:induction false} MeanInUnit(xs: seq<real>)
    requires forall k :: 0 <= k < |xs| ==> 0.0 <= xs[k] <= 1.0
    ensures 0.0 <= Mean(xs) <= 1.0
  {
    SumInUnit(xs);
  }

  lemma {:induction false} SumInUnit(xs: seq<real>)
    requires forall k :: 0 <= k < |xs| ==> 0.0 <= xs[k] <= 1.0
    ensures 0.0 <= Sum(xs) <= |xs| as real
    decreases |xs|
  {
    if xs != [] {
      SumInUnit(xs[..|xs| - 1]);
    }
  }

  // ---------------------------------------------------------------------
  // What the roll-up promises

  /** The number of fights in which `u` has figures. */
  function FightsWith(fights: seq<Fight>, players: set<string>, u: string): nat {
    if fights == [] then 0
    else FightsWith(fights[..|fights| - 1], players, u)
         + (if u in UnitStatsSpec(fights[|fights| - 1], players) then 1 else 0)
  }

  /** The threat `u` did, summed over the fights in which it has figures. */
  function ThreatOver(fights: seq<Fight>, players: set<string>, u: string): real {
    if fights == [] then 0.0
    else
      var st := UnitStatsSpec(fights[|fights| - 1], players);
      ThreatOver(fights[..|fights| - 1], players, u) + (if u in st then st[u].threatDone else 0.0)
  }

  /** The time `u` spent in combat, summed over the fights in which it has figures. */
  function DurationOver(fights: seq<Fight>, players: set<string>, u: string): real {
    if fights == [] then 0.0
    else
      var st := UnitStatsSpec(fights[|fights| - 1], players);
      DurationOver(fights[..|fights| - 1], players, u) + (if u in st then st[u].duration else 0.0)
  }

  /** The mean percents of `u`, one per fight in which it has figures, in fight order. */
  function PctsOver(fights: seq<Fight>, players: set<string>, u: string): seq<real> {
    if fights == [] then []
    else
      var st := UnitStatsSpec(fights[|fights| - 1], players);
      PctsOver(fights[..|fights| - 1], players, u) + (if u in st then [st[u].avgPct] else [])
  }

  /** The tank ratios of `u`, one per fight in which it has figures, in fight order. */
  function RatiosOver(fights: seq<Fight>, players: set<string>, u: string): seq<real> {
    if fights == [] then []
    else
      var st := UnitStatsSpec(fights[|fights| - 1], players);
      RatiosOver(fights[..|fights| - 1], players, u) + (if u in st then [st[u].tankRatio] else [])
  }

  /** The record of `u` is well formed: one entry per fight in each list, ratios in [0, 1]. */
  ghost predicate WellFormed(t: Totals) {
    && t.fights == |t.pcts| == |t.ratios|
    && t.threat >= 0.0 && t.duration >= 0.0
    && forall k :: 0 <= k < |t.ratios| ==> 0.0 <= t.ratios[k] <= 1.0
  }

  /**
   * The raid summary has a record for exactly the units with figures in
   * some fight; a record counts the fights the unit took part in, holds the
   * totals of its threat done and of its duration, and lists its per-fight
   * mean percents and tank ratios in fight order, every ratio in [0, 1].
   */
  lemma {:induction false} RollUpFacts(fights: seq<Fight>, players: set<string>)
    ensures forall u :: u in RollUp(fights, players) <==> FightsWith(fights, players, u) > 0
    ensures forall u :: u !in RollUp(fights, players) ==>
      && ThreatOver(fights, players, u) == 0.0 && DurationOver(fights, players, u) == 0.0
      && PctsOver(fights, players, u) == [] && RatiosOver(fights, players, u) == []
    ensures forall u :: u in RollUp(fights, players) ==>
      && WellFormed(RollUp(fights, players)[u])
      && RollUp(fights, players)[u].fights == FightsWith(fights, players, u)
      && RollUp(fights, players)[u].threat == ThreatOver(fights, players, u)
      && RollUp(fights, players)[u].duration == DurationOver(fights, players, u)
      && RollUp(fights, players)[u].pcts == PctsOver(fights, players, u)
      && RollUp(fights, players)[u].ratios == RatiosOver(fights, players, u)
  {
    RollUpRecords(fights, players);
    forall u ensures u in RollUp(fights, players) <==> FightsWith(fights, players, u) > 0 {
      assert RecordOf(fights, players, u);
    }
    forall u | u !in RollUp(fights, players)
      ensures && ThreatOver(fights, players, u) == 0.0 && DurationOver(fights, players, u) == 0.0
              && PctsOver(fights, players, u) == [] && RatiosOver(fights, players, u) == []
    {
      assert RecordOf(fights, players, u);
    }
    forall u | u in RollUp(fights, players)
      ensures && WellFormed(RollUp(fights, players)[u])
              && RollUp(fights, players)[u].fights == FightsWith(fights, players, u)
              && RollUp(fights, players)[u].threat == ThreatOver(fights, players, u)
              && RollUp(fights, players)[u].duration == DurationOver(fights, players, u)
              && RollUp(fights, players)[u].pcts == PctsOver(fights, players, u)
              && RollUp(fights, players)[u].ratios == RatiosOver(fights, players, u)
    {
      assert RecordOf(fights, players, u);
    }
  }

  lemma {:induction false} RollUpRecords(fights: seq<Fight>, players: set<string>)
    ensures forall u :: RecordOf(fights, players, u)
    decreases |fights|
  {
    if fights != [] {
      RollUpRecords(fights[..|fights| - 1], players);
      forall u ensures RecordOf(fights, players, u) {
        RecordStep(fights, players, u);
      }
    }
  }

  /** What `RollUpFacts` states about the record of one unit. */
  ghost predicate RecordOf(fights: seq<Fight>, players: set<string>, u: string) {
    && (u in RollUp(fights, players) <==> FightsWith(fights, players, u) > 0)
    && (u !in RollUp(fights, players) ==>
         && ThreatOver(fights, players, u) == 0.0 && DurationOver(fights, players, u) == 0.0
         && PctsOver(fights, players, u) == [] && RatiosOver(fights, players, u) == [])
    && (u in RollUp(fights, players) ==>
         && WellFormed(RollUp(fights, players)[u])
         && RollUp(fights, players)[u].fights == FightsWith(fights, players, u)
         && RollUp(fights, players)[u].threat == ThreatOver(fights, players, u)
         && RollUp(fights, players)[u].duration == DurationOver(fights, players, u)
         && RollUp(fights, players)[u].pcts == PctsOver(fights, players, u)
         && RollUp(fights, players)[u].ratios == RatiosOver(fights, players, u))
  }

  /** One more fight keeps the record of `u` what `RollUpFacts` says it is. */
  lemma {:induction false} RecordStep(fights: seq<Fight>, players: set<string>, u: string)
    requires fights != [] && RecordOf(fights[..|fights| - 1], players, u)
    ensures RecordOf(fights, players, u)
  {
    var init := fights[..|fights| - 1];
    var last := fights[|fights| - 1];
    var st := UnitStatsSpec(last, players);
    forall v | v in st ensures 0.0 <= st[v].tankRatio <= 1.0 && st[v].duration >= 0.0 && st[v].threatDone >= 0.0 {
      UnitStatsFacts(last, players, v);
    }
    assert RollUp(fights, players) == Merge(RollUp(init, players), st);
    if u in RollUp(fights, players) {
      MergeStep(RollUp(init, players), st, u);
    }
  }

  /** Adding one fight's figures keeps a record well formed. */
  lemma {:induction false} MergeStep(prev: map<string, Totals>, st: map<string, Stats>, u: string)
    requires u in prev ==> WellFormed(prev[u])
    requires forall v :: v in st ==> 0.0 <= st[v].tankRatio <= 1.0 && st[v].duration >= 0.0 && st[v].threatDone >= 0.0
    requires u in Merge(prev, st)
    ensures WellFormed(Merge(prev, st)[u])
    ensures u in st ==> Merge(prev, st)[u].fights == (if u in prev then prev[u].fights else 0) + 1
    ensures u in st ==> Merge(prev, st)[u].threat == (if u in prev then prev[u].threat else 0.0) + st[u].threatDone
    ensures u in st ==> Merge(prev, st)[u].duration == (if u in prev then prev[u].duration else 0.0) + st[u].duration
    ensures u in st ==> Merge(prev, st)[u].pcts == (if u in prev then prev[u].pcts else []) + [st[u].avgPct]
    ensures u in st ==> Merge(prev, st)[u].ratios == (if u in prev then prev[u].ratios else []) + [st[u].tankRatio]
    ensures u !in st ==> Merge(prev, st)[u] == prev[u]
  {
    if u in st {
      var t := if u in prev then prev[u] else NoTotals;
      var r := Add(t, st[u]);
      assert WellFormed(t);
      forall k | 0 <= k < |r.ratios| ensures 0.0 <= r.ratios[k] <= 1.0 {
        if k < |t.ratios| {
          assert r.ratios[k] == t.ratios[k];
        }
      }
    }
  }

  /** The tank ratio of a summary line lies in [0, 1]. */
  lemma {:induction false} SummaryRatioInUnit(fights: seq<Fight>, players: set<string>, u: string)
    requires u in RollUp(fights, players)
    ensures 0.0 <= Mean(RollUp(fights, players)[u].ratios) <= 1.0
  {
    RollUpFacts(fights, players);
    MeanInUnit(RollUp(fights, players)[u].ratios);
  }
}

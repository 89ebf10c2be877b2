/**
 * `split_fights` (generate_threat_report.py): snapshots are grouped by
 * target `(guid, name)` in order of first appearance, each group is sorted by
 * time and cut wherever two consecutive snapshots are more than `gap`
 * seconds apart, the pieces that are too short or too small are dropped,
 * and the rest are sorted (stably) by start time.
 *
 * The specification is the function `SplitFightsSpec`; the methods
 * `GroupByTarget`, `SplitGroup` and `SplitFights` are the loops of the
 * source proved against it.
 */
module FightSplit {
  import opened Wrappers
  import opened Seqs
  import opened ThreatLog

  type Key = (string, string)

  function KeyOf(s: Snapshot): Key {
    (s.targetGuid, s.targetName)
  }

  function SnapTime(s: Snapshot): real {
    s.time
  }

  // ---------------------------------------------------------------------
  // Grouping by target

  /** The distinct target keys of `snaps`, in order of first appearance. */
  function Keys(snaps: seq<Snapshot>): (keys: seq<Key>)
    ensures forall i, j :: 0 <= i < j < |keys| ==> keys[i] != keys[j]
    ensures forall k :: k in keys <==> exists i :: 0 <= i < |snaps| && KeyOf(snaps[i]) == k
  {
    if snaps == [] then []
    else
      var init := snaps[..|snaps| - 1];
      var keys := Keys(init);
      assert forall i :: 0 <= i < |init| ==> init[i] == snaps[i];
      if KeyOf(snaps[|snaps| - 1]) in keys then keys else keys + [KeyOf(snaps[|snaps| - 1])]
  }

  /** `by_target[k]` once every snapshot is appended: the snapshots of target `k`, in order. */
  function OfKey(snaps: seq<Snapshot>, k: Key): (r: seq<Snapshot>)
    ensures |r| <= |snaps|
    ensures forall s :: s in r <==> s in snaps && KeyOf(s) == k
  {
    if snaps == [] then []
    else
      var last := snaps[|snaps| - 1];
      OfKey(snaps[..|snaps| - 1], k) + (if KeyOf(last) == k then [last] else [])
  }

  /**
   * The first loop of `split_fights`: `by_target[(guid, name)].append(snap)`.
   * The keys come out in insertion order, as a Python dict keeps them.
   */
  method GroupByTarget(snaps: seq<Snapshot>) returns (keys: seq<Key>, byTarget: map<Key, seq<Snapshot>>)
    ensures keys == Keys(snaps)
    ensures forall k :: k in byTarget <==> k in keys
    ensures forall k :: k in byTarget ==> byTarget[k] == OfKey(snaps, k)
  {
    keys := [];
    byTarget := map[];
    for i := 0 to |snaps|
      invariant keys == Keys(snaps[..i])
      invariant forall k :: k in byTarget <==> k in keys
      invariant forall k :: k in byTarget ==> byTarget[k] == OfKey(snaps[..i], k)
    {
      var k := KeyOf(snaps[i]);
      if k in byTarget {
        GroupOld(snaps, i, keys, byTarget);
        byTarget := byTarget[k := byTarget[k] + [snaps[i]]];
      } else {
        GroupNew(snaps, i, keys, byTarget);
        keys := keys + [k];
        byTarget := byTarget[k := [snaps[i]]];
      }
    }
    assert snaps[..|snaps|] == snaps;
  }

  /** A snapshot of a target already seen joins that target's list; the keys stay. */
  lemma {:induction false} GroupOld(snaps: seq<Snapshot>, i: int, keys: seq<Key>, byTarget: map<Key, seq<Snapshot>>)
    requires 0 <= i < |snaps| && keys == Keys(snaps[..i])
    requires forall k :: k in byTarget <==> k in keys
    requires forall k :: k in byTarget ==> byTarget[k] == OfKey(snaps[..i], k)
    requires KeyOf(snaps[i]) in byTarget
    ensures keys == Keys(snaps[..i + 1])
    ensures forall k :: k in byTarget ==> byTarget[KeyOf(snaps[i]) := byTarget[KeyOf(snaps[i])] + [snaps[i]]][k] == OfKey(snaps[..i + 1], k)
  {
    GroupStep(snaps, i);
  }

  /** A snapshot of a new target adds its key at the end and starts its list. */
  lemma {:induction false} GroupNew(snaps: seq<Snapshot>, i: int, keys: seq<Key>, byTarget: map<Key, seq<Snapshot>>)
    requires 0 <= i < |snaps| && keys == Keys(snaps[..i])
    requires forall k :: k in byTarget <==> k in keys
    requires forall k :: k in byTarget ==> byTarget[k] == OfKey(snaps[..i], k)
    requires KeyOf(snaps[i]) !in byTarget
    ensures keys + [KeyOf(snaps[i])] == Keys(snaps[..i + 1])
    ensures forall k :: k in byTarget ==> byTarget[k] == OfKey(snaps[..i + 1], k)
    ensures [snaps[i]] == OfKey(snaps[..i + 1], KeyOf(snaps[i]))
  {
    GroupStep(snaps, i);
  }

  /** One more snapshot: a new key goes to the end, and it joins its own key's list. */
  lemma {:induction false} GroupStep(snaps: seq<Snapshot>, i: int)
    requires 0 <= i < |snaps|
    ensures Keys(snaps[..i + 1]) == if KeyOf(snaps[i]) in Keys(snaps[..i]) then Keys(snaps[..i])
                                    else Keys(snaps[..i]) + [KeyOf(snaps[i])]
    ensures forall k :: k != KeyOf(snaps[i]) ==> OfKey(snaps[..i + 1], k) == OfKey(snaps[..i], k)
    ensures OfKey(snaps[..i + 1], KeyOf(snaps[i])) == OfKey(snaps[..i], KeyOf(snaps[i])) + [snaps[i]]
    ensures KeyOf(snaps[i]) !in Keys(snaps[..i]) ==> OfKey(snaps[..i], KeyOf(snaps[i])) == []
  {
    assert snaps[..i + 1][..i] == snaps[..i];
    OfKeyHasKey(snaps[..i], KeyOf(snaps[i]));
  }

  /** A key with at least one snapshot is among the keys. */
  lemma {:induction false} OfKeyHasKey(snaps: seq<Snapshot>, k: Key)
    ensures OfKey(snaps, k) != [] ==> k in Keys(snaps)
  {
    if OfKey(snaps, k) != [] {
      var x := OfKey(snaps, k)[0];
      assert x in OfKey(snaps, k);
      var j :| 0 <= j < |snaps| && snaps[j] == x;
    }
  }

  // ---------------------------------------------------------------------
  // Cutting one target's snapshots at the gaps

  /** The pieces laid end to end. */
  function Flatten(segs: seq<seq<Snapshot>>): seq<Snapshot> {
    if segs == [] then [] else Flatten(segs[..|segs| - 1]) + segs[|segs| - 1]
  }

  /**
   * The runs of `snaps` that `split_fights` turns into fights: a new run
   * starts exactly where a snapshot comes more than `gap` seconds after
   * the one before it.
   */
  function Segments(snaps: seq<Snapshot>, gap: real): (segs: seq<seq<Snapshot>>)
    ensures Flatten(segs) == snaps
    ensures snaps != [] <==> segs != []
    ensures forall j :: 0 <= j < |segs| ==> segs[j] != []
    ensures snaps != [] ==> Last(segs[|segs| - 1]) == snaps[|snaps| - 1]
  {
    if snaps == [] then []
    else
      var init := snaps[..|snaps| - 1];
      var last := snaps[|snaps| - 1];
      assert init + [last] == snaps;
      var segs := Segments(init, gap);
      if init == [] || last.time - init[|init| - 1].time > gap then
        NewRunCovers(init, segs, last);
        segs + [[last]]
      else
        ExtendRunCovers(init, segs, last);
        segs[..|segs| - 1] + [segs[|segs| - 1] + [last]]
  }

  /** `segs` are non-empty runs that lay end to end to `snaps`, the last ending with its last snapshot. */
  ghost predicate Covers(snaps: seq<Snapshot>, segs: seq<seq<Snapshot>>) {
    && Flatten(segs) == snaps
    && (snaps != [] <==> segs != [])
    && (forall j :: 0 <= j < |segs| ==> segs[j] != [])
    && (snaps != [] ==> Last(segs[|segs| - 1]) == snaps[|snaps| - 1])
  }

  lemma {:induction false} NewRunCovers(init: seq<Snapshot>, segs: seq<seq<Snapshot>>, last: Snapshot)
    requires Covers(init, segs)
    ensures Covers(init + [last], segs + [[last]])
  {
    FlattenAppend(segs, [last]);
    var r := segs + [[last]];
    assert forall j :: 0 <= j < |segs| ==> r[j] == segs[j];
  }

  lemma {:induction false} ExtendRunCovers(init: seq<Snapshot>, segs: seq<seq<Snapshot>>, last: Snapshot)
    requires init != [] && Covers(init, segs)
    ensures Covers(init + [last], segs[..|segs| - 1] + [segs[|segs| - 1] + [last]])
  {
    FlattenExtend(segs, last);
    var r := segs[..|segs| - 1] + [segs[|segs| - 1] + [last]];
    assert forall j :: 0 <= j < |segs| - 1 ==> r[j] == segs[j];
  }

  lemma {:induction false} FlattenAppend(segs: seq<seq<Snapshot>>, x: seq<Snapshot>)
    ensures Flatten(segs + [x]) == Flatten(segs) + x
  {
    assert (segs + [x])[..|segs|] == segs;
  }

  lemma {:induction false} FlattenExtend(segs: seq<seq<Snapshot>>, x: Snapshot)
    requires segs != []
    ensures Flatten(segs[..|segs| - 1] + [segs[|segs| - 1] + [x]]) == Flatten(segs) + [x]
  {
    var n := |segs|;
    var front, back := segs[..n - 1], segs[n - 1];
    FlattenAppend(front, back + [x]);
    assert front + [back] == segs;
    FlattenAppend(front, back);
    calc {
      Flatten(front + [back + [x]]);
      Flatten(front) + (back + [x]);
      (Flatten(front) + back) + [x];
      Flatten(segs) + [x];
    }
  }

  function Last(s: seq<Snapshot>): Snapshot
    requires s != []
  {
    s[|s| - 1]
  }

  /** No snapshot of `seg` comes more than `gap` seconds after the one before it. */
  ghost predicate WithinGap(seg: seq<Snapshot>, gap: real) {
    forall i :: 0 < i < |seg| ==> seg[i].time - seg[i - 1].time <= gap
  }

  /** Inside a run, no snapshot comes more than `gap` seconds after the one before it. */
  lemma {:induction false} SegmentsWithinGap(snaps: seq<Snapshot>, gap: real)
    ensures forall seg :: seg in Segments(snaps, gap) ==> WithinGap(seg, gap)
    decreases |snaps|
  {
    if snaps != [] {
      var init := snaps[..|snaps| - 1];
      var last := snaps[|snaps| - 1];
      var segs := Segments(init, gap);
      SegmentsWithinGap(init, gap);
      var n := |segs|;
      if init == [] || last.time - init[|init| - 1].time > gap {
        var r: seq<seq<Snapshot>> := segs + [[last]];
        assert r == Segments(snaps, gap);
        assert WithinGap([last], gap);
      } else {
        var r: seq<seq<Snapshot>> := segs[..n - 1] + [segs[n - 1] + [last]];
        assert r == Segments(snaps, gap);
        var seg := segs[n - 1];
        assert segs[n - 1] in segs;
        assert WithinGap(seg + [last], gap) by {
          forall i | 0 < i < |seg| + 1 ensures (seg + [last])[i].time - (seg + [last])[i - 1].time <= gap {
            if i == |seg| {
              assert (seg + [last])[i - 1] == Last(seg);
            } else {
              assert (seg + [last])[i] == seg[i];
            }
          }
        }
        forall x | x in r ensures WithinGap(x, gap) {
          if x != seg + [last] {
            assert x in segs[..n - 1];
          }
        }
      }
    }
  }

  /** Run `j` starts more than `gap` seconds after run `j - 1` ends. */
  ghost predicate CutBefore(segs: seq<seq<Snapshot>>, j: int, gap: real)
    requires 0 < j < |segs| && segs[j] != [] && segs[j - 1] != []
  {
    segs[j][0].time - Last(segs[j - 1]).time > gap
  }

  /** Each run after the first starts more than `gap` seconds after the previous run ends. */
  lemma {:induction false} SegmentsCutAtGap(snaps: seq<Snapshot>, gap: real)
    ensures forall j :: 0 < j < |Segments(snaps, gap)| ==> CutBefore(Segments(snaps, gap), j, gap)
    decreases |snaps|
  {
    if snaps != [] {
      var init := snaps[..|snaps| - 1];
      var last := snaps[|snaps| - 1];
      var segs := Segments(init, gap);
      SegmentsCutAtGap(init, gap);
      var n := |segs|;
      if init == [] || last.time - init[|init| - 1].time > gap {
        var r: seq<seq<Snapshot>> := segs + [[last]];
        assert r == Segments(snaps, gap);
        forall j | 0 < j < |r| ensures CutBefore(r, j, gap) {
          if j < n {
            assert r[j] == segs[j] && r[j - 1] == segs[j - 1];
            assert CutBefore(segs, j, gap);
          } else {
            assert r[j] == [last] && r[j - 1] == segs[n - 1];
          }
        }
      } else {
        var r: seq<seq<Snapshot>> := segs[..n - 1] + [segs[n - 1] + [last]];
        assert r == Segments(snaps, gap);
        forall j | 0 < j < |r| ensures CutBefore(r, j, gap) {
          assert r[j - 1] == segs[j - 1];
          assert r[j][0] == segs[j][0];
          assert CutBefore(segs, j, gap);
        }
      }
    }
  }

  /** Every snapshot of every run comes from the input. */
  lemma {:induction false} SegmentMember(snaps: seq<Snapshot>, gap: real, j: int, x: Snapshot)
    requires 0 <= j < |Segments(snaps, gap)| && x in Segments(snaps, gap)[j]
    ensures x in snaps
  {
    FlattenMember(Segments(snaps, gap), j, x);
  }

  lemma {:induction false} FlattenMember(segs: seq<seq<Snapshot>>, j: int, x: Snapshot)
    requires 0 <= j < |segs| && x in segs[j]
    ensures x in Flatten(segs)
    decreases |segs|
  {
    if j < |segs| - 1 {
      FlattenMember(segs[..|segs| - 1], j, x);
    }
  }

  /** Runs cut from a time-ordered list are time-ordered. */
  lemma {:induction false} SegmentsSorted(snaps: seq<Snapshot>, gap: real)
    requires AdjacentSorted(snaps, SnapTime)
    ensures forall seg :: seg in Segments(snaps, gap) ==> AdjacentSorted(seg, SnapTime)
    decreases |snaps|
  {
    if snaps != [] {
      var init := snaps[..|snaps| - 1];
      var last := snaps[|snaps| - 1];
      SegmentsSorted(init, gap);
      var segs := Segments(init, gap);
      if !(init == [] || last.time - init[|init| - 1].time > gap) {
        var n := |segs|;
        var seg := segs[n - 1];
        assert segs[n - 1] in segs;
        assert AdjacentSorted(seg + [last], SnapTime) by {
          forall i | 0 < i < |seg| + 1 ensures SnapTime((seg + [last])[i - 1]) <= SnapTime((seg + [last])[i]) {
            if i == |seg| {
              assert (seg + [last])[i - 1] == Last(seg) == init[|init| - 1];
            } else {
              assert (seg + [last])[i] == seg[i];
            }
          }
        }
        forall x | x in segs[..n - 1] + [seg + [last]] ensures AdjacentSorted(x, SnapTime) {
          if x != seg + [last] {
            assert x in segs[..n - 1];
          }
        }
      } else {
        assert AdjacentSorted([last], SnapTime);
      }
    }
  }

  /** A target's runs, as fights against that target. */
  function Wrap(key: Key, segs: seq<seq<Snapshot>>): (fights: seq<Fight>)
    ensures |fights| == |segs|
    ensures forall j :: 0 <= j < |segs| ==> fights[j] == Fight(key.0, key.1, segs[j])
  {
    if segs == [] then [] else Wrap(key, segs[..|segs| - 1]) + [Fight(key.0, key.1, segs[|segs| - 1])]
  }

  /**
   * The inner loop of `split_fights` for one target: `current` collects
   * snapshots and is closed off when the next one is more than `gap` seconds
   * after `last_time`.
   */
  method SplitGroup(key: Key, snaps: seq<Snapshot>, gap: real) returns (fights: seq<Fight>)
    ensures fights == Wrap(key, Segments(snaps, gap))
  {
    fights := [];
    var current: seq<Snapshot> := [];
    var lastTime: Option<real> := None;
    for i := 0 to |snaps|
      invariant i == 0 ==> lastTime.None? && fights == [] && current == []
      invariant i > 0 ==> && lastTime == Some(snaps[i - 1].time) && current != []
                          && fights + [Fight(key.0, key.1, current)] == Wrap(key, Segments(snaps[..i], gap))
    {
      var snap := snaps[i];
      if lastTime.Some? && snap.time - lastTime.value > gap && current != [] {
        SplitCut(key, snaps, i, gap, fights, current);
        fights := fights + [Fight(key.0, key.1, current)];
        current := [];
      } else if lastTime.Some? {
        SplitExtend(key, snaps, i, gap, fights, current);
      } else {
        SplitFirst(key, snaps, gap);
      }
      current := current + [snap];
      lastTime := Some(snap.time);
    }
    assert snaps[..|snaps|] == snaps;
    if current != [] {
      fights := fights + [Fight(key.0, key.1, current)];
    }
  }

  /** The first snapshot opens the first run. */
  lemma {:induction false} SplitFirst(key: Key, snaps: seq<Snapshot>, gap: real)
    requires |snaps| > 0
    ensures [] + [Fight(key.0, key.1, [] + [snaps[0]])] == Wrap(key, Segments(snaps[..1], gap))
  {
    SegmentsStep(snaps, 0, gap);
    WrapAppend(key, [], [snaps[0]]);
    assert [] + [[snaps[0]]] == [[snaps[0]]];
  }

  /** After a gap above `gap`, the current run is closed and a new one opened. */
  lemma {:induction false} SplitCut(key: Key, snaps: seq<Snapshot>, i: int, gap: real, fights: seq<Fight>, current: seq<Snapshot>)
    requires 0 < i < |snaps| && snaps[i].time - snaps[i - 1].time > gap
    requires fights + [Fight(key.0, key.1, current)] == Wrap(key, Segments(snaps[..i], gap))
    ensures (fights + [Fight(key.0, key.1, current)]) + [Fight(key.0, key.1, [] + [snaps[i]])]
            == Wrap(key, Segments(snaps[..i + 1], gap))
  {
    SegmentsStep(snaps, i, gap);
    WrapAppend(key, Segments(snaps[..i], gap), [snaps[i]]);
    assert [] + [snaps[i]] == [snaps[i]];
  }

  /** Within `gap`, the snapshot joins the current run. */
  lemma {:induction false} SplitExtend(key: Key, snaps: seq<Snapshot>, i: int, gap: real, fights: seq<Fight>, current: seq<Snapshot>)
    requires 0 < i < |snaps| && snaps[i].time - snaps[i - 1].time <= gap
    requires fights + [Fight(key.0, key.1, current)] == Wrap(key, Segments(snaps[..i], gap))
    ensures fights + [Fight(key.0, key.1, current + [snaps[i]])] == Wrap(key, Segments(snaps[..i + 1], gap))
  {
    var segs := Segments(snaps[..i], gap);
    SegmentsStep(snaps, i, gap);
    WrapExtend(key, segs, snaps[i]);
    assert |fights| == |segs| - 1;
    assert (fights + [Fight(key.0, key.1, current)])[..|fights|] == fights;
    assert (fights + [Fight(key.0, key.1, current)])[|fights|] == Fight(key.0, key.1, current);
  }

  /** `Segments` of a prefix one snapshot longer. */
  lemma {:induction false} SegmentsStep(snaps: seq<Snapshot>, i: int, gap: real)
    requires 0 <= i < |snaps|
    ensures i == 0 ==> Segments(snaps[..i + 1], gap) == [[snaps[0]]]
    ensures 0 < i && snaps[i].time - snaps[i - 1].time > gap ==>
              Segments(snaps[..i + 1], gap) == Segments(snaps[..i], gap) + [[snaps[i]]]
    ensures 0 < i && snaps[i].time - snaps[i - 1].time <= gap ==>
              Segments(snaps[..i + 1], gap)
              == Segments(snaps[..i], gap)[..|Segments(snaps[..i], gap)| - 1]
                 + [Segments(snaps[..i], gap)[|Segments(snaps[..i], gap)| - 1] + [snaps[i]]]
  {
    assert snaps[..i + 1][..i] == snaps[..i];
  }

  lemma {:induction false} WrapAppend(key: Key, segs: seq<seq<Snapshot>>, x: seq<Snapshot>)
    ensures Wrap(key, segs + [x]) == Wrap(key, segs) + [Fight(key.0, key.1, x)]
  {
    assert (segs + [x])[..|segs|] == segs;
  }

  /**
   * Extending the last run by `x` extends the last fight:
   * `fights + [Fight(current)]` becomes `fights + [Fight(current + [x])]`.
   */
  lemma {:induction false} WrapExtend(key: Key, segs: seq<seq<Snapshot>>, x: Snapshot)
    requires segs != []
    ensures Wrap(key, segs[..|segs| - 1] + [segs[|segs| - 1] + [x]])
            == Wrap(key, segs[..|segs| - 1]) + [Fight(key.0, key.1, segs[|segs| - 1] + [x])]
    ensures Wrap(key, segs) == Wrap(key, segs[..|segs| - 1]) + [Fight(key.0, key.1, segs[|segs| - 1])]
  {
    WrapAppend(key, segs[..|segs| - 1], segs[|segs| - 1] + [x]);
  }

  // ---------------------------------------------------------------------
  // The whole of split_fights

  /** Every target's fights, targets in the order of `keys`. */
  function AllFights(snaps: seq<Snapshot>, keys: seq<Key>, gap: real): (fights: seq<Fight>)
    ensures forall f :: f in fights ==>
      (f.targetGuid, f.targetName) in keys
      && f.snapshots in Segments(SortBy(OfKey(snaps, (f.targetGuid, f.targetName)), SnapTime), gap)
  {
    if keys == [] then []
    else
      var k := keys[|keys| - 1];
      var r := AllFights(snaps, keys[..|keys| - 1], gap) + Wrap(k, Segments(SortBy(OfKey(snaps, k), SnapTime), gap));
      assert forall f :: f in Wrap(k, Segments(SortBy(OfKey(snaps, k), SnapTime), gap)) ==>
        (f.targetGuid, f.targetName) == k;
      r
  }

  /** The filter of `split_fights`: long enough and with enough snapshots. */
  predicate Keep(f: Fight, minDuration: real, minSnapshots: int) {
    |f.snapshots| > 0 && Duration(f) >= minDuration && |f.snapshots| >= minSnapshots
  }

  function Survivors(fights: seq<Fight>, minDuration: real, minSnapshots: int): (r: seq<Fight>)
    ensures |r| <= |fights|
    ensures forall f :: f in r <==> f in fights && Keep(f, minDuration, minSnapshots)
  {
    if fights == [] then []
    else
      var last := fights[|fights| - 1];
      Survivors(fights[..|fights| - 1], minDuration, minSnapshots)
      + (if Keep(last, minDuration, minSnapshots) then [last] else [])
  }

  /** What `split_fights` returns. */
  function SplitFightsSpec(snaps: seq<Snapshot>, gap: real, minDuration: real, minSnapshots: int): seq<Fight> {
    SortBy(Survivors(AllFights(snaps, Keys(snaps), gap), minDuration, minSnapshots), StartKey)
  }

  /** Every run of every listed target is among the fights: run `j` of key `i` is fight `m`. */
  lemma {:induction false} AllFightsComplete(snaps: seq<Snapshot>, keys: seq<Key>, gap: real, i: int, j: int)
    returns (m: int)
    requires 0 <= i < |keys| && 0 <= j < |Segments(SortBy(OfKey(snaps, keys[i]), SnapTime), gap)|
    ensures 0 <= m < |AllFights(snaps, keys, gap)|
    ensures AllFights(snaps, keys, gap)[m] == Fight(keys[i].0, keys[i].1, Segments(SortBy(OfKey(snaps, keys[i]), SnapTime), gap)[j])
    decreases |keys|
  {
    var n := |keys| - 1;
    if i == n {
      m := AllFightsLast(snaps, keys, gap, j);
    } else {
      var init := keys[..n];
      var prefix := AllFights(snaps, init, gap);
      assert AllFights(snaps, keys, gap)[..|prefix|] == prefix by {
        AllFightsStep(snaps, keys, n, gap);
        assert keys[..n + 1] == keys;
      }
      assert init[i] == keys[i];
      m := AllFightsComplete(snaps, init, gap, i, j);
      assert AllFights(snaps, keys, gap)[..|prefix|][m] == AllFights(snaps, keys, gap)[m];
    }
  }

  /** Run `j` of the last key is fight `m`, after the fights of the keys before it. */
  lemma {:induction false} AllFightsLast(snaps: seq<Snapshot>, keys: seq<Key>, gap: real, j: int)
    returns (m: int)
    requires keys != [] && 0 <= j < |Segments(SortBy(OfKey(snaps, keys[|keys| - 1]), SnapTime), gap)|
    ensures 0 <= m < |AllFights(snaps, keys, gap)|
    ensures AllFights(snaps, keys, gap)[m]
            == Fight(keys[|keys| - 1].0, keys[|keys| - 1].1, Segments(SortBy(OfKey(snaps, keys[|keys| - 1]), SnapTime), gap)[j])
  {
    var k := keys[|keys| - 1];
    var segs := Segments(SortBy(OfKey(snaps, k), SnapTime), gap);
    var prefix := AllFights(snaps, keys[..|keys| - 1], gap);
    assert AllFights(snaps, keys, gap) == prefix + Wrap(k, segs);
    m := PlaceAfter(prefix, Wrap(k, segs), j);
  }

  /** Element `j` of `b` is element `|a| + j` of `a + b`. */
  lemma {:induction false} PlaceAfter<T>(a: seq<T>, b: seq<T>, j: int) returns (m: int)
    requires 0 <= j < |b|
    ensures m == |a| + j && m < |a + b| && (a + b)[m] == b[j]
  {
    m := |a| + j;
  }

  /** One more key adds the fights cut from that target's time-ordered snapshots. */
  lemma {:induction false} AllFightsStep(snaps: seq<Snapshot>, keys: seq<Key>, j: int, gap: real)
    requires 0 <= j < |keys|
    ensures AllFights(snaps, keys[..j + 1], gap)
            == AllFights(snaps, keys[..j], gap) + Wrap(keys[j], Segments(SortBy(OfKey(snaps, keys[j]), SnapTime), gap))
  {
    assert keys[..j + 1][..j] == keys[..j];
  }

  /** `split_fights` */
  method SplitFights(snaps: seq<Snapshot>, gap: real, minDuration: real, minSnapshots: int)
    returns (fights: seq<Fight>)
    ensures fights == SplitFightsSpec(snaps, gap, minDuration, minSnapshots)
  {
    var keys, byTarget := GroupByTarget(snaps);
    fights := [];
    for j := 0 to |keys|
      invariant fights == AllFights(snaps, keys[..j], gap)
    {
      AllFightsStep(snaps, keys, j, gap);
      var group := SortBy(byTarget[keys[j]], SnapTime);
      var pieces := SplitGroup(keys[j], group, gap);
      fights := fights + pieces;
    }
    assert keys[..|keys|] == keys;
    fights := Survivors(fights, minDuration, minSnapshots);
    fights := SortBy(fights, StartKey);
  }

  // ---------------------------------------------------------------------
  // What split_fights promises

  /** Where a fight of the result comes from: a kept run of one target's time-ordered snapshots. */
  lemma {:induction false} SplitFightsSource(snaps: seq<Snapshot>, gap: real, minDuration: real, minSnapshots: int, f: Fight)
    requires f in SplitFightsSpec(snaps, gap, minDuration, minSnapshots)
    ensures Keep(f, minDuration, minSnapshots)
    ensures f.snapshots in Segments(SortBy(OfKey(snaps, (f.targetGuid, f.targetName)), SnapTime), gap)
  {
    SortByMember(Survivors(AllFights(snaps, Keys(snaps), gap), minDuration, minSnapshots), StartKey, f);
  }

  /**
   * Nothing that meets both minimums is lost: every run of every target
   * that `Keep` accepts is among the fights `split_fights` returns.
   */
  lemma {:induction false} SplitFightsComplete(snaps: seq<Snapshot>, gap: real, minDuration: real, minSnapshots: int,
                                               k: Key, seg: seq<Snapshot>)
    requires k in Keys(snaps) && seg in Segments(SortBy(OfKey(snaps, k), SnapTime), gap)
    requires Keep(Fight(k.0, k.1, seg), minDuration, minSnapshots)
    ensures Fight(k.0, k.1, seg) in SplitFightsSpec(snaps, gap, minDuration, minSnapshots)
  {
    var all := AllFights(snaps, Keys(snaps), gap);
    var i :| 0 <= i < |Keys(snaps)| && Keys(snaps)[i] == k;
    var segs := Segments(SortBy(OfKey(snaps, k), SnapTime), gap);
    var j :| 0 <= j < |segs| && segs[j] == seg;
    var m := AllFightsComplete(snaps, Keys(snaps), gap, i, j);
    assert all[m] in all;
    SortByMember(Survivors(all, minDuration, minSnapshots), StartKey, Fight(k.0, k.1, seg));
  }

  /**
   * Each fight `split_fights` returns is a run of one target's snapshots:
   * non-empty, long enough, big enough, in time order, with no gap above
   * `gap` between consecutive snapshots, all taken from the input.
   */
  lemma {:induction false} SplitFightsFight(snaps: seq<Snapshot>, gap: real, minDuration: real, minSnapshots: int, f: Fight)
    requires f in SplitFightsSpec(snaps, gap, minDuration, minSnapshots)
    ensures |f.snapshots| > 0 && Duration(f) >= minDuration && |f.snapshots| >= minSnapshots
    ensures forall s :: s in f.snapshots ==> s in snaps && KeyOf(s) == (f.targetGuid, f.targetName)
    ensures forall i :: 0 < i < |f.snapshots| ==>
              0.0 <= f.snapshots[i].time - f.snapshots[i - 1].time <= gap
  {
    SplitFightsSource(snaps, gap, minDuration, minSnapshots, f);
    RunMembers(snaps, gap, (f.targetGuid, f.targetName), f.snapshots);
    RunOrdered(snaps, gap, (f.targetGuid, f.targetName), f.snapshots);
  }

  /** A run of one target's snapshots holds only that target's snapshots from the input. */
  lemma {:induction false} RunMembers(snaps: seq<Snapshot>, gap: real, k: Key, seg: seq<Snapshot>)
    requires seg in Segments(SortBy(OfKey(snaps, k), SnapTime), gap)
    ensures forall s :: s in seg ==> s in snaps && KeyOf(s) == k
  {
    var group := OfKey(snaps, k);
    var sorted := SortBy(group, SnapTime);
    var segs := Segments(sorted, gap);
    var j :| 0 <= j < |segs| && segs[j] == seg;
    forall s | s in seg ensures s in snaps && KeyOf(s) == k {
      SegmentMember(sorted, gap, j, s);
      SortByMember(group, SnapTime, s);
    }
  }

  /** A run of one target's snapshots is in time order, with no step longer than `gap`. */
  lemma {:induction false} RunOrdered(snaps: seq<Snapshot>, gap: real, k: Key, seg: seq<Snapshot>)
    requires seg in Segments(SortBy(OfKey(snaps, k), SnapTime), gap)
    ensures forall i :: 0 < i < |seg| ==> 0.0 <= seg[i].time - seg[i - 1].time <= gap
  {
    var sorted := SortBy(OfKey(snaps, k), SnapTime);
    SortByPermutes(OfKey(snaps, k), SnapTime);
    SortedAdjacent(sorted, SnapTime);
    SegmentsSorted(sorted, gap);
    SegmentsWithinGap(sorted, gap);
    assert WithinGap(seg, gap) && AdjacentSorted(seg, SnapTime);
  }

  /** `split_fights` returns its fights in order of start time. */
  lemma {:induction false} SplitFightsOrdered(snaps: seq<Snapshot>, gap: real, minDuration: real, minSnapshots: int)
    ensures forall i, j :: 0 <= i < j < |SplitFightsSpec(snaps, gap, minDuration, minSnapshots)| ==>
      var fights := SplitFightsSpec(snaps, gap, minDuration, minSnapshots);
      |fights[i].snapshots| > 0 && |fights[j].snapshots| > 0 && Start(fights[i]) <= Start(fights[j])
  {
    var fights := SplitFightsSpec(snaps, gap, minDuration, minSnapshots);
    SortByPermutes(Survivors(AllFights(snaps, Keys(snaps), gap), minDuration, minSnapshots), StartKey);
    forall i | 0 <= i < |fights| ensures |fights[i].snapshots| > 0 {
      SplitFightsSource(snaps, gap, minDuration, minSnapshots, fights[i]);
    }
  }
}

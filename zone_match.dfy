/**
 * Mapping a zone name to a raid: a table of `(raid, keyword)` pairs is tried
 * in list order and the first keyword contained in the lower-cased, stripped
 * zone name wins; a second table of legacy aliases is consulted only when no
 * keyword matches.  generate_threat_report.py and raid_log_filter.py each
 * have their own tables; both use this rule.
 */
module ZoneMatch {
  import opened Wrappers
  import opened Text

  /** `(raid name, keyword)` pairs, tried in order. */
  type Table = seq<(string, string)>

  /** Row `i` is the first row whose keyword occurs in `zone`. */
  ghost predicate FirstMatchAt(table: Table, zone: string, i: int) {
    && 0 <= i < |table|
    && Contains(zone, table[i].1)
    && forall j :: 0 <= j < i ==> !Contains(zone, table[j].1)
  }

  ghost predicate NoMatch(table: Table, zone: string) {
    forall j :: 0 <= j < |table| ==> !Contains(zone, table[j].1)
  }

  /** `for raid, keyword in table: if keyword in zone: return raid` */
  function FirstKeyword(table: Table, zone: string): Option<string> {
    if table == [] then None
    else if Contains(zone, table[0].1) then Some(table[0].0)
    else FirstKeyword(table[1..], zone)
  }

  /**
   * The loop returns the raid of the first row whose keyword occurs in the
   * zone, and nothing when no keyword occurs.  (Stated as a lemma rather
   * than as the function's contract, so that callers which only pass the
   * result along do not see these quantifiers over the long tables.)
   */
  lemma {:induction false} FirstKeywordRule(table: Table, zone: string)
    ensures FirstKeyword(table, zone).None? <==> NoMatch(table, zone)
    ensures FirstKeyword(table, zone).Some? ==>
      exists i :: FirstMatchAt(table, zone, i) && table[i].0 == FirstKeyword(table, zone).value
    decreases |table|
  {
    if table != [] {
      if Contains(zone, table[0].1) {
        assert FirstMatchAt(table, zone, 0);
      } else {
        FirstKeywordRule(table[1..], zone);
        var r := FirstKeyword(table[1..], zone);
        if NoMatch(table[1..], zone) {
          forall j | 0 <= j < |table| ensures !Contains(zone, table[j].1) {
            if j > 0 {
              assert table[j] == table[1..][j - 1];
            }
          }
        } else {
          assert !NoMatch(table, zone) by {
            var j :| 0 <= j < |table[1..]| && Contains(zone, table[1..][j].1);
            assert table[j + 1] == table[1..][j];
          }
        }
        if r.Some? {
          var i :| FirstMatchAt(table[1..], zone, i) && table[1..][i].0 == r.value;
          assert FirstMatchAt(table, zone, i + 1);
        }
      }
    }
  }

  /** The zone text the tables are matched against: `zone_name.strip().lower()`. */
  function Normalize(zoneName: string): string {
    Lower(Strip(zoneName))
  }

  /** Keywords first, in order; aliases only when no keyword matches. */
  function MatchZone(keywords: Table, aliases: Table, zoneName: string): Option<string> {
    var z := Normalize(zoneName);
    match FirstKeyword(keywords, z)
    case Some(raid) => Some(raid)
    case None => FirstKeyword(aliases, z)
  }

  /** What `MatchZone` returns: the first keyword row, else the first alias row, else nothing. */
  lemma {:induction false} MatchZoneRule(keywords: Table, aliases: Table, zoneName: string)
    ensures var z := Normalize(zoneName);
      && (MatchZone(keywords, aliases, zoneName).None? <==> NoMatch(keywords, z) && NoMatch(aliases, z))
      && (MatchZone(keywords, aliases, zoneName).Some? ==>
           (exists i :: FirstMatchAt(keywords, z, i) && keywords[i].0 == MatchZone(keywords, aliases, zoneName).value)
           || (NoMatch(keywords, z) && exists i :: FirstMatchAt(aliases, z, i) && aliases[i].0 == MatchZone(keywords, aliases, zoneName).value))
  {
    FirstKeywordRule(keywords, Normalize(zoneName));
    FirstKeywordRule(aliases, Normalize(zoneName));
  }

  /** No keyword occurs in the empty zone name. */
  lemma {:induction false} NoMatchInEmpty(table: Table)
    requires forall j :: 0 <= j < |table| ==> table[j].1 != []
    ensures NoMatch(table, [])
  {
  }
}

/**
 * The records the ranking passes around: a pilot's result in one race, the per-race
 * map from finishing position to result, the per-heat table of those maps, and the
 * leaderboard row that is either a real result or the placeholder for missing data.
 */
module Records {
  import opened Wrappers

  /** One pilot's result: identity, display name, chase-the-ace win and point counters. */
  datatype PilotRecord = PilotRecord(pilotId: int, callsign: string, win: int, points: int)

  /**
   * A leaderboard row. `Sentinel` is the placeholder `{pilot_id: 0, callsign: ''}` put in a
   * slot whose heat or position has no recorded result; it carries no counters.
   */
  datatype Row = Found(rec: PilotRecord) | Sentinel
  {
    function Id(): int
    {
      if Found? then rec.pilotId else 0
    }

    function Callsign(): string
    {
      if Found? then rec.callsign else ""
    }
  }

  /** One entry of a race map: a finishing position and the result recorded at it. */
  datatype Placing = Placing(position: int, result: PilotRecord)

  /**
   * The results of one race keyed by finishing position, in the order the keys were first
   * inserted (the iteration order of a Python dict).
   */
  type RaceMap = seq<Placing>

  /** The results of every heat, keyed by the heat's 1-based number. */
  type HeatResults = map<int, RaceMap>

  function Positions(m: RaceMap): (r: seq<int>)
    ensures |r| == |m|
    ensures forall i :: 0 <= i < |m| ==> r[i] == m[i].position
  {
    if |m| == 0 then [] else [m[0].position] + Positions(m[1..])
  }

  /** The results in key order, as `dict.values()` yields them. */
  function Values(m: RaceMap): (r: seq<PilotRecord>)
    ensures |r| == |m|
    ensures forall i :: 0 <= i < |m| ==> r[i] == m[i].result
  {
    if |m| == 0 then [] else [m[0].result] + Values(m[1..])
  }

  /** The result stored at position `k`, if any. */
  function Get(m: RaceMap, k: int): Option<PilotRecord>
  {
    if |m| == 0 then None
    else if m[0].position == k then Some(m[0].result)
    else Get(m[1..], k)
  }

  /**
   * Dict assignment `m[k] = v`: an existing key keeps its place and gets the new value;
   * a new key goes at the end.
   */
  function Put(m: RaceMap, k: int, v: PilotRecord): (r: RaceMap)
    ensures k in Positions(m) ==> Positions(r) == Positions(m)
    ensures k !in Positions(m) ==> r == m + [Placing(k, v)]
  {
    if |m| == 0 then [Placing(k, v)]
    else if m[0].position == k then [Placing(k, v)] + m[1..]
    else [m[0]] + Put(m[1..], k, v)
  }

  /** After `m[k] = v`, key `k` holds `v` and every other key holds what it held. */
  lemma {:induction false} GetPut(m: RaceMap, k: int, v: PilotRecord, k': int)
    ensures Get(Put(m, k, v), k') == if k' == k then Some(v) else Get(m, k')
  {
    if |m| > 0 && m[0].position != k {
      GetPut(m[1..], k, v, k');
      assert Put(m, k, v)[1..] == Put(m[1..], k, v);
    }
  }

  /** Every position occurs at most once, as in a dict. */
  predicate UniquePositions(m: RaceMap)
  {
    forall i, j :: 0 <= i < j < |m| ==> m[i].position != m[j].position
  }

  lemma {:induction false} PutUnique(m: RaceMap, k: int, v: PilotRecord)
    requires UniquePositions(m)
    ensures UniquePositions(Put(m, k, v))
  {
    var r := Put(m, k, v);
    if k in Positions(m) {
      assert forall i :: 0 <= i < |r| ==> r[i].position == Positions(r)[i];
    } else {
      forall i | 0 <= i < |m| ensures m[i].position != k {
        assert Positions(m)[i] == m[i].position;
      }
    }
  }

  /** An assignment adds at most one key. */
  lemma {:induction false} PutLength(m: RaceMap, k: int, v: PilotRecord)
    ensures |m| <= |Put(m, k, v)| <= |m| + 1
  {
    if k in Positions(m) {
      assert |Positions(Put(m, k, v))| == |Positions(m)|;
    }
  }

  /** The same keys in the same order, each holding the same pilot (the counters may differ). */
  predicate SameShape(m1: RaceMap, m2: RaceMap)
  {
    && |m1| == |m2|
    && forall i :: 0 <= i < |m1| ==> m1[i].position == m2[i].position && m1[i].result.pilotId == m2[i].result.pilotId
  }

  /** Assigning the same key to records of the same pilot keeps two maps of the same shape alike. */
  lemma {:induction false} PutShape(m1: RaceMap, m2: RaceMap, k: int, v1: PilotRecord, v2: PilotRecord)
    requires SameShape(m1, m2) && v1.pilotId == v2.pilotId
    ensures SameShape(Put(m1, k, v1), Put(m2, k, v2))
    decreases |m1|
  {
    if |m1| > 0 && m1[0].position != k {
      var t1, t2 := m1[1..], m2[1..];
      assert SameShape(t1, t2) by {
        forall i | 0 <= i < |t1| ensures t1[i] == m1[i + 1] && t2[i] == m2[i + 1] { }
      }
      PutShape(t1, t2, k, v1, v2);
      ConsShape(m1[0], m2[0], Put(t1, k, v1), Put(t2, k, v2));
    } else if |m1| > 0 {
      ConsShape(Placing(k, v1), Placing(k, v2), m1[1..], m2[1..]);
    }
  }

  /** Prefixing entries with the same position and pilot keeps two maps alike. */
  lemma {:induction false} ConsShape(p1: Placing, p2: Placing, t1: RaceMap, t2: RaceMap)
    requires p1.position == p2.position && p1.result.pilotId == p2.result.pilotId
    requires SameShape(t1, t2)
    ensures SameShape([p1] + t1, [p2] + t2)
  {
    var r1, r2 := [p1] + t1, [p2] + t2;
    forall i | 1 <= i < |r1| ensures r1[i] == t1[i - 1] && r2[i] == t2[i - 1] { }
  }

  /** With distinct keys, the lookup reads the one entry at that key. */
  lemma {:induction false} GetUnique(m: RaceMap, i: int)
    requires UniquePositions(m) && 0 <= i < |m|
    ensures Get(m, m[i].position) == Some(m[i].result)
    decreases i
  {
    if i > 0 {
      assert m[0].position != m[i].position;
      assert m[1..][i - 1] == m[i];
      assert UniquePositions(m[1..]) by {
        forall a, b | 0 <= a < b < |m[1..]| ensures m[1..][a].position != m[1..][b].position {
          assert m[1..][a] == m[a + 1] && m[1..][b] == m[b + 1];
        }
      }
      GetUnique(m[1..], i - 1);
    }
  }

  /**
   * `try_get_value(results, heat, position)`: the recorded result when both keys exist,
   * otherwise the sentinel. It never fails.
   */
  function TryGetValue(results: HeatResults, heat: int, position: int): Row
  {
    if heat in results then
      match Get(results[heat], position)
      case Some(rec) => Found(rec)
      case None => Sentinel
    else Sentinel
  }

  /** The lookup finds a position exactly when the race map has that key. */
  lemma {:induction false} GetFinds(m: RaceMap, k: int)
    ensures Get(m, k).Some? <==> k in Positions(m)
    ensures Get(m, k).Some? ==> exists i :: 0 <= i < |m| && m[i] == Placing(k, Get(m, k).value)
  {
    if |m| > 0 && m[0].position != k {
      GetFinds(m[1..], k);
      assert Positions(m) == [m[0].position] + Positions(m[1..]);
      if Get(m, k).Some? {
        var i :| 0 <= i < |m[1..]| && m[1..][i] == Placing(k, Get(m, k).value);
        assert m[i + 1] == m[1..][i];
      }
    }
  }

  /**
   * `try_get_value` returns the recorded result when the heat and the position both
   * exist, and the sentinel (pilot 0, empty callsign) otherwise; it is total.
   */
  lemma TryGetValueSpec(results: HeatResults, heat: int, position: int)
    ensures var r := TryGetValue(results, heat, position);
      && (r.Found? <==> heat in results && position in Positions(results[heat]))
      && (r.Found? ==> Get(results[heat], position) == Some(r.rec))
      && (r.Sentinel? ==> r.Id() == 0 && r.Callsign() == "")
  {
    if heat in results {
      GetFinds(results[heat], position);
    }
  }
}

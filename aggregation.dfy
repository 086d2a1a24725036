/**
 * How `rank` turns the races of a class into per-heat results: heats in ascending id
 * order numbered from 1, each race's primary leaderboard put into a position-keyed map,
 * chase-the-ace scoring for the heat named "Final", and the map of a heat replaced by
 * every later race of that heat.
 *
 * These are the specification functions; the loops of `FaiRank` are proved to compute them.
 */
module Aggregation {
  import opened Wrappers
  import opened StableSort
  import opened Records
  import opened TieBreak

  /**
   * One line of a race's primary leaderboard: the pilot and the position reached. A
   * position the host leaves empty (falsy) is 0.
   */
  datatype Entry = Entry(pilotId: int, position: int)

  /**
   * A heat of the class: its database id, whether it is named "Final", and its races in
   * the order the host lists them; a race whose results the host cannot give is `None`.
   */
  datatype Heat = Heat(id: int, isFinal: bool, races: seq<Option<seq<Entry>>>)

  /** The points added for a chase-the-ace race in which the pilot has no position. */
  const MissingPositionPoints := 4

  /** The number of places the chase-the-ace final is re-keyed to. */
  const FinalPlaces := 4

  /** Heats are processed in ascending id order. */
  function HeatKey(): Heat -> Key
  {
    (h: Heat) => Key(h.id, 0, 0)
  }

  function OrderHeats(heats: seq<Heat>): seq<Heat>
  {
    SortBy(heats, HeatKey())
  }

  /** Chase-the-ace applies to the heat named "Final" when the option is on. */
  predicate Chase(heat: Heat, cta: bool)
  {
    heat.isFinal && cta
  }

  /**
   * The record a scan over the heat's previous map leaves behind: the last one of pilot
   * `id`, since every match overwrites the counters.
   */
  function LastMatch(prev: seq<PilotRecord>, id: int): (r: Option<PilotRecord>)
    ensures r.Some? ==> r.value in prev && r.value.pilotId == id
    ensures r.Some? ==> exists i :: 0 <= i < |prev| && prev[i] == r.value && forall j :: i < j < |prev| ==> prev[j].pilotId != id
    ensures r.None? <==> forall i :: 0 <= i < |prev| ==> prev[i].pilotId != id
  {
    if |prev| == 0 then None
    else if prev[|prev| - 1].pilotId == id then Some(prev[|prev| - 1])
    else LastMatch(prev[..|prev| - 1], id)
  }

  /** Scanning one more record: it is the last match exactly when it is the pilot's. */
  lemma LastMatchStep(prev: seq<PilotRecord>, k: nat, id: int)
    requires k < |prev|
    ensures LastMatch(prev[..k + 1], id) == if prev[k].pilotId == id then Some(prev[k]) else LastMatch(prev[..k], id)
  {
    assert prev[..k + 1][..k] == prev[..k];
  }

  /**
   * Chase-the-ace counters for one race. A win counts one more than the previous count
   * and any other result resets it to 0; points add the position, or 4 when there is no
   * position. A pilot the heat has not seen yet starts from the race alone.
   */
  function ChaseRecord(id: int, callsign: string, position: int, prev: Option<PilotRecord>): (r: PilotRecord)
    ensures r.pilotId == id && r.callsign == callsign
    ensures position != 1 ==> r.win == 0
  {
    match prev
    case None => PilotRecord(id, callsign, if position == 1 then 1 else 0, position)
    case Some(r) =>
      PilotRecord(id, callsign, if position == 1 then r.win + 1 else 0,
                  r.points + (if position != 0 then position else MissingPositionPoints))
  }

  /** The record stored for one entry; `previous` is the heat's map before this race. */
  function NewRecord(e: Entry, callsign: string, chase: bool, previous: Option<RaceMap>): (r: PilotRecord)
    ensures r.pilotId == e.pilotId && r.callsign == callsign
    ensures !chase ==> r.win == 0 && r.points == 0
  {
    if !chase then PilotRecord(e.pilotId, callsign, 0, 0)
    else ChaseRecord(e.pilotId, callsign, e.position,
                     if previous.Some? then LastMatch(Values(previous.value), e.pilotId) else None)
  }

  /**
   * Each entry's record stored under the entry's position, entry by entry, so a later
   * entry at the same position replaces an earlier one; fails when the host knows no
   * pilot of that id.
   */
  function FoldEntries(acc: RaceMap, entries: seq<Entry>, chase: bool, previous: Option<RaceMap>,
                       pilots: map<int, string>): Option<RaceMap>
    decreases |entries|
  {
    if |entries| == 0 then Some(acc)
    else if entries[0].pilotId !in pilots then None
    else
      var e := entries[0];
      FoldEntries(Put(acc, e.position, NewRecord(e, pilots[e.pilotId], chase, previous)),
                  entries[1..], chase, previous, pilots)
  }

  /** Chase-the-ace order: two wins first, then fewer points, then better qualification. */
  function ChaseKey(q: seq<int>): PilotRecord -> Key
  {
    (r: PilotRecord) => Key(if r.win != 2 then 1 else 0, r.points, FirstIndex(q, r.pilotId))
  }

  predicate AllRanked(records: seq<PilotRecord>, q: seq<int>)
  {
    forall i :: 0 <= i < |records| ==> records[i].pilotId in q
  }

  /**
   * The chase-the-ace re-ordering of a final race: its results sorted by `ChaseKey` and
   * re-keyed to positions 1 to 4. Fails when a pilot is not in the qualification order
   * or when there are fewer than four results.
   */
  function ChaseRekey(rr: RaceMap, q: seq<int>): (r: Option<RaceMap>)
    ensures r.Some? <==> AllRanked(Values(rr), q) && |rr| >= FinalPlaces
    ensures r.Some? ==> Positions(r.value) == [1, 2, 3, 4]
  {
    var vals := Values(rr);
    if !AllRanked(vals, q) then None
    else
      var s := SortBy(vals, ChaseKey(q));
      if |s| < FinalPlaces then None
      else Some([Placing(1, s[0]), Placing(2, s[1]), Placing(3, s[2]), Placing(4, s[3])])
  }

  /**
   * The map one race leaves for its heat. A race without results leaves an empty map;
   * otherwise its entries are folded in, and a chase-the-ace race is re-keyed.
   */
  function ProcessRace(results: HeatResults, number: int, chase: bool, race: Option<seq<Entry>>,
                       pilots: map<int, string>, q: seq<int>): Option<RaceMap>
  {
    match race
    case None => Some([])
    case Some(entries) =>
      var previous := if number in results then Some(results[number]) else None;
      match FoldEntries([], entries, chase, previous, pilots)
      case None => None
      case Some(rr) => if chase then ChaseRekey(rr, q) else Some(rr)
  }

  /** The races of heat `number` in order, each one replacing the heat's map. */
  function FoldRaces(results: HeatResults, number: int, chase: bool, races: seq<Option<seq<Entry>>>,
                     pilots: map<int, string>, q: seq<int>): Option<HeatResults>
    decreases |races|
  {
    if |races| == 0 then Some(results)
    else
      match ProcessRace(results, number, chase, races[0], pilots, q)
      case None => None
      case Some(rr) => FoldRaces(results[number := rr], number, chase, races[1..], pilots, q)
  }

  /** The heats in order; `done` heats have been numbered so far. */
  function FoldHeats(results: HeatResults, done: nat, heats: seq<Heat>, cta: bool,
                     pilots: map<int, string>, q: seq<int>): Option<HeatResults>
    decreases |heats|
  {
    if |heats| == 0 then Some(results)
    else
      match FoldRaces(results, done + 1, Chase(heats[0], cta), heats[0].races, pilots, q)
      case None => None
      case Some(next) => FoldHeats(next, done + 1, heats[1..], cta, pilots, q)
  }

  /** The per-heat results of a class, or `None` when building them raises. */
  function Aggregate(heats: seq<Heat>, cta: bool, pilots: map<int, string>, q: seq<int>): Option<HeatResults>
  {
    FoldHeats(map[], 0, OrderHeats(heats), cta, pilots, q)
  }

  // ----- One race -----

  /** A race's entries fold without failing exactly when the host knows every pilot. */
  lemma {:induction false} FoldEntriesSucceeds(acc: RaceMap, entries: seq<Entry>, chase: bool,
                                               previous: Option<RaceMap>, pilots: map<int, string>)
    ensures FoldEntries(acc, entries, chase, previous, pilots).Some?
        <==> forall i :: 0 <= i < |entries| ==> entries[i].pilotId in pilots
    decreases |entries|
  {
    if |entries| > 0 && entries[0].pilotId in pilots {
      var e := entries[0];
      FoldEntriesSucceeds(Put(acc, e.position, NewRecord(e, pilots[e.pilotId], chase, previous)),
                          entries[1..], chase, previous, pilots);
      assert forall i :: 1 <= i < |entries| ==> entries[1..][i - 1] == entries[i];
    }
  }

  /** A race's map has at most one key per entry beyond those it started with. */
  lemma {:induction false} FoldEntriesLength(acc: RaceMap, entries: seq<Entry>, chase: bool,
                                             previous: Option<RaceMap>, pilots: map<int, string>)
    requires FoldEntries(acc, entries, chase, previous, pilots).Some?
    ensures |FoldEntries(acc, entries, chase, previous, pilots).value| <= |acc| + |entries|
    decreases |entries|
  {
    if |entries| > 0 {
      var e := entries[0];
      var v := NewRecord(e, pilots[e.pilotId], chase, previous);
      PutLength(acc, e.position, v);
      FoldEntriesLength(Put(acc, e.position, v), entries[1..], chase, previous, pilots);
    }
  }

  /**
   * The keys of a race's map and the pilot at each key do not depend on the previous
   * race: only the chase-the-ace counters do.
   */
  lemma {:induction false} FoldEntriesShape(acc1: RaceMap, acc2: RaceMap, entries: seq<Entry>, chase: bool,
                                            previous1: Option<RaceMap>, previous2: Option<RaceMap>,
                                            pilots: map<int, string>)
    requires SameShape(acc1, acc2)
    ensures var r1, r2 := FoldEntries(acc1, entries, chase, previous1, pilots), FoldEntries(acc2, entries, chase, previous2, pilots);
      r1.Some? == r2.Some? && (r1.Some? ==> SameShape(r1.value, r2.value))
    decreases |entries|
  {
    if |entries| > 0 && entries[0].pilotId in pilots {
      var e := entries[0];
      var v1, v2 := NewRecord(e, pilots[e.pilotId], chase, previous1), NewRecord(e, pilots[e.pilotId], chase, previous2);
      PutShape(acc1, acc2, e.position, v1, v2);
      FoldEntriesShape(Put(acc1, e.position, v1), Put(acc2, e.position, v2), entries[1..], chase, previous1, previous2, pilots);
    }
  }

  /** Maps of the same shape pass or fail the chase-the-ace re-keying alike. */
  lemma {:induction false} ChaseRekeyShape(rr1: RaceMap, rr2: RaceMap, q: seq<int>)
    requires SameShape(rr1, rr2)
    ensures ChaseRekey(rr1, q).Some? == ChaseRekey(rr2, q).Some?
  {
    assert AllRanked(Values(rr1), q) == AllRanked(Values(rr2), q) by {
      assert forall i :: 0 <= i < |rr1| ==> Values(rr1)[i].pilotId == Values(rr2)[i].pilotId;
    }
  }

  /**
   * Whether a race fails does not depend on the heat table it is folded into nor on the
   * heat's number: the previous race only feeds the chase-the-ace counters.
   */
  lemma {:induction false} ProcessRaceSucceeds(results1: HeatResults, number1: int, results2: HeatResults, number2: int,
                                               chase: bool, race: Option<seq<Entry>>, pilots: map<int, string>, q: seq<int>)
    ensures ProcessRace(results1, number1, chase, race, pilots, q).Some?
         == ProcessRace(results2, number2, chase, race, pilots, q).Some?
  {
    if race.Some? {
      var previous1 := if number1 in results1 then Some(results1[number1]) else None;
      var previous2 := if number2 in results2 then Some(results2[number2]) else None;
      FoldEntriesShape([], [], race.value, chase, previous1, previous2, pilots);
      var r1 := FoldEntries([], race.value, chase, previous1, pilots);
      var r2 := FoldEntries([], race.value, chase, previous2, pilots);
      if chase && r1.Some? {
        ChaseRekeyShape(r1.value, r2.value, q);
      }
    }
  }

  /** A race naming a pilot the host does not know fails. */
  lemma {:induction false} UnknownPilotFails(results: HeatResults, number: int, chase: bool, entries: seq<Entry>,
                                             pilots: map<int, string>, q: seq<int>, j: int)
    requires 0 <= j < |entries| && entries[j].pilotId !in pilots
    ensures ProcessRace(results, number, chase, Some(entries), pilots, q).None?
  {
    var previous := if number in results then Some(results[number]) else None;
    FoldEntriesSucceeds([], entries, chase, previous, pilots);
  }

  /** In chase-the-ace, a final race with fewer than four results fails. */
  lemma {:induction false} ShortFinalFails(results: HeatResults, number: int, entries: seq<Entry>,
                                           pilots: map<int, string>, q: seq<int>)
    requires |entries| < FinalPlaces
    ensures ProcessRace(results, number, true, Some(entries), pilots, q).None?
  {
    var previous := if number in results then Some(results[number]) else None;
    if FoldEntries([], entries, true, previous, pilots).Some? {
      FoldEntriesLength([], entries, true, previous, pilots);
    }
  }

  /** The last entry of a race at `position`, if any. */
  function LastAt(entries: seq<Entry>, position: int): (r: Option<Entry>)
    ensures r.Some? ==> r.value in entries && r.value.position == position
    ensures r.Some? ==> exists i :: 0 <= i < |entries| && entries[i] == r.value
                                   && forall j :: i < j < |entries| ==> entries[j].position != position
    ensures r.None? ==> forall i :: 0 <= i < |entries| ==> entries[i].position != position
  {
    if |entries| == 0 then None
    else
      match LastAt(entries[1..], position)
      case Some(e) => Some(e)
      case None => if entries[0].position == position then Some(entries[0]) else None
  }

  /** Folding entries into a map with distinct keys leaves distinct keys, as a dict does. */
  lemma {:induction false} FoldEntriesUnique(acc: RaceMap, entries: seq<Entry>, chase: bool,
                                             previous: Option<RaceMap>, pilots: map<int, string>)
    requires UniquePositions(acc)
    ensures var r := FoldEntries(acc, entries, chase, previous, pilots); r.Some? ==> UniquePositions(r.value)
    decreases |entries|
  {
    if |entries| > 0 && entries[0].pilotId in pilots {
      var e := entries[0];
      var acc' := Put(acc, e.position, NewRecord(e, pilots[e.pilotId], chase, previous));
      PutUnique(acc, e.position, NewRecord(e, pilots[e.pilotId], chase, previous));
      FoldEntriesUnique(acc', entries[1..], chase, previous, pilots);
    }
  }

  /**
   * Every map a race leaves has distinct keys, so a lookup by position reads the one
   * entry at that position (`Records.GetUnique`).
   */
  lemma {:induction false} ProcessRaceUnique(results: HeatResults, number: int, chase: bool,
                                             race: Option<seq<Entry>>, pilots: map<int, string>, q: seq<int>)
    ensures var r := ProcessRace(results, number, chase, race, pilots, q); r.Some? ==> UniquePositions(r.value)
  {
    if race.Some? {
      var previous := if number in results then Some(results[number]) else None;
      FoldEntriesUnique([], race.value, chase, previous, pilots);
      var rr := FoldEntries([], race.value, chase, previous, pilots);
      if chase && rr.Some? {
        var r := ChaseRekey(rr.value, q);
        if r.Some? {
          assert forall i :: 0 <= i < |r.value| ==> r.value[i].position == Positions(r.value)[i];
        }
      }
    }
  }

  /** Over a heat's races, every map the heat table holds keeps distinct keys. */
  lemma {:induction false} FoldRacesUnique(results: HeatResults, number: int, chase: bool,
                                           races: seq<Option<seq<Entry>>>, pilots: map<int, string>, q: seq<int>)
    requires forall h :: h in results ==> UniquePositions(results[h])
    ensures var r := FoldRaces(results, number, chase, races, pilots, q);
      r.Some? ==> forall h :: h in r.value ==> UniquePositions(r.value[h])
    decreases |races|
  {
    if |races| > 0 {
      ProcessRaceUnique(results, number, chase, races[0], pilots, q);
      var rr := ProcessRace(results, number, chase, races[0], pilots, q);
      if rr.Some? {
        FoldRacesUnique(results[number := rr.value], number, chase, races[1..], pilots, q);
      }
    }
  }

  /** A heat's races fold without failing exactly when each race, taken on its own, succeeds. */
  lemma {:induction false} FoldRacesSucceeds(results: HeatResults, number: int, chase: bool,
                                             races: seq<Option<seq<Entry>>>, pilots: map<int, string>, q: seq<int>)
    ensures FoldRaces(results, number, chase, races, pilots, q).Some?
        <==> forall k :: 0 <= k < |races| ==> ProcessRace(map[], number, chase, races[k], pilots, q).Some?
    decreases |races|
  {
    if |races| > 0 {
      ProcessRaceSucceeds(results, number, map[], number, chase, races[0], pilots, q);
      var rr := ProcessRace(results, number, chase, races[0], pilots, q);
      if rr.Some? {
        FoldRacesSucceeds(results[number := rr.value], number, chase, races[1..], pilots, q);
        assert forall k :: 1 <= k < |races| ==> races[1..][k - 1] == races[k];
      }
    }
  }

  /**
   * In chase-the-ace, a race fails when a pilot outside the qualification order holds a
   * position no later entry takes over.
   */
  lemma {:induction false} UnrankedPilotFails(results: HeatResults, number: int, entries: seq<Entry>,
                                              pilots: map<int, string>, q: seq<int>, j: int)
    requires 0 <= j < |entries| && entries[j].pilotId !in q
    requires forall i :: j < i < |entries| ==> entries[i].position != entries[j].position
    ensures ProcessRace(results, number, true, Some(entries), pilots, q).None?
  {
    var previous := if number in results then Some(results[number]) else None;
    var e := entries[j];
    var r := FoldEntries([], entries, true, previous, pilots);
    if r.Some? {
      var last := LastAt(entries, e.position);
      assert last == Some(e) by {
        var i :| 0 <= i < |entries| && entries[i] == last.value
                 && forall i' :: i < i' < |entries| ==> entries[i'].position != e.position;
        assert i == j;
      }
      FoldEntriesGet([], entries, true, previous, pilots, e.position);
      GetFinds(r.value, e.position);
      var i :| 0 <= i < |r.value| && r.value[i] == Placing(e.position, Get(r.value, e.position).value);
      assert Values(r.value)[i].pilotId == e.pilotId;
    }
  }

  /**
   * After a race, each position holds the record built from the LAST entry at that
   * position: a later result with the same position overwrites an earlier one.
   */
  lemma {:induction false} FoldEntriesGet(acc: RaceMap, entries: seq<Entry>, chase: bool,
                                          previous: Option<RaceMap>, pilots: map<int, string>, position: int)
    requires FoldEntries(acc, entries, chase, previous, pilots).Some?
    ensures var rr := FoldEntries(acc, entries, chase, previous, pilots).value;
      match LastAt(entries, position)
      case None => Get(rr, position) == Get(acc, position)
      case Some(e) => e.pilotId in pilots && Get(rr, position) == Some(NewRecord(e, pilots[e.pilotId], chase, previous))
    decreases |entries|
  {
    if |entries| > 0 {
      var e := entries[0];
      var acc' := Put(acc, e.position, NewRecord(e, pilots[e.pilotId], chase, previous));
      FoldEntriesGet(acc', entries[1..], chase, previous, pilots, position);
      GetPut(acc, e.position, NewRecord(e, pilots[e.pilotId], chase, previous), position);
    }
  }

  /** Outside chase-the-ace the heat's previous map plays no part in a race's records. */
  lemma {:induction false} FoldEntriesPlain(acc: RaceMap, entries: seq<Entry>, p1: Option<RaceMap>,
                                            p2: Option<RaceMap>, pilots: map<int, string>)
    ensures FoldEntries(acc, entries, false, p1, pilots) == FoldEntries(acc, entries, false, p2, pilots)
    decreases |entries|
  {
    if |entries| > 0 && entries[0].pilotId in pilots {
      var e := entries[0];
      FoldEntriesPlain(Put(acc, e.position, NewRecord(e, pilots[e.pilotId], false, p1)), entries[1..], p1, p2, pilots);
    }
  }

  /** Outside chase-the-ace a race's map depends on that race alone. */
  lemma ProcessRacePlain(r1: HeatResults, n1: int, r2: HeatResults, n2: int, race: Option<seq<Entry>>,
                         pilots: map<int, string>, q: seq<int>)
    ensures ProcessRace(r1, n1, false, race, pilots, q) == ProcessRace(r2, n2, false, race, pilots, q)
  {
    if race.Some? {
      FoldEntriesPlain([], race.value, if n1 in r1 then Some(r1[n1]) else None,
                       if n2 in r2 then Some(r2[n2]) else None, pilots);
    }
  }

  // ----- Chase-the-ace -----

  /** A successful re-keying keeps the first four results of the chase-the-ace order, all from the race. */
  lemma {:induction false} ChaseRekeyTop(rr: RaceMap, q: seq<int>)
    requires ChaseRekey(rr, q).Some?
    ensures Values(ChaseRekey(rr, q).value) == SortBy(Values(rr), ChaseKey(q))[..FinalPlaces]
    ensures multiset(Values(ChaseRekey(rr, q).value)) <= multiset(Values(rr))
  {
    var sorted := SortBy(Values(rr), ChaseKey(q));
    var out := Values(ChaseRekey(rr, q).value);
    assert out == sorted[..FinalPlaces];
    SortByPermutation(Values(rr), ChaseKey(q));
    assert sorted == out + sorted[FinalPlaces..];
  }

  /**
   * The four re-keyed results are in chase-the-ace order: a pilot with exactly two wins
   * comes before any other, and among equal win counts fewer points come first.
   */
  lemma {:induction false} ChaseRekeyOrder(rr: RaceMap, q: seq<int>)
    requires ChaseRekey(rr, q).Some?
    ensures SortedBy(Values(ChaseRekey(rr, q).value), ChaseKey(q))
    ensures var out := Values(ChaseRekey(rr, q).value);
      forall i, j :: 0 <= i < j < |out| && out[j].win == 2 ==> out[i].win == 2
    ensures var out := Values(ChaseRekey(rr, q).value);
      forall i, j :: 0 <= i < j < |out| && out[i].win == out[j].win ==> out[i].points <= out[j].points
  {
    var key := ChaseKey(q);
    var out := Values(ChaseRekey(rr, q).value);
    ChaseRekeyTop(rr, q);
    SortBySorted(Values(rr), key);
    SortedPrefix(SortBy(Values(rr), key), key, FinalPlaces);
    forall i, j | 0 <= i < j < |out|
      ensures (out[j].win == 2 ==> out[i].win == 2) && (out[i].win == out[j].win ==> out[i].points <= out[j].points)
    {
      ChaseKeyLe(out[i], out[j], q);
    }
  }

  /** Two records in chase-the-ace order: two wins come first, then fewer points. */
  lemma ChaseKeyLe(a: PilotRecord, b: PilotRecord, q: seq<int>)
    requires KeyLe(ChaseKey(q)(a), ChaseKey(q)(b))
    ensures b.win == 2 ==> a.win == 2
    ensures a.win == b.win ==> a.points <= b.points
  {
  }

  /**
   * The counters `ChaseRecord` builds race after race from a pilot's positions, each race
   * starting from the record of the one before. `ChaseAccumulates` shows when a final's
   * heat map holds exactly this record: when every race keeps the pilot among the four.
   */
  function Accumulated(id: int, callsign: string, positions: seq<int>): PilotRecord
    requires |positions| > 0
  {
    if |positions| == 1 then ChaseRecord(id, callsign, positions[0], None)
    else ChaseRecord(id, callsign, positions[|positions| - 1],
                     Some(Accumulated(id, callsign, positions[..|positions| - 1])))
  }

  /** The number of races, counted back from the last one, that the pilot won in a row. */
  function TrailingWins(positions: seq<int>): nat
  {
    if |positions| == 0 || positions[|positions| - 1] != 1 then 0
    else 1 + TrailingWins(positions[..|positions| - 1])
  }

  /** The points of a sequence of races: the position, or 4 for a race without one. */
  function PenaltyPoints(positions: seq<int>): int
  {
    if |positions| == 0 then 0
    else
      var last := positions[|positions| - 1];
      PenaltyPoints(positions[..|positions| - 1]) + (if last != 0 then last else MissingPositionPoints)
  }

  /**
   * Chained over a run of positions, the win counter is the number of consecutive wins
   * ending with the last race, and the points are the first position plus, for each later
   * race, its position or 4 when there is none.
   */
  lemma {:induction false} AccumulatedClosedForm(id: int, callsign: string, positions: seq<int>)
    requires |positions| > 0
    ensures Accumulated(id, callsign, positions).win == TrailingWins(positions)
    ensures Accumulated(id, callsign, positions).points == positions[0] + PenaltyPoints(positions[1..])
  {
    if |positions| == 1 {
      assert positions[1..] == [];
      assert positions[..0] == [];
    } else {
      var init := positions[..|positions| - 1];
      AccumulatedClosedForm(id, callsign, init);
      assert init[0] == positions[0];
      assert positions[1..][..|positions[1..]| - 1] == init[1..];
    }
  }

  /** Second then first: one win and 2 + 1 = 3 points; a race with no position adds 4. */
  lemma ChaseScenario()
    ensures Accumulated(7, "A", [2, 1]).win == 1 && Accumulated(7, "A", [2, 1]).points == 3
    ensures Accumulated(7, "A", [1, 1]).win == 2
    ensures Accumulated(7, "A", [2, 0]).win == 0 && Accumulated(7, "A", [2, 0]).points == 6
  {
    assert [2, 1][..1] == [2];
    assert [1, 1][..1] == [1];
    assert [2, 0][..1] == [2];
  }

  // ----- One heat -----

  /** A heat's races touch only the heat's own number. */
  lemma {:induction false} FoldRacesFrame(results: HeatResults, number: int, chase: bool,
                                          races: seq<Option<seq<Entry>>>, pilots: map<int, string>, q: seq<int>)
    requires FoldRaces(results, number, chase, races, pilots, q).Some?
    ensures var res := FoldRaces(results, number, chase, races, pilots, q).value;
      && (forall k :: k != number ==> (k in res <==> k in results))
      && (forall k :: k != number && k in results ==> res[k] == results[k])
      && (number in res <==> number in results || |races| > 0)
    decreases |races|
  {
    if |races| > 0 {
      var rr := ProcessRace(results, number, chase, races[0], pilots, q).value;
      FoldRacesFrame(results[number := rr], number, chase, races[1..], pilots, q);
    }
  }

  /** Two tables that agree on heat `number` give the same outcome for that heat. */
  lemma {:induction false} FoldRacesLocal(r1: HeatResults, r2: HeatResults, number: int, chase: bool,
                                          races: seq<Option<seq<Entry>>>, pilots: map<int, string>, q: seq<int>)
    requires number in r1 <==> number in r2
    requires number in r1 ==> r1[number] == r2[number]
    ensures FoldRaces(r1, number, chase, races, pilots, q).Some? <==> FoldRaces(r2, number, chase, races, pilots, q).Some?
    ensures FoldRaces(r1, number, chase, races, pilots, q).Some? ==>
      var res1, res2 := FoldRaces(r1, number, chase, races, pilots, q).value, FoldRaces(r2, number, chase, races, pilots, q).value;
      (number in res1 <==> number in res2) && (number in res1 ==> res1[number] == res2[number])
    decreases |races|
  {
    if |races| > 0 {
      var p1 := ProcessRace(r1, number, chase, races[0], pilots, q);
      assert p1 == ProcessRace(r2, number, chase, races[0], pilots, q);
      if p1.Some? {
        FoldRacesLocal(r1[number := p1.value], r2[number := p1.value], number, chase, races[1..], pilots, q);
      }
    }
  }

  /**
   * Last race wins: outside chase-the-ace the heat's map after all its races is the map
   * of its last race alone; earlier races are not merged in.
   */
  lemma {:induction false} LastRaceWins(results: HeatResults, number: int, races: seq<Option<seq<Entry>>>,
                                        pilots: map<int, string>, q: seq<int>)
    requires |races| > 0
    requires FoldRaces(results, number, false, races, pilots, q).Some?
    ensures var res := FoldRaces(results, number, false, races, pilots, q).value;
      number in res && Some(res[number]) == ProcessRace(map[], number, false, races[|races| - 1], pilots, q)
    decreases |races|
  {
    var rr := ProcessRace(results, number, false, races[0], pilots, q).value;
    if |races| == 1 {
      ProcessRacePlain(results, number, map[], number, races[0], pilots, q);
      assert races[1..] == [];
    } else {
      LastRaceWins(results[number := rr], number, races[1..], pilots, q);
      assert races[1..][|races[1..]| - 1] == races[|races| - 1];
    }
  }

  // ----- Chase-the-ace across the races of the final -----

  /** The position of pilot `id` in a race's entries, or 0 when the pilot is not there. */
  function PositionOf(entries: seq<Entry>, id: int): int
  {
    if |entries| == 0 then 0
    else if entries[0].pilotId == id then entries[0].position
    else PositionOf(entries[1..], id)
  }

  lemma {:induction false} PositionOfAt(entries: seq<Entry>, id: int, i: nat)
    requires i < |entries| && entries[i].pilotId == id
    requires forall j, k :: 0 <= j < k < |entries| ==> entries[j].pilotId != entries[k].pilotId
    ensures PositionOf(entries, id) == entries[i].position
  {
    if i > 0 {
      assert entries[0].pilotId != id;
      PositionOfAt(entries[1..], id, i - 1);
    }
  }

  /** The pilot's position in each race of a heat, race by race. */
  function RacePositions(races: seq<Option<seq<Entry>>>, id: int): (r: seq<int>)
    ensures |r| == |races|
  {
    if |races| == 0 then []
    else [if races[0].Some? then PositionOf(races[0].value, id) else 0] + RacePositions(races[1..], id)
  }

  /**
   * A final race after which chase-the-ace keeps every pilot: exactly four entries, at
   * distinct positions, of distinct pilots the host knows and the qualification ranks.
   */
  predicate FullFinalRace(race: Option<seq<Entry>>, pilots: map<int, string>, q: seq<int>)
  {
    && race.Some?
    && |race.value| == FinalPlaces
    && (forall i, j :: 0 <= i < j < |race.value| ==>
          race.value[i].position != race.value[j].position && race.value[i].pilotId != race.value[j].pilotId)
    && (forall i :: 0 <= i < |race.value| ==> race.value[i].pilotId in pilots && race.value[i].pilotId in q)
  }

  /** Pilot `id` has an entry in the race. */
  predicate Rides(race: Option<seq<Entry>>, id: int)
  {
    race.Some? && exists i :: 0 <= i < |race.value| && race.value[i].pilotId == id
  }

  /** The record of pilot `id` the scan finds in heat `number`'s map, if any. */
  function RecordIn(results: HeatResults, number: int, id: int): Option<PilotRecord>
  {
    if number in results then LastMatch(Values(results[number]), id) else None
  }

  lemma AppendAssociates<T>(a: seq<T>, b: seq<T>, c: seq<T>)
    ensures a + b + c == a + (b + c)
  {
  }

  /** The placing each entry gives, in entry order. */
  function Placings(entries: seq<Entry>, chase: bool, previous: Option<RaceMap>, pilots: map<int, string>): (r: seq<Placing>)
    requires forall i :: 0 <= i < |entries| ==> entries[i].pilotId in pilots
    ensures |r| == |entries|
    decreases |entries|
  {
    if |entries| == 0 then []
    else
      [Placing(entries[0].position, NewRecord(entries[0], pilots[entries[0].pilotId], chase, previous))]
      + Placings(entries[1..], chase, previous, pilots)
  }

  /** The i-th placing is the i-th entry's position with the record built from that entry. */
  lemma {:induction false} PlacingsAt(entries: seq<Entry>, chase: bool, previous: Option<RaceMap>,
                                      pilots: map<int, string>, i: nat)
    requires forall k :: 0 <= k < |entries| ==> entries[k].pilotId in pilots
    requires i < |entries|
    ensures Placings(entries, chase, previous, pilots)[i]
            == Placing(entries[i].position, NewRecord(entries[i], pilots[entries[i].pilotId], chase, previous))
    decreases i
  {
    if i > 0 {
      assert entries[1..][i - 1] == entries[i];
      PlacingsAt(entries[1..], chase, previous, pilots, i - 1);
    }
  }

  /** Entries at positions not yet used are appended to the race map, one placing each. */
  lemma {:induction false} FoldEntriesAppend(acc: RaceMap, entries: seq<Entry>, chase: bool,
                                             previous: Option<RaceMap>, pilots: map<int, string>)
    requires forall i :: 0 <= i < |entries| ==> entries[i].pilotId in pilots && entries[i].position !in Positions(acc)
    requires forall i, j :: 0 <= i < j < |entries| ==> entries[i].position != entries[j].position
    ensures FoldEntries(acc, entries, chase, previous, pilots) == Some(acc + Placings(entries, chase, previous, pilots))
    decreases |entries|
  {
    if |entries| > 0 {
      var e := entries[0];
      var placing := Placing(e.position, NewRecord(e, pilots[e.pilotId], chase, previous));
      var acc' := Put(acc, e.position, placing.result);
      assert acc' == acc + [placing];
      assert forall i :: 0 <= i < |entries[1..]| ==>
               entries[1..][i].pilotId in pilots && entries[1..][i].position !in Positions(acc') by {
        assert Positions(acc') == Positions(acc) + [e.position];
        forall i | 0 <= i < |entries[1..]|
          ensures entries[1..][i].pilotId in pilots && entries[1..][i].position !in Positions(acc')
        {
          assert entries[1..][i] == entries[i + 1];
        }
      }
      FoldEntriesAppend(acc', entries[1..], chase, previous, pilots);
      var rest := Placings(entries[1..], chase, previous, pilots);
      assert FoldEntries(acc, entries, chase, previous, pilots) == FoldEntries(acc', entries[1..], chase, previous, pilots);
      assert Placings(entries, chase, previous, pilots) == [placing] + rest;
      AppendAssociates(acc, [placing], rest);
    } else {
      assert acc + [] == acc;
    }
  }

  /** A race map of exactly four ranked results is re-keyed to a reordering of all four. */
  lemma {:induction false} ChaseRekeyKeepsAll(rr: RaceMap, q: seq<int>)
    requires AllRanked(Values(rr), q) && |rr| == FinalPlaces
    ensures ChaseRekey(rr, q).Some?
    ensures multiset(Values(ChaseRekey(rr, q).value)) == multiset(Values(rr))
  {
    ChaseRekeyTop(rr, q);
    SortByPermutation(Values(rr), ChaseKey(q));
    WholePrefix(SortBy(Values(rr), ChaseKey(q)), FinalPlaces);
  }

  /** Entries at distinct positions give one record each, in entry order. */
  lemma {:induction false} FoldEntriesRecords(entries: seq<Entry>, chase: bool, previous: Option<RaceMap>, pilots: map<int, string>)
    requires forall i :: 0 <= i < |entries| ==> entries[i].pilotId in pilots
    requires forall i, j :: 0 <= i < j < |entries| ==> entries[i].position != entries[j].position
    ensures FoldEntries([], entries, chase, previous, pilots).Some?
    ensures var vals := Values(FoldEntries([], entries, chase, previous, pilots).value);
      && |vals| == |entries|
      && forall i :: 0 <= i < |entries| ==> vals[i] == NewRecord(entries[i], pilots[entries[i].pilotId], chase, previous)
  {
    FoldEntriesAppend([], entries, chase, previous, pilots);
    var rr := Placings(entries, chase, previous, pilots);
    assert [] + rr == rr;
    forall i | 0 <= i < |entries| ensures Values(rr)[i] == NewRecord(entries[i], pilots[entries[i].pilotId], chase, previous) {
      PlacingsAt(entries, chase, previous, pilots, i);
    }
  }

  /** In a full final race every entry's record survives the re-keying, in some order. */
  lemma {:induction false} ChaseRaceRecords(previous: Option<RaceMap>, entries: seq<Entry>, pilots: map<int, string>, q: seq<int>)
    requires FullFinalRace(Some(entries), pilots, q)
    ensures var rr := FoldEntries([], entries, true, previous, pilots);
      && rr.Some?
      && |Values(rr.value)| == |entries|
      && (forall i :: 0 <= i < |entries| ==>
            Values(rr.value)[i] == NewRecord(entries[i], pilots[entries[i].pilotId], true, previous))
      && ChaseRekey(rr.value, q).Some?
      && multiset(Values(ChaseRekey(rr.value, q).value)) == multiset(Values(rr.value))
  {
    FoldEntriesRecords(entries, true, previous, pilots);
    var rr := FoldEntries([], entries, true, previous, pilots).value;
    ChaseRekeyKeepsAll(rr, q);
  }

  /** A record that is the only one of its pilot is what the scan finds, in any order. */
  lemma {:induction false} LastMatchUnique(out: seq<PilotRecord>, vals: seq<PilotRecord>, id: int, i0: nat)
    requires multiset(out) == multiset(vals)
    requires i0 < |vals| && vals[i0].pilotId == id
    requires forall j :: 0 <= j < |vals| && vals[j].pilotId == id ==> j == i0
    ensures LastMatch(out, id) == Some(vals[i0])
  {
    assert vals[i0] in multiset(out);
    var found := LastMatch(out, id);
    assert found.value in multiset(vals);
    var k :| 0 <= k < |vals| && vals[k] == found.value;
  }

  /** In chase-the-ace an entry's record chains on the pilot's record in the heat so far. */
  lemma NewRecordInHeat(e: Entry, callsign: string, results: HeatResults, number: int)
    ensures NewRecord(e, callsign, true, if number in results then Some(results[number]) else None)
            == ChaseRecord(e.pilotId, callsign, e.position, RecordIn(results, number, e.pilotId))
  {
  }

  /** Records that follow entries with distinct pilots have one record per pilot. */
  lemma {:induction false} OnlyRecordOf(vals: seq<PilotRecord>, entries: seq<Entry>, i0: nat)
    requires |vals| == |entries| && i0 < |entries|
    requires forall i :: 0 <= i < |vals| ==> vals[i].pilotId == entries[i].pilotId
    requires forall i, j :: 0 <= i < j < |entries| ==> entries[i].pilotId != entries[j].pilotId
    ensures forall j :: 0 <= j < |vals| && vals[j].pilotId == entries[i0].pilotId ==> j == i0
  {
    forall j | 0 <= j < |vals| && vals[j].pilotId == entries[i0].pilotId ensures j == i0 {
      assert entries[j].pilotId == entries[i0].pilotId;
    }
  }

  /** Through the re-keying of a full final race, each pilot keeps the record its entry built. */
  lemma {:induction false} ChaseRekeyRecord(previous: Option<RaceMap>, entries: seq<Entry>, pilots: map<int, string>,
                                            q: seq<int>, i0: nat)
    requires FullFinalRace(Some(entries), pilots, q) && i0 < |entries|
    ensures entries[i0].pilotId in pilots
    ensures var rr := FoldEntries([], entries, true, previous, pilots);
      && rr.Some?
      && ChaseRekey(rr.value, q).Some?
      && LastMatch(Values(ChaseRekey(rr.value, q).value), entries[i0].pilotId)
         == Some(NewRecord(entries[i0], pilots[entries[i0].pilotId], true, previous))
  {
    ChaseRaceRecords(previous, entries, pilots, q);
    var vals := Values(FoldEntries([], entries, true, previous, pilots).value);
    assert forall i :: 0 <= i < |vals| ==> vals[i].pilotId == entries[i].pilotId by {
      forall i | 0 <= i < |vals| ensures vals[i].pilotId == entries[i].pilotId {
        assert vals[i] == NewRecord(entries[i], pilots[entries[i].pilotId], true, previous);
      }
    }
    OnlyRecordOf(vals, entries, i0);
    LastMatchUnique(Values(ChaseRekey(FoldEntries([], entries, true, previous, pilots).value, q).value), vals,
                    entries[i0].pilotId, i0);
  }

  /**
   * In a full final race the pilot keeps one record through the re-keying, built by
   * `ChaseRecord` from the pilot's position and the record the heat held before.
   */
  lemma {:induction false} ChaseRaceKeeps(results: HeatResults, number: int, race: Option<seq<Entry>>, pilots: map<int, string>,
                       q: seq<int>, id: int)
    requires FullFinalRace(race, pilots, q) && Rides(race, id)
    ensures id in pilots
    ensures var rr := ProcessRace(results, number, true, race, pilots, q);
      && rr.Some?
      && LastMatch(Values(rr.value), id)
         == Some(ChaseRecord(id, pilots[id], PositionOf(race.value, id), RecordIn(results, number, id)))
  {
    var entries := race.value;
    var i0 :| 0 <= i0 < |entries| && entries[i0].pilotId == id;
    var previous := if number in results then Some(results[number]) else None;
    ChaseRekeyRecord(previous, entries, pilots, q, i0);
    var out := ChaseRekey(FoldEntries([], entries, true, previous, pilots).value, q).value;
    assert ProcessRace(results, number, true, race, pilots, q) == Some(out);
    PositionOfAt(entries, id, i0);
    NewRecordInHeat(entries[i0], pilots[id], results, number);
  }

  /** The pilot's record after a run of positions: none before the first race. */
  function History(id: int, callsign: string, positions: seq<int>): Option<PilotRecord>
  {
    if |positions| == 0 then None else Some(Accumulated(id, callsign, positions))
  }

  /** One full final race extends the pilot's chained record by the race's position. */
  lemma {:induction false} ChaseStep(results: HeatResults, number: int, race: Option<seq<Entry>>,
                                     pilots: map<int, string>, q: seq<int>, id: int, history: seq<int>)
    requires FullFinalRace(race, pilots, q) && Rides(race, id)
    requires id in pilots && RecordIn(results, number, id) == History(id, pilots[id], history)
    ensures var rr := ProcessRace(results, number, true, race, pilots, q);
      && rr.Some?
      && RecordIn(results[number := rr.value], number, id)
         == History(id, pilots[id], history + [PositionOf(race.value, id)])
  {
    ChaseRaceKeeps(results, number, race, pilots, q, id);
    var h := history + [PositionOf(race.value, id)];
    assert h[..|h| - 1] == history;
  }

  /** Appending the first race's position to the history, then the rest's, is appending all. */
  lemma {:induction false} RacePositionsCons(history: seq<int>, races: seq<Option<seq<Entry>>>, id: int)
    requires |races| > 0 && races[0].Some?
    ensures history + [PositionOf(races[0].value, id)] + RacePositions(races[1..], id)
            == history + RacePositions(races, id)
  {
    var p := [PositionOf(races[0].value, id)];
    var rest := RacePositions(races[1..], id);
    assert RacePositions(races, id) == p + rest;
    assert history + p + rest == history + (p + rest);
  }

  /**
   * Over full final races in which the pilot rides, the heat's map holds the pilot's
   * record chained by `Accumulated` over the positions so far.
   */
  lemma {:induction false} ChaseFold(results: HeatResults, number: int, races: seq<Option<seq<Entry>>>,
                                     pilots: map<int, string>, q: seq<int>, id: int, history: seq<int>)
    requires id in pilots
    requires forall k :: 0 <= k < |races| ==> FullFinalRace(races[k], pilots, q) && Rides(races[k], id)
    requires RecordIn(results, number, id) == History(id, pilots[id], history)
    ensures var res := FoldRaces(results, number, true, races, pilots, q);
      res.Some? && RecordIn(res.value, number, id) == History(id, pilots[id], history + RacePositions(races, id))
    decreases |races|
  {
    if |races| == 0 {
      assert history + RacePositions(races, id) == history;
    } else {
      ChaseStep(results, number, races[0], pilots, q, id, history);
      var rr := ProcessRace(results, number, true, races[0], pilots, q).value;
      var h := history + [PositionOf(races[0].value, id)];
      assert forall k :: 0 <= k < |races[1..]| ==> FullFinalRace(races[1..][k], pilots, q) && Rides(races[1..][k], id) by {
        forall k | 0 <= k < |races[1..]| ensures FullFinalRace(races[1..][k], pilots, q) && Rides(races[1..][k], id) {
          assert races[1..][k] == races[k + 1];
        }
      }
      ChaseFold(results[number := rr], number, races[1..], pilots, q, id, h);
      RacePositionsCons(history, races, id);
    }
  }

  /**
   * Chase-the-ace accumulation in a final heat: when every race has the same pilot among
   * exactly four entries at distinct positions (so the re-keying keeps everyone), the
   * heat's map ends with that pilot's record accumulated over all the races.
   */
  lemma {:induction false} ChaseAccumulates(number: int, races: seq<Option<seq<Entry>>>, pilots: map<int, string>, q: seq<int>, id: int)
    requires |races| > 0
    requires forall k :: 0 <= k < |races| ==> FullFinalRace(races[k], pilots, q) && Rides(races[k], id)
    ensures id in pilots
    ensures var res := FoldRaces(map[], number, true, races, pilots, q);
      && res.Some?
      && number in res.value
      && LastMatch(Values(res.value[number]), id) == Some(Accumulated(id, pilots[id], RacePositions(races, id)))
  {
    assert FullFinalRace(races[0], pilots, q) && Rides(races[0], id);
    var i0 :| 0 <= i0 < |races[0].value| && races[0].value[i0].pilotId == id;
    ChaseFold(map[], number, races, pilots, q, id, []);
    assert [] + RacePositions(races, id) == RacePositions(races, id);
  }

  /**
   * Under the same condition, the pilot's win counter after the final is the number of
   * races won in a row up to the last one, and the points are the first position plus,
   * for each later race, its position or 4 when there is none.
   */
  lemma {:induction false} ChaseFinalCounters(number: int, races: seq<Option<seq<Entry>>>, pilots: map<int, string>, q: seq<int>, id: int)
    requires |races| > 0
    requires forall k :: 0 <= k < |races| ==> FullFinalRace(races[k], pilots, q) && Rides(races[k], id)
    ensures var res := FoldRaces(map[], number, true, races, pilots, q);
      && res.Some? && number in res.value
      && var rec := LastMatch(Values(res.value[number]), id);
      && rec.Some?
      && rec.value.win == TrailingWins(RacePositions(races, id))
      && rec.value.points == RacePositions(races, id)[0] + PenaltyPoints(RacePositions(races, id)[1..])
  {
    ChaseAccumulates(number, races, pilots, q, id);
    AccumulatedClosedForm(id, pilots[id], RacePositions(races, id));
  }

  /** The two races of the scenario below are full final races in which pilot 7 rides. */
  lemma ScenarioRacesFull(race: seq<Entry>, first: int, second: int)
    requires first in {1, 2} && second in {1, 2} && first != second
    requires race == [Entry(7, first), Entry(8, second), Entry(9, 3), Entry(10, 4)]
    ensures FullFinalRace(Some(race), map[7 := "A", 8 := "B", 9 := "C", 10 := "D"], [7, 8, 9, 10, 0])
    ensures Rides(Some(race), 7)
  {
    assert race[0].pilotId == 7;
  }

  /**
   * A final of two races among pilots 7, 8, 9 and 10: pilot 7 is second, then first, and
   * ends with one win and 2 + 1 = 3 points.
   */
  lemma ChaseFinalScenario()
    ensures var pilots := map[7 := "A", 8 := "B", 9 := "C", 10 := "D"];
      var races := [Some([Entry(7, 2), Entry(8, 1), Entry(9, 3), Entry(10, 4)]),
                    Some([Entry(7, 1), Entry(8, 2), Entry(9, 3), Entry(10, 4)])];
      var res := FoldRaces(map[], 1, true, races, pilots, [7, 8, 9, 10, 0]);
      && res.Some? && 1 in res.value
      && var rec := LastMatch(Values(res.value[1]), 7);
      && rec.Some? && rec.value.win == 1 && rec.value.points == 3
  {
    var pilots := map[7 := "A", 8 := "B", 9 := "C", 10 := "D"];
    var race1 := [Entry(7, 2), Entry(8, 1), Entry(9, 3), Entry(10, 4)];
    var race2 := [Entry(7, 1), Entry(8, 2), Entry(9, 3), Entry(10, 4)];
    var races := [Some(race1), Some(race2)];
    var q := [7, 8, 9, 10, 0];
    ScenarioRacesFull(race1, 2, 1);
    ScenarioRacesFull(race2, 1, 2);
    assert forall k :: 0 <= k < |races| ==> FullFinalRace(races[k], pilots, q) && Rides(races[k], 7) by {
      forall k | 0 <= k < |races| ensures FullFinalRace(races[k], pilots, q) && Rides(races[k], 7) {
        if k == 1 { assert races[k] == Some(race2); }
      }
    }
    ChaseFinalCounters(1, races, pilots, q, 7);
    ScenarioPositions(race1, race2);
    var positions := RacePositions(races, 7);
    assert TrailingWins(positions) == 1 && positions[0] + PenaltyPoints(positions[1..]) == 3 by {
      assert positions[..1] == [2] && positions[1..] == [1] && [2][..0] == [] && [1][..0] == [];
    }
  }

  /** Pilot 7 is the first entry of each scenario race, at positions 2 and then 1. */
  lemma ScenarioPositions(race1: seq<Entry>, race2: seq<Entry>)
    requires race1 == [Entry(7, 2), Entry(8, 1), Entry(9, 3), Entry(10, 4)]
    requires race2 == [Entry(7, 1), Entry(8, 2), Entry(9, 3), Entry(10, 4)]
    ensures RacePositions([Some(race1), Some(race2)], 7) == [2, 1]
  {
    var races := [Some(race1), Some(race2)];
    assert PositionOf(race1, 7) == 2 && PositionOf(race2, 7) == 1;
    assert races[1..] == [Some(race2)];
    assert races[1..][1..] == [];
  }

  // ----- All heats -----

  /** What a heat yields on its own, run as heat `number` from an empty table. */
  function HeatOutcome(heat: Heat, number: int, cta: bool, pilots: map<int, string>, q: seq<int>): Option<HeatResults>
  {
    FoldRaces(map[], number, Chase(heat, cta), heat.races, pilots, q)
  }

  /** Every heat number in the table is one of the first `done`. */
  predicate NumberedUpTo(results: HeatResults, done: nat)
  {
    forall k :: k in results ==> 1 <= k <= done
  }

  /** Folding the heats fails exactly when one heat, run on its own as its number, fails. */
  lemma {:induction false} FoldHeatsSucceeds(results: HeatResults, done: nat, heats: seq<Heat>, cta: bool,
                                             pilots: map<int, string>, q: seq<int>)
    requires NumberedUpTo(results, done)
    ensures FoldHeats(results, done, heats, cta, pilots, q).Some?
        <==> forall i :: 0 <= i < |heats| ==> HeatOutcome(heats[i], done + i + 1, cta, pilots, q).Some?
    decreases |heats|
  {
    if |heats| > 0 {
      var n, h := done + 1, heats[0];
      FoldRacesLocal(results, map[], n, Chase(h, cta), h.races, pilots, q);
      var step := FoldRaces(results, n, Chase(h, cta), h.races, pilots, q);
      if step.Some? {
        FoldRacesFrame(results, n, Chase(h, cta), h.races, pilots, q);
        FoldHeatsSucceeds(step.value, n, heats[1..], cta, pilots, q);
        assert forall i :: 1 <= i < |heats| ==> heats[1..][i - 1] == heats[i];
      }
    }
  }

  /** Folding the heats keeps the numbers already there and adds only the next |heats| numbers. */
  lemma {:induction false} FoldHeatsFrame(results: HeatResults, done: nat, heats: seq<Heat>, cta: bool,
                                          pilots: map<int, string>, q: seq<int>)
    requires NumberedUpTo(results, done)
    requires FoldHeats(results, done, heats, cta, pilots, q).Some?
    ensures var res := FoldHeats(results, done, heats, cta, pilots, q).value;
      && NumberedUpTo(res, done + |heats|)
      && (forall k :: k in results ==> k in res && res[k] == results[k])
      && (forall k :: k in res && k !in results ==> done < k)
    decreases |heats|
  {
    if |heats| > 0 {
      var n, h := done + 1, heats[0];
      var next := FoldRaces(results, n, Chase(h, cta), h.races, pilots, q).value;
      FoldRacesFrame(results, n, Chase(h, cta), h.races, pilots, q);
      FoldHeatsFrame(next, n, heats[1..], cta, pilots, q);
    }
  }

  /**
   * After folding, the number of the i-th heat is present exactly when that heat has a
   * race, and holds what the heat yields on its own.
   */
  lemma {:induction false} FoldHeatsAt(results: HeatResults, done: nat, heats: seq<Heat>, cta: bool,
                                       pilots: map<int, string>, q: seq<int>, i: nat)
    requires NumberedUpTo(results, done)
    requires FoldHeats(results, done, heats, cta, pilots, q).Some?
    requires i < |heats|
    ensures var res, outcome := FoldHeats(results, done, heats, cta, pilots, q).value, HeatOutcome(heats[i], done + i + 1, cta, pilots, q);
      && (done + i + 1 in res <==> |heats[i].races| > 0)
      && outcome.Some?
      && (done + i + 1 in res ==> done + i + 1 in outcome.value && res[done + i + 1] == outcome.value[done + i + 1])
    decreases |heats|
  {
    var n, h := done + 1, heats[0];
    var next := FoldRaces(results, n, Chase(h, cta), h.races, pilots, q).value;
    FoldRacesFrame(results, n, Chase(h, cta), h.races, pilots, q);
    assert n !in results;
    if i == 0 {
      FoldRacesLocal(results, map[], n, Chase(h, cta), h.races, pilots, q);
      FoldHeatsFrame(next, n, heats[1..], cta, pilots, q);
    } else {
      FoldHeatsAt(next, n, heats[1..], cta, pilots, q, i - 1);
      assert heats[1..][i - 1] == heats[i];
    }
  }

  /** The heats are taken in ascending id order, and every heat exactly once. */
  lemma HeatsOrdered(heats: seq<Heat>)
    ensures multiset(OrderHeats(heats)) == multiset(heats)
    ensures var hs := OrderHeats(heats); forall i, j :: 0 <= i < j < |hs| ==> hs[i].id <= hs[j].id
  {
    SortByPermutation(heats, HeatKey());
    SortBySorted(heats, HeatKey());
  }

  /**
   * Heats are numbered 1, 2, ... in ascending id order: heat number `i + 1` is the i-th
   * heat by id, present exactly when that heat has a race, and aggregation fails exactly
   * when one heat fails.
   */
  lemma AggregateHeats(heats: seq<Heat>, cta: bool, pilots: map<int, string>, q: seq<int>)
    ensures var hs := OrderHeats(heats);
      Aggregate(heats, cta, pilots, q).Some? <==> forall i :: 0 <= i < |hs| ==> HeatOutcome(hs[i], i + 1, cta, pilots, q).Some?
    ensures Aggregate(heats, cta, pilots, q).Some? ==>
      var hs, res := OrderHeats(heats), Aggregate(heats, cta, pilots, q).value;
      && (forall k :: k in res ==> 1 <= k <= |heats|)
      && (forall i :: 0 <= i < |hs| ==> (i + 1 in res <==> |hs[i].races| > 0))
      && (forall i :: 0 <= i < |hs| && i + 1 in res ==>
            var outcome := HeatOutcome(hs[i], i + 1, cta, pilots, q);
            outcome.Some? && i + 1 in outcome.value && res[i + 1] == outcome.value[i + 1])
  {
    var hs := OrderHeats(heats);
    FoldHeatsSucceeds(map[], 0, hs, cta, pilots, q);
    if Aggregate(heats, cta, pilots, q).Some? {
      FoldHeatsFrame(map[], 0, hs, cta, pilots, q);
      forall i | 0 <= i < |hs| {
        FoldHeatsAt(map[], 0, hs, cta, pilots, q, i);
      }
    }
  }

  /** One failing race of any heat makes the whole aggregation fail. */
  lemma RaceFailureFailsAggregate(heats: seq<Heat>, cta: bool, pilots: map<int, string>, q: seq<int>,
                                  h: Heat, k: int, results: HeatResults, number: int)
    requires h in heats && 0 <= k < |h.races|
    requires ProcessRace(results, number, Chase(h, cta), h.races[k], pilots, q).None?
    ensures Aggregate(heats, cta, pilots, q).None?
  {
    var hs := OrderHeats(heats);
    HeatsOrdered(heats);
    assert h in multiset(hs);
    var i :| 0 <= i < |hs| && hs[i] == h;
    AggregateHeats(heats, cta, pilots, q);
    ProcessRaceSucceeds(results, number, map[], i + 1, Chase(h, cta), h.races[k], pilots, q);
    FoldRacesSucceeds(map[], i + 1, Chase(h, cta), h.races, pilots, q);
    assert HeatOutcome(hs[i], i + 1, cta, pilots, q).None?;
  }

  /**
   * Outside chase-the-ace, heat number `i + 1` holds the map of the last race of the
   * i-th heat by id, computed from that race alone.
   */
  lemma AggregateLastRaceWins(heats: seq<Heat>, cta: bool, pilots: map<int, string>, q: seq<int>, i: nat)
    requires Aggregate(heats, cta, pilots, q).Some?
    requires i < |heats|
    requires var h := OrderHeats(heats)[i]; !Chase(h, cta) && |h.races| > 0
    ensures var res, h := Aggregate(heats, cta, pilots, q).value, OrderHeats(heats)[i];
      i + 1 in res && Some(res[i + 1]) == ProcessRace(map[], i + 1, false, h.races[|h.races| - 1], pilots, q)
  {
    AggregateHeats(heats, cta, pilots, q);
    var h := OrderHeats(heats)[i];
    LastRaceWins(map[], i + 1, h.races, pilots, q);
  }
}

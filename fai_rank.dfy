/**
 * `FaiRank.rank`: the class ranking callback. It checks the options, recognises the
 * bracket, reads the qualification order, aggregates the races heat by heat, fills the
 * bracket's slot table and numbers the rows. Every failure yields the empty leaderboard.
 *
 * The host's database answers are inputs: the heats of the class with their races, the
 * qualification ranking (`None` when it cannot be read) and the pilots by id.
 */
module FaiRank {
  import opened Wrappers
  import opened Records
  import opened Bracket
  import opened Aggregation
  import opened SlotTables

  /** The two ranking options: the qualification class id (0 means unset) and chase-the-ace. */
  datatype Options = Options(qualifId: int, cta: bool)

  /** A leaderboard row with the position `rank` writes into it. */
  datatype Standing = Standing(row: Row, position: int)

  /** The rows numbered 1, 2, ... in list order. */
  function Numbered(rows: seq<Row>): (r: seq<Standing>)
    ensures |r| == |rows|
    ensures forall i :: 0 <= i < |rows| ==> r[i] == Standing(rows[i], i + 1)
  {
    seq(|rows|, i requires 0 <= i < |rows| => Standing(rows[i], i + 1))
  }

  /** The qualification order used for every tie-break: the ranking, then the sentinel id 0. */
  function QualificationOrder(ranking: seq<int>): seq<int>
  {
    ranking + [0]
  }

  /** What `rank` returns, as one expression: the empty leaderboard on every failure. */
  function RankSpec(opts: Options, qualification: Option<seq<int>>, heats: seq<Heat>,
                    pilots: map<int, string>): seq<Standing>
  {
    if opts.qualifId == 0 then []
    else
      match GuessBracket(|heats|)
      case None => []
      case Some(t) =>
        match qualification
        case None => []
        case Some(ranking) =>
          var q := QualificationOrder(ranking);
          match Aggregate(heats, opts.cta, pilots, q)
          case None => []
          case Some(results) =>
            match BuildLeaderboard(t, results, q)
            case None => []
            case Some(rows) => Numbered(rows)
  }

  // ----- The loops of `rank` -----

  /**
   * A pilot's record for one race. Outside chase-the-ace it starts and stays at zero;
   * in chase-the-ace it starts from the race alone and every earlier record of the pilot
   * in the heat's previous map overwrites the counters, so the last one counts.
   */
  method MakeRecord(e: Entry, callsign: string, chase: bool, previous: Option<RaceMap>) returns (rec: PilotRecord)
    ensures rec == NewRecord(e, callsign, chase, previous)
  {
    rec := PilotRecord(e.pilotId, callsign, 0, 0);
    if chase {
      if e.position == 1 {
        rec := rec.(win := 1);
      }
      rec := rec.(points := e.position);
      if previous.Some? {
        var prev := Values(previous.value);
        for k := 0 to |prev|
          invariant rec == ChaseRecord(e.pilotId, callsign, e.position, LastMatch(prev[..k], e.pilotId))
        {
          LastMatchStep(prev, k, e.pilotId);
          var r := prev[k];
          if r.pilotId == e.pilotId {
            if e.position != 0 {
              rec := rec.(points := r.points + e.position);
            } else {
              rec := rec.(points := r.points + MissingPositionPoints);
            }
            if e.position == 1 {
              rec := rec.(win := r.win + 1);
            }
          }
        }
        assert prev[..|prev|] == prev;
      }
    }
  }

  /** One race: its entries put into a fresh map by position, then re-keyed in chase-the-ace. */
  method RunRace(results: HeatResults, number: int, chase: bool, race: Option<seq<Entry>>,
                 pilots: map<int, string>, q: seq<int>) returns (out: Option<RaceMap>)
    ensures out == ProcessRace(results, number, chase, race, pilots, q)
  {
    if race.None? {
      return Some([]);
    }
    var entries := race.value;
    var previous := if number in results then Some(results[number]) else None;
    var acc: RaceMap := [];
    var i := 0;
    while i < |entries|
      invariant 0 <= i <= |entries|
      invariant FoldEntries([], entries, chase, previous, pilots) == FoldEntries(acc, entries[i..], chase, previous, pilots)
    {
      var e := entries[i];
      if e.pilotId !in pilots {
        return None;
      }
      var rec := MakeRecord(e, pilots[e.pilotId], chase, previous);
      acc := Put(acc, e.position, rec);
      assert entries[i..][1..] == entries[i + 1..];
      i := i + 1;
    }
    if chase {
      out := ChaseRekey(acc, q);
    } else {
      out := Some(acc);
    }
  }

  /** The races of one heat, each replacing the heat's map. */
  method RunRaces(results: HeatResults, number: int, chase: bool, races: seq<Option<seq<Entry>>>,
                  pilots: map<int, string>, q: seq<int>) returns (out: Option<HeatResults>)
    ensures out == FoldRaces(results, number, chase, races, pilots, q)
  {
    var current := results;
    for j := 0 to |races|
      invariant FoldRaces(results, number, chase, races, pilots, q) == FoldRaces(current, number, chase, races[j..], pilots, q)
    {
      var rr := RunRace(current, number, chase, races[j], pilots, q);
      if rr.None? {
        return None;
      }
      current := current[number := rr.value];
      assert races[j..][1..] == races[j + 1..];
    }
    assert races[|races|..] == [];
    return Some(current);
  }

  /** All heats in ascending id order, numbered from 1. */
  method RunHeats(heats: seq<Heat>, cta: bool, pilots: map<int, string>, q: seq<int>) returns (out: Option<HeatResults>)
    ensures out == Aggregate(heats, cta, pilots, q)
  {
    var ordered := OrderHeats(heats);
    var results: HeatResults := map[];
    var heatNumber := 0;
    while heatNumber < |ordered|
      invariant 0 <= heatNumber <= |ordered|
      invariant Aggregate(heats, cta, pilots, q) == FoldHeats(results, heatNumber, ordered[heatNumber..], cta, pilots, q)
    {
      var heat := ordered[heatNumber];
      assert ordered[heatNumber..][1..] == ordered[heatNumber + 1..];
      var next := RunRaces(results, heatNumber + 1, Chase(heat, cta), heat.races, pilots, q);
      if next.None? {
        return None;
      }
      results := next.value;
      heatNumber := heatNumber + 1;
    }
    return Some(results);
  }

  /** The final loop of `rank`: row i (from 0) gets position i + 1, in place. */
  method AssignPositions(board: array<Standing>)
    modifies board
    ensures forall i :: 0 <= i < board.Length ==> board[i] == old(board[i]).(position := i + 1)
  {
    for i := 0 to board.Length
      invariant forall j :: 0 <= j < i ==> board[j] == old(board[j]).(position := j + 1)
      invariant forall j :: i <= j < board.Length ==> board[j] == old(board[j])
    {
      board[i] := board[i].(position := i + 1);
    }
  }

  /** `rank(race_class, args)`: the leaderboard of a class. */
  method Rank(opts: Options, qualification: Option<seq<int>>, heats: seq<Heat>, pilots: map<int, string>)
    returns (leaderboard: seq<Standing>)
    ensures leaderboard == RankSpec(opts, qualification, heats, pilots)
  {
    if opts.qualifId == 0 {
      return [];
    }
    var bracket := GuessBracket(|heats|);
    if bracket.None? {
      return [];
    }
    if qualification.None? {
      return [];
    }
    var ranking := qualification.value;
    var q: seq<int> := [];
    for i := 0 to |ranking|
      invariant q == ranking[..i]
    {
      q := q + [ranking[i]];
    }
    assert ranking[..|ranking|] == ranking;
    q := q + [0];
    var results := RunHeats(heats, opts.cta, pilots, q);
    if results.None? {
      return [];
    }
    var rows := BuildLeaderboard(bracket.value, results.value, q);
    if rows.None? {
      return [];
    }
    var board := new Standing[|rows.value|](i requires 0 <= i < |rows.value| => Standing(rows.value[i], 0));
    AssignPositions(board);
    leaderboard := board[..];
    assert leaderboard == Numbered(rows.value);
  }

  // ----- What `rank` promises -----

  /**
   * Each failure path gives the empty leaderboard: the option unset, an unrecognised
   * heat count, an unreadable qualification ranking, an aggregation that raises (an
   * unknown pilot, a pilot outside the qualification order in chase-the-ace, a final
   * race with fewer than four results), or a tie-break that raises.
   */
  lemma RankFailures(opts: Options, qualification: Option<seq<int>>, heats: seq<Heat>, pilots: map<int, string>)
    requires || opts.qualifId == 0
             || GuessBracket(|heats|).None?
             || qualification.None?
             || Aggregate(heats, opts.cta, pilots, QualificationOrder(qualification.value)).None?
             || BuildLeaderboard(GuessBracket(|heats|).value, Aggregate(heats, opts.cta, pilots, QualificationOrder(qualification.value)).value,
                                 QualificationOrder(qualification.value)).None?
    ensures RankSpec(opts, qualification, heats, pilots) == []
  {
  }

  /** A race of any heat naming a pilot the host does not know empties the leaderboard. */
  lemma UnknownPilotEmptiesRank(opts: Options, ranking: seq<int>, heats: seq<Heat>, pilots: map<int, string>,
                                h: Heat, k: int, entries: seq<Entry>, j: int)
    requires h in heats && 0 <= k < |h.races| && h.races[k] == Some(entries)
    requires 0 <= j < |entries| && entries[j].pilotId !in pilots
    ensures RankSpec(opts, Some(ranking), heats, pilots) == []
  {
    var q := QualificationOrder(ranking);
    UnknownPilotFails(map[], 1, Chase(h, opts.cta), entries, pilots, q, j);
    RaceFailureFailsAggregate(heats, opts.cta, pilots, q, h, k, map[], 1);
  }

  /**
   * In chase-the-ace, a race of a final heat in which a pilot outside the qualification
   * ranking keeps a position empties the leaderboard.
   */
  lemma UnrankedFinalistEmptiesRank(opts: Options, ranking: seq<int>, heats: seq<Heat>, pilots: map<int, string>,
                                    h: Heat, k: int, entries: seq<Entry>, j: int)
    requires opts.cta && h in heats && h.isFinal
    requires 0 <= k < |h.races| && h.races[k] == Some(entries)
    requires 0 <= j < |entries| && entries[j].pilotId !in QualificationOrder(ranking)
    requires forall i :: j < i < |entries| ==> entries[i].position != entries[j].position
    ensures RankSpec(opts, Some(ranking), heats, pilots) == []
  {
    var q := QualificationOrder(ranking);
    UnrankedPilotFails(map[], 1, entries, pilots, q, j);
    RaceFailureFailsAggregate(heats, opts.cta, pilots, q, h, k, map[], 1);
  }

  /** In chase-the-ace, a race of a final heat with fewer than four results empties the leaderboard. */
  lemma ShortFinalEmptiesRank(opts: Options, ranking: seq<int>, heats: seq<Heat>, pilots: map<int, string>,
                              h: Heat, k: int, entries: seq<Entry>)
    requires opts.cta && h in heats && h.isFinal
    requires 0 <= k < |h.races| && h.races[k] == Some(entries) && |entries| < FinalPlaces
    ensures RankSpec(opts, Some(ranking), heats, pilots) == []
  {
    var q := QualificationOrder(ranking);
    ShortFinalFails(map[], 1, entries, pilots, q);
    RaceFailureFailsAggregate(heats, opts.cta, pilots, q, h, k, map[], 1);
  }

  /**
   * On success the leaderboard has the bracket's full length and positions 1, 2, ...
   * in list order; it is non-empty exactly when no failure occurred.
   */
  lemma RankSuccess(opts: Options, qualification: Option<seq<int>>, heats: seq<Heat>, pilots: map<int, string>)
    ensures var board := RankSpec(opts, qualification, heats, pilots);
      board != [] <==>
        && opts.qualifId != 0
        && GuessBracket(|heats|).Some?
        && qualification.Some?
        && Aggregate(heats, opts.cta, pilots, QualificationOrder(qualification.value)).Some?
        && BuildLeaderboard(GuessBracket(|heats|).value, Aggregate(heats, opts.cta, pilots, QualificationOrder(qualification.value)).value,
                            QualificationOrder(qualification.value)).Some?
    ensures var board := RankSpec(opts, qualification, heats, pilots);
      board != [] ==>
        && |board| == LeaderboardSize(GuessBracket(|heats|).value)
        && HeatCount(GuessBracket(|heats|).value) == |heats|
        && forall i :: 0 <= i < |board| ==> board[i].position == i + 1
  {
  }

  /**
   * A class whose heats have not been raced yet (every heat without races) still gets a
   * full-length leaderboard, made of sentinels numbered 1 to N.
   */
  lemma RankUnraced(opts: Options, ranking: seq<int>, heats: seq<Heat>, pilots: map<int, string>)
    requires opts.qualifId != 0
    requires GuessBracket(|heats|).Some?
    requires forall i :: 0 <= i < |heats| ==> heats[i].races == []
    ensures var board := RankSpec(opts, Some(ranking), heats, pilots);
      && |board| == LeaderboardSize(GuessBracket(|heats|).value)
      && forall i :: 0 <= i < |board| ==> board[i] == Standing(Sentinel, i + 1)
  {
    var q := QualificationOrder(ranking);
    var t := GuessBracket(|heats|).value;
    var hs := OrderHeats(heats);
    HeatsOrdered(heats);
    forall i | 0 <= i < |hs| ensures hs[i].races == [] {
      assert hs[i] in multiset(heats);
    }
    AggregateHeats(heats, opts.cta, pilots, q);
    var results := Aggregate(heats, opts.cta, pilots, q).value;
    forall k | 1 <= k <= |hs| ensures k !in results {
      assert hs[k - 1].races == [];
    }
    assert results.Keys == {};
    assert results == map[];
    assert q[|ranking|] == 0;
    AllMissing(t, q);
  }

  /**
   * On success every row comes from the bracket's table: a fixed slot holds exactly
   * `try_get_value` of its coordinate, and the rows of a tied group are that group's
   * rows ordered by qualification.
   */
  lemma RankRows(opts: Options, ranking: seq<int>, heats: seq<Heat>, pilots: map<int, string>,
                  t: Topology, results: HeatResults, i: nat, k: nat)
    requires opts.qualifId != 0 && GuessBracket(|heats|) == Some(t)
    requires Aggregate(heats, opts.cta, pilots, QualificationOrder(ranking)) == Some(results)
    requires i < |Table(t)| && k < SlotWidth(Table(t)[i])
    ensures var board, q, slots := RankSpec(opts, Some(ranking), heats, pilots), QualificationOrder(ranking), Table(t);
      board != [] ==>
        && Offset(slots, i) + k < |board|
        && SlotRows(slots[i], results, q).Some?
        && board[Offset(slots, i) + k] == Standing(SlotRows(slots[i], results, q).value[k], Offset(slots, i) + k + 1)
  {
    var q := QualificationOrder(ranking);
    var board := RankSpec(opts, Some(ranking), heats, pilots);
    RankSpecBuilt(opts, ranking, heats, pilots, t, results);
    if board != [] {
      var rows := BuildLeaderboard(t, results, q).value;
      LeaderboardSlot(t, results, q, rows, i, k);
    }
  }

  /** Past the checks and the aggregation, the leaderboard is the numbered slot table. */
  lemma RankSpecBuilt(opts: Options, ranking: seq<int>, heats: seq<Heat>, pilots: map<int, string>,
                      t: Topology, results: HeatResults)
    requires opts.qualifId != 0 && GuessBracket(|heats|) == Some(t)
    requires Aggregate(heats, opts.cta, pilots, QualificationOrder(ranking)) == Some(results)
    ensures var board, built := RankSpec(opts, Some(ranking), heats, pilots), BuildLeaderboard(t, results, QualificationOrder(ranking));
      && (built.None? ==> board == [])
      && (built.Some? ==> board == Numbered(built.value))
  {
  }
}

# FAI class ranking, modelled in Dafny

This project models the class-ranking engine of the FAI ranking plugin for a race-timing
host. It covers `FaiRank.rank` and its helpers in `class_rank_fai/__init__.py`. The
engine turns per-race finishing results into the final leaderboard of a fixed elimination
bracket, following the bracket diagrams of FAI Sporting Code, Section 4, Volume F9 (Drone
Sport). It works in five steps:

1. **Bracket guess.** The number of heats in the class picks one of eight topologies:
   fai64de, fai64, fai32de, fai32, fai16de, fai16, fai8de or fai8.
2. **Aggregation.** The heats are ordered by id and numbered 1, 2, …. Each race's results
   go into a map from finishing position to pilot record. Every race of a heat replaces
   that heat's map.
3. **Chase-the-ace.** In the heat named "Final", with the option on, win and point
   counters accumulate from race to race. The entries are then re-sorted and re-keyed to
   positions 1 to 4.
4. **Slot tables.** Each topology has a table of (heat, position) slots. A slot with no
   result gives a sentinel row: pilot 0 with an empty callsign. The 3rd and 4th places
   of a round form a tied group, which is ordered by qualification.
5. **Numbering and failure.** The rows are numbered 1 to N. Any failure gives the empty
   leaderboard.

Modules, one file each:

- `Wrappers` (`wrappers.dfy`): the `Option` type.
- `StableSort` (`stable_sort.dfy`): the stable sort of the host language, as an insertion
  sort by a lexicographic key.
- `Records` (`records.dfy`): pilot records and leaderboard rows. A race map is an
  insertion-ordered dictionary keyed by position. Also `try_get_value`.
- `TieBreak` (`tie_break.dfy`): ordering a tied group by qualification index.
- `Bracket` (`bracket.dfy`): the topologies, their heat counts and `guess_bracket`.
- `SlotTables` (`slot_tables.dfy`): the eight `build_leaderboard_fai*` functions as
  declarative slot tables, filled from the heat results.
- `Aggregation` (`aggregation.dfy`): the specification functions of the aggregation
  loops and their properties.
- `FaiRank` (`fai_rank.dfy`): `rank` as imperative methods with loops. They are proved to
  compute `RankSpec`, and the final position loop runs in place on an array.

The host's database answers are inputs. `rank` receives:

- the heats of the class, each with its id, an "is the Final" flag and its races;
- each race's primary-leaderboard entries, or `None` when the host has no result;
- the qualification ranking, or `None` when it cannot be read;
- the known pilots, as a map from id to callsign.

A pilot missing from that map is a failure: the host lookup then yields nothing, and reading
its `.id` raises (class_rank_fai/__init__.py:129-131). A falsy race position (None or 0) is
modelled as 0.

The win counter of chase-the-ace is kept as the code has it: a race that is not a win
resets it to 0. So "two wins" means two wins in a row (`ChaseFinalCounters`).

The counters chained race after race are the function `Accumulated`. `ChaseAccumulates`
shows that the final's heat map holds exactly that record when every race of the final
has four entries at distinct positions, from distinct known pilots who are all in the
qualification order. A pilot dropped by the re-keying of one race starts again from
nothing in the next, so the chained form does not describe that pilot.

## Model

| member | source | states |
|---|---|---|
| Bracket.GuessBracket | class_rank_fai/__init__.py:763-789 | the topology returned has exactly the given heat count; the result is none exactly when the count is not one of 62, 32, 30, 16, 14, 8, 6, 4 |
| Bracket.GuessBracketRecognises | class_rank_fai/__init__.py:774-783 | each topology is recognised from its own heat count |
| Bracket.HeatCountInjective | class_rank_fai/__init__.py:774-783 | no two topologies share a heat count |
| Records.Get | class_rank_fai/__init__.py:153 | definition, no contract: the record under the first entry with that position; its properties are in `Records.GetPut`, `Records.GetFinds` and `Records.GetUnique` |
| Records.Values | class_rank_fai/__init__.py:143 | the values of a race map in key insertion order, as many as its entries, the i-th being the i-th entry's record (also :161) |
| Records.Put | class_rank_fai/__init__.py:153 | storing under an existing position keeps the key order; a new position is appended at the end |
| Records.PutLength | class_rank_fai/__init__.py:153 | storing adds at most one position and removes none |
| Records.PutShape | class_rank_fai/__init__.py:153 | storing the same position, with records of the same pilot, into two maps with the same positions and pilots keeps them alike |
| Records.GetPut | class_rank_fai/__init__.py:153 | after storing, the position reads back the new record; every other position reads as before |
| Records.PutUnique | class_rank_fai/__init__.py:153 | storing keeps the positions of a race map distinct |
| Records.GetUnique | class_rank_fai/__init__.py:153 | in a race map with distinct positions, a lookup reads the one entry at that position |
| Records.GetFinds | class_rank_fai/__init__.py:791-797 | a lookup finds a record exactly when the position is a key, and that record is stored under it |
| Records.TryGetValue | class_rank_fai/__init__.py:791-797 | definition, no contract; its properties are in `Records.TryGetValueSpec` |
| Records.TryGetValueSpec | class_rank_fai/__init__.py:791-797 | `try_get_value` returns the stored record when both the heat and the position exist, otherwise the sentinel with id 0 and empty callsign; it never fails |
| StableSort.SortBy | class_rank_fai/__init__.py:160-163 | the sorted sequence has the input's length; permutation, order, stability and idempotence are in the lemmas below |
| StableSort.SortByPermutation | class_rank_fai/__init__.py:286-291 | the sort returns a permutation of its input |
| StableSort.SortBySorted | class_rank_fai/__init__.py:286-291 | the sort returns its input non-decreasing in the key |
| StableSort.SortByStable | class_rank_fai/__init__.py:286-291 | elements with equal keys keep their input order |
| StableSort.SortByIdempotent | class_rank_fai/__init__.py:286-291 | sorting an already sorted sequence changes nothing |
| StableSort.SortByTwice | class_rank_fai/__init__.py:286-291 | sorting twice equals sorting once |
| TieBreak.QualificationKey | class_rank_fai/__init__.py:286-291 | definition, no contract: a row's key is its pilot's index in the qualification order; used by `TieBreak.SortByQualification` for every tied group of the tables |
| TieBreak.FirstIndex | class_rank_fai/__init__.py:286 | the index is that of the first occurrence of the id, and equals the length exactly when the id is absent |
| TieBreak.SortByQualification | class_rank_fai/__init__.py:431-433 | ordering a tied group fails exactly when one of its pilots is not in the qualification order, and otherwise keeps the group's size |
| TieBreak.TieBreakPermutation | class_rank_fai/__init__.py:545-548 | a sorted tied group is a permutation of the group |
| TieBreak.TieBreakOrdered | class_rank_fai/__init__.py:620-621 | a sorted tied group is non-decreasing in qualification index |
| TieBreak.TieBreakStable | class_rank_fai/__init__.py:676-677 | rows with the same qualification index, such as several sentinels, keep their order |
| TieBreak.TieBreakIdempotent | class_rank_fai/__init__.py:713 | a group already in qualification order is returned unchanged |
| TieBreak.SentinelsLast | class_rank_fai/__init__.py:97-98 | with id 0 appended after a ranking that lacks it, every sentinel of a sorted group comes after every ranked pilot |
| SlotTables.Span | class_rank_fai/__init__.py:362-428 | the heat numbers of a range, in ascending order |
| SlotTables.ThirdAndFourth | class_rank_fai/__init__.py:206-283 | a tied group lists the 3rd then the 4th place of each heat, heat by heat |
| SlotTables.Table | class_rank_fai/__init__.py:204-761 | definition, no contract: the slots of each `build_leaderboard_fai*` function in order; its properties are in `SlotTables.TableWidth`, `SlotTables.Fai8Slots`, `SlotTables.Fai8deSlots` and `SlotTables.LeaderboardSlot` |
| SlotTables.TableWidth | class_rank_fai/__init__.py:204-761 | each topology's table has exactly 64, 32, 16 or 8 slots |
| SlotTables.Lookup | class_rank_fai/__init__.py:206-283 | a group yields one row per coordinate |
| SlotTables.LookupAt | class_rank_fai/__init__.py:206-283 | the i-th row of a group is `try_get_value` of the i-th coordinate |
| SlotTables.SlotRows | class_rank_fai/__init__.py:286-291 | a slot yields as many rows as it has coordinates |
| SlotTables.Fill | class_rank_fai/__init__.py:294-359 | a filled table has as many rows as its slots are wide |
| SlotTables.FillSucceeds | class_rank_fai/__init__.py:294-359 | filling fails exactly when one slot fails |
| SlotTables.BuildLeaderboard | class_rank_fai/__init__.py:204-761 | a built leaderboard has the topology's full length |
| SlotTables.FillSlot | class_rank_fai/__init__.py:294-359 | every slot's rows appear at that slot's offset in the leaderboard |
| SlotTables.LeaderboardSlot | class_rank_fai/__init__.py:204-761 | in each topology's leaderboard, a fixed slot holds `try_get_value` of its coordinate and a tied group holds its sorted rows |
| SlotTables.FillMissing | class_rank_fai/__init__.py:791-797 | with no heat results, a table fills with sentinels only |
| SlotTables.SlotMissing | class_rank_fai/__init__.py:286-291 | with no heat results, a slot gives only sentinels, a tied group included |
| SlotTables.AllMissing | class_rank_fai/__init__.py:204-761 | with every heat missing, the leaderboard still has the topology's full length, all sentinels |
| SlotTables.FillFixed | class_rank_fai/__init__.py:735-761 | a table of fixed slots cannot fail and reads its coordinates in order |
| SlotTables.Fai8Slots | class_rank_fai/__init__.py:749-761 | fai8 is positions 1 to 4 of heat 4, then positions 1 to 4 of heat 3 |
| SlotTables.Fai8deSlots | class_rank_fai/__init__.py:735-747 | fai8de is positions 1 to 4 of heat 6, then 3 and 4 of heat 5, then 3 and 4 of heat 3 |
| Aggregation.HeatKey | class_rank_fai/__init__.py:113 | definition, no contract: a heat's key is its id; used by `Aggregation.OrderHeats` |
| Aggregation.Chase | class_rank_fai/__init__.py:138 | definition, no contract: chase-the-ace applies to the heat named "Final" when the option is on (also :156); used by `Aggregation.FoldHeats` and `Aggregation.HeatOutcome` |
| Aggregation.OrderHeats | class_rank_fai/__init__.py:113 | definition, no contract; its properties are in `Aggregation.HeatsOrdered` |
| Aggregation.ChaseRecord | class_rank_fai/__init__.py:130-152 | one race's chase-the-ace record keeps the pilot's id and callsign, and a race that is not a win leaves the win counter at 0; the accumulation is in `Aggregation.AccumulatedClosedForm` and `Aggregation.ChaseFinalCounters` |
| Aggregation.NewRecord | class_rank_fai/__init__.py:129-152 | the record stored for an entry carries the entry's pilot id and the host's callsign; outside chase-the-ace its win and points are both 0; the chase-the-ace counters are in `Aggregation.NewRecordInHeat` |
| Aggregation.NewRecordInHeat | class_rank_fai/__init__.py:139-152 | in chase-the-ace an entry's record chains on the last record of that pilot in the heat's map so far, or starts afresh when there is none |
| Aggregation.LastMatchStep | class_rank_fai/__init__.py:144-152 | scanning one more record of the previous map, that record becomes the match exactly when it is the pilot's |
| Aggregation.LastMatch | class_rank_fai/__init__.py:144-152 | the record found is the pilot's and comes from the last entry of the previous map that has the pilot; none is found exactly when the pilot is not in the previous map |
| Aggregation.FoldEntries | class_rank_fai/__init__.py:128-153 | definition, no contract; its properties are in `Aggregation.FoldEntriesSucceeds`, `Aggregation.FoldEntriesGet`, `Aggregation.FoldEntriesAppend`, `Aggregation.FoldEntriesUnique`, `Aggregation.FoldEntriesLength` and `Aggregation.FoldEntriesShape` |
| Aggregation.ChaseKey | class_rank_fai/__init__.py:162 | definition, no contract: the sort key of chase-the-ace; its properties are in `Aggregation.ChaseRekeyOrder` |
| Aggregation.ChaseRekey | class_rank_fai/__init__.py:156-170 | re-keying succeeds exactly when every pilot is in the qualification order and there are at least four results; the keys are then 1, 2, 3, 4 |
| Aggregation.ChaseRekeyTop | class_rank_fai/__init__.py:160-170 | the re-keyed results are the first four of the chase-the-ace order, all taken from the race |
| Aggregation.ChaseKeyLe | class_rank_fai/__init__.py:160-163 | two records in chase-the-ace order: a pilot with exactly two wins comes first, then fewer points |
| Aggregation.ChaseRekeyOrder | class_rank_fai/__init__.py:160-163 | the four are in chase-the-ace order: a pilot with exactly two wins comes first, and equal win counts are ordered by ascending points |
| Aggregation.FoldEntriesSucceeds | class_rank_fai/__init__.py:128-135 | a race's entries fold without failing exactly when every pilot is known to the host |
| Aggregation.FoldEntriesLength | class_rank_fai/__init__.py:128-153 | a race adds at most one position per entry |
| Aggregation.FoldEntriesShape | class_rank_fai/__init__.py:128-153 | the positions of a race's map and the pilot at each do not depend on the heat's previous map; only the chase-the-ace counters do |
| Aggregation.ChaseRekeyShape | class_rank_fai/__init__.py:156-170 | two maps with the same positions and pilots pass or fail the chase-the-ace re-keying alike |
| Aggregation.ProcessRaceSucceeds | class_rank_fai/__init__.py:119-170 | whether a race fails depends neither on the heat table it meets nor on the heat's number |
| Aggregation.UnknownPilotFails | class_rank_fai/__init__.py:129-131 | a race naming a pilot the host does not know fails |
| Aggregation.ShortFinalFails | class_rank_fai/__init__.py:156-170 | in chase-the-ace, a final race with fewer than four results fails |
| Aggregation.UnrankedPilotFails | class_rank_fai/__init__.py:153-162 | in chase-the-ace, a final race fails when a pilot outside the qualification order holds a position that no later entry takes over |
| Aggregation.LastAt | class_rank_fai/__init__.py:153 | the entry found is at the given position and is the last entry with it; none is found exactly when no entry has it |
| Aggregation.FoldEntriesGet | class_rank_fai/__init__.py:128-153 | after a race, a position holds the record built from the last entry at that position; other positions are unchanged |
| Aggregation.FoldEntriesPlain | class_rank_fai/__init__.py:130-138 | outside chase-the-ace a race's records do not depend on the heat's earlier races |
| Aggregation.ProcessRace | class_rank_fai/__init__.py:119-170 | definition, no contract; its properties are in `Aggregation.ProcessRacePlain`, `Aggregation.ProcessRaceUnique`, `Aggregation.ChaseRaceKeeps`, `Aggregation.ProcessRaceSucceeds`, `Aggregation.UnknownPilotFails`, `Aggregation.ShortFinalFails` and `Aggregation.UnrankedPilotFails` |
| Aggregation.FoldEntriesUnique | class_rank_fai/__init__.py:153 | folding a race's entries into a map with distinct positions keeps them distinct |
| Aggregation.ProcessRaceUnique | class_rank_fai/__init__.py:119-170 | every map a race leaves has distinct positions, so lookups by position read its one entry |
| Aggregation.ProcessRacePlain | class_rank_fai/__init__.py:119-153 | outside chase-the-ace a race's map depends on that race alone |
| Aggregation.AccumulatedClosedForm | class_rank_fai/__init__.py:139-152 | for the counters chained by `Accumulated` over a run of positions, the win counter is the number of consecutive wins ending with the last position; the points are the first position plus, for each later one, that position or 4 |
| Aggregation.ChaseScenario | class_rank_fai/__init__.py:139-152 | for the chained counters: second then first gives one win and 3 points; two wins give a win count of 2; a race with no position adds 4 |
| Aggregation.PositionOfAt | class_rank_fai/__init__.py:128-153 | in a race whose pilots are distinct, the position looked up for a pilot is that pilot's entry's position |
| Aggregation.PlacingsAt | class_rank_fai/__init__.py:128-153 | the i-th placing of a race is the i-th entry's position with the record built from that entry |
| Aggregation.FoldEntriesAppend | class_rank_fai/__init__.py:128-153 | entries with distinct new positions, all from known pilots, leave the map followed by their placings, in entry order |
| Aggregation.ChaseRekeyKeepsAll | class_rank_fai/__init__.py:156-170 | with exactly four ranked results, re-keying succeeds and keeps every record |
| Aggregation.ChaseRekeyRecord | class_rank_fai/__init__.py:156-170 | in a final race with four entries at distinct positions from distinct known, ranked pilots, each pilot's record after the re-keying is the one its entry built |
| Aggregation.ChaseRaceKeeps | class_rank_fai/__init__.py:119-170 | after a final race with four entries at distinct positions from distinct known, ranked pilots, a pilot of that race has the record built from its position and its record in the heat's previous map |
| Aggregation.ChaseStep | class_rank_fai/__init__.py:119-175 | such a race extends the pilot's chained record by its position in that race |
| Aggregation.ChaseFold | class_rank_fai/__init__.py:117-175 | over such races, the heat's map holds the pilot's record chained over the positions before plus those of the races |
| Aggregation.ChaseAccumulates | class_rank_fai/__init__.py:117-175 | when every race of the final has four entries at distinct positions from distinct known, ranked pilots including this one, the final's map holds the pilot's record chained by `Accumulated` over its positions |
| Aggregation.ChaseFinalCounters | class_rank_fai/__init__.py:139-175 | under the same condition, the pilot's win counter in the final's map is the number of consecutive wins ending with the last race, and the points are the first position plus, for each later race, its position or 4 |
| Aggregation.ChaseFinalScenario | class_rank_fai/__init__.py:117-175 | in a final of four pilots, a pilot who is second then first ends with one win and 3 points in the heat's map |
| Aggregation.FoldRaces | class_rank_fai/__init__.py:117-175 | definition, no contract; its properties are in `Aggregation.FoldRacesFrame`, `Aggregation.FoldRacesLocal`, `Aggregation.LastRaceWins`, `Aggregation.FoldRacesUnique`, `Aggregation.ChaseFold` and `Aggregation.FoldRacesSucceeds` |
| Aggregation.FoldRacesSucceeds | class_rank_fai/__init__.py:117-175 | a heat's races fold without failing exactly when each race, taken on its own, succeeds |
| Aggregation.FoldRacesUnique | class_rank_fai/__init__.py:117-175 | over a heat's races, every map the heat table holds keeps distinct positions |
| Aggregation.FoldRacesFrame | class_rank_fai/__init__.py:172-175 | a heat's races touch only that heat's number |
| Aggregation.FoldRacesLocal | class_rank_fai/__init__.py:119-175 | a heat's outcome depends only on what the table already holds for that heat |
| Aggregation.LastRaceWins | class_rank_fai/__init__.py:172-175 | outside chase-the-ace the heat's map is the map of its last race alone; earlier races are not merged in |
| Aggregation.FoldHeats | class_rank_fai/__init__.py:110-175 | definition, no contract; its properties are in `Aggregation.FoldHeatsSucceeds`, `Aggregation.FoldHeatsFrame` and `Aggregation.FoldHeatsAt` |
| Aggregation.Aggregate | class_rank_fai/__init__.py:110-175 | definition, no contract; its properties are in `Aggregation.AggregateHeats`, `Aggregation.AggregateLastRaceWins` and `Aggregation.RaceFailureFailsAggregate` |
| Aggregation.FoldHeatsSucceeds | class_rank_fai/__init__.py:108-175 | folding the heats fails exactly when one heat fails |
| Aggregation.FoldHeatsFrame | class_rank_fai/__init__.py:114-116 | folding keeps the numbers already present and adds only the numbers of the heats folded |
| Aggregation.FoldHeatsAt | class_rank_fai/__init__.py:114-175 | the number of the i-th heat is present exactly when that heat has a race, and holds that heat's own outcome |
| Aggregation.HeatsOrdered | class_rank_fai/__init__.py:113 | heats are taken in ascending id order, each heat exactly once |
| Aggregation.AggregateHeats | class_rank_fai/__init__.py:113-175 | heat number i + 1 is the i-th heat by id; it is present exactly when that heat has a race; aggregation fails exactly when one heat fails |
| Aggregation.RaceFailureFailsAggregate | class_rank_fai/__init__.py:113-175 | one failing race of any heat makes the whole aggregation fail |
| Aggregation.AggregateLastRaceWins | class_rank_fai/__init__.py:113-175 | outside chase-the-ace, heat number i + 1 holds the map of the last race of the i-th heat by id |
| FaiRank.QualificationOrder | class_rank_fai/__init__.py:94-98 | definition, no contract: the qualification ranking with pilot 0 appended; used by `FaiRank.RankSpec`, and its effect is in `TieBreak.SentinelsLast` |
| FaiRank.RankSpec | class_rank_fai/__init__.py:61-202 | definition, no contract; its properties are in `FaiRank.RankFailures`, `FaiRank.RankSuccess`, `FaiRank.RankUnraced`, `FaiRank.RankRows`, `FaiRank.UnknownPilotEmptiesRank`, `FaiRank.UnrankedFinalistEmptiesRank` and `FaiRank.ShortFinalEmptiesRank` |
| FaiRank.Numbered | class_rank_fai/__init__.py:195-197 | row i (from 0) is the i-th row with position i + 1 |
| FaiRank.MakeRecord | class_rank_fai/__init__.py:129-152 | the scan over the previous map computes the specified record |
| FaiRank.RunRace | class_rank_fai/__init__.py:119-170 | the race loop computes the specified race map |
| FaiRank.RunRaces | class_rank_fai/__init__.py:117-175 | the races loop computes the specified heat outcome |
| FaiRank.RunHeats | class_rank_fai/__init__.py:110-175 | the heats loop computes the specified aggregation |
| FaiRank.AssignPositions | class_rank_fai/__init__.py:195-197 | in place, row i (from 0) gets position i + 1 and keeps its other fields |
| FaiRank.Rank | class_rank_fai/__init__.py:61-202 | `rank` computes the specified leaderboard |
| FaiRank.RankFailures | class_rank_fai/__init__.py:79-200 | the unset option, an unknown topology, an unreadable qualification, a failing aggregation or a failing tie-break each give the empty leaderboard; the race failures behind a failing aggregation are traced to the leaderboard in `FaiRank.UnknownPilotEmptiesRank`, `FaiRank.UnrankedFinalistEmptiesRank` and `FaiRank.ShortFinalEmptiesRank` |
| FaiRank.UnknownPilotEmptiesRank | class_rank_fai/__init__.py:129-200 | a race of any heat naming a pilot the host does not know gives the empty leaderboard |
| FaiRank.UnrankedFinalistEmptiesRank | class_rank_fai/__init__.py:153-200 | in chase-the-ace, a final race in which a pilot outside the qualification ranking keeps a position gives the empty leaderboard |
| FaiRank.ShortFinalEmptiesRank | class_rank_fai/__init__.py:156-200 | in chase-the-ace, a final race with fewer than four results gives the empty leaderboard |
| FaiRank.RankSuccess | class_rank_fai/__init__.py:177-200 | the leaderboard is non-empty exactly when nothing failed; it then has the topology's full length and positions 1 to N |
| FaiRank.RankUnraced | class_rank_fai/__init__.py:108-197 | a class whose heats have no races still gets a full-length leaderboard of sentinels numbered 1 to N |
| FaiRank.RankRows | class_rank_fai/__init__.py:177-197 | on success, each slot of the topology's table sits at its offset with the position offset + 1 |

## Left out

- Host database calls are inputs: the heats of a class, the races of a heat, race results,
  pilots by id and the qualification ranking. So is the filter to the primary leaderboard.
- `guess_bracket` counts the heats with its own host call. The model uses the length of
  the same heat sequence.
- `initialize` and `register_handlers` are not modelled. They register event hooks and UI
  options with the host.
- Logging and the constant `meta` dictionary are not modelled.
- Exceptions are not modelled. Every raising path becomes `None`, which collapses to the
  empty leaderboard. The model does not distinguish which exception was raised.
- A falsy race position (None or 0) is modelled as the integer 0. In a chase-the-ace
  final the code stores None as the points of a pilot's first race. The sort at
  class_rank_fai/__init__.py:160-163 then raises TypeError when it compares those points
  with another pilot's. The model scores the position as 0 (4 in a later race) and does
  not fail there.
- With fewer than four results a chase-the-ace race raises IndexError at lines 166-169.
  The model fails there too (`ChaseRekey`).
- In the code None and 0 are two distinct keys of a race's dictionary (line 153). In the
  model both are the key 0, so a None entry and a 0 entry of one race share a key.
- The name "Final" is modelled as a boolean on each heat.
- Leaderboard rows are values in an array, not shared dictionaries. In the code each row
  is a distinct dictionary, so writing its position in place has no aliasing effect.
- `tools/p.py` is not part of this model. It is a database seeding script and does no
  ranking.

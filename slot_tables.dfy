/**
 * The slot tables of the eight `build_leaderboard_fai*` functions as data: each table
 * lists, in leaderboard order, either one fixed (heat, position) coordinate or a tied
 * group of coordinates whose rows are ordered by qualification.
 */
module SlotTables {
  import opened Wrappers
  import opened Records
  import opened TieBreak
  import opened Bracket

  /** A finishing position in a heat, identified by the heat's 1-based number. */
  datatype Coord = Coord(heat: int, position: int)

  /** One fixed leaderboard slot, or a run of slots filled by a group sorted by qualification. */
  datatype Slot = Fixed(at: Coord) | Tied(group: seq<Coord>)

  /** The heat numbers `lo`, `lo + 1`, ..., `hi`. */
  function Span(lo: int, hi: int): (r: seq<int>)
    ensures |r| == if lo <= hi then hi - lo + 1 else 0
    ensures forall i :: 0 <= i < |r| ==> r[i] == lo + i
    decreases hi - lo
  {
    if lo > hi then [] else [lo] + Span(lo + 1, hi)
  }

  /** The 3rd and 4th place of each listed heat, heat by heat. */
  function ThirdAndFourth(heats: seq<int>): (r: seq<Coord>)
    ensures |r| == 2 * |heats|
    ensures forall i :: 0 <= i < |heats| ==> r[2 * i] == Coord(heats[i], 3) && r[2 * i + 1] == Coord(heats[i], 4)
  {
    if |heats| == 0 then []
    else [Coord(heats[0], 3), Coord(heats[0], 4)] + ThirdAndFourth(heats[1..])
  }

  /** Positions 1 to 4 of a heat, in order. */
  function Podium(heat: int): seq<Slot>
  {
    [Fixed(Coord(heat, 1)), Fixed(Coord(heat, 2)), Fixed(Coord(heat, 3)), Fixed(Coord(heat, 4))]
  }

  /** Positions 3 and 4 of a heat, in order. */
  function Eliminated(heat: int): seq<Slot>
  {
    [Fixed(Coord(heat, 3)), Fixed(Coord(heat, 4))]
  }

  /** One tied group: the 3rd and 4th place of each listed heat. */
  function Group(heats: seq<int>): seq<Slot>
  {
    [Tied(ThirdAndFourth(heats))]
  }

  /** The slot table of each topology, in leaderboard order. */
  function Table(t: Topology): seq<Slot>
  {
    match t
    case Fai64de =>
      Podium(62) + Eliminated(61) + Eliminated(59) + Group([57, 58]) + Group([53, 54])
      + Group(Span(49, 52)) + Group(Span(41, 44)) + Group(Span(33, 40)) + Group(Span(25, 32))
    case Fai64 =>
      Podium(32) + Podium(31) + Group(Span(25, 28)) + Group(Span(17, 24)) + Group(Span(1, 16))
    case Fai32de =>
      Podium(30) + Eliminated(29) + Eliminated(27) + Group([25, 26]) + Group([21, 22])
      + Group(Span(17, 20)) + Group(Span(13, 16))
    case Fai32 =>
      Podium(16) + Podium(15) + Group(Span(9, 12)) + Group(Span(1, 8))
    case Fai16de =>
      Podium(14) + Eliminated(13) + Eliminated(11) + Group([10, 9]) + Group([6, 5])
    case Fai16 =>
      Podium(8) + Podium(7) + Group(Span(1, 4))
    case Fai8de =>
      Podium(6) + Eliminated(5) + Eliminated(3)
    case Fai8 =>
      Podium(4) + Podium(3)
  }

  function SlotWidth(slot: Slot): nat
  {
    match slot
    case Fixed(_) => 1
    case Tied(group) => |group|
  }

  /** The number of leaderboard rows a run of slots produces. */
  function Width(slots: seq<Slot>): nat
  {
    if |slots| == 0 then 0 else SlotWidth(slots[0]) + Width(slots[1..])
  }

  lemma {:induction false} WidthConcat(a: seq<Slot>, b: seq<Slot>)
    ensures Width(a + b) == Width(a) + Width(b)
  {
    if |a| == 0 {
      assert a + b == b;
    } else {
      assert (a + b)[1..] == a[1..] + b;
      WidthConcat(a[1..], b);
    }
  }

  lemma WidthPieces(h: int, heats: seq<int>)
    ensures Width(Podium(h)) == 4 && Width(Eliminated(h)) == 2 && Width(Group(heats)) == 2 * |heats|
  {
    var p, e, g := Podium(h), Eliminated(h), Group(heats);
    assert p[3..][1..] == [] && e[1..][1..] == [] && g[1..] == [];
    assert Width(p[3..]) == 1;
    assert p[2..][1..] == p[3..];
    assert Width(p[2..]) == 2;
    assert p[1..][1..] == p[2..];
    assert Width(p[1..]) == 3;
    assert Width(e[1..]) == 1;
  }

  lemma WidthOf5(a: seq<Slot>, b: seq<Slot>, c: seq<Slot>, d: seq<Slot>, e: seq<Slot>)
    ensures Width(a + b + c + d + e) == Width(a) + Width(b) + Width(c) + Width(d) + Width(e)
  {
    WidthConcat(a, b);
    WidthConcat(a + b, c);
    WidthConcat(a + b + c, d);
    WidthConcat(a + b + c + d, e);
  }

  /** Each table yields exactly as many rows as the bracket ranks pilots. */
  lemma TableWidth(t: Topology)
    ensures Width(Table(t)) == LeaderboardSize(t)
  {
    match t
    case Fai64de =>
      WidthPieces(62, [57, 58]); WidthPieces(61, [53, 54]); WidthPieces(59, Span(49, 52));
      WidthPieces(0, Span(41, 44)); WidthPieces(0, Span(33, 40)); WidthPieces(0, Span(25, 32));
      var head := Podium(62) + Eliminated(61) + Eliminated(59) + Group([57, 58]) + Group([53, 54]);
      WidthOf5(Podium(62), Eliminated(61), Eliminated(59), Group([57, 58]), Group([53, 54]));
      WidthOf5(head, Group(Span(49, 52)), Group(Span(41, 44)), Group(Span(33, 40)), Group(Span(25, 32)));
    case Fai64 =>
      WidthPieces(32, Span(25, 28)); WidthPieces(31, Span(17, 24)); WidthPieces(0, Span(1, 16));
      WidthOf5(Podium(32), Podium(31), Group(Span(25, 28)), Group(Span(17, 24)), Group(Span(1, 16)));
    case Fai32de =>
      WidthPieces(30, [25, 26]); WidthPieces(29, [21, 22]); WidthPieces(27, Span(17, 20));
      WidthPieces(0, Span(13, 16));
      WidthOf5(Podium(30), Eliminated(29), Eliminated(27), Group([25, 26]), Group([21, 22]));
      var head := Podium(30) + Eliminated(29) + Eliminated(27) + Group([25, 26]) + Group([21, 22]);
      WidthConcat(head, Group(Span(17, 20)));
      WidthConcat(head + Group(Span(17, 20)), Group(Span(13, 16)));
    case Fai32 =>
      WidthPieces(16, Span(9, 12)); WidthPieces(15, Span(1, 8));
      WidthConcat(Podium(16), Podium(15));
      WidthConcat(Podium(16) + Podium(15), Group(Span(9, 12)));
      WidthConcat(Podium(16) + Podium(15) + Group(Span(9, 12)), Group(Span(1, 8)));
    case Fai16de =>
      WidthPieces(14, [10, 9]); WidthPieces(13, [6, 5]); WidthPieces(11, []);
      WidthOf5(Podium(14), Eliminated(13), Eliminated(11), Group([10, 9]), Group([6, 5]));
    case Fai16 =>
      WidthPieces(8, Span(1, 4)); WidthPieces(7, []);
      WidthConcat(Podium(8), Podium(7));
      WidthConcat(Podium(8) + Podium(7), Group(Span(1, 4)));
    case Fai8de =>
      WidthPieces(6, []); WidthPieces(5, []); WidthPieces(3, []);
      WidthConcat(Podium(6), Eliminated(5));
      WidthConcat(Podium(6) + Eliminated(5), Eliminated(3));
    case Fai8 =>
      WidthPieces(4, []); WidthPieces(3, []);
      WidthConcat(Podium(4), Podium(3));
  }

  /** The rows of the listed coordinates, each read with `TryGetValue`. */
  function Lookup(results: HeatResults, coords: seq<Coord>): (r: seq<Row>)
    ensures |r| == |coords|
  {
    if |coords| == 0 then []
    else [TryGetValue(results, coords[0].heat, coords[0].position)] + Lookup(results, coords[1..])
  }

  lemma {:induction false} LookupAt(results: HeatResults, coords: seq<Coord>, i: nat)
    requires i < |coords|
    ensures Lookup(results, coords)[i] == TryGetValue(results, coords[i].heat, coords[i].position)
  {
    if i > 0 {
      LookupAt(results, coords[1..], i - 1);
    }
  }

  /** The rows one slot contributes; a tied group fails when a pilot in it is unqualified. */
  function SlotRows(slot: Slot, results: HeatResults, q: seq<int>): (r: Option<seq<Row>>)
    ensures r.Some? ==> |r.value| == SlotWidth(slot)
  {
    match slot
    case Fixed(c) => Some([TryGetValue(results, c.heat, c.position)])
    case Tied(group) => SortByQualification(Lookup(results, group), q)
  }

  /** The rows of a run of slots, concatenated; fails when any slot fails. */
  function Fill(slots: seq<Slot>, results: HeatResults, q: seq<int>): (r: Option<seq<Row>>)
    ensures r.Some? ==> |r.value| == Width(slots)
  {
    if |slots| == 0 then Some([])
    else
      match SlotRows(slots[0], results, q)
      case None => None
      case Some(head) =>
        match Fill(slots[1..], results, q)
        case None => None
        case Some(tail) => Some(head + tail)
  }

  /** Filling fails exactly when one of the slots fails. */
  lemma {:induction false} FillSucceeds(slots: seq<Slot>, results: HeatResults, q: seq<int>)
    ensures Fill(slots, results, q).Some? <==> forall i :: 0 <= i < |slots| ==> SlotRows(slots[i], results, q).Some?
  {
    if |slots| > 0 {
      FillSucceeds(slots[1..], results, q);
      assert forall i :: 1 <= i < |slots| ==> slots[1..][i - 1] == slots[i];
    }
  }

  /** `build_leaderboard_<topology>(results, q_pilots)`. */
  function BuildLeaderboard(t: Topology, results: HeatResults, q: seq<int>): (r: Option<seq<Row>>)
    ensures r.Some? ==> |r.value| == LeaderboardSize(t)
  {
    TableWidth(t);
    Fill(Table(t), results, q)
  }

  /** The row offset at which slot `i` starts. */
  function Offset(slots: seq<Slot>, i: nat): nat
    requires i <= |slots|
  {
    Width(slots[..i])
  }

  lemma {:induction false} OffsetStep(slots: seq<Slot>, i: nat)
    requires 0 < i <= |slots|
    ensures Offset(slots, i) == SlotWidth(slots[0]) + Offset(slots[1..], i - 1)
  {
    assert slots[..i][1..] == slots[1..][..i - 1];
  }

  lemma {:induction false} FillUnfold(slots: seq<Slot>, results: HeatResults, q: seq<int>)
    requires |slots| > 0 && Fill(slots, results, q).Some?
    ensures Fill(slots, results, q).value
      == SlotRows(slots[0], results, q).value + Fill(slots[1..], results, q).value
  {
  }

  lemma ConcatAt<T>(a: seq<T>, b: seq<T>, j: nat)
    requires j < |b|
    ensures (a + b)[|a| + j] == b[j]
  {
  }

  /**
   * Every slot's rows land at the slot's offset: a fixed slot holds `TryGetValue` of its
   * coordinate, a tied group holds its rows sorted by qualification.
   */
  lemma {:induction false} FillSlot(slots: seq<Slot>, results: HeatResults, q: seq<int>, rows: seq<Row>, i: nat, k: nat)
    requires Fill(slots, results, q) == Some(rows)
    requires i < |slots| && k < SlotWidth(slots[i])
    ensures SlotRows(slots[i], results, q).Some?
    ensures Offset(slots, i) + k < |rows|
    ensures rows[Offset(slots, i) + k] == SlotRows(slots[i], results, q).value[k]
  {
    var head := SlotRows(slots[0], results, q).value;
    var tail := Fill(slots[1..], results, q).value;
    FillUnfold(slots, results, q);
    assert rows == head + tail;
    if i == 0 {
      assert slots[..0] == [];
      assert Offset(slots, 0) == 0;
      assert rows[k] == head[k];
    } else {
      assert slots[1..][i - 1] == slots[i];
      FillSlot(slots[1..], results, q, tail, i - 1, k);
      OffsetStep(slots, i);
      var j := Offset(slots[1..], i - 1) + k;
      ConcatAt(head, tail, j);
      assert Offset(slots, i) + k == |head| + j;
    }
  }

  /** The leaderboard of a topology holds each slot's rows at the slot's offset. */
  lemma LeaderboardSlot(t: Topology, results: HeatResults, q: seq<int>, rows: seq<Row>, i: nat, k: nat)
    requires BuildLeaderboard(t, results, q) == Some(rows)
    requires i < |Table(t)| && k < SlotWidth(Table(t)[i])
    ensures SlotRows(Table(t)[i], results, q).Some?
    ensures Offset(Table(t), i) + k < |rows|
    ensures rows[Offset(Table(t), i) + k] == SlotRows(Table(t)[i], results, q).value[k]
  {
    FillSlot(Table(t), results, q, rows, i, k);
  }

  lemma {:induction false} LookupMissing(coords: seq<Coord>)
    ensures Lookup(map[], coords) == seq(|coords|, _ => Sentinel)
  {
    if |coords| > 0 {
      LookupMissing(coords[1..]);
    }
  }

  /** With no heat results at all, a slot is all sentinels, whatever the tie-break does. */
  lemma {:induction false} SlotMissing(slot: Slot, q: seq<int>)
    requires 0 in q
    ensures SlotRows(slot, map[], q) == Some(seq(SlotWidth(slot), _ => Sentinel))
  {
    match slot
    case Fixed(c) =>
      assert [TryGetValue(map[], c.heat, c.position)] == seq(1, _ => Sentinel);
    case Tied(group) =>
      TiedMissing(group, q);
  }

  /** Ordering a group of sentinels by qualification leaves it all sentinels. */
  lemma {:induction false} TiedMissing(group: seq<Coord>, q: seq<int>)
    requires 0 in q
    ensures SortByQualification(Lookup(map[], group), q) == Some(seq(|group|, _ => Sentinel))
  {
    var missing := Lookup(map[], group);
    LookupMissing(group);
    assert AllQualified(missing, q);
    var head := SortByQualification(missing, q).value;
    TieBreakPermutation(missing, q);
    assert forall k :: 0 <= k < |head| ==> head[k] == Sentinel by {
      forall k | 0 <= k < |head| ensures head[k] == Sentinel {
        assert head[k] in multiset(missing);
      }
    }
    AllSentinels(head);
  }

  lemma AllSentinels(rows: seq<Row>)
    requires forall k :: 0 <= k < |rows| ==> rows[k] == Sentinel
    ensures rows == seq(|rows|, _ => Sentinel)
  {
  }

  lemma SentinelsConcat(a: nat, b: nat)
    ensures seq(a, _ => Sentinel) + seq(b, _ => Sentinel) == seq(a + b, _ => Sentinel)
  {
  }

  /** With no heat results at all, a run of slots is all sentinels. */
  lemma {:induction false} FillMissing(slots: seq<Slot>, q: seq<int>)
    requires 0 in q
    ensures Fill(slots, map[], q) == Some(seq(Width(slots), _ => Sentinel))
  {
    if |slots| == 0 {
      assert seq(Width(slots), _ => Sentinel) == [];
    } else {
      FillMissing(slots[1..], q);
      SlotMissing(slots[0], q);
      SentinelsConcat(SlotWidth(slots[0]), Width(slots[1..]));
    }
  }

  /**
   * When every heat is missing the leaderboard still has the bracket's full length, made
   * of sentinels: its length depends on the topology only.
   */
  lemma AllMissing(t: Topology, q: seq<int>)
    requires 0 in q
    ensures BuildLeaderboard(t, map[], q) == Some(seq(LeaderboardSize(t), _ => Sentinel))
  {
    FillMissing(Table(t), q);
    TableWidth(t);
  }

  /** A run of fixed slots only reads its coordinates, in order, and cannot fail. */
  lemma {:induction false} FillFixed(slots: seq<Slot>, results: HeatResults, q: seq<int>)
    requires forall i :: 0 <= i < |slots| ==> slots[i].Fixed?
    ensures Fill(slots, results, q).Some?
    ensures var rows := Fill(slots, results, q).value;
      |rows| == |slots|
      && forall i :: 0 <= i < |slots| ==> rows[i] == TryGetValue(results, slots[i].at.heat, slots[i].at.position)
  {
    if |slots| > 0 {
      FillFixed(slots[1..], results, q);
      var c := slots[0].at;
      assert slots[0] == Fixed(c);
      var tail := Fill(slots[1..], results, q).value;
      assert Fill(slots, results, q) == Some([TryGetValue(results, c.heat, c.position)] + tail);
      assert forall i :: 1 <= i < |slots| ==> slots[1..][i - 1] == slots[i];
    }
  }

  /** fai8: positions 1 to 4 of heat 4, then positions 1 to 4 of heat 3, nothing sorted. */
  lemma Fai8Slots(results: HeatResults, q: seq<int>)
    ensures BuildLeaderboard(Fai8, results, q) == Some([
      TryGetValue(results, 4, 1), TryGetValue(results, 4, 2), TryGetValue(results, 4, 3), TryGetValue(results, 4, 4),
      TryGetValue(results, 3, 1), TryGetValue(results, 3, 2), TryGetValue(results, 3, 3), TryGetValue(results, 3, 4)])
  {
    var s := Table(Fai8);
    assert s == [Fixed(Coord(4, 1)), Fixed(Coord(4, 2)), Fixed(Coord(4, 3)), Fixed(Coord(4, 4)),
                 Fixed(Coord(3, 1)), Fixed(Coord(3, 2)), Fixed(Coord(3, 3)), Fixed(Coord(3, 4))];
    FillFixed(s, results, q);
    var rows := Fill(s, results, q).value;
    assert rows == [TryGetValue(results, 4, 1), TryGetValue(results, 4, 2), TryGetValue(results, 4, 3), TryGetValue(results, 4, 4), TryGetValue(results, 3, 1), TryGetValue(results, 3, 2), TryGetValue(results, 3, 3), TryGetValue(results, 3, 4)];
  }

  /** fai8de: positions 1 to 4 of heat 6, then 3 and 4 of heat 5, then 3 and 4 of heat 3. */
  lemma Fai8deSlots(results: HeatResults, q: seq<int>)
    ensures BuildLeaderboard(Fai8de, results, q) == Some([
      TryGetValue(results, 6, 1), TryGetValue(results, 6, 2), TryGetValue(results, 6, 3), TryGetValue(results, 6, 4),
      TryGetValue(results, 5, 3), TryGetValue(results, 5, 4), TryGetValue(results, 3, 3), TryGetValue(results, 3, 4)])
  {
    var s := Table(Fai8de);
    assert s == [Fixed(Coord(6, 1)), Fixed(Coord(6, 2)), Fixed(Coord(6, 3)), Fixed(Coord(6, 4)),
                 Fixed(Coord(5, 3)), Fixed(Coord(5, 4)), Fixed(Coord(3, 3)), Fixed(Coord(3, 4))];
    FillFixed(s, results, q);
    var rows := Fill(s, results, q).value;
    assert rows == [TryGetValue(results, 6, 1), TryGetValue(results, 6, 2), TryGetValue(results, 6, 3), TryGetValue(results, 6, 4), TryGetValue(results, 5, 3), TryGetValue(results, 5, 4), TryGetValue(results, 3, 3), TryGetValue(results, 3, 4)];
  }
}

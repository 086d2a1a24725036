/**
 * The eight fixed bracket topologies of FAI Sporting Code, Section 4, Volume F9
 * (Drone Sport), and how the one in use is recognised from the number of heats.
 */
module Bracket {
  import opened Wrappers

  datatype Topology = Fai64de | Fai64 | Fai32de | Fai32 | Fai16de | Fai16 | Fai8de | Fai8

  /** The number of heats each bracket runs. */
  function HeatCount(t: Topology): nat
  {
    match t
    case Fai64de => 62
    case Fai64 => 32
    case Fai32de => 30
    case Fai32 => 16
    case Fai16de => 14
    case Fai16 => 8
    case Fai8de => 6
    case Fai8 => 4
  }

  /** The number of pilots the bracket ranks, which is the leaderboard's length. */
  function LeaderboardSize(t: Topology): nat
  {
    match t
    case Fai64de | Fai64 => 64
    case Fai32de | Fai32 => 32
    case Fai16de | Fai16 => 16
    case Fai8de | Fai8 => 8
  }

  /**
   * `guess_bracket`: the topology whose heat count is exactly `heats`, or none when the
   * count belongs to no bracket.
   */
  function GuessBracket(heats: int): (r: Option<Topology>)
    ensures r.Some? ==> HeatCount(r.value) == heats
    ensures r.None? <==> heats !in {62, 32, 30, 16, 14, 8, 6, 4}
  {
    if heats == 62 then Some(Fai64de)
    else if heats == 32 then Some(Fai64)
    else if heats == 30 then Some(Fai32de)
    else if heats == 16 then Some(Fai32)
    else if heats == 14 then Some(Fai16de)
    else if heats == 8 then Some(Fai16)
    else if heats == 6 then Some(Fai8de)
    else if heats == 4 then Some(Fai8)
    else None
  }

  /** Every topology is recognised from its own heat count: the two tables agree. */
  lemma GuessBracketRecognises(t: Topology)
    ensures GuessBracket(HeatCount(t)) == Some(t)
  {
    match t
    case Fai64de =>
    case Fai64 =>
    case Fai32de =>
    case Fai32 =>
    case Fai16de =>
    case Fai16 =>
    case Fai8de =>
    case Fai8 =>
  }

  /** No two topologies share a heat count, so the guess is never ambiguous. */
  lemma HeatCountInjective(t: Topology, u: Topology)
    requires HeatCount(t) == HeatCount(u)
    ensures t == u
  {
    GuessBracketRecognises(t);
    GuessBracketRecognises(u);
  }
}

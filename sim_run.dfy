/**
 * A batch of simulated games (`runSimulation`) and the integer counts of
 * their summary (`aggregateResults`): win distribution, turn extremes and
 * totals of the per-game counters.
 */
module SimRun {
  import opened Wrappers
  import opened SimRules
  import opened SimState
  import opened SimEngine
  import Text

  // ---------------------------------------------------------------------------
  // Counting and summing over the reports
  // ---------------------------------------------------------------------------

  /** `games.filter(p).length`. */
  function CountIf(rs: seq<GameReport>, p: GameReport -> bool): (n: nat)
    ensures n <= |rs|
    decreases |rs|
  {
    if rs == [] then 0 else CountIf(rs[..|rs| - 1], p) + (if p(rs[|rs| - 1]) then 1 else 0)
  }

  /** `games.reduce((acc, g) => acc + g[key], 0)`. */
  function SumBy(rs: seq<GameReport>, f: GameReport -> int): int
    decreases |rs|
  {
    if rs == [] then 0 else SumBy(rs[..|rs| - 1], f) + f(rs[|rs| - 1])
  }

  /** Counting with predicates that split every report one way or the other adds up to the number of reports. */
  lemma {:induction false} CountPartition2(rs: seq<GameReport>, p: GameReport -> bool, q: GameReport -> bool)
    requires forall k :: 0 <= k < |rs| ==> (p(rs[k]) <==> !q(rs[k]))
    ensures CountIf(rs, p) + CountIf(rs, q) == |rs|
    decreases |rs|
  {
    if rs != [] {
      CountPartition2(rs[..|rs| - 1], p, q);
    }
  }

  /** The same for three predicates of which each report satisfies exactly one. */
  lemma {:induction false} CountPartition3(rs: seq<GameReport>, p: GameReport -> bool, q: GameReport -> bool,
                                           r: GameReport -> bool)
    requires forall k :: 0 <= k < |rs| ==>
               (if p(rs[k]) then 1 else 0) + (if q(rs[k]) then 1 else 0) + (if r(rs[k]) then 1 else 0) == 1
    ensures CountIf(rs, p) + CountIf(rs, q) + CountIf(rs, r) == |rs|
    decreases |rs|
  {
    if rs != [] {
      CountPartition3(rs[..|rs| - 1], p, q, r);
    }
  }

  /** A per-report sum splits into the sums of its parts. */
  lemma {:induction false} SumSplit(rs: seq<GameReport>, f: GameReport -> int, g: GameReport -> int, h: GameReport -> int)
    requires forall k :: 0 <= k < |rs| ==> f(rs[k]) == g(rs[k]) + h(rs[k])
    ensures SumBy(rs, f) == SumBy(rs, g) + SumBy(rs, h)
    decreases |rs|
  {
    if rs != [] {
      SumSplit(rs[..|rs| - 1], f, g, h);
    }
  }

  /** The smallest turn count (`turns[0]` after sorting), 0 for no games. */
  function MinTurns(rs: seq<GameReport>): (m: int)
    ensures forall k :: 0 <= k < |rs| ==> m <= rs[k].turnCount
    ensures rs != [] ==> exists k :: 0 <= k < |rs| && m == rs[k].turnCount
    decreases |rs|
  {
    if rs == [] then 0
    else if |rs| == 1 then rs[0].turnCount
    else
      var m := MinTurns(rs[..|rs| - 1]);
      assert forall k :: 0 <= k < |rs| - 1 ==> rs[..|rs| - 1][k] == rs[k];
      if rs[|rs| - 1].turnCount < m then rs[|rs| - 1].turnCount else m
  }

  /** The largest turn count (the last of the sorted turns), 0 for no games. */
  function MaxTurns(rs: seq<GameReport>): (m: int)
    ensures forall k :: 0 <= k < |rs| ==> rs[k].turnCount <= m
    ensures rs != [] ==> exists k :: 0 <= k < |rs| && m == rs[k].turnCount
    decreases |rs|
  {
    if rs == [] then 0
    else if |rs| == 1 then rs[0].turnCount
    else
      var m := MaxTurns(rs[..|rs| - 1]);
      assert forall k :: 0 <= k < |rs| - 1 ==> rs[..|rs| - 1][k] == rs[k];
      if rs[|rs| - 1].turnCount > m then rs[|rs| - 1].turnCount else m
  }

  // ---------------------------------------------------------------------------
  // The summary
  // ---------------------------------------------------------------------------

  /** The integer fields of the `aggregateResults` summary. */
  datatype Aggregate = Aggregate(
    games: nat,
    winsStarter: nat,
    winsNonStarter: nat,
    winsPlayerA: nat,
    winsPlayerB: nat,
    winsNone: nat,
    turnsMin: int,
    turnsMax: int,
    turnsTotal: int,
    heroesKilledTotal: int,
    heroesKilledPlayerA: int,
    heroesKilledPlayerB: int,
    totalAttacks: int,
    totalDamage: int,
    totalCounterDamage: int,
    criticalCount: int,
    fumbleCount: int,
    counterattacksUsed: int,
    attackerDeathsByCounter: int,
    cardsDrawnTotal: int,
    cardsRecruitedTotal: int,
    itemsEquippedTotal: int,
    cardsDiscardedTotal: int,
    mulliganTotal: int,
    gamesWithMulligan: nat,
    endedByNoHeroes: nat,
    timeouts: nat)

  predicate StarterWon(r: GameReport) { r.winnerIsStarter }
  predicate NonStarterWon(r: GameReport) { r.winner.Some? && !r.winnerIsStarter }
  predicate WonByA(r: GameReport) { r.winner == Some(PlayerA) }
  predicate WonByB(r: GameReport) { r.winner == Some(PlayerB) }
  predicate NoWinner(r: GameReport) { r.winner.None? }
  predicate HadMulligan(r: GameReport) { r.tally.mulliganCount > 0 }
  predicate EndedByNoHeroes(r: GameReport) { r.endedByNoHeroes }
  predicate TimedOut(r: GameReport) { r.timedOutByMaxTurns }

  function KilledTotal(r: GameReport): int { r.tally.heroesKilledTotal }
  function KilledA(r: GameReport): int { r.tally.heroesKilledByPlayerA }
  function KilledB(r: GameReport): int { r.tally.heroesKilledByPlayerB }

  /** `aggregateResults`, without the averages, rates and percentiles. */
  function AggregateOf(rs: seq<GameReport>): Aggregate
  {
    Aggregate(
      |rs|,
      CountIf(rs, StarterWon), CountIf(rs, NonStarterWon),
      CountIf(rs, WonByA), CountIf(rs, WonByB), CountIf(rs, NoWinner),
      MinTurns(rs), MaxTurns(rs), SumBy(rs, (r: GameReport) => r.turnCount),
      SumBy(rs, KilledTotal), SumBy(rs, KilledA), SumBy(rs, KilledB),
      SumBy(rs, (r: GameReport) => r.tally.totalAttacks),
      SumBy(rs, (r: GameReport) => r.tally.totalDamageDealt),
      SumBy(rs, (r: GameReport) => r.tally.totalCounterDamageDealt),
      SumBy(rs, (r: GameReport) => r.tally.criticalCount),
      SumBy(rs, (r: GameReport) => r.tally.fumbleCount),
      SumBy(rs, (r: GameReport) => r.tally.counterattacksUsed),
      SumBy(rs, (r: GameReport) => r.tally.attackerDeathsByCounter),
      SumBy(rs, (r: GameReport) => r.tally.cardsDrawnTotal),
      SumBy(rs, (r: GameReport) => r.tally.cardsRecruitedTotal),
      SumBy(rs, (r: GameReport) => r.tally.itemsEquippedTotal),
      SumBy(rs, (r: GameReport) => r.tally.cardsDiscardedTotal),
      SumBy(rs, (r: GameReport) => r.tally.mulliganCount),
      CountIf(rs, HadMulligan), CountIf(rs, EndedByNoHeroes), CountIf(rs, TimedOut))
  }

  /**
   * Over well-formed reports the summary is consistent: the winner
   * distribution, the starter split and the end reasons each add up to the
   * number of games, the kills split by player, and every game's turn count
   * lies between the extremes, which are at least 1 when there are games.
   */
  lemma AggregateCorrect(rs: seq<GameReport>)
    requires forall k :: 0 <= k < |rs| ==> WellFormedReport(rs[k])
    ensures var a := AggregateOf(rs);
            a.winsPlayerA + a.winsPlayerB + a.winsNone == a.games
            && a.winsStarter + a.winsNonStarter + a.winsNone == a.games
            && a.endedByNoHeroes + a.timeouts == a.games
            && a.heroesKilledTotal == a.heroesKilledPlayerA + a.heroesKilledPlayerB
            && (forall k :: 0 <= k < |rs| ==> a.turnsMin <= rs[k].turnCount <= a.turnsMax)
            && (a.games > 0 ==> 1 <= a.turnsMin <= a.turnsMax)
  {
    CountPartition3(rs, WonByA, WonByB, NoWinner);
    CountPartition3(rs, StarterWon, NonStarterWon, NoWinner);
    CountPartition2(rs, EndedByNoHeroes, TimedOut);
    SumSplit(rs, KilledTotal, KilledA, KilledB);
  }

  // ---------------------------------------------------------------------------
  // A batch of games
  // ---------------------------------------------------------------------------

  /** The seed string of the game with this 1-based index: `${baseSeed}:${index}`. */
  function GameSeed(baseSeed: nat, index: nat): string
  {
    Text.NatToString(baseSeed) + ":" + Text.NatToString(index)
  }

  /** Games of one batch get different seeds. */
  lemma GameSeedsDistinct(baseSeed: nat, i: nat, j: nat)
    requires GameSeed(baseSeed, i) == GameSeed(baseSeed, j)
    ensures i == j
  {
    var prefix := Text.NatToString(baseSeed) + ":";
    assert GameSeed(baseSeed, i) == prefix + Text.NatToString(i);
    assert GameSeed(baseSeed, j) == prefix + Text.NatToString(j);
    assert Text.NatToString(i) == GameSeed(baseSeed, i)[|prefix|..];
    assert Text.NatToString(j) == GameSeed(baseSeed, j)[|prefix|..];
    Text.NatToStringInjective(i, j);
  }

  /** What `runSingleGame` promises about game `index` of a batch. */
  predicate PlayedAs(r: GameReport, batchCards: seq<Card>, baseSeed: nat, index: nat)
  {
    WellFormedReport(r) && r.gameIndex == index && r.seedUsed == GameSeed(baseSeed, index)
    && r.startingPlayer == StartingPlayer(batchCards, GameSeed(baseSeed, index))
  }

  /** `runSimulation`: the games are played in order, game i + 1 from seed `${baseSeed}:${i + 1}`. */
  method RunSimulation(games: int, batchCards: seq<Card>, baseSeed: nat, maxTurns: int)
    returns (perGame: seq<GameReport>, aggregate: Aggregate)
    ensures |perGame| == (if games > 0 then games else 0)
    ensures forall k :: 0 <= k < |perGame| ==> PlayedAs(perGame[k], batchCards, baseSeed, k + 1)
    ensures aggregate == AggregateOf(perGame)
  {
    perGame := [];
    var i := 0;
    while i < games
      invariant 0 <= i && (i <= games || i == 0) && |perGame| == i
      invariant forall k :: 0 <= k < i ==> PlayedAs(perGame[k], batchCards, baseSeed, k + 1)
    {
      var gameSeed := Text.NatToString(baseSeed) + ":" + Text.NatToString(i + 1);
      var gameResult := PlayGame(batchCards, baseSeed, i + 1, gameSeed, maxTurns);
      perGame := perGame + [gameResult];
      i := i + 1;
    }
    aggregate := AggregateOf(perGame);
  }

  /** One game of the batch, with its report's facts packed into `PlayedAs`. */
  method PlayGame(batchCards: seq<Card>, baseSeed: nat, index: nat, gameSeed: string, maxTurns: int)
    returns (r: GameReport)
    requires gameSeed == GameSeed(baseSeed, index)
    ensures PlayedAs(r, batchCards, baseSeed, index)
  {
    r := RunSingleGame(batchCards, index, gameSeed, maxTurns);
  }
}

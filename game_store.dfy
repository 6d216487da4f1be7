// The game store of the client (src/stores/useGameStore.js): the match's
// phase, turn counter, per-player resources, whose turn it is, the phase of
// the turn and the winner.

module GameStore {
  import opened Wrappers
  import opened SimRules

  /** `phase`. */
  datatype MatchPhase = Setup | InPlay | Over

  /** `turnPhase` as the client names its phases. */
  datatype Stage = DrawStage | RecruitStage | EquipStage | CombatStage | EndStage

  /** `MAX_RESOURCES`. */
  const MaxResources: int := 10

  /** Both players at the maximum, as `startGame` and `$reset` set them. */
  function FullResources(): map<PlayerId, int>
  {
    map[PlayerA := MaxResources, PlayerB := MaxResources]
  }

  class Game {
    var phase: MatchPhase
    var turn: int
    var resources: map<PlayerId, int>
    var currentTurn: PlayerId
    var turnPhase: Stage
    var winner: Option<PlayerId>

    /** The store before any match: set up, turn 0, player A to move in the draw phase, full resources. */
    predicate AtSetup()
      reads this
    {
      phase == Setup && turn == 0 && resources == FullResources() && currentTurn == PlayerA
      && turnPhase == DrawStage && winner == None
    }

    constructor ()
      ensures AtSetup()
    {
      phase := Setup;
      turn := 0;
      resources := FullResources();
      currentTurn := PlayerA;
      turnPhase := DrawStage;
      winner := None;
    }

    /** `isPlaying`. */
    function IsPlaying(): (b: bool)
      reads this
      ensures b <==> phase == InPlay
      ensures b ==> phase != Setup && phase != Over
    {
      phase == InPlay
    }

    /** `isEnded`. */
    function IsEnded(): (b: bool)
      reads this
      ensures b <==> phase == Over
      ensures b ==> !IsPlaying() && phase != Setup
    {
      phase == Over
    }

    /**
     * `startGame(initialTurn = 'player_a', initialTurnPhase = 'recruit')`:
     * play starts on turn 1 with full resources and no winner; None stands
     * for an omitted argument.
     */
    method StartGame(initialTurn: Option<PlayerId>, initialTurnPhase: Option<Stage>)
      modifies this
      ensures IsPlaying() && !IsEnded()
      ensures turn == 1 && resources == FullResources() && winner == None
      ensures currentTurn == (if initialTurn.Some? then initialTurn.value else PlayerA)
      ensures turnPhase == (if initialTurnPhase.Some? then initialTurnPhase.value else RecruitStage)
    {
      var first := match initialTurn case Some(p) => p case None => PlayerA;
      var stage := match initialTurnPhase case Some(t) => t case None => RecruitStage;
      phase := InPlay;
      turn := 1;
      resources := FullResources();
      currentTurn := first;
      turnPhase := stage;
      winner := None;
    }

    /** `$reset`: back to the state before any match. */
    method Reset()
      modifies this
      ensures AtSetup() && !IsPlaying() && !IsEnded()
    {
      phase := Setup;
      turn := 0;
      resources := FullResources();
      currentTurn := PlayerA;
      turnPhase := DrawStage;
      winner := None;
    }
  }
}

/** The `$machinestates` table of states.inc.php: ten states, each with a
    numeric id, a name, a type, the player actions it allows and its named
    transitions to other state ids. */
module States {
  import opened Wrappers

  datatype StateName =
    | GameSetup | PlayerTurn | ChallengeWindow | ResolveChallenge | ResolveAction
    | BlockWindow | CheckWin | Rolloff | ChooseDiceOverflowFace | GameEnd

  /** The framework's state types: who, if anyone, may act in the state. */
  datatype StateType = Manager | ActivePlayer | MultipleActivePlayer | GameState

  /** The key of each state in the table. */
  function Id(s: StateName): int {
    match s
    case GameSetup => 1
    case PlayerTurn => 2
    case ChallengeWindow => 3
    case ResolveChallenge => 4
    case ResolveAction => 5
    case BlockWindow => 6
    case CheckWin => 7
    case Rolloff => 8
    case ChooseDiceOverflowFace => 9
    case GameEnd => 99
  }

  /** The 'name' entry of each state. */
  function Name(s: StateName): string {
    match s
    case GameSetup => "gameSetup"
    case PlayerTurn => "playerTurn"
    case ChallengeWindow => "challengeWindow"
    case ResolveChallenge => "resolveChallenge"
    case ResolveAction => "resolveAction"
    case BlockWindow => "blockWindow"
    case CheckWin => "checkWin"
    case Rolloff => "rolloff"
    case ChooseDiceOverflowFace => "chooseDiceOverflowFace"
    case GameEnd => "gameEnd"
  }

  /** The 'type' entry of each state. */
  function Type(s: StateName): StateType {
    match s
    case GameSetup => Manager
    case GameEnd => Manager
    case PlayerTurn => ActivePlayer
    case BlockWindow => ActivePlayer
    case ChallengeWindow => MultipleActivePlayer
    case ChooseDiceOverflowFace => MultipleActivePlayer
    case _ => GameState
  }

  /** The 'possibleactions' entry of each state (empty where it has none). */
  function PossibleActions(s: StateName): seq<string> {
    match s
    case PlayerTurn =>
      ["raiseHell", "harvestSkulls", "extort", "reapSoul", "pentagram", "impsSet", "satansSteal"]
    case ChallengeWindow => ["challenge", "pass"]
    case BlockWindow => ["block", "pass"]
    case ChooseDiceOverflowFace => ["chooseDiceOverflowFace"]
    case _ => []
  }

  /** The 'transitions' entry of each state: transition name to target id. */
  function Transitions(s: StateName): map<string, int> {
    match s
    case GameSetup => map["playerTurn" := 2]
    case PlayerTurn => map["challengeWindow" := 3, "resolveAction" := 5, "endGame" := 99]
    case ChallengeWindow => map["resolveChallenge" := 4, "blockWindow" := 6, "resolveAction" := 5]
    case ResolveChallenge => map["playerTurn" := 2, "blockWindow" := 6, "resolveAction" := 5]
    case ResolveAction => map["checkWin" := 7, "chooseDiceOverflowFace" := 9]
    case BlockWindow => map["challengeBlock" := 3, "resolveAction" := 5]
    case CheckWin => map["rolloff" := 8, "playerTurn" := 2, "endGame" := 99, "chooseDiceOverflowFace" := 9]
    case Rolloff => map["endGame" := 99]
    case ChooseDiceOverflowFace => map["checkWin" := 7]
    case GameEnd => map[]
  }

  /** The state a numeric id denotes, if the table defines one. */
  function StateById(id: int): (r: Option<StateName>)
    ensures r.Some? ==> Id(r.value) == id
  {
    match id
    case 1 => Some(GameSetup)
    case 2 => Some(PlayerTurn)
    case 3 => Some(ChallengeWindow)
    case 4 => Some(ResolveChallenge)
    case 5 => Some(ResolveAction)
    case 6 => Some(BlockWindow)
    case 7 => Some(CheckWin)
    case 8 => Some(Rolloff)
    case 9 => Some(ChooseDiceOverflowFace)
    case 99 => Some(GameEnd)
    case _ => None
  }

  /** State ids are pairwise distinct, and each id names back its state. */
  lemma IdsDistinct(s: StateName, u: StateName)
    ensures StateById(Id(s)) == Some(s)
    ensures Id(s) == Id(u) ==> s == u
  {
  }

  /** Every transition of every state targets a state id the table defines. */
  lemma TargetsDefined(s: StateName, tr: string)
    requires tr in Transitions(s)
    ensures StateById(Transitions(s)[tr]).Some?
  {
  }

  /** `$this->gamestate->nextState(tr)` taken from state `s`: the framework
      only accepts a transition name the current state declares. */
  function Follow(s: StateName, tr: string): (r: StateName)
    requires tr in Transitions(s)
    ensures Id(r) == Transitions(s)[tr]
  {
    TargetsDefined(s, tr);
    StateById(Transitions(s)[tr]).value
  }

  /** gameEnd is terminal: no transition leaves it and nobody may act in it. */
  lemma GameEndIsTerminal()
    ensures Transitions(GameEnd) == map[]
    ensures PossibleActions(GameEnd) == []
  {
  }

  /** The routing facts the table fixes: gameSetup only starts the first
      turn, rolloff only ends the game, choosing an overflow face only
      returns to checkWin, and a block re-opens the challenge window. */
  lemma FixedRoutes(tr: string)
    ensures tr in Transitions(GameSetup) ==> Follow(GameSetup, tr) == PlayerTurn
    ensures tr in Transitions(Rolloff) ==> Follow(Rolloff, tr) == GameEnd
    ensures tr in Transitions(ChooseDiceOverflowFace) ==> Follow(ChooseDiceOverflowFace, tr) == CheckWin
    ensures "challengeBlock" in Transitions(BlockWindow)
    ensures Follow(BlockWindow, "challengeBlock") == ChallengeWindow
  {
    if tr in Transitions(GameSetup) { assert tr == "playerTurn"; }
    if tr in Transitions(Rolloff) { assert tr == "endGame"; }
    if tr in Transitions(ChooseDiceOverflowFace) { assert tr == "checkWin"; }
  }

  /** The three ways out of checkWin and the one out of rolloff, each
      taken by its transition name. */
  lemma CheckWinRoutes()
    ensures "endGame" in Transitions(CheckWin) && Follow(CheckWin, "endGame") == GameEnd
    ensures "rolloff" in Transitions(CheckWin) && Follow(CheckWin, "rolloff") == Rolloff
    ensures "playerTurn" in Transitions(CheckWin) && Follow(CheckWin, "playerTurn") == PlayerTurn
    ensures "endGame" in Transitions(Rolloff) && Follow(Rolloff, "endGame") == GameEnd
  {
  }

  /** The player actions each state allows: exactly the seven declarations
      on a turn, only challenge or pass in the challenge window, only block
      or pass in the block window, and nothing in the states the game runs
      by itself. */
  lemma AllowedActions(s: StateName, act: string)
    ensures act in PossibleActions(PlayerTurn) <==>
      act in {"raiseHell", "harvestSkulls", "extort", "reapSoul", "pentagram", "impsSet", "satansSteal"}
    ensures act in PossibleActions(ChallengeWindow) <==> act == "challenge" || act == "pass"
    ensures act in PossibleActions(BlockWindow) <==> act == "block" || act == "pass"
    ensures Type(s) == GameState || Type(s) == Manager ==> PossibleActions(s) == []
  {
  }

  /** Each player action is offered by one state only: a declaration only
      on a turn, challenge only in the challenge window, block only in the
      block window, pass only in one of the two windows, and the overflow
      choice only in its own state. */
  lemma ActionHome(s: StateName, act: string)
    requires act in PossibleActions(s)
    ensures act in PossibleActions(PlayerTurn) ==> s == PlayerTurn
    ensures act == "challenge" ==> s == ChallengeWindow
    ensures act == "block" ==> s == BlockWindow
    ensures act == "pass" ==> s == ChallengeWindow || s == BlockWindow
    ensures act == "chooseDiceOverflowFace" ==> s == ChooseDiceOverflowFace
  {
  }

  /** The state reached from `s` by calling nextState with each name of
      `names` in turn, or None once a name is not a transition of the
      state reached so far. */
  function Walk(s: StateName, names: seq<string>): Option<StateName>
    decreases |names|
  {
    if names == [] then Some(s)
    else if names[0] in Transitions(s) then Walk(Follow(s, names[0]), names[1..])
    else None
  }

  /** No state is a dead end: from each state, a sequence of transitions of
      the table ends the game. */
  function RouteToEnd(s: StateName): (names: seq<string>)
    ensures Walk(s, names) == Some(GameEnd)
  {
    match s
    case GameSetup => ["playerTurn", "endGame"]
    case PlayerTurn => ["endGame"]
    case ChallengeWindow => ["resolveAction", "checkWin", "endGame"]
    case ResolveChallenge => ["resolveAction", "checkWin", "endGame"]
    case ResolveAction => ["checkWin", "endGame"]
    case BlockWindow => ["resolveAction", "checkWin", "endGame"]
    case CheckWin => ["endGame"]
    case Rolloff => ["endGame"]
    case ChooseDiceOverflowFace => ["checkWin", "endGame"]
    case GameEnd => []
  }
}

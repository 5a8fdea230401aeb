/** The state of one table: the SQL tables the game keeps (player_tokens,
    player_dice, satans_pool, the player scores) and the framework's state
    (current state, active and multi-active players, the game globals). */
module TableState {
  import opened Wrappers
  import opened Constants
  import opened States
  import opened Board

  /** The action_data global: a JSON blob holding Satan's Steal choices, or
      the tied players handed from checkWin to the rolloff. */
  datatype ActionData =
    | NoData
    | StealChoice(target: Option<Player>, putInPool: bool, poolFace: Option<Face>)
    | TiedPlayers(ids: seq<Player>)

  /** The states between a declaration and the end of its resolution. */
  predicate Settling(s: StateName) {
    s == ChallengeWindow || s == ResolveChallenge || s == BlockWindow || s == ResolveAction
  }

  /** The position of `p` in `players`, if it is there. */
  function IndexOf(players: seq<Player>, p: Player): (r: Option<nat>)
    ensures r.Some? ==> r.value < |players| && players[r.value] == p
    ensures r.None? ==> p !in players
  {
    if players == [] then None
    else if players[0] == p then Some(0)
    else match IndexOf(players[1..], p)
      case Some(i) => Some(i + 1)
      case None => None
  }

  /** activeNextPlayer: the player after `p` in table order, wrapping round
      to the first. */
  function NextPlayer(players: seq<Player>, p: Player): (r: Player)
    requires |players| > 0
    ensures r in players
    ensures NoDuplicates(players) ==> forall i {:trigger players[i]} | 0 <= i < |players| && players[i] == p ::
      r == players[(i + 1) % |players|]
  {
    match IndexOf(players, p)
    case Some(i) => players[(i + 1) % |players|]
    case None => players[0]
  }

  class Table {
    /** loadPlayersBasicInfos, in table order. */
    const players: seq<Player>
    /** player_tokens.skull_tokens by player. */
    var tokens: map<Player, int>
    /** The faces of player_dice rows with location 'hand', by player. */
    var hands: map<Player, seq<Face>>
    /** The faces of the satans_pool rows. */
    var pool: seq<Face>
    /** player.player_score by player. */
    var scores: map<Player, int>
    /** The framework's current state. */
    var phase: StateName
    /** The active player of an 'activeplayer' state. */
    var activePlayer: Player
    /** The active players of a 'multipleactiveplayer' state. */
    var multiActive: set<Player>
    /** The globals current_action, current_action_player,
        current_target_player, challenge_player and action_data. */
    var currentAction: Option<Action>
    var actionPlayer: Player
    var targetPlayer: Player
    var challenger: Player
    var actionData: ActionData
    /** The globals dice_overflow_player and dice_overflow_count. */
    var overflowPlayer: Player
    var overflowCount: int

    /** What holds of every table between two calls into the engine: 2 to 6
        distinct players, no negative balance, a declarer of Reap Soul or
        Satan's Steal still able to pay while the action is pending, and a
        tie list waiting for the rolloff. */
    ghost predicate Valid()
      reads this
    {
      && 2 <= |players| <= 6
      && NoDuplicates(players)
      && (forall p | p in tokens :: tokens[p] >= 0)
      && (Settling(phase) && currentAction == Some(ReapSoul) ==> Balance(tokens, actionPlayer) >= 2)
      && (Settling(phase) && currentAction == Some(SatansSteal) ==> Balance(tokens, actionPlayer) >= 6)
      && (phase == Rolloff ==> actionData.TiedPlayers? && |actionData.ids| >= 2)
    }

    /** A new table as setupNewGame leaves it: the players seated, scores at
        zero, the first player active, no tokens or dice yet. */
    constructor (ps: seq<Player>)
      requires 2 <= |ps| <= 6 && NoDuplicates(ps)
      ensures Valid()
      ensures players == ps && phase == GameSetup && activePlayer == ps[0]
      ensures tokens == map[] && hands == map[] && pool == [] && multiActive == {}
      ensures scores == map p | p in ps :: 0
      ensures currentAction == None && actionData == NoData
      ensures actionPlayer == 0 && targetPlayer == 0 && challenger == 0
      ensures overflowPlayer == 0 && overflowCount == 0
    {
      players := ps;
      tokens, hands, pool := map[], map[], [];
      scores := map p | p in ps :: 0;
      phase, activePlayer, multiActive := GameSetup, ps[0], {};
      currentAction, actionPlayer, targetPlayer, challenger := None, 0, 0, 0;
      actionData, overflowPlayer, overflowCount := NoData, 0, 0;
    }

    /** checkAction(name) called by `player`: the current state lists the
        action, and the player is the one it waits for. */
    predicate Allows(name: string, player: Player)
      reads this
    {
      && name in PossibleActions(phase)
      && (Type(phase) == ActivePlayer ==> player == activePlayer)
      && (Type(phase) == MultipleActivePlayer ==> player in multiActive)
    }
  }

  /** Only the states the game runs by itself never admit a player action. */
  lemma NothingAllowedInGameStates(t: Table, name: string, player: Player)
    requires Type(t.phase) == GameState || Type(t.phase) == Manager
    ensures !t.Allows(name, player)
  {
    AllowedActions(t.phase, name);
  }
}

/** The state actions of modules/php/Game.php, run by the framework on
    entering their state. Each requires the state it belongs to, which is
    what the framework guarantees when it calls it. */
module GameStates {
  import opened Wrappers
  import opened Constants
  import opened States
  import opened Board
  import opened TableState
  import opened GameEffects
  import DiceValidator
  import GameValidator

  /** stGameSetup: one skull token and two dice for each player, in table
      order, then the first turn. `rolled` holds the two faces drawn for
      each player, player by player. */
  method StGameSetup(t: Table, rolled: seq<Face>)
    requires t.Valid() && t.phase == GameSetup
    requires |rolled| == 2 * |t.players|
    modifies t`tokens, t`hands, t`phase
    ensures t.Valid() && t.phase == PlayerTurn
    ensures forall i :: 0 <= i < |t.players| ==>
      && Balance(t.tokens, t.players[i]) == 1
      && HandOf(t.hands, t.players[i]) == old(HandOf(t.hands, t.players[i])) + [rolled[2 * i], rolled[2 * i + 1]]
    ensures forall q :: q !in t.players ==>
      Balance(t.tokens, q) == old(Balance(t.tokens, q)) && HandOf(t.hands, q) == old(HandOf(t.hands, q))
  {
    GiveStartingTokens(t);
    GiveStartingDice(t, rolled);
    t.phase := Follow(t.phase, "playerTurn");
  }

  /** The first loop of stGameSetup: a token row holding 1 for each player. */
  method GiveStartingTokens(t: Table)
    requires forall q | q in t.tokens :: t.tokens[q] >= 0
    modifies t`tokens
    ensures forall i :: 0 <= i < |t.players| ==> Balance(t.tokens, t.players[i]) == 1
    ensures forall q :: q !in t.players ==> Balance(t.tokens, q) == old(Balance(t.tokens, q))
    ensures forall q | q in t.tokens :: t.tokens[q] >= 0
  {
    var players := t.players;
    for i := 0 to |players|
      invariant forall j :: 0 <= j < i ==> Balance(t.tokens, players[j]) == 1
      invariant forall q :: q !in players ==> Balance(t.tokens, q) == old(Balance(t.tokens, q))
      invariant forall q | q in t.tokens :: t.tokens[q] >= 0
    {
      t.tokens := t.tokens[players[i] := 1];
    }
  }

  /** The second loop of stGameSetup: two new dice for each player, drawn
      from `rolled` two at a time. */
  method GiveStartingDice(t: Table, rolled: seq<Face>)
    requires NoDuplicates(t.players) && |rolled| == 2 * |t.players|
    modifies t`hands
    ensures forall i :: 0 <= i < |t.players| ==>
      HandOf(t.hands, t.players[i]) == old(HandOf(t.hands, t.players[i])) + [rolled[2 * i], rolled[2 * i + 1]]
    ensures forall q :: q !in t.players ==> HandOf(t.hands, q) == old(HandOf(t.hands, q))
  {
    var players := t.players;
    for i := 0 to |players|
      invariant forall j :: 0 <= j < i ==>
        HandOf(t.hands, players[j]) == old(HandOf(t.hands, players[j])) + [rolled[2 * j], rolled[2 * j + 1]]
      invariant forall j :: i <= j < |players| ==> HandOf(t.hands, players[j]) == old(HandOf(t.hands, players[j]))
      invariant forall q :: q !in players ==> HandOf(t.hands, q) == old(HandOf(t.hands, q))
    {
      RollStartingDice(t, players, i, rolled[2 * i], rolled[2 * i + 1]);
    }
  }

  /** The roll of two starting dice for the i-th player of a list of
      distinct players: only that player's hand grows. */
  method RollStartingDice(t: Table, players: seq<Player>, i: nat, r1: Face, r2: Face)
    requires i < |players| && NoDuplicates(players)
    modifies t`hands
    ensures HandOf(t.hands, players[i]) == old(HandOf(t.hands, players[i])) + [r1, r2]
    ensures forall j :: 0 <= j < |players| && j != i ==> HandOf(t.hands, players[j]) == old(HandOf(t.hands, players[j]))
    ensures forall q :: q !in players ==> HandOf(t.hands, q) == old(HandOf(t.hands, q))
  {
    RollDiceForPlayer(t, players[i], [r1, r2]);
  }

  /** stChallengeWindow: every player but the declarer may challenge. With
      two or more seated players that is never nobody. */
  method StChallengeWindow(t: Table)
    requires t.Valid() && t.phase == ChallengeWindow
    modifies t`multiActive
    ensures t.Valid()
    ensures forall p :: p in t.multiActive <==> p in t.players && p != t.actionPlayer
    ensures t.multiActive != {}
  {
    var challengePlayers: seq<Player> := [];
    for i := 0 to |t.players|
      invariant forall p :: p in challengePlayers <==> p in t.players[..i] && p != t.actionPlayer
    {
      if t.players[i] != t.actionPlayer {
        challengePlayers := challengePlayers + [t.players[i]];
      }
    }
    assert t.players[..|t.players|] == t.players;
    t.multiActive := set p | p in challengePlayers;
    if t.players[0] == t.actionPlayer {
      assert t.players[1] in t.multiActive;
    } else {
      assert t.players[0] in t.multiActive;
    }
  }

  /** stResolveChallenge: the claim is checked against the declarer's hand.
      A false claim loses the declarer a die to the challenger and ends the
      turn; a true one costs the challenger a die to Satan's pool (rerolled
      to `newFace`) and the action goes on, to the block window for Extort
      and Reap Soul. */
  method StResolveChallenge(t: Table, newFace: Face)
    requires t.Valid() && t.phase == ResolveChallenge
    modifies t`hands, t`pool, t`phase
    ensures t.Valid()
    ensures var upheld := DiceValidator.ValidateActionClaim(t.currentAction, t.currentAction, old(HandOf(t.hands, t.actionPlayer)));
      && (!upheld ==>
            && t.hands == Stolen(old(t.hands), t.challenger, t.actionPlayer)
            && t.pool == old(t.pool)
            && t.phase == PlayerTurn)
      && (upheld ==>
            && t.hands == Dropped(old(t.hands), t.challenger)
            && t.pool == Refilled(old(t.hands), old(t.pool), t.challenger, newFace)
            && t.phase == (if t.currentAction in {Some(Action.Extort), Some(Action.ReapSoul)} then BlockWindow else ResolveAction))
    ensures old(t.currentAction) == Some(Action.Block) ==> t.phase == PlayerTurn
  {
    var playerDice := HandOf(t.hands, t.actionPlayer);
    var challengeSuccessful := !DiceValidator.ValidateActionClaim(t.currentAction, t.currentAction, playerDice);
    if t.currentAction == Some(Action.Block) {
      DiceValidator.BlockClaimAsWritten(playerDice);
    }
    if challengeSuccessful {
      StealDiceFromPlayer(t, t.challenger, t.actionPlayer);
      t.phase := Follow(t.phase, "playerTurn");
    } else {
      MoveDiceToSatansPool(t, t.challenger, newFace);
      if t.currentAction in {Some(Action.Extort), Some(Action.ReapSoul)} {
        t.phase := Follow(t.phase, "blockWindow");
      } else {
        t.phase := Follow(t.phase, "resolveAction");
      }
    }
  }

  /** The effect of resolving `action` for the action player `p`, as the
      switch of stResolveAction runs it, from the balances, hands and pool
      before to those after. `r1` and `r2` are the faces of the dice Raise
      Hell rolls; Imp's Set rolls `r1`. */
  ghost predicate Resolved(
    action: Option<Action>, p: Player, target: Player, data: ActionData, r1: Face, r2: Face,
    tokens: map<Player, int>, hands: map<Player, seq<Face>>, pool: seq<Face>,
    tokens': map<Player, int>, hands': map<Player, seq<Face>>, pool': seq<Face>)
  {
    match action
    case Some(RaiseHell) =>
      && tokens' == Credit(tokens, p, 1) && HandOf(hands', p) == [r1, r2]
      && (forall q :: q != p ==> HandOf(hands', q) == HandOf(hands, q)) && pool' == pool
    case Some(HarvestSkulls) =>
      tokens' == Credit(tokens, p, 2) && hands' == hands && pool' == pool
    case Some(Extort) =>
      tokens' == Extorted(tokens, p, target) && hands' == hands && pool' == pool
    case Some(ReapSoul) =>
      tokens' == Credit(tokens, p, -2) && hands' == Stolen(hands, p, target) && pool' == pool
    case Some(PentagramAction) =>
      tokens' == tokens && hands' == hands && pool' == []
    case Some(ImpsSet) =>
      && tokens' == tokens && HandOf(hands', p) == HandOf(hands, p) + [r1]
      && (forall q :: q != p ==> HandOf(hands', q) == HandOf(hands, q)) && pool' == pool
    case Some(SatansSteal) =>
      && RecordedTarget(data).Some?
      && tokens' == Credit(tokens, p, -6)
      && hands' == Stolen(hands, p, RecordedTarget(data).value)
      && pool' == pool + (if ChosenPoolFace(data).Some? then [ChosenPoolFace(data).value] else [])
    case _ =>
      tokens' == tokens && hands' == hands && pool' == pool
  }

  /** stResolveAction: runs the declared action's effect for the action
      player (a BLOCK left in current_action runs nothing), then checks for
      a win. Tokens stay non-negative: a Reap Soul or Satan's Steal
      declarer could pay when declaring and still can. A Satan's Steal
      declared through PlayerActions.php records no target, so Game.php's
      executor fails on it and the resolution is rolled back: the table
      stays as it was, in resolveAction. */
  method StResolveAction(t: Table, r1: Face, r2: Face) returns (o: Outcome)
    requires t.Valid() && t.phase == ResolveAction
    modifies t`tokens, t`hands, t`pool, t`phase
    ensures t.Valid()
    ensures o.Rejected? <==> t.currentAction == Some(Action.SatansSteal) && RecordedTarget(t.actionData).None?
    ensures o.Rejected? ==> unchanged(t)
    ensures o.Ok? ==> t.phase == CheckWin
    ensures o.Ok? ==> Resolved(t.currentAction, t.actionPlayer, t.targetPlayer, t.actionData, r1, r2,
      old(t.tokens), old(t.hands), old(t.pool), t.tokens, t.hands, t.pool)
  {
    o := RunDeclaredEffect(t, r1, r2);
    if o.Ok? {
      t.phase := Follow(t.phase, "checkWin");
    }
  }

  /** The switch of stResolveAction: the effect of the recorded action. */
  method RunDeclaredEffect(t: Table, r1: Face, r2: Face) returns (o: Outcome)
    requires forall q | q in t.tokens :: t.tokens[q] >= 0
    requires t.currentAction == Some(Action.ReapSoul) ==> Balance(t.tokens, t.actionPlayer) >= 2
    requires t.currentAction == Some(Action.SatansSteal) ==> Balance(t.tokens, t.actionPlayer) >= 6
    modifies t`tokens, t`hands, t`pool
    ensures forall q | q in t.tokens :: t.tokens[q] >= 0
    ensures o.Rejected? <==> t.currentAction == Some(Action.SatansSteal) && RecordedTarget(t.actionData).None?
    ensures o.Rejected? ==> t.tokens == old(t.tokens) && t.hands == old(t.hands) && t.pool == old(t.pool)
    ensures o.Ok? ==> Resolved(t.currentAction, t.actionPlayer, t.targetPlayer, t.actionData, r1, r2,
      old(t.tokens), old(t.hands), old(t.pool), t.tokens, t.hands, t.pool)
  {
    var actionPlayerId := t.actionPlayer;
    var targetPlayerId := t.targetPlayer;
    o := Ok;
    match t.currentAction {
    case Some(RaiseHell) =>
      CreditKeepsNonNegative(t.tokens, actionPlayerId, 1);
      ExecuteRaiseHell(t, actionPlayerId, r1, r2);
    case Some(HarvestSkulls) =>
      CreditKeepsNonNegative(t.tokens, actionPlayerId, 2);
      ExecuteHarvestSkulls(t, actionPlayerId);
    case Some(Extort) =>
      ExtortKeepsBalancesNonNegative(t.tokens, actionPlayerId, targetPlayerId);
      ExecuteExtort(t, actionPlayerId, targetPlayerId);
    case Some(ReapSoul) =>
      CreditKeepsNonNegative(t.tokens, actionPlayerId, -2);
      ExecuteReapSoul(t, actionPlayerId, targetPlayerId);
    case Some(PentagramAction) =>
      ExecutePentagram(t, actionPlayerId);
    case Some(ImpsSet) =>
      ExecuteImpsSet(t, actionPlayerId, r1);
    case Some(SatansSteal) =>
      CreditKeepsNonNegative(t.tokens, actionPlayerId, -6);
      o := ExecuteSatansSteal(t, actionPlayerId);
    case _ =>
    }
  }

  /** The private checkForWinners of Game.php: the players, in table
      order, whose hand and the pool together show all six faces. */
  method CheckForWinners(t: Table) returns (winners: seq<Player>)
    ensures winners == GameValidator.CheckForWinners(t.players, t.hands, t.pool)
  {
    winners := [];
    for i := 0 to |t.players|
      invariant winners == GameValidator.CheckForWinners(t.players[..i], t.hands, t.pool)
    {
      GameValidator.WinnersKeepOrder(t.players[..i], [t.players[i]], t.hands, t.pool);
      assert t.players[..i + 1] == t.players[..i] + [t.players[i]];
      if GameValidator.HasAllSymbols(HandOf(t.hands, t.players[i]), t.pool) {
        winners := winners + [t.players[i]];
      }
    }
    assert t.players[..|t.players|] == t.players;
  }

  /** stCheckWin: a single winner scores 1 and the game ends; several
      winners go to the rolloff, listed in action_data; with none the turn
      passes to the next player in table order. */
  method StCheckWin(t: Table)
    requires t.Valid() && t.phase == CheckWin
    modifies t`scores, t`actionData, t`activePlayer, t`phase
    ensures t.Valid()
    ensures var w := GameValidator.CheckForWinners(t.players, t.hands, t.pool);
      && (|w| == 1 ==> t.scores == old(t.scores)[w[0] := 1] && t.phase == GameEnd)
      && (|w| > 1 ==>
            && t.actionData == TiedPlayers(w) && NoDuplicates(w)
            && t.scores == old(t.scores) && t.phase == Rolloff)
      && (|w| == 0 ==>
            && t.activePlayer == NextPlayer(t.players, old(t.activePlayer))
            && t.scores == old(t.scores) && t.phase == PlayerTurn)
  {
    var winners := CheckForWinners(t);
    GameValidator.WinnersDistinct(t.players, t.hands, t.pool);
    RouteByWinners(t, winners);
  }

  /** The branches of stCheckWin on a duplicate-free winner list. */
  method RouteByWinners(t: Table, winners: seq<Player>)
    requires t.Valid() && t.phase == CheckWin && NoDuplicates(winners)
    modifies t`scores, t`actionData, t`activePlayer, t`phase
    ensures t.Valid()
    ensures |winners| == 1 ==> t.scores == old(t.scores)[winners[0] := 1] && t.phase == GameEnd
    ensures |winners| > 1 ==> t.actionData == TiedPlayers(winners) && t.scores == old(t.scores) && t.phase == Rolloff
    ensures |winners| == 0 ==>
      t.activePlayer == NextPlayer(t.players, old(t.activePlayer)) && t.scores == old(t.scores) && t.phase == PlayerTurn
  {
    CheckWinRoutes();
    if |winners| == 1 {
      t.scores := t.scores[winners[0] := 1];
      t.phase := Follow(t.phase, "endGame");
    } else if |winners| > 1 {
      t.actionData := TiedPlayers(winners);
      t.phase := Follow(t.phase, "rolloff");
    } else {
      t.activePlayer := NextPlayer(t.players, t.activePlayer);
      t.phase := Follow(t.phase, "playerTurn");
    }
  }

  /** stRolloff: each tied player's Imps among their dice and the pool are
      counted, and the first tied player with the most Imps scores 1 (a
      single leader or, on a tie at the top, the first of them: both
      branches of the source pick entry 0); then the game ends. `how`
      says how countImpsForPlayer counts: AsQueried is the code as written,
      EveryDie the count it evidently intends. */
  method StRolloff(t: Table, how: GameValidator.ImpCounting)
    requires t.Valid() && t.phase == Rolloff
    modifies t`scores, t`phase
    ensures t.Valid() && t.phase == GameEnd
    ensures var ids := t.actionData.ids;
      var counts := GameValidator.ImpCounts(how, ids, t.hands, t.pool);
      t.scores == old(t.scores)[ids[GameValidator.RolloffIndex(counts)] := 1]
  {
    CheckWinRoutes();
    var winners, hands, pool := t.actionData.ids, t.hands, t.pool;
    var first := RolloffWinner(how, winners, hands, pool);
    var scores := t.scores[winners[first] := 1];
    t.scores := scores;
    t.phase := Follow(t.phase, "endGame");
    assert t.actionData.ids == winners && t.hands == hands && t.pool == pool && t.scores == scores;
  }

  /** The loop of stRolloff: the Imp count of each tied player, in tie
      order, then the first position holding the largest count. */
  method RolloffWinner(how: GameValidator.ImpCounting, winners: seq<Player>, hands: map<Player, seq<Face>>, pool: seq<Face>)
    returns (first: nat)
    requires winners != []
    ensures first < |winners|
    ensures first == GameValidator.RolloffIndex(GameValidator.ImpCounts(how, winners, hands, pool))
  {
    var rolloffResults: seq<nat> := [];
    for i := 0 to |winners|
      invariant |rolloffResults| == i
      invariant forall j :: 0 <= j < i ==> rolloffResults[j] == GameValidator.ImpCount(how, HandOf(hands, winners[j]), pool)
    {
      rolloffResults := rolloffResults + [GameValidator.ImpCount(how, HandOf(hands, winners[i]), pool)];
    }
    assert rolloffResults == GameValidator.ImpCounts(how, winners, hands, pool);
    var maxImps := GameValidator.MaxOf(rolloffResults);
    first := GameValidator.FirstIndexOf(rolloffResults, maxImps);
  }
}

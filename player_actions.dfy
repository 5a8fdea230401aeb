/** The entry points of modules/php/PlayerActions.php that differ from
    those of Game.php: impsSet, satansSteal, the multi-active pass and the
    overflow face choice. Its raiseHell, harvestSkulls, extort, reapSoul,
    pentagram, challenge and block do what Game.php's do and are the
    members of GameActions. */
module PlayerActions {
  import opened Wrappers
  import opened Constants
  import opened States
  import opened Board
  import opened TableState
  import opened TokenManager

  /** impsSet: records the declaration; a declarer holding at most one die
      skips the challenge window and goes straight to resolution. */
  method ImpsSet(t: Table, player: Player) returns (o: Outcome)
    requires t.Valid()
    modifies t`currentAction, t`actionPlayer, t`phase
    ensures t.Valid()
    ensures o.Ok? <==> old(t.Allows("impsSet", player))
    ensures o.Rejected? ==> unchanged(t)
    ensures o.Ok? ==>
      && t.currentAction == Some(Action.ImpsSet) && t.actionPlayer == player
      && t.phase == (if |HandOf(t.hands, player)| <= 1 then ResolveAction else ChallengeWindow)
  {
    if !t.Allows("impsSet", player) {
      return Rejected("impsSet is not possible now");
    }
    ActionHome(t.phase, "impsSet");
    t.currentAction, t.actionPlayer := Some(Action.ImpsSet), player;
    var diceCount := |HandOf(t.hands, player)|;
    if diceCount <= 1 {
      t.phase := Follow(t.phase, "resolveAction");
    } else {
      t.phase := Follow(t.phase, "challengeWindow");
    }
    o := Ok;
  }

  /** satansSteal: for a player holding at least six tokens, records the
      declaration and its target, and stores only the pool choice in
      action_data; then straight to resolution. */
  method SatansSteal(t: Table, player: Player, targetPlayerId: Player, putInPool: bool, poolFace: Option<Face>)
    returns (o: Outcome)
    requires t.Valid()
    modifies t`currentAction, t`actionPlayer, t`targetPlayer, t`actionData, t`phase
    ensures t.Valid()
    ensures o.Ok? <==> old(t.Allows("satansSteal", player)) && old(HasEnoughSkullTokens(t, player, 6))
    ensures o.Rejected? ==> unchanged(t)
    ensures o.Ok? ==>
      && t.currentAction == Some(Action.SatansSteal) && t.actionPlayer == player
      && t.targetPlayer == targetPlayerId
      && t.actionData == StealChoice(None, putInPool, poolFace)
      && t.phase == ResolveAction
  {
    if !t.Allows("satansSteal", player) {
      return Rejected("satansSteal is not possible now");
    }
    if !HasEnoughSkullTokens(t, player, 6) {
      return Rejected("You need 6 skull tokens to use Satan's Steal");
    }
    ActionHome(t.phase, "satansSteal");
    t.currentAction, t.actionPlayer, t.targetPlayer := Some(Action.SatansSteal), player, targetPlayerId;
    t.actionData := StealChoice(None, putInPool, poolFace);
    t.phase := Follow(t.phase, "resolveAction");
    o := Ok;
  }

  /** pass: in the challenge window the player only stops being active, and
      once nobody is left the action resolves (whatever it is, Extort and
      Reap Soul included); in the block window the action resolves at
      once. */
  method Pass(t: Table, player: Player) returns (o: Outcome)
    requires t.Valid()
    modifies t`multiActive, t`phase
    ensures t.Valid()
    ensures o.Ok? <==> old(t.Allows("pass", player))
    ensures o.Rejected? ==> unchanged(t)
    ensures o.Ok? && old(t.phase) == ChallengeWindow ==>
      && t.multiActive == old(t.multiActive) - {player}
      && t.phase == (if t.multiActive == {} then ResolveAction else ChallengeWindow)
    ensures o.Ok? && old(t.phase) == BlockWindow ==>
      t.multiActive == old(t.multiActive) && t.phase == ResolveAction
  {
    if !t.Allows("pass", player) {
      return Rejected("pass is not possible now");
    }
    ActionHome(t.phase, "pass");
    if t.phase == ChallengeWindow {
      t.multiActive := t.multiActive - {player};
      if t.multiActive == {} {
        t.phase := Follow(t.phase, "resolveAction");
      }
    } else {
      t.phase := Follow(t.phase, "resolveAction");
    }
    o := Ok;
  }

  /** chooseDiceOverflowFace: the player who overflowed names a valid face;
      a die on that face goes to Satan's pool instead of their hand, the
      overflow globals are cleared, and the win check follows. */
  method ChooseDiceOverflowFace(t: Table, player: Player, face: string) returns (o: Outcome)
    requires t.Valid()
    modifies t`pool, t`overflowPlayer, t`overflowCount, t`phase
    ensures t.Valid()
    ensures o.Ok? <==>
      old(t.Allows("chooseDiceOverflowFace", player)) && ParseFace(face).Some? && player == old(t.overflowPlayer)
    ensures o.Rejected? ==> unchanged(t)
    ensures o.Ok? ==>
      && t.pool == old(t.pool) + [ParseFace(face).value]
      && FaceName(t.pool[|t.pool| - 1]) == face
      && t.overflowPlayer == 0 && t.overflowCount == 0
      && t.phase == CheckWin
  {
    if !t.Allows("chooseDiceOverflowFace", player) {
      return Rejected("chooseDiceOverflowFace is not possible now");
    }
    var chosen := ParseFace(face);
    if chosen.None? {
      return Rejected("Invalid dice face");
    }
    if player != t.overflowPlayer {
      return Rejected("Only the player who caused the overflow can choose the face");
    }
    ActionHome(t.phase, "chooseDiceOverflowFace");
    t.pool := t.pool + [chosen.value];
    t.overflowPlayer, t.overflowCount := 0, 0;
    t.phase := Follow(t.phase, "checkWin");
    o := Ok;
  }
}

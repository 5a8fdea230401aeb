/** The player entry points of modules/php/Game.php. Each starts with
    checkAction, which throws unless the current state offers the action to
    the calling player; a thrown exception rolls the whole call back, so a
    rejected call leaves the table as it was. */
module GameActions {
  import opened Wrappers
  import opened Constants
  import opened States
  import opened Board
  import opened TableState

  /** raiseHell: records the declaration and opens the challenge window. */
  method RaiseHell(t: Table, player: Player) returns (o: Outcome)
    requires t.Valid()
    modifies t`currentAction, t`actionPlayer, t`phase
    ensures t.Valid()
    ensures o.Ok? <==> old(t.Allows("raiseHell", player))
    ensures o.Rejected? ==> unchanged(t)
    ensures o.Ok? ==> t.currentAction == Some(Action.RaiseHell) && t.actionPlayer == player && t.phase == ChallengeWindow
  {
    if !t.Allows("raiseHell", player) {
      return Rejected("raiseHell is not possible now");
    }
    ActionHome(t.phase, "raiseHell");
    t.currentAction, t.actionPlayer := Some(Action.RaiseHell), player;
    t.phase := Follow(t.phase, "challengeWindow");
    o := Ok;
  }

  /** harvestSkulls: records the declaration and opens the challenge window. */
  method HarvestSkulls(t: Table, player: Player) returns (o: Outcome)
    requires t.Valid()
    modifies t`currentAction, t`actionPlayer, t`phase
    ensures t.Valid()
    ensures o.Ok? <==> old(t.Allows("harvestSkulls", player))
    ensures o.Rejected? ==> unchanged(t)
    ensures o.Ok? ==> t.currentAction == Some(Action.HarvestSkulls) && t.actionPlayer == player && t.phase == ChallengeWindow
  {
    if !t.Allows("harvestSkulls", player) {
      return Rejected("harvestSkulls is not possible now");
    }
    ActionHome(t.phase, "harvestSkulls");
    t.currentAction, t.actionPlayer := Some(Action.HarvestSkulls), player;
    t.phase := Follow(t.phase, "challengeWindow");
    o := Ok;
  }

  /** extort: records the declaration and its target, and opens the
      challenge window. */
  method Extort(t: Table, player: Player, targetPlayerId: Player) returns (o: Outcome)
    requires t.Valid()
    modifies t`currentAction, t`actionPlayer, t`targetPlayer, t`phase
    ensures t.Valid()
    ensures o.Ok? <==> old(t.Allows("extort", player))
    ensures o.Rejected? ==> unchanged(t)
    ensures o.Ok? ==>
      && t.currentAction == Some(Action.Extort) && t.actionPlayer == player
      && t.targetPlayer == targetPlayerId && t.phase == ChallengeWindow
  {
    if !t.Allows("extort", player) {
      return Rejected("extort is not possible now");
    }
    ActionHome(t.phase, "extort");
    t.currentAction, t.actionPlayer, t.targetPlayer := Some(Action.Extort), player, targetPlayerId;
    t.phase := Follow(t.phase, "challengeWindow");
    o := Ok;
  }

  /** reapSoul: as extort, but only for a player holding at least two
      tokens. */
  method ReapSoul(t: Table, player: Player, targetPlayerId: Player) returns (o: Outcome)
    requires t.Valid()
    modifies t`currentAction, t`actionPlayer, t`targetPlayer, t`phase
    ensures t.Valid()
    ensures o.Ok? <==> old(t.Allows("reapSoul", player)) && Balance(t.tokens, player) >= 2
    ensures o.Rejected? ==> unchanged(t)
    ensures o.Ok? ==>
      && t.currentAction == Some(Action.ReapSoul) && t.actionPlayer == player
      && t.targetPlayer == targetPlayerId && t.phase == ChallengeWindow
  {
    if !t.Allows("reapSoul", player) {
      return Rejected("reapSoul is not possible now");
    }
    if Balance(t.tokens, player) < 2 {
      return Rejected("You need 2 skull tokens to use Reap Soul");
    }
    ActionHome(t.phase, "reapSoul");
    t.currentAction, t.actionPlayer, t.targetPlayer := Some(Action.ReapSoul), player, targetPlayerId;
    t.phase := Follow(t.phase, "challengeWindow");
    o := Ok;
  }

  /** pentagram: records the declaration and opens the challenge window. */
  method Pentagram(t: Table, player: Player) returns (o: Outcome)
    requires t.Valid()
    modifies t`currentAction, t`actionPlayer, t`phase
    ensures t.Valid()
    ensures o.Ok? <==> old(t.Allows("pentagram", player))
    ensures o.Rejected? ==> unchanged(t)
    ensures o.Ok? ==> t.currentAction == Some(Action.PentagramAction) && t.actionPlayer == player && t.phase == ChallengeWindow
  {
    if !t.Allows("pentagram", player) {
      return Rejected("pentagram is not possible now");
    }
    ActionHome(t.phase, "pentagram");
    t.currentAction, t.actionPlayer := Some(Action.PentagramAction), player;
    t.phase := Follow(t.phase, "challengeWindow");
    o := Ok;
  }

  /** impsSet of Game.php: records the declaration and always opens the
      challenge window. */
  method ImpsSet(t: Table, player: Player) returns (o: Outcome)
    requires t.Valid()
    modifies t`currentAction, t`actionPlayer, t`phase
    ensures t.Valid()
    ensures o.Ok? <==> old(t.Allows("impsSet", player))
    ensures o.Rejected? ==> unchanged(t)
    ensures o.Ok? ==> t.currentAction == Some(Action.ImpsSet) && t.actionPlayer == player && t.phase == ChallengeWindow
  {
    if !t.Allows("impsSet", player) {
      return Rejected("impsSet is not possible now");
    }
    ActionHome(t.phase, "impsSet");
    t.currentAction, t.actionPlayer := Some(Action.ImpsSet), player;
    t.phase := Follow(t.phase, "challengeWindow");
    o := Ok;
  }

  /** satansSteal of Game.php: for a player holding at least six tokens,
      records the declaration, its target and the pool choice in
      action_data, and goes straight to resolution: it cannot be
      challenged. */
  method SatansSteal(t: Table, player: Player, targetPlayerId: Player, putInPool: bool, poolFace: Option<Face>)
    returns (o: Outcome)
    requires t.Valid()
    modifies t`currentAction, t`actionPlayer, t`targetPlayer, t`actionData, t`phase
    ensures t.Valid()
    ensures o.Ok? <==> old(t.Allows("satansSteal", player)) && Balance(t.tokens, player) >= 6
    ensures o.Rejected? ==> unchanged(t)
    ensures o.Ok? ==>
      && t.currentAction == Some(Action.SatansSteal) && t.actionPlayer == player
      && t.targetPlayer == targetPlayerId
      && t.actionData == StealChoice(Some(targetPlayerId), putInPool, poolFace)
      && t.phase == ResolveAction
  {
    if !t.Allows("satansSteal", player) {
      return Rejected("satansSteal is not possible now");
    }
    if Balance(t.tokens, player) < 6 {
      return Rejected("You need 6 skull tokens to use Satan's Steal");
    }
    ActionHome(t.phase, "satansSteal");
    t.currentAction, t.actionPlayer, t.targetPlayer := Some(Action.SatansSteal), player, targetPlayerId;
    t.actionData := StealChoice(Some(targetPlayerId), putInPool, poolFace);
    t.phase := Follow(t.phase, "resolveAction");
    o := Ok;
  }

  /** challenge: records the challenger and resolves the challenge. */
  method Challenge(t: Table, player: Player) returns (o: Outcome)
    requires t.Valid()
    modifies t`challenger, t`phase
    ensures t.Valid()
    ensures o.Ok? <==> old(t.Allows("challenge", player))
    ensures o.Rejected? ==> unchanged(t)
    ensures o.Ok? ==> t.challenger == player && t.phase == ResolveChallenge
  {
    if !t.Allows("challenge", player) {
      return Rejected("challenge is not possible now");
    }
    ActionHome(t.phase, "challenge");
    t.challenger := player;
    t.phase := Follow(t.phase, "resolveChallenge");
    o := Ok;
  }

  /** block: only Extort and Reap Soul can be blocked. The blocker becomes
      the action player and BLOCK replaces the blocked action in
      current_action, and the challenge window opens on the block. The
      block window is an active-player state and nothing makes the target
      active, so only the active player can block. */
  method Block(t: Table, player: Player) returns (o: Outcome)
    requires t.Valid()
    modifies t`currentAction, t`actionPlayer, t`phase
    ensures t.Valid()
    ensures o.Ok? <==>
      old(t.Allows("block", player)) && old(t.currentAction) in {Some(Action.Extort), Some(Action.ReapSoul)}
    ensures o.Rejected? ==> unchanged(t)
    ensures o.Ok? ==> t.currentAction == Some(Action.Block) && t.actionPlayer == player && t.phase == ChallengeWindow
    ensures o.Ok? ==> player == t.activePlayer
  {
    if !t.Allows("block", player) {
      return Rejected("block is not possible now");
    }
    if t.currentAction !in {Some(Action.Extort), Some(Action.ReapSoul)} {
      return Rejected("This action cannot be blocked");
    }
    ActionHome(t.phase, "block");
    t.actionPlayer, t.currentAction := player, Some(Action.Block);
    t.phase := Follow(t.phase, "challengeBlock");
    o := Ok;
  }

  /** pass of Game.php: one pass closes the window. In the challenge window
      it opens the block window for Extort and Reap Soul and resolves any
      other action; in the block window it resolves the action. */
  method Pass(t: Table, player: Player) returns (o: Outcome)
    requires t.Valid()
    modifies t`phase
    ensures t.Valid()
    ensures o.Ok? <==> old(t.Allows("pass", player))
    ensures o.Rejected? ==> unchanged(t)
    ensures o.Ok? && old(t.phase) == ChallengeWindow ==>
      t.phase == (if t.currentAction in {Some(Action.Extort), Some(Action.ReapSoul)} then BlockWindow else ResolveAction)
    ensures o.Ok? && old(t.phase) == BlockWindow ==> t.phase == ResolveAction
  {
    if !t.Allows("pass", player) {
      return Rejected("pass is not possible now");
    }
    ActionHome(t.phase, "pass");
    if t.phase == ChallengeWindow {
      if t.currentAction in {Some(Action.Extort), Some(Action.ReapSoul)} {
        t.phase := Follow(t.phase, "blockWindow");
      } else {
        t.phase := Follow(t.phase, "resolveAction");
      }
    } else {
      t.phase := Follow(t.phase, "resolveAction");
    }
    o := Ok;
  }
}

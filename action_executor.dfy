/** modules/php/ActionExecutor.php: the action effects built on the token
    and dice managers. Its executeExtort and executeReapSoul do what
    Game.php's do and are the members of GameEffects. The game's
    addOrRemoveDice, which decides whether a gained die fits the hand, is
    not part of this model: whether the die fits is the parameter `fits`,
    and the face of the die it would roll is `gained`. */
module ActionExecutor {
  import opened Constants
  import opened Board
  import opened TableState
  import opened TokenManager
  import DiceManager
  import opened GameEffects

  /** addOrRemoveDice(p, 1) as this model takes it: a die that fits joins
      the hand; otherwise the player is recorded as overflowing by one die
      and the hand is left alone. */
  method GainOneDie(t: Table, p: Player, gained: Face, fits: bool)
    modifies t`hands, t`overflowPlayer, t`overflowCount
    ensures fits ==>
      && HandOf(t.hands, p) == old(HandOf(t.hands, p)) + [gained]
      && t.overflowPlayer == old(t.overflowPlayer) && t.overflowCount == old(t.overflowCount)
    ensures !fits ==> t.hands == old(t.hands) && t.overflowPlayer == p && t.overflowCount == 1
    ensures forall q :: q != p ==> HandOf(t.hands, q) == old(HandOf(t.hands, q))
  {
    if fits {
      t.hands := t.hands[p := HandOf(t.hands, p) + [gained]];
    } else {
      t.overflowPlayer, t.overflowCount := p, 1;
    }
  }

  /** A hand whose newest die (the last, highest dice_id) shows `face`. */
  function WithNewestFace(hand: seq<Face>, face: Face): (r: seq<Face>)
    ensures |r| == |hand|
    ensures hand != [] ==> r[|r| - 1] == face && r[..|r| - 1] == hand[..|hand| - 1]
  {
    if hand == [] then [] else hand[..|hand| - 1] + [face]
  }

  /** `UPDATE player_dice SET face = … ORDER BY dice_id DESC LIMIT 1`. */
  method SetNewestFace(t: Table, p: Player, face: Face)
    modifies t`hands
    ensures HandOf(t.hands, p) == WithNewestFace(old(HandOf(t.hands, p)), face)
    ensures forall q :: q != p ==> HandOf(t.hands, q) == old(HandOf(t.hands, q))
  {
    var hand := HandOf(t.hands, p);
    if hand != [] {
      t.hands := t.hands[p := WithNewestFace(hand, face)];
    }
  }

  /** The list without its first `f`, the pool after the first pentagram
      die is deleted. */
  function RemoveFirst(xs: seq<Face>, f: Face): seq<Face> {
    if xs == [] then []
    else if xs[0] == f then xs[1..]
    else [xs[0]] + RemoveFirst(xs[1..], f)
  }

  /** Removing the first `f` takes exactly one `f` out when there is one,
      and nothing otherwise. */
  lemma {:induction false} RemoveFirstTakesOne(xs: seq<Face>, f: Face)
    ensures f in xs ==> |RemoveFirst(xs, f)| == |xs| - 1 && multiset(RemoveFirst(xs, f)) == multiset(xs) - multiset{f}
    ensures f !in xs ==> RemoveFirst(xs, f) == xs
  {
    if xs == [] {
    } else if xs[0] == f {
      assert xs == [xs[0]] + xs[1..];
      assert multiset(xs) == multiset{f} + multiset(xs[1..]);
    } else {
      var rest := xs[1..];
      RemoveFirstTakesOne(rest, f);
      assert xs == [xs[0]] + rest;
      assert RemoveFirst(xs, f) == [xs[0]] + RemoveFirst(rest, f);
      assert f in xs <==> f in rest;
      if f in xs {
        assert multiset(RemoveFirst(xs, f)) == multiset{xs[0]} + multiset(RemoveFirst(rest, f));
        assert multiset(xs) == multiset{xs[0]} + multiset(rest);
      }
    }
  }

  /** Deleting at the first position holding `f` is removing the first `f`. */
  lemma {:induction false} RemoveFirstAt(xs: seq<Face>, f: Face, k: nat)
    requires k < |xs| && xs[k] == f
    requires forall j :: 0 <= j < k ==> xs[j] != f
    ensures RemoveFirst(xs, f) == xs[..k] + xs[k + 1..]
  {
    if k > 0 {
      RemoveFirstAt(xs[1..], f, k - 1);
      assert xs[1..][..k - 1] == xs[1..k];
      assert xs[1..][k..] == xs[k + 1..];
      assert xs[..k] == [xs[0]] + xs[1..k];
    }
  }

  /** executeRaiseHell: one token, then every die in the hand is rerolled;
      `rolled` holds one new face per die. */
  method ExecuteRaiseHell(t: Table, playerId: Player, rolled: seq<Face>)
    requires |rolled| == |HandOf(t.hands, playerId)|
    modifies t`tokens, t`hands
    ensures t.tokens == Credit(old(t.tokens), playerId, 1)
    ensures HandOf(t.hands, playerId) == rolled
    ensures |HandOf(t.hands, playerId)| == old(|HandOf(t.hands, playerId)|)
    ensures forall q :: q != playerId ==> HandOf(t.hands, q) == old(HandOf(t.hands, q))
  {
    var newTokenCount := AddSkullTokens(t, playerId, 1);
    DiceManager.RollDiceForPlayer(t, playerId, rolled);
  }

  /** executeHarvestSkulls: two tokens through the token manager. */
  method ExecuteHarvestSkulls(t: Table, playerId: Player)
    modifies t`tokens
    ensures t.tokens == Credit(old(t.tokens), playerId, 2)
  {
    var newTokenCount := AddSkullTokens(t, playerId, 2);
  }

  /** executePentagram: every pool die is rerolled in place (`rolled` holds
      the new faces, in pool order); if any shows a pentagram, the first
      such die leaves the pool and the player gains one die set to
      pentagram. When the die does not fit, the UPDATE still turns the
      player's newest existing die to pentagram. */
  method ExecutePentagram(t: Table, playerId: Player, rolled: seq<Face>, gained: Face, fits: bool)
    requires |rolled| == |t.pool|
    modifies t`pool, t`hands, t`overflowPlayer, t`overflowCount
    ensures t.pool == RemoveFirst(rolled, Pentagram)
    ensures |t.pool| == old(|t.pool|) - (if Pentagram in rolled then 1 else 0)
    ensures Pentagram !in rolled ==>
      t.hands == old(t.hands) && t.overflowPlayer == old(t.overflowPlayer) && t.overflowCount == old(t.overflowCount)
    ensures Pentagram in rolled && fits ==>
      && HandOf(t.hands, playerId) == old(HandOf(t.hands, playerId)) + [Pentagram]
      && |t.pool| + |HandOf(t.hands, playerId)| == old(|t.pool| + |HandOf(t.hands, playerId)|)
    ensures Pentagram in rolled && !fits ==>
      && HandOf(t.hands, playerId) == WithNewestFace(old(HandOf(t.hands, playerId)), Pentagram)
      && t.overflowPlayer == playerId && t.overflowCount == 1
    ensures forall q :: q != playerId ==> HandOf(t.hands, q) == old(HandOf(t.hands, q))
  {
    var pentagramDiceIds := RerollPool(t, rolled);
    var pentagramsRolled := |pentagramDiceIds|;
    RemoveFirstTakesOne(rolled, Pentagram);
    if pentagramsRolled > 0 {
      var diceIdToRemove := pentagramDiceIds[0];
      RemoveFirstAt(rolled, Pentagram, diceIdToRemove);
      t.pool := t.pool[..diceIdToRemove] + t.pool[diceIdToRemove + 1..];
      GainOneDie(t, playerId, gained, fits);
      ghost var grown := HandOf(t.hands, playerId);
      SetNewestFace(t, playerId, Pentagram);
      if fits {
        assert grown[..|grown| - 1] == old(HandOf(t.hands, playerId));
      }
    }
  }

  /** The reroll loop of executePentagram: each pool die, in turn, takes
      its new face in place; the positions that came up pentagram are
      collected in order. */
  method RerollPool(t: Table, rolled: seq<Face>) returns (pentagramDiceIds: seq<nat>)
    requires |rolled| == |t.pool|
    modifies t`pool
    ensures t.pool == rolled
    ensures pentagramDiceIds != [] <==> Pentagram in rolled
    ensures pentagramDiceIds != [] ==>
      && pentagramDiceIds[0] < |rolled| && rolled[pentagramDiceIds[0]] == Pentagram
      && forall j :: 0 <= j < pentagramDiceIds[0] ==> rolled[j] != Pentagram
  {
    var pentagramsRolled := 0;
    pentagramDiceIds := [];
    for i := 0 to |rolled|
      invariant |t.pool| == |rolled|
      invariant forall k :: 0 <= k < i ==> t.pool[k] == rolled[k]
      invariant pentagramsRolled == |pentagramDiceIds|
      invariant forall k :: 0 <= k < |pentagramDiceIds| ==> pentagramDiceIds[k] < i && rolled[pentagramDiceIds[k]] == Pentagram
      invariant forall j :: 0 <= j < i && rolled[j] == Pentagram ==> pentagramDiceIds != [] && pentagramDiceIds[0] <= j
    {
      var newFace := rolled[i];
      t.pool := t.pool[i := newFace];
      if newFace == Pentagram {
        pentagramsRolled := pentagramsRolled + 1;
        pentagramDiceIds := pentagramDiceIds + [i];
      }
    }
    assert t.pool == rolled;
  }

  /** executeImpsSet: the player gains one die. */
  method ExecuteImpsSet(t: Table, playerId: Player, gained: Face, fits: bool)
    modifies t`hands, t`overflowPlayer, t`overflowCount
    ensures fits ==> HandOf(t.hands, playerId) == old(HandOf(t.hands, playerId)) + [gained]
    ensures !fits ==> t.hands == old(t.hands) && t.overflowPlayer == playerId && t.overflowCount == 1
    ensures forall q :: q != playerId ==> HandOf(t.hands, q) == old(HandOf(t.hands, q))
  {
    GainOneDie(t, playerId, gained, fits);
  }

  /** executeSatansSteal: pays six tokens; the target (current_target_player)
      then either loses their first die to Satan's pool on the chosen face,
      when action_data asks for that, or has it stolen. Either way no die
      is created or destroyed. */
  method ExecuteSatansSteal(t: Table, playerId: Player)
    modifies t`tokens, t`hands, t`pool
    ensures t.tokens == Credit(old(t.tokens), playerId, -6)
    ensures ChosenPoolFace(t.actionData).Some? ==>
      && t.hands == Dropped(old(t.hands), t.targetPlayer)
      && t.pool == Refilled(old(t.hands), old(t.pool), t.targetPlayer, ChosenPoolFace(t.actionData).value)
    ensures ChosenPoolFace(t.actionData).None? ==>
      t.hands == Stolen(old(t.hands), playerId, t.targetPlayer) && t.pool == old(t.pool)
    ensures NoDuplicates(t.players) && playerId in t.players && t.targetPlayer in t.players ==>
      TotalDice(t.players, t.hands) + |t.pool| == old(TotalDice(t.players, t.hands) + |t.pool|)
  {
    var targetId := t.targetPlayer;
    var poolFace := ChosenPoolFace(t.actionData);
    t.tokens := Credit(t.tokens, playerId, -6);
    if poolFace.Some? {
      if NoDuplicates(t.players) && targetId in t.players {
        PoolLossConserves(t.players, t.hands, t.pool, targetId, poolFace.value);
      }
      MoveDiceToSatansPool(t, targetId, poolFace.value);
    } else {
      if NoDuplicates(t.players) && playerId in t.players && targetId in t.players {
        StealKeepsTotal(t.players, t.hands, playerId, targetId);
      }
      StealDiceFromPlayer(t, playerId, targetId);
    }
  }
}

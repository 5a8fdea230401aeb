/** The private helpers of modules/php/Game.php that move dice and tokens,
    and its own versions of the seven action effects, run by its
    stResolveAction. Each random face the source draws with array_rand is
    a parameter. */
module GameEffects {
  import opened Wrappers
  import opened Constants
  import opened Board
  import opened TableState

  /** The hands after stealDiceFromPlayer: the victim's first die, if there
      is one, changes owner and keeps its face. */
  function Stolen(hands: map<Player, seq<Face>>, stealer: Player, victim: Player): map<Player, seq<Face>> {
    var v := HandOf(hands, victim);
    if v == [] then hands
    else
      var rest := hands[victim := v[1..]];
      rest[stealer := HandOf(rest, stealer) + [v[0]]]
  }

  /** A steal between two players moves exactly one die, the victim's
      first, when the victim has one, and is a no-op otherwise; the dice
      of the pair are conserved and nobody else's hand changes. */
  lemma StealMovesOneDie(hands: map<Player, seq<Face>>, stealer: Player, victim: Player)
    requires stealer != victim
    ensures var r := Stolen(hands, stealer, victim);
      && (HandOf(hands, victim) == [] ==> r == hands)
      && (HandOf(hands, victim) != [] ==>
            && HandOf(r, victim) == HandOf(hands, victim)[1..]
            && HandOf(r, stealer) == HandOf(hands, stealer) + [HandOf(hands, victim)[0]])
      && multiset(HandOf(r, stealer)) + multiset(HandOf(r, victim)) ==
         multiset(HandOf(hands, stealer)) + multiset(HandOf(hands, victim))
      && forall q :: q != stealer && q != victim ==> HandOf(r, q) == HandOf(hands, q)
  {
    var v := HandOf(hands, victim);
    if v != [] {
      assert v == [v[0]] + v[1..];
    }
  }

  /** Stealing from oneself keeps one's dice, moving the first to the end. */
  lemma StealFromSelf(hands: map<Player, seq<Face>>, p: Player)
    ensures multiset(HandOf(Stolen(hands, p, p), p)) == multiset(HandOf(hands, p))
    ensures forall q :: q != p ==> HandOf(Stolen(hands, p, p), q) == HandOf(hands, q)
  {
    var v := HandOf(hands, p);
    if v != [] {
      assert v == [v[0]] + v[1..];
    }
  }

  /** A steal between seated players keeps the number of dice at the table. */
  lemma StealKeepsTotal(ps: seq<Player>, hands: map<Player, seq<Face>>, stealer: Player, victim: Player)
    requires NoDuplicates(ps) && stealer in ps && victim in ps
    ensures TotalDice(ps, Stolen(hands, stealer, victim)) == TotalDice(ps, hands)
  {
    var v := HandOf(hands, victim);
    if v != [] {
      var rest := hands[victim := v[1..]];
      TotalDiceReplace(ps, hands, victim, v[1..]);
      TotalDiceReplace(ps, rest, stealer, HandOf(rest, stealer) + [v[0]]);
    }
  }

  /** The hands after moveDiceToSatansPool: the player's first die, if there
      is one, is deleted. */
  function Dropped(hands: map<Player, seq<Face>>, p: Player): map<Player, seq<Face>> {
    if HandOf(hands, p) == [] then hands else hands[p := HandOf(hands, p)[1..]]
  }

  /** The pool after moveDiceToSatansPool: one die on `face` joins it when
      the player had a die to give. */
  function Refilled(hands: map<Player, seq<Face>>, pool: seq<Face>, p: Player, face: Face): seq<Face> {
    if HandOf(hands, p) == [] then pool else pool + [face]
  }

  /** A die lost to Satan's pool leaves the hand and arrives in the pool on
      the new face: the dice of the seated players and the pool together
      are conserved, and nobody else's hand changes. */
  lemma PoolLossConserves(ps: seq<Player>, hands: map<Player, seq<Face>>, pool: seq<Face>, p: Player, face: Face)
    requires NoDuplicates(ps) && p in ps
    ensures TotalDice(ps, Dropped(hands, p)) + |Refilled(hands, pool, p, face)| == TotalDice(ps, hands) + |pool|
    ensures HandOf(hands, p) != [] ==>
      && |HandOf(Dropped(hands, p), p)| == |HandOf(hands, p)| - 1
      && multiset(Refilled(hands, pool, p, face)) == multiset(pool) + multiset{face}
    ensures HandOf(hands, p) == [] ==> Dropped(hands, p) == hands && Refilled(hands, pool, p, face) == pool
    ensures forall q :: q != p ==> HandOf(Dropped(hands, p), q) == HandOf(hands, q)
  {
    if HandOf(hands, p) != [] {
      TotalDiceReplace(ps, hands, p, HandOf(hands, p)[1..]);
    }
  }

  /** stealDiceFromPlayer. */
  method StealDiceFromPlayer(t: Table, stealerId: Player, victimId: Player)
    modifies t`hands
    ensures t.hands == Stolen(old(t.hands), stealerId, victimId)
  {
    var victimDice := HandOf(t.hands, victimId);
    if victimDice != [] {
      t.hands := t.hands[victimId := victimDice[1..]];
      t.hands := t.hands[stealerId := HandOf(t.hands, stealerId) + [victimDice[0]]];
    }
  }

  /** moveDiceToSatansPool; `newFace` is the face the die is rerolled to. */
  method MoveDiceToSatansPool(t: Table, playerId: Player, newFace: Face)
    modifies t`hands, t`pool
    ensures t.hands == Dropped(old(t.hands), playerId)
    ensures t.pool == Refilled(old(t.hands), old(t.pool), playerId, newFace)
  {
    var playerDice := HandOf(t.hands, playerId);
    if playerDice != [] {
      t.hands := t.hands[playerId := playerDice[1..]];
      t.pool := t.pool + [newFace];
    }
  }

  /** The private rollDiceForPlayer of Game.php: inserts |rolled| new dice
      into the hand, after the ones already there. */
  method RollDiceForPlayer(t: Table, playerId: Player, rolled: seq<Face>)
    modifies t`hands
    ensures HandOf(t.hands, playerId) == old(HandOf(t.hands, playerId)) + rolled
    ensures forall q :: q != playerId ==> HandOf(t.hands, q) == old(HandOf(t.hands, q))
  {
    for i := 0 to |rolled|
      invariant HandOf(t.hands, playerId) == old(HandOf(t.hands, playerId)) + rolled[..i]
      invariant forall q :: q != playerId ==> HandOf(t.hands, q) == old(HandOf(t.hands, q))
    {
      t.hands := t.hands[playerId := HandOf(t.hands, playerId) + [rolled[i]]];
    }
  }

  /** executeRaiseHell of Game.php: one token, and the hand is replaced by
      two fresh dice whatever its size was. */
  method ExecuteRaiseHell(t: Table, playerId: Player, r1: Face, r2: Face)
    modifies t`tokens, t`hands
    ensures t.tokens == Credit(old(t.tokens), playerId, 1)
    ensures HandOf(t.hands, playerId) == [r1, r2]
    ensures forall q :: q != playerId ==> HandOf(t.hands, q) == old(HandOf(t.hands, q))
  {
    t.tokens := Credit(t.tokens, playerId, 1);
    t.hands := t.hands[playerId := []];
    RollDiceForPlayer(t, playerId, [r1, r2]);
  }

  /** executeHarvestSkulls: two tokens. */
  method ExecuteHarvestSkulls(t: Table, playerId: Player)
    modifies t`tokens
    ensures t.tokens == Credit(old(t.tokens), playerId, 2)
  {
    t.tokens := Credit(t.tokens, playerId, 2);
  }

  /** executeExtort of Game.php. */
  method ExecuteExtort(t: Table, playerId: Player, targetId: Player)
    modifies t`tokens
    ensures t.tokens == Extorted(old(t.tokens), playerId, targetId)
  {
    var targetTokens := Balance(t.tokens, targetId);
    var tokensToSteal := if 3 <= targetTokens then 3 else targetTokens;
    t.tokens := Credit(t.tokens, targetId, -tokensToSteal);
    t.tokens := Credit(t.tokens, playerId, tokensToSteal);
  }

  /** The balances after Extort: min(3, target's balance) tokens pass from
      the target's row to the actor's. */
  function Extorted(tokens: map<Player, int>, actor: Player, target: Player): map<Player, int> {
    var tokensToSteal := if 3 <= Balance(tokens, target) then 3 else Balance(tokens, target);
    Credit(Credit(tokens, target, -tokensToSteal), actor, tokensToSteal)
  }

  /** Extort moves min(3, balance) tokens: the pair's total is conserved, a
      non-negative target never goes negative, nobody else is touched. */
  lemma ExtortConserves(tokens: map<Player, int>, actor: Player, target: Player)
    requires actor != target && actor in tokens && target in tokens
    requires tokens[target] >= 0
    ensures var r := Extorted(tokens, actor, target);
      && Balance(r, actor) + Balance(r, target) == Balance(tokens, actor) + Balance(tokens, target)
      && Balance(r, target) >= 0
      && Balance(tokens, target) - Balance(r, target) == (if tokens[target] < 3 then tokens[target] else 3)
      && forall q :: q != actor && q != target ==> Balance(r, q) == Balance(tokens, q)
  {
  }

  /** Extort keeps every balance of the table non-negative. */
  lemma ExtortKeepsBalancesNonNegative(tokens: map<Player, int>, actor: Player, target: Player)
    requires forall p | p in tokens :: tokens[p] >= 0
    ensures forall p | p in Extorted(tokens, actor, target) :: Extorted(tokens, actor, target)[p] >= 0
  {
    var r := Extorted(tokens, actor, target);
    forall p | p in r ensures r[p] >= 0 {
      assert Balance(r, p) == r[p];
    }
  }

  /** executeReapSoul: pays two tokens and steals the target's first die. */
  method ExecuteReapSoul(t: Table, playerId: Player, targetId: Player)
    modifies t`tokens, t`hands
    ensures t.tokens == Credit(old(t.tokens), playerId, -2)
    ensures t.hands == Stolen(old(t.hands), playerId, targetId)
  {
    t.tokens := Credit(t.tokens, playerId, -2);
    StealDiceFromPlayer(t, playerId, targetId);
  }

  /** executePentagram of Game.php: the pool is deleted before it is read,
      so the reroll loop runs over no dice, no pentagram is ever rolled,
      and the player's hand is untouched. */
  method ExecutePentagram(t: Table, playerId: Player)
    modifies t`pool
    ensures t.pool == []
    ensures HandOf(t.hands, playerId) == old(HandOf(t.hands, playerId))
  {
    t.pool := [];
  }

  /** executeImpsSet of Game.php: one new die. */
  method ExecuteImpsSet(t: Table, playerId: Player, rolled: Face)
    modifies t`hands
    ensures HandOf(t.hands, playerId) == old(HandOf(t.hands, playerId)) + [rolled]
    ensures forall q :: q != playerId ==> HandOf(t.hands, q) == old(HandOf(t.hands, q))
  {
    RollDiceForPlayer(t, playerId, [rolled]);
  }

  /** The target recorded in action_data, if the blob carries one: the
      blob written by Game.php's satansSteal does, the one written by
      PlayerActions.php's does not. */
  function RecordedTarget(data: ActionData): Option<Player> {
    if data.StealChoice? then data.target else None
  }

  /** The face chosen for Satan's pool when the blob asks for one. */
  function ChosenPoolFace(data: ActionData): Option<Face> {
    if data.StealChoice? && data.putInPool then data.poolFace else None
  }

  /** executeSatansSteal of Game.php: pays six tokens and steals the
      target's first die; when the blob asks for it, a die on the chosen
      face is also inserted into the pool (the stolen die is not removed).
      Without a target in the blob, stealDiceFromPlayer builds a query with
      an empty player id, the query fails, and the framework rolls the
      whole resolution back: the call is rejected and nothing changes. */
  method ExecuteSatansSteal(t: Table, playerId: Player) returns (o: Outcome)
    modifies t`tokens, t`hands, t`pool
    ensures o.Ok? <==> RecordedTarget(t.actionData).Some?
    ensures o.Rejected? ==> t.tokens == old(t.tokens) && t.hands == old(t.hands) && t.pool == old(t.pool)
    ensures o.Ok? ==>
      && t.tokens == Credit(old(t.tokens), playerId, -6)
      && t.hands == Stolen(old(t.hands), playerId, RecordedTarget(t.actionData).value)
      && t.pool == old(t.pool) + (if ChosenPoolFace(t.actionData).Some? then [ChosenPoolFace(t.actionData).value] else [])
    ensures o.Ok? && NoDuplicates(t.players) && playerId in t.players && RecordedTarget(t.actionData).value in t.players ==>
      TotalDice(t.players, t.hands) + |t.pool| ==
      old(TotalDice(t.players, t.hands) + |t.pool|) + (if ChosenPoolFace(t.actionData).Some? then 1 else 0)
  {
    var target := RecordedTarget(t.actionData);
    if target.None? {
      return Rejected("stealDiceFromPlayer: no target player in action_data");
    }
    var targetId := target.value;
    if NoDuplicates(t.players) && playerId in t.players && targetId in t.players {
      StealKeepsTotal(t.players, t.hands, playerId, targetId);
    }
    t.tokens := Credit(t.tokens, playerId, -6);
    StealDiceFromPlayer(t, playerId, targetId);
    var poolFace := ChosenPoolFace(t.actionData);
    if poolFace.Some? {
      t.pool := t.pool + [poolFace.value];
    }
    o := Ok;
  }
}

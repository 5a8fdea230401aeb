# Devil's Dice rules engine, in Dafny

This is a model of the server-side rules engine of the Board Game Arena
implementation of Devil's Dice, a bluffing dice game. A player declares an
action and claims the hand needed to back it. Other players may challenge
the claim, and a target of Extort or Reap Soul may block. A player wins
when their hand and Satan's pool together show all six faces. A tie goes to
a rolloff on Imps.

The model covers:

- the constants (faces, action codes, state ids);
- the claim validator and the win evaluator;
- the token ledger and the dice manager;
- the state table of `states.inc.php`;
- the three places that drive a game: `Game.php` (entry points, state
  actions and its own action effects), and the newer `PlayerActions.php`
  and `ActionExecutor.php`.

The two versions of each action effect are kept apart, as the source has
them.

State lives in one `Table` object (`table.dfy`) whose fields stand for:

- the SQL tables: `player_tokens`, `player_dice`, `satans_pool` and the
  player scores;
- the framework's state: current state, active player and multi-active
  set;
- the game globals: `current_action`, `current_action_player`,
  `current_target_player`, `challenge_player`, `action_data` and
  `dice_overflow_*`.

Operations that change the table are methods with field-level `modifies`
frames, so each one states its whole effect. The rules themselves are pure
functions with lemmas. A player with no row reads as having no dice and a
balance of 0, as `intval` of a missing row does. Rows are kept in `dice_id`
order: `LIMIT 1` takes the first die, and `ORDER BY dice_id DESC LIMIT 1`
takes the last.

An entry point that throws (`checkAction`, `BgaUserException`) returns
`Rejected` and leaves the table unchanged. This stands for the rollback the
framework performs. Every face drawn with `array_rand` is a parameter.

`Table.Valid()` holds between calls, and every entry point and state
action preserves it. It requires:

- two to six distinct players;
- no negative balance;
- a Reap Soul or Satan's Steal declarer who can still pay while the action
  is pending;
- a tie list in `action_data` while the rolloff runs.

Where the code and its design description disagree, the model follows the
code:

- In `PlayerActions.pass`, the last pass in the challenge window goes
  straight to `resolveAction`, even for Extort and Reap Soul, so the block
  window is skipped (`PlayerActions.Pass`).
- Nothing makes the target active in the block window, so only the active
  player can block (`GameActions.Block`).
- `Game.php` duplicates the validator and the win check. The model has one
  copy of each: `DiceValidator` and `GameValidator`.

## Model

| member | source | states |
|---|---|---|
| Constants.AllFaces | modules/php/Constants.inc.php:29-38 | getAllFaces lists exactly six pairwise distinct faces, and every face is among them |
| Constants.ParseFace | modules/php/PlayerActions.php:215-218 | a string accepted as a face is the constant of that face |
| Constants.FaceNamesRoundTrip | modules/php/Constants.inc.php:22-27 | every face constant is accepted as exactly its face; the six constants are pairwise distinct |
| Constants.ActionCodesDistinct | modules/php/Constants.inc.php:42-50 | the nine action codes are pairwise distinct, so BLOCK and CHALLENGE never coincide with a declaration |
| Constants.StateConstantsDistinct | modules/php/Constants.inc.php:6-18 | the eleven values of class States are pairwise distinct (a fact about the constants themselves; the state table keys its states by its own literals) |
| States.StateById | states.inc.php:29-136 | an id the table defines names back a state with that id |
| States.IdsDistinct | states.inc.php:29-136 | the ten state ids are pairwise distinct and each maps back to its state |
| States.TargetsDefined | states.inc.php:29-136 | every transition of every state targets a defined state id |
| States.Follow | states.inc.php:29-136 | nextState from a state along one of its transitions reaches the state with the target id |
| States.GameEndIsTerminal | states.inc.php:129-135 | gameEnd has no transitions and no player actions |
| States.FixedRoutes | states.inc.php:30-38 | gameSetup leads only to playerTurn, rolloff only to gameEnd, chooseDiceOverflowFace only to checkWin; challengeBlock re-enters challengeWindow |
| States.AllowedActions | states.inc.php:44-90 | playerTurn allows exactly the seven declarations, challengeWindow only challenge and pass, blockWindow only block and pass; game and manager states allow nothing |
| States.ActionHome | states.inc.php:44-124 | each player action is offered by one state only (pass by the two windows) |
| States.RouteToEnd | states.inc.php:29-136 | the table has no dead-end state: from every state some sequence of its transitions reaches gameEnd (a property of the table, not of play; it is short because playerTurn has a direct endGame edge) |
| DiceValidator.SingleFaceClaims | modules/php/DiceValidator.php:14-38 | Raise Hell holds iff a Flame is in the hand, Harvest Skulls a Skull, Extort a Trident, Reap Soul a Scythe, Pentagram a Pentagram; CHALLENGE and an unset code never hold; the private copy in the game class gives the same verdicts |
| DiceValidator.BlockClaims | modules/php/DiceValidator.php:28-35 | a Block claim holds iff current_action is Extort and the hand has a Trident, or Reap Soul and it has a Pentagram; false for any other code, BLOCK included |
| DiceValidator.ImpsSetRule | modules/php/DiceValidator.php:43-57 | Imp's Set holds iff the hand is non-empty and every die is an Imp or one same face; the private copy in the game class has the same rule |
| DiceValidator.OneDieIsImpsSet | modules/php/DiceValidator.php:43-57 | a one-die hand always backs Imp's Set |
| DiceValidator.ClaimIgnoresOrder | modules/php/DiceValidator.php:14-57 | the verdict depends only on the multiset of faces, not their order |
| DiceValidator.AddingDiceKeepsClaim | modules/php/DiceValidator.php:16-35 | for every claim but Imp's Set, adding dice never turns a valid claim invalid |
| DiceValidator.ImpsSetNotMonotone | modules/php/DiceValidator.php:55-56 | Imp's Set is the exception: [Skull] backs it, [Skull, Flame] does not |
| DiceValidator.BlockClaimAsWritten | modules/php/Game.php:426-433 | with current_action already overwritten by BLOCK, no hand backs a challenged block |
| DiceValidator.ValidateBlockClaim | modules/php/DiceValidator.php:28-35 | the block check given the blocked action is the validator's Block branch for that action |
| DiceValidator.HonestBlockUpheld | modules/php/DiceValidator.php:28-35 | a target holding the blocking face is upheld by the corrected check and rejected as written |
| Board.Credit | modules/php/TokenManager.php:30 | the UPDATE moves the named row by the amount, leaves every other balance and the set of rows alone |
| GameValidator.HasAllSymbolsRule | modules/php/GameValidator.php:31-48 | hasAllSymbols holds iff every one of the six faces is in the hand or the pool; the private copy in the game class, reading the tables, has the same rule |
| GameValidator.CheckForWinners | modules/php/GameValidator.php:14-26 | the winners are exactly the players satisfying hasAllSymbols, at most one entry per player |
| GameValidator.WinnersKeepOrder | modules/php/GameValidator.php:19-23 | the winners of a concatenation are the winners of each part in order: the list keeps iteration order |
| GameValidator.WinnersDistinct | modules/php/GameValidator.php:19-23 | distinct players give a duplicate-free winner list |
| GameValidator.MoreDiceKeepWin | modules/php/GameValidator.php:42-47 | adding dice to the hand or the pool never turns a win into a non-win |
| GameValidator.CompletePoolEveryoneWins | modules/php/GameValidator.php:39-47 | when the pool alone shows every face, every player is a winner |
| GameValidator.ShortHandCannotWinAlone | modules/php/GameValidator.php:47 | with an empty pool, a hand of fewer than six dice cannot win |
| GameValidator.CountFaceIsMultiplicity | modules/php/Game.php:696-700 | the Imp filter counts the multiplicity of the face among hand and pool dice |
| GameValidator.CountImpsAsQueried | modules/php/Game.php:689-701 | as written the count is at most 2, and 0 exactly when neither hand nor pool holds an Imp |
| GameValidator.ImpCountCollapses | modules/php/Game.php:690-694 | a hand of three Imps counts 1 as written where the real count is 3 |
| GameValidator.QueriedCountAgrees | modules/php/Game.php:689-701 | the count as written equals the real one iff hand and pool hold at most one Imp each |
| GameValidator.ImpCount | modules/php/Game.php:689-701 | countImpsForPlayer, as the queries deliver rows or counting every die: zero exactly when neither the hand nor the pool holds an Imp |
| GameValidator.ImpCounts | modules/php/Game.php:356-360 | the rolloff results hold each tied player's Imp count under the chosen way of counting, in tie order |
| GameValidator.RolloffCountingDiffers | modules/php/Game.php:353-385 | tied hands [Imp, Flame] then [Imp, Imp] with no pool Imp count 1 and 1 as written, so the first scores; counted die by die they are 1 and 2, so the second scores |
| GameValidator.MaxOf | modules/php/Game.php:362 | max returns an entry no smaller than any other |
| GameValidator.FirstIndexOf | modules/php/Game.php:363-365 | the first position holding the value, none before it holds it |
| GameValidator.RolloffIndex | modules/php/Game.php:362-382 | the rolloff picks a most-Imps player, ahead of every other most-Imps player |
| TableState.NextPlayer | modules/php/Game.php:348 | activeNextPlayer gives a seated player, the one after the current one in table order, wrapping round |
| TableState.NothingAllowedInGameStates | states.inc.php:64-116 | checkAction rejects every action in a state the game runs by itself |
| TokenManager.GetSkullTokenCount | modules/php/TokenManager.php:15-17 | a player without a row reads 0; balances read on a valid table are never negative |
| TokenManager.HasEnoughSkullTokens | modules/php/TokenManager.php:22-24 | true iff the player's row holds at least the amount, or there is no row and the amount is at most 0 |
| TokenManager.AddSkullTokens | modules/php/TokenManager.php:29-32 | only the named row changes; the result is the old balance plus the amount, the balance now read |
| DiceManager.GetPlayerDice | modules/php/DiceManager.php:14-19 | a player without rows has no dice |
| DiceManager.RollDiceForPlayer | modules/php/DiceManager.php:24-49 | the hand becomes the rolled faces, its size unchanged; an empty hand is untouched; every die shows one of the six faces (this part holds by the face type alone); other hands are unchanged |
| GameEffects.StealMovesOneDie | modules/php/Game.php:454-475 | a steal moves the victim's first die to the stealer, is a no-op when the victim has none, conserves the pair's dice and changes no other hand |
| GameEffects.StealFromSelf | modules/php/Game.php:454-475 | stealing from oneself keeps one's multiset of dice |
| GameEffects.StealKeepsTotal | modules/php/Game.php:454-475 | a steal between seated players keeps the dice at the table |
| GameEffects.PoolLossConserves | modules/php/Game.php:477-506 | losing a die to the pool lowers the hand by one and raises the pool by one on the new face; hands plus pool are conserved; no-op without a die |
| GameEffects.StealDiceFromPlayer | modules/php/Game.php:454-475 | the hands become Stolen(hands, stealer, victim) |
| GameEffects.MoveDiceToSatansPool | modules/php/Game.php:477-506 | the player's first die is deleted and a die on the new face joins the pool, if the player had one |
| GameEffects.RollDiceForPlayer | modules/php/Game.php:391-402 | the rolled dice are appended to the hand, other hands unchanged |
| GameEffects.ExecuteRaiseHell | modules/php/Game.php:508-524 | one token; the hand becomes exactly the two new dice, whatever its size was |
| GameEffects.ExecuteHarvestSkulls | modules/php/Game.php:526-538 | two tokens, nothing else |
| GameEffects.ExecuteExtort | modules/php/Game.php:540-559 | the balances become Extorted(tokens, actor, target); the same code in ActionExecutor.php |
| GameEffects.ExtortConserves | modules/php/Game.php:540-546 | min(3, target balance) tokens move; the pair's sum is conserved, the target stays non-negative, nobody else changes |
| GameEffects.ExtortKeepsBalancesNonNegative | modules/php/Game.php:540-546 | Extort never makes a balance negative |
| GameEffects.ExecuteReapSoul | modules/php/Game.php:561-578 | pays two tokens and steals the target's first die; the same code in ActionExecutor.php |
| GameEffects.ExecutePentagram | modules/php/Game.php:580-613 | the pool is emptied and the hand is unchanged, whatever the pool held |
| GameEffects.ExecuteImpsSet | modules/php/Game.php:615-627 | one new die is appended to the hand |
| GameEffects.ExecuteSatansSteal | modules/php/Game.php:629-656 | fails, changing nothing, when action_data carries no target (the blob PlayerActions.php writes); otherwise pays six, steals the target's first die and, if asked, inserts a pool die on the chosen face, adding one die to the game |
| GameActions.RaiseHell | modules/php/Game.php:81-89 | accepted iff checkAction allows it; records Raise Hell for the caller and opens the challenge window; rejected calls change nothing; the same code in PlayerActions.php |
| GameActions.HarvestSkulls | modules/php/Game.php:91-99 | as RaiseHell, for Harvest Skulls; the same code in PlayerActions.php |
| GameActions.Extort | modules/php/Game.php:101-110 | as RaiseHell, also recording the target; the same code in PlayerActions.php |
| GameActions.ReapSoul | modules/php/Game.php:112-127 | accepted iff allowed and the caller holds at least two tokens, before any global is written; records action and target; PlayerActions.php does the same, its token check going through hasEnoughSkullTokens |
| GameActions.Pentagram | modules/php/Game.php:129-137 | as RaiseHell, for Pentagram; the same code in PlayerActions.php |
| GameActions.ImpsSet | modules/php/Game.php:139-147 | as RaiseHell, for Imp's Set, always through the challenge window |
| GameActions.SatansSteal | modules/php/Game.php:149-172 | accepted iff allowed and the caller holds at least six tokens; records action, target and the choice with the target in action_data; straight to resolveAction |
| GameActions.Challenge | modules/php/Game.php:174-180 | accepted iff allowed; records the challenger and moves to resolveChallenge; the same code in PlayerActions.php |
| GameActions.Block | modules/php/Game.php:182-198 | accepted iff allowed and the action is Extort or Reap Soul; the blocker becomes action player, the action becomes BLOCK, back to the challenge window; only the active player can block; the same code in PlayerActions.php |
| GameActions.Pass | modules/php/Game.php:200-216 | one pass closes the window: to blockWindow for Extort and Reap Soul, otherwise to resolveAction; from blockWindow to resolveAction |
| GameStates.StGameSetup | modules/php/Game.php:222-235 | each seated player gets a balance of 1 and two new dice; nobody else changes; then playerTurn |
| GameStates.GiveStartingTokens | modules/php/Game.php:225-227 | each seated player's balance becomes 1, others unchanged, none negative |
| GameStates.GiveStartingDice | modules/php/Game.php:230-232 | each seated player's hand grows by their two rolled dice, others unchanged; each step is the helper RollStartingDice, which grows one player's hand |
| GameStates.StChallengeWindow | modules/php/Game.php:237-251 | the multi-active set is exactly the players other than the declarer, and is never empty |
| GameStates.StResolveChallenge | modules/php/Game.php:253-301 | a false claim: the challenger takes the declarer's first die, back to playerTurn; a true claim: the challenger loses a die to the pool, on to blockWindow for Extort and Reap Soul, else resolveAction; a challenged block always fails |
| GameStates.StResolveAction | modules/php/Game.php:303-333 | runs exactly the recorded action's effect (Resolved; none for BLOCK), keeps balances non-negative, then checkWin; a Satan's Steal without a recorded target fails and leaves the table as it was |
| GameStates.RunDeclaredEffect | modules/php/Game.php:308-330 | the switch: the balances, hands and pool change as Resolved says for the recorded action, and no balance becomes negative |
| GameStates.CheckForWinners | modules/php/Game.php:658-669 | the loop computes exactly GameValidator.CheckForWinners |
| GameStates.RouteByWinners | modules/php/Game.php:338-350 | the three branches on a duplicate-free winner list: one winner scores and ends the game, several go to rolloff with the list recorded, none activates the next player |
| GameStates.StCheckWin | modules/php/Game.php:335-351 | one winner scores 1 and ends the game; several go to rolloff with the duplicate-free list; none passes the turn to the next player |
| GameStates.StRolloff | modules/php/Game.php:353-385 | the first tied player with the most Imps scores 1, then gameEnd; stated both for the count as written (AsQueried) and for the count of every die (EveryDie) |
| GameStates.RolloffWinner | modules/php/Game.php:356-365 | the loop's results are the tied players' Imp counts, and the position picked is the first holding their maximum |
| PlayerActions.ImpsSet | modules/php/PlayerActions.php:91-108 | records Imp's Set; a hand of at most one die goes to resolveAction, a larger one to challengeWindow |
| PlayerActions.SatansSteal | modules/php/PlayerActions.php:113-136 | accepted iff allowed and hasEnoughSkullTokens(6); records action and target, only the pool choice in action_data; straight to resolveAction |
| PlayerActions.Pass | modules/php/PlayerActions.php:175-204 | in challengeWindow only removes the passer from the multi-active set, resolving once it is empty; in blockWindow resolves at once |
| PlayerActions.ChooseDiceOverflowFace | modules/php/PlayerActions.php:209-249 | rejects a face outside the six and any player but the overflow player; else one pool die on that face, overflow globals 0, on to checkWin, hands untouched |
| ActionExecutor.GainOneDie | modules/php/ActionExecutor.php:137 | a die that fits joins the hand; otherwise the overflow globals record the player and one die |
| ActionExecutor.WithNewestFace | modules/php/ActionExecutor.php:140 | only the last (newest) die changes, to the face |
| ActionExecutor.SetNewestFace | modules/php/ActionExecutor.php:140 | the player's newest die shows the face, other hands unchanged |
| ActionExecutor.RemoveFirstTakesOne | modules/php/ActionExecutor.php:130-134 | deleting the first pentagram takes exactly one pentagram out of the pool, or nothing when none was rolled |
| ActionExecutor.RemoveFirstAt | modules/php/ActionExecutor.php:133-134 | deleting the die at the first pentagram position is removing the first pentagram |
| ActionExecutor.ExecuteRaiseHell | modules/php/ActionExecutor.php:14-31 | one token; the hand is rerolled to the same size; other hands unchanged |
| ActionExecutor.ExecuteHarvestSkulls | modules/php/ActionExecutor.php:36-49 | two tokens through the token manager, no dice touched |
| ActionExecutor.RerollPool | modules/php/ActionExecutor.php:108-128 | every pool die takes its new face in place; a pentagram position is recorded iff one was rolled, and the first recorded is the first pentagram |
| ActionExecutor.ExecutePentagram | modules/php/ActionExecutor.php:106-170 | the pool is rerolled in place and loses its first pentagram if one was rolled; then the player gains one pentagram die (hand plus pool conserved) or overflows; nothing happens to hands when no pentagram was rolled |
| ActionExecutor.ExecuteImpsSet | modules/php/ActionExecutor.php:175-191 | asks for exactly one more die for the actor |
| ActionExecutor.ExecuteSatansSteal | modules/php/ActionExecutor.php:196-235 | pays six; with putInPool and a face the target's first die goes to the pool on that face, otherwise the actor steals it; no die is created or destroyed |

## Left out

- Notifications, `debug` logging and translation strings are left out. The model keeps only the effect of each SQL query on the table.
- The browser client, the AJAX wrappers of `devilsdice.action.php`, `gameinfos.inc.php`, the build script and the autoloader are not part of this model. The generated state-type mirror `source/client/build/gamestates.d.ts` is not modelled either. It disagrees with `states.inc.php`: it adds `resolveChallenge → chooseDiceOverflowFace` and `chooseDiceOverflowFace → playerTurn`.
- `zombieTurn`, `upgradeTableDb`, `getAllDatas` and `getGameProgression` are left out. `setupNewGame` (colours, player rows) is stood for only by the end state that `Table`'s constructor builds: scores 0 and the first player active.
- Dice rolls (`array_rand`) are parameters. The model does not say that faces are uniform.
- `addOrRemoveDice`, `stChooseDiceOverflowFace` and `argChooseDiceOverflowFace` are not part of this model. Whether a gained die fits is the parameter `fits` of `ActionExecutor.GainOneDie`. No hand-size limit is assumed. A die that does not fit records the player and a count of one in the `dice_overflow_player` and `dice_overflow_count` globals and leaves the hand alone.
- ActionExecutor.GainOneDie: the die that `addOrRemoveDice` would roll is the parameter `gained`. Any reroll of the rest of the hand that `addOrRemoveDice` may perform is not modelled.
- Framework globals hold integers. `Game.php` and `PlayerActions.php` store action codes and JSON blobs in them. The model assumes each global reads back what was written, and `action_data` is a datatype rather than JSON text.
- Game.php's `satansSteal` stores the client's `poolFace` string unchecked. The model takes it as an `Option<Face>`, so an unknown face string inserted into the pool is not modelled.
- `ActionExecutor.php` calls `stealDiceFromPlayer` and a two-argument `moveDiceToSatansPool` on the game. The `Game.php` versions of these are private, and its `moveDiceToSatansPool` takes one argument and rolls a random face. The model uses the chosen face, as the caller intends.
- A stolen die keeps its `dice_id` in the table. The model appends it to the end of the stealer's hand, so the hand's order can differ from `dice_id` order. ActionExecutor.SetNewestFace: in the overflow case, a stolen die with a smaller id than the hand's last die is not distinguished.
- In Game.php's `executeExtort`, PHP's `min(3, null)` for a target without a token row is not modelled. The model reads such a target's balance as 0, so nothing moves.
- `setPlayersMultiactive` with an empty list is not modelled. With two or more seated players that list is never empty, as `GameStates.StChallengeWindow` proves.
- The final `else` of `PlayerActions.pass` (throw "Cannot pass in current state") cannot be reached: `checkAction('pass')` only succeeds in the two windows (`States.ActionHome`). The model has no branch for it.
- Waiting for every multi-active player is the framework's job; the model moves on when the set becomes empty. The framework's turn order is only the `activeNextPlayer` step of `stCheckWin`.
- The two declaration paths do not fit together for Satan's Steal. `PlayerActions.satansSteal` writes an `action_data` blob without a `target` key. `Game.php`'s `executeSatansSteal` reads its target from that key, so `stealDiceFromPlayer` builds a query with an empty player id. The model takes the failing query to throw and the framework to roll the resolution back: `GameEffects.ExecuteSatansSteal` and `GameStates.StResolveAction` return `Rejected` and change nothing. A game stuck in `resolveAction` after that is not modelled further.
- `getCurrentPlayerId` is the `player` parameter of each entry point.
- `stResolveChallenge` reads the declarer's hand with `getCollectionFromDb("SELECT face …")`, which keys rows by face and so keeps one row per distinct face. The model passes the whole hand. Every verdict of the validator depends only on which faces occur (for Imp's Set, on whether the non-Imp faces are absent or a single one), so the two agree.
- `PlayerActions.php`'s `raiseHell`, `harvestSkulls`, `extort`, `reapSoul`, `pentagram`, `challenge` and `block` do what `Game.php`'s do. The same holds for `ActionExecutor.php`'s `executeExtort` and `executeReapSoul`. Each has one member and one row in the table, which names the second copy.

## Findings

| source | as written | input that shows it | evidently intended | confidence | as-written member | corrected member |
|---|---|---|---|---|---|---|
| modules/php/Game.php:182-198, modules/php/DiceValidator.php:28-35 | `block` overwrites `current_action` with BLOCK before the challenge, and the Block branch of the validator then reads BLOCK, so every challenged block fails | the target of Extort blocks while holding a Trident and is challenged: the claim is judged false and the challenger takes a die | judge the block against the blocked action | not executed | DiceValidator.BlockClaimAsWritten | DiceValidator.ValidateBlockClaim |
| modules/php/Game.php:689-701 | `getCollectionFromDb("SELECT face …")` keys rows by face, so hand and pool each contribute at most one Imp | tied players with three Imps and one Imp in hand, no Imp in the pool: both count 1, and the first tied player wins regardless | count every Imp die | not executed; relies on the framework keying rows by the first selected column | GameValidator.RolloffCountingDiffers | GameValidator.CountImps |
| modules/php/Game.php:580-602 | `executePentagram` deletes the whole pool before reading it, so no die is rerolled and nothing is gained | a pool holding one Pentagram: after the action the pool is empty and the hand unchanged | reroll the pool in place and gain one pentagram die | not executed | GameEffects.ExecutePentagram | ActionExecutor.ExecutePentagram |
| modules/php/Game.php:508-514 | `executeRaiseHell` deletes the hand and rolls exactly two dice | a player holding four dice ends with two | reroll every die, keeping the count | not executed | GameEffects.ExecuteRaiseHell | ActionExecutor.ExecuteRaiseHell |
| modules/php/Game.php:638-644 | `executeSatansSteal` steals the target's die and also inserts a new pool die when asked | putInPool with a face: the stealer gains a die and the pool gains one, so the game has one more die | move the target's die to the pool instead of stealing it | not executed | GameEffects.ExecuteSatansSteal | ActionExecutor.ExecuteSatansSteal |

The `Game.php` flow (`GameStates.StResolveChallenge`, `GameStates.StResolveAction`)
runs the code as written, with the as-written members above. The corrected
members are the newer `ActionExecutor.php` effects and the block check given
the blocked action. The rolloff takes the way of counting Imps as a
parameter, so `GameStates.StRolloff` states both the code as written and
the corrected count.

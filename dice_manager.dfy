/** The dice operations of modules/php/DiceManager.php. */
module DiceManager {
  import opened Constants
  import opened Board
  import opened TableState

  /** getPlayerDice: the dice in the player's hand (none without rows). */
  function GetPlayerDice(t: Table, p: Player): (dice: seq<Face>)
    reads t
    ensures p !in t.hands ==> dice == []
  {
    HandOf(t.hands, p)
  }

  /** rollDiceForPlayer: deletes the player's hand and inserts as many
      freshly rolled dice; `rolled` are the faces array_rand draws, one per
      die. A player without dice is left untouched. */
  method RollDiceForPlayer(t: Table, p: Player, rolled: seq<Face>)
    requires |rolled| == |HandOf(t.hands, p)|
    modifies t`hands
    ensures GetPlayerDice(t, p) == rolled
    ensures |GetPlayerDice(t, p)| == |old(GetPlayerDice(t, p))|
    ensures forall d <- GetPlayerDice(t, p) :: d in AllFaces()
    ensures old(GetPlayerDice(t, p)) == [] ==> t.hands == old(t.hands)
    ensures forall q :: q != p ==> HandOf(t.hands, q) == HandOf(old(t.hands), q)
  {
    var currentCount := |HandOf(t.hands, p)|;
    if currentCount > 0 {
      t.hands := t.hands[p := []];
      for i := 0 to currentCount
        invariant HandOf(t.hands, p) == rolled[..i]
        invariant forall q :: q != p ==> HandOf(t.hands, q) == HandOf(old(t.hands), q)
      {
        t.hands := t.hands[p := HandOf(t.hands, p) + [rolled[i]]];
      }
    }
  }
}

/** The token ledger of modules/php/TokenManager.php. */
module TokenManager {
  import opened Board
  import opened TableState

  /** getSkullTokenCount: the player's balance (0 without a row); never
      negative on a valid table. */
  function GetSkullTokenCount(t: Table, p: Player): (n: int)
    reads t
    ensures p !in t.tokens ==> n == 0
    ensures t.Valid() ==> n >= 0
  {
    Balance(t.tokens, p)
  }

  /** hasEnoughSkullTokens: the balance reaches the required amount. */
  function HasEnoughSkullTokens(t: Table, p: Player, requiredAmount: int): (r: bool)
    reads t
    ensures r <==> (p in t.tokens && t.tokens[p] >= requiredAmount) || (p !in t.tokens && requiredAmount <= 0)
  {
    GetSkullTokenCount(t, p) >= requiredAmount
  }

  /** addSkullTokens: credits the player's row and returns the new count. */
  method AddSkullTokens(t: Table, p: Player, amount: int) returns (newCount: int)
    modifies t`tokens
    ensures t.tokens == Credit(old(t.tokens), p, amount)
    ensures p in t.tokens ==> newCount == old(GetSkullTokenCount(t, p)) + amount
    ensures newCount == GetSkullTokenCount(t, p)
  {
    t.tokens := Credit(t.tokens, p, amount);
    newCount := GetSkullTokenCount(t, p);
  }
}

/** The vocabulary of the game's tables: player ids, hands, token rows. A
    player with no row in a table reads as having no dice and no tokens,
    as the source's queries do. */
module Board {
  import opened Constants

  /** A player id; 0 is the value of a player global that names nobody. */
  type Player = nat

  /** The faces of the dice a player holds, in row order. */
  function HandOf(hands: map<Player, seq<Face>>, p: Player): seq<Face> {
    if p in hands then hands[p] else []
  }

  /** The skull_tokens of a player: intval of the row, 0 without a row. */
  function Balance(tokens: map<Player, int>, p: Player): int {
    if p in tokens then tokens[p] else 0
  }

  /** `UPDATE player_tokens SET skull_tokens = skull_tokens + amount WHERE
      player_id = p`: the row of `p`, if there is one, moves by `amount`. */
  function Credit(tokens: map<Player, int>, p: Player, amount: int): (r: map<Player, int>)
    ensures r.Keys == tokens.Keys
    ensures p in tokens ==> Balance(r, p) == Balance(tokens, p) + amount
    ensures forall q :: q != p ==> Balance(r, q) == Balance(tokens, q)
  {
    if p in tokens then tokens[p := tokens[p] + amount] else tokens
  }

  /** A credit that leaves the credited row non-negative keeps every
      balance of the table non-negative. */
  lemma CreditKeepsNonNegative(tokens: map<Player, int>, p: Player, amount: int)
    requires forall q | q in tokens :: tokens[q] >= 0
    requires Balance(tokens, p) + amount >= 0
    ensures forall q | q in Credit(tokens, p, amount) :: Credit(tokens, p, amount)[q] >= 0
  {
    var r := Credit(tokens, p, amount);
    forall q | q in r ensures r[q] >= 0 {
      assert Balance(r, q) == r[q];
    }
  }

  predicate NoDuplicates(ps: seq<Player>) {
    forall i, j :: 0 <= i < j < |ps| ==> ps[i] != ps[j]
  }

  /** The number of dice held by the players of `ps`. */
  function TotalDice(ps: seq<Player>, hands: map<Player, seq<Face>>): nat {
    if ps == [] then 0 else |HandOf(hands, ps[0])| + TotalDice(ps[1..], hands)
  }

  /** Changing the hands of players outside `ps` leaves their total alone. */
  lemma {:induction false} TotalDiceOutside(ps: seq<Player>, hands: map<Player, seq<Face>>, hands': map<Player, seq<Face>>)
    requires forall q :: q in ps ==> HandOf(hands', q) == HandOf(hands, q)
    ensures TotalDice(ps, hands') == TotalDice(ps, hands)
  {
    if ps != [] {
      TotalDiceOutside(ps[1..], hands, hands');
    }
  }

  /** Replacing one player's hand changes the total held by a list of
      distinct players by the difference in that hand's size. */
  lemma {:induction false} TotalDiceReplace(ps: seq<Player>, hands: map<Player, seq<Face>>, p: Player, h: seq<Face>)
    requires NoDuplicates(ps)
    ensures TotalDice(ps, hands[p := h]) ==
      TotalDice(ps, hands) - (if p in ps then |HandOf(hands, p)| - |h| else 0)
  {
    if ps != [] {
      assert NoDuplicates(ps[1..]);
      TotalDiceReplace(ps[1..], hands, p, h);
      if ps[0] == p {
        assert p !in ps[1..];
        TotalDiceOutside(ps[1..], hands, hands[p := h]);
      }
    }
  }
}

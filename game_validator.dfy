/** The win evaluator of modules/php/GameValidator.php (duplicated as the
    private checkForWinners, hasAllSymbols and, for the rolloff,
    countImpsForPlayer of modules/php/Game.php). */
module GameValidator {
  import opened Constants
  import opened Board

  /** The distinct faces of a hand and of the pool, merged and made unique. */
  function FacesShown(hand: seq<Face>, pool: seq<Face>): set<Face> {
    set f | f in hand + pool
  }

  /** The six faces as a set. */
  function AllFaceSet(): set<Face> {
    set f | f in AllFaces()
  }

  /** hasAllSymbols: the faces shown by the hand and the pool, intersected
      with the six faces, number six. */
  function HasAllSymbols(hand: seq<Face>, pool: seq<Face>): bool {
    |FacesShown(hand, pool) * AllFaceSet()| == 6
  }

  /** checkForWinners: the players, in iteration order, whose hand and the
      pool together show every face. */
  function CheckForWinners(players: seq<Player>, hands: map<Player, seq<Face>>, pool: seq<Face>): (winners: seq<Player>)
    ensures |winners| <= |players|
    ensures forall p :: p in winners <==> p in players && HasAllSymbols(HandOf(hands, p), pool)
  {
    if players == [] then []
    else
      (if HasAllSymbols(HandOf(hands, players[0]), pool) then [players[0]] else [])
      + CheckForWinners(players[1..], hands, pool)
  }

  /** How many of `faces` show `f`. */
  function CountFace(faces: seq<Face>, f: Face): nat {
    if faces == [] then 0 else (if faces[0] == f then 1 else 0) + CountFace(faces[1..], f)
  }

  /** countImpsForPlayer: the Imps among the player's dice and the pool's. */
  function CountImps(hand: seq<Face>, pool: seq<Face>): nat {
    CountFace(hand + pool, Imp)
  }

  /** The Imp count is the multiplicity of Imp in hand and pool together. */
  lemma {:induction false} CountFaceIsMultiplicity(faces: seq<Face>, f: Face)
    ensures CountFace(faces, f) == multiset(faces)[f]
  {
    if faces != [] {
      CountFaceIsMultiplicity(faces[1..], f);
      assert faces == [faces[0]] + faces[1..];
    }
  }

  lemma AllFaceSetIsEverything()
    ensures AllFaceSet() == {Flame, Pentagram, Scythe, Trident, Skull, Imp}
    ensures |AllFaceSet()| == 6
    ensures forall f: Face :: f in AllFaceSet()
  {
    assert AllFaceSet() == {Flame, Pentagram, Scythe, Trident, Skull, Imp};
  }

  /** A set of faces leaving one face out has at most five members. */
  lemma MissingFace(s: set<Face>, f: Face)
    requires f !in s
    ensures |s| <= 5
  {
    AllFaceSetIsEverything();
    var rest := AllFaceSet() - {f};
    assert AllFaceSet() == rest + {f};
    assert s <= rest;
    SubsetSize(s, rest);
  }

  lemma {:induction false} SubsetSize(a: set<Face>, b: set<Face>)
    requires a <= b
    ensures |a| <= |b|
    decreases b
  {
    if a != {} {
      var x :| x in a;
      SubsetSize(a - {x}, b - {x});
    }
  }

  /** hasAllSymbols holds exactly when every one of the six faces shows in
      the player's hand or in the pool. */
  lemma HasAllSymbolsRule(hand: seq<Face>, pool: seq<Face>)
    ensures HasAllSymbols(hand, pool) <==> forall f: Face :: f in hand || f in pool
  {
    AllFaceSetIsEverything();
    var shown := FacesShown(hand, pool);
    assert shown * AllFaceSet() == shown;
    if forall f: Face :: f in hand || f in pool {
      assert shown == AllFaceSet();
    } else {
      var f: Face :| f !in hand && f !in pool;
      assert f !in shown;
      MissingFace(shown, f);
    }
  }

  /** Gaining dice, in the hand or in the pool, never undoes a win. */
  lemma MoreDiceKeepWin(hand: seq<Face>, pool: seq<Face>, hand': seq<Face>, pool': seq<Face>)
    requires multiset(hand) <= multiset(hand') && multiset(pool) <= multiset(pool')
    ensures HasAllSymbols(hand, pool) ==> HasAllSymbols(hand', pool')
  {
    HasAllSymbolsRule(hand, pool);
    HasAllSymbolsRule(hand', pool');
    forall f: Face | f in hand ensures f in hand' { assert f in multiset(hand); }
    forall f: Face | f in pool ensures f in pool' { assert f in multiset(pool); }
  }

  /** A list of `n` faces shows at most `n` different faces. */
  lemma {:induction false} DistinctAtMostLength(faces: seq<Face>)
    ensures |set f | f in faces| <= |faces|
  {
    if faces != [] {
      DistinctAtMostLength(faces[1..]);
      assert (set f | f in faces) == (set f | f in faces[1..]) + {faces[0]};
    }
  }

  /** With an empty pool, a hand of fewer than six dice cannot win. */
  lemma ShortHandCannotWinAlone(hand: seq<Face>)
    requires |hand| < 6
    ensures !HasAllSymbols(hand, [])
  {
    HasAllSymbolsRule(hand, []);
    AllFaceSetIsEverything();
    DistinctAtMostLength(hand);
    assert hand + [] == hand;
    if forall f: Face :: f in hand {
      assert AllFaceSet() <= set f | f in hand;
      SubsetSize(AllFaceSet(), set f | f in hand);
    }
  }

  /** When the pool alone shows every face, every player is a winner. */
  lemma {:induction false} CompletePoolEveryoneWins(players: seq<Player>, hands: map<Player, seq<Face>>, pool: seq<Face>)
    requires forall f: Face :: f in pool
    ensures CheckForWinners(players, hands, pool) == players
  {
    if players != [] {
      HasAllSymbolsRule(HandOf(hands, players[0]), pool);
      CompletePoolEveryoneWins(players[1..], hands, pool);
      assert players == [players[0]] + players[1..];
    }
  }

  /** The winner list is a filter of the player list: checking two halves
      of the list gives the winners of the first half, then those of the
      second, so winners keep the players' iteration order. */
  lemma {:induction false} WinnersKeepOrder(ps: seq<Player>, qs: seq<Player>, hands: map<Player, seq<Face>>, pool: seq<Face>)
    ensures CheckForWinners(ps + qs, hands, pool) ==
      CheckForWinners(ps, hands, pool) + CheckForWinners(qs, hands, pool)
  {
    if ps != [] {
      assert (ps + qs)[1..] == ps[1..] + qs;
      WinnersKeepOrder(ps[1..], qs, hands, pool);
    } else {
      assert ps + qs == qs;
    }
  }

  /** No player is listed twice among the winners. */
  lemma {:induction false} WinnersDistinct(players: seq<Player>, hands: map<Player, seq<Face>>, pool: seq<Face>)
    requires NoDuplicates(players)
    ensures NoDuplicates(CheckForWinners(players, hands, pool))
  {
    if players != [] {
      assert NoDuplicates(players[1..]);
      WinnersDistinct(players[1..], hands, pool);
      assert players[0] !in players[1..];
    }
  }

  /** countImpsForPlayer as its queries deliver the rows: getCollectionFromDb
      keys the rows of `SELECT face` by the face, so the hand and the pool
      each yield at most one Imp row. */
  function CountImpsAsQueried(hand: seq<Face>, pool: seq<Face>): (n: nat)
    ensures n <= 2
    ensures n == 0 <==> Imp !in hand && Imp !in pool
  {
    (if Imp in hand then 1 else 0) + (if Imp in pool then 1 else 0)
  }

  /** A player holding three Imps counts one in the rolloff as written,
      where the intended count is three. */
  lemma ImpCountCollapses()
    ensures CountImpsAsQueried([Imp, Imp, Imp], []) == 1
    ensures CountImps([Imp, Imp, Imp], []) == 3
  {
    assert [Imp, Imp, Imp] + [] == [Imp, Imp, Imp];
    assert [Imp, Imp, Imp][1..] == [Imp, Imp];
    assert [Imp, Imp][1..] == [Imp];
  }

  /** A face is in a list exactly when it is counted at least once. */
  lemma CountFacePositive(faces: seq<Face>, f: Face)
    ensures CountFace(faces, f) > 0 <==> f in faces
  {
    CountFaceIsMultiplicity(faces, f);
  }

  /** The queried count is the real one exactly when the hand and the pool
      hold at most one Imp each. */
  lemma QueriedCountAgrees(hand: seq<Face>, pool: seq<Face>)
    ensures CountImpsAsQueried(hand, pool) == CountImps(hand, pool) <==>
      CountFace(hand, Imp) <= 1 && CountFace(pool, Imp) <= 1
  {
    CountFaceIsMultiplicity(hand + pool, Imp);
    CountFaceIsMultiplicity(hand, Imp);
    CountFaceIsMultiplicity(pool, Imp);
    assert multiset(hand + pool) == multiset(hand) + multiset(pool);
    CountFacePositive(hand, Imp);
    CountFacePositive(pool, Imp);
  }

  /** How the rolloff counts a player's Imps: as countImpsForPlayer's
      face-keyed queries deliver the rows, or one for every Imp die. */
  datatype ImpCounting = AsQueried | EveryDie

  /** countImpsForPlayer under the chosen way of counting. */
  function ImpCount(how: ImpCounting, hand: seq<Face>, pool: seq<Face>): (n: nat)
    ensures n == 0 <==> Imp !in hand && Imp !in pool
  {
    CountFacePositive(hand + pool, Imp);
    match how
    case AsQueried => CountImpsAsQueried(hand, pool)
    case EveryDie => CountImps(hand, pool)
  }

  /** The rolloff results: each tied player's Imp count, in tie order. */
  function ImpCounts(how: ImpCounting, ids: seq<Player>, hands: map<Player, seq<Face>>, pool: seq<Face>): (r: seq<nat>)
    ensures |r| == |ids|
    ensures forall i :: 0 <= i < |ids| ==> r[i] == ImpCount(how, HandOf(hands, ids[i]), pool)
  {
    if ids == [] then [] else [ImpCount(how, HandOf(hands, ids[0]), pool)] + ImpCounts(how, ids[1..], hands, pool)
  }

  /** max() of a non-empty list of counts. */
  function MaxOf(xs: seq<nat>): (m: nat)
    requires xs != []
    ensures m in xs
    ensures forall i :: 0 <= i < |xs| ==> xs[i] <= m
  {
    if |xs| == 1 then xs[0]
    else
      var rest := MaxOf(xs[1..]);
      if xs[0] >= rest then xs[0] else rest
  }

  /** The first position holding `m`: array_filter keeps the order, and the
      rolloff takes entry 0 of what it keeps. */
  function FirstIndexOf(xs: seq<nat>, m: nat): (i: nat)
    requires m in xs
    ensures i < |xs| && xs[i] == m
    ensures forall j :: 0 <= j < i ==> xs[j] != m
  {
    if xs[0] == m then 0 else 1 + FirstIndexOf(xs[1..], m)
  }

  /** The position of the rolloff winner: a most-Imps entry, ahead of every
      other one (a tie at the top goes to the first of the tied). */
  function RolloffIndex(counts: seq<nat>): (i: nat)
    requires counts != []
    ensures i < |counts|
    ensures forall j :: 0 <= j < |counts| ==> counts[j] <= counts[i]
    ensures forall j :: 0 <= j < i ==> counts[j] < counts[i]
  {
    FirstIndexOf(counts, MaxOf(counts))
  }

  /** The two ways of counting pick different rolloff winners: with no Imp
      in the pool, a first tied player holding [Imp, Flame] beats a second
      holding [Imp, Imp] as written, while counting every die makes the
      second the winner. */
  lemma RolloffCountingDiffers(a: Player, b: Player)
    requires a != b
    ensures var hands := map[a := [Imp, Flame], b := [Imp, Imp]];
      && ImpCounts(AsQueried, [a, b], hands, []) == [1, 1]
      && RolloffIndex(ImpCounts(AsQueried, [a, b], hands, [])) == 0
      && ImpCounts(EveryDie, [a, b], hands, []) == [1, 2]
      && RolloffIndex(ImpCounts(EveryDie, [a, b], hands, [])) == 1
  {
    var hands := map[a := [Imp, Flame], b := [Imp, Imp]];
    assert HandOf(hands, a) == [Imp, Flame] && HandOf(hands, b) == [Imp, Imp];
    assert [Imp, Flame] + [] == [Imp, Flame] && [Imp, Imp] + [] == [Imp, Imp];
    assert [Imp, Flame][1..] == [Flame] && [Imp, Imp][1..] == [Imp];
    assert CountImps([Imp, Flame], []) == 1;
    assert CountImps([Imp, Imp], []) == 2;
  }
}

/** The claim validator of modules/php/DiceValidator.php (duplicated word
    for word as the private validateActionClaim and validateImpsSet of
    modules/php/Game.php): does a hand back the action, or the block, its
    owner declared? */
module DiceValidator {
  import opened Wrappers
  import opened Constants

  /** `array_filter` keeping the faces that are not Imps, in hand order. */
  function NonImps(faces: seq<Face>): (r: seq<Face>)
    ensures |r| <= |faces|
    ensures forall f :: f in r <==> f in faces && f != Imp
  {
    if faces == [] then []
    else (if faces[0] == Imp then [] else [faces[0]]) + NonImps(faces[1..])
  }

  /** `count(array_unique(...))`: how many different faces a list shows. */
  function DistinctCount(faces: seq<Face>): nat {
    |set f | f in faces|
  }

  /** validateImpsSet: a non-empty hand that is all Imps, or whose non-Imp
      dice show one single face. */
  function ValidateImpsSet(faces: seq<Face>): bool {
    if |faces| == 0 then false
    else
      var nonImpFaces := NonImps(faces);
      if |nonImpFaces| == 0 then true
      else DistinctCount(nonImpFaces) == 1
  }

  /** validateActionClaim. `action` and `currentAction` are the values of
      the current_action global as the caller passes and the validator
      reads them (None when the global holds no action code). */
  function ValidateActionClaim(action: Option<Action>, currentAction: Option<Action>, faces: seq<Face>): bool {
    match action
    case Some(RaiseHell) => Flame in faces
    case Some(HarvestSkulls) => Skull in faces
    case Some(Extort) => Trident in faces
    case Some(ReapSoul) => Scythe in faces
    case Some(PentagramAction) => Pentagram in faces
    case Some(ImpsSet) => ValidateImpsSet(faces)
    case Some(Block) =>
      if currentAction == Some(Extort) then Trident in faces
      else if currentAction == Some(ReapSoul) then Pentagram in faces
      else false
    case _ => false
  }

  // ---------------------------------------------------------------------
  // The rules of the game, stated independently of the code above.

  /** The face a single-face action needs in the declarer's hand. */
  function RequiredFace(a: Action): Option<Face> {
    match a
    case RaiseHell => Some(Flame)
    case HarvestSkulls => Some(Skull)
    case Extort => Some(Trident)
    case ReapSoul => Some(Scythe)
    case PentagramAction => Some(Pentagram)
    case _ => None
  }

  /** The face a block needs, by the action it blocks. */
  function BlockingFace(blocked: Action): Option<Face> {
    match blocked
    case Extort => Some(Trident)
    case ReapSoul => Some(Pentagram)
    case _ => None
  }

  /** Every die of the hand is an Imp or shows `f`. */
  predicate AllImpOr(faces: seq<Face>, f: Face) {
    forall d <- faces :: d == Imp || d == f
  }

  /** The Imp's Set rule: a non-empty hand whose dice all show Imp or one
      other single face. */
  predicate ImpsSetShape(faces: seq<Face>) {
    faces != [] && exists f :: AllImpOr(faces, f)
  }

  /** The five single-face actions are valid exactly when the hand holds
      their face; CHALLENGE and an unset code are never valid. */
  lemma SingleFaceClaims(a: Action, currentAction: Option<Action>, faces: seq<Face>)
    ensures RequiredFace(a).Some? ==>
      (ValidateActionClaim(Some(a), currentAction, faces) <==> RequiredFace(a).value in faces)
    ensures !ValidateActionClaim(Some(Challenge), currentAction, faces)
    ensures !ValidateActionClaim(None, currentAction, faces)
  {
  }

  /** A Block claim needs a Trident against Extort and a Pentagram against
      Reap Soul, and fails whatever the hand when current_action holds any
      other code, BLOCK included. */
  lemma BlockClaims(currentAction: Option<Action>, faces: seq<Face>)
    ensures ValidateActionClaim(Some(Block), currentAction, faces) <==>
      currentAction.Some? && BlockingFace(currentAction.value).Some? &&
      BlockingFace(currentAction.value).value in faces
  {
  }

  /** A set of faces with one element is that element alone. */
  lemma SingletonSet(s: set<Face>, g: Face)
    requires |s| == 1 && g in s
    ensures s == {g}
  {
    var rest := s - {g};
    assert s == rest + {g};
    assert |rest| == 0;
    assert rest == {};
  }

  /** validateImpsSet implements the Imp's Set rule, in both directions:
      false on an empty hand, true on all Imps, and otherwise true exactly
      when the non-Imp dice share one face. */
  lemma {:induction false} ImpsSetRule(faces: seq<Face>)
    ensures ValidateImpsSet(faces) <==> ImpsSetShape(faces)
  {
    if faces != [] {
      var n := NonImps(faces);
      var ds := set f | f in n;
      if |n| == 0 {
        assert AllImpOr(faces, Imp) by {
          forall d <- faces ensures d == Imp {
            assert d !in n;
          }
        }
      } else {
        assert n[0] in ds;
        if |ds| == 1 {
          SingletonSet(ds, n[0]);
          assert AllImpOr(faces, n[0]) by {
            forall d <- faces ensures d == Imp || d == n[0] {
              if d != Imp { assert d in ds; }
            }
          }
        }
        if f :| AllImpOr(faces, f) {
          assert ds <= {f} by {
            forall d <- ds ensures d == f {
              assert d in faces && d != Imp;
            }
          }
          assert ds == {f};
        }
      }
    }
  }

  /** Imp's Set holds of a hand holding a single die, whatever it shows. */
  lemma OneDieIsImpsSet(f: Face)
    ensures ValidateImpsSet([f])
  {
    assert AllImpOr([f], f);
    ImpsSetRule([f]);
  }

  /** The verdict depends only on which dice the hand holds, not on their
      order. */
  lemma {:induction false} ClaimIgnoresOrder(action: Option<Action>, currentAction: Option<Action>, h1: seq<Face>, h2: seq<Face>)
    requires multiset(h1) == multiset(h2)
    ensures ValidateActionClaim(action, currentAction, h1) == ValidateActionClaim(action, currentAction, h2)
  {
    SameFaces(h1, h2);
    if action == Some(ImpsSet) {
      assert |h1| == |multiset(h1)| == |multiset(h2)| == |h2|;
      ImpsSetRule(h1);
      ImpsSetRule(h2);
      if f :| AllImpOr(h1, f) { assert AllImpOr(h2, f); }
      if f :| AllImpOr(h2, f) { assert AllImpOr(h1, f); }
    }
  }

  /** Two lists with the same multiset of faces show the same faces. */
  lemma SameFaces(h1: seq<Face>, h2: seq<Face>)
    requires multiset(h1) == multiset(h2)
    ensures forall f :: f in h1 <==> f in h2
  {
    forall f ensures f in h1 <==> f in h2 {
      assert f in h1 <==> f in multiset(h1);
      assert f in h2 <==> f in multiset(h2);
    }
  }

  /** For every claim but Imp's Set, adding dice to a valid hand keeps it
      valid. */
  lemma AddingDiceKeepsClaim(action: Option<Action>, currentAction: Option<Action>, h: seq<Face>, more: seq<Face>)
    requires action != Some(ImpsSet)
    requires multiset(h) <= multiset(more)
    ensures ValidateActionClaim(action, currentAction, h) ==> ValidateActionClaim(action, currentAction, more)
  {
    forall f | f in h ensures f in more {
      assert f in multiset(h);
    }
  }

  /** Imp's Set is not monotone: a single Skull backs it, a Skull and a
      Flame do not. */
  lemma ImpsSetNotMonotone()
    ensures ValidateActionClaim(Some(ImpsSet), None, [Skull])
    ensures !ValidateActionClaim(Some(ImpsSet), None, [Skull, Flame])
  {
    OneDieIsImpsSet(Skull);
    var h := [Skull, Flame];
    ImpsSetRule(h);
    assert Skull in h && Flame in h;
    assert !exists f :: AllImpOr(h, f);
  }

  /** As written, a challenged block can never be valid: block() has already
      overwritten current_action with BLOCK when the validator reads it. */
  lemma BlockClaimAsWritten(faces: seq<Face>)
    ensures !ValidateActionClaim(Some(Block), Some(Block), faces)
  {
  }

  /** The block check with the blocked action passed in explicitly, as the
      rules intend. */
  function ValidateBlockClaim(blocked: Action, faces: seq<Face>): (r: bool)
    ensures r == ValidateActionClaim(Some(Block), Some(blocked), faces)
  {
    match BlockingFace(blocked)
    case Some(f) => f in faces
    case None => false
  }

  /** With the blocked action passed in, an honest block is upheld: a target
      of Extort holding a Trident, or of Reap Soul holding a Pentagram, wins
      the challenge, while the as-written check rejects the same hand. */
  lemma HonestBlockUpheld(blocked: Action, faces: seq<Face>)
    requires BlockingFace(blocked).Some? && BlockingFace(blocked).value in faces
    ensures ValidateBlockClaim(blocked, faces)
    ensures !ValidateActionClaim(Some(Block), Some(Block), faces)
  {
  }
}

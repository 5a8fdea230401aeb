/** The constants of modules/php/Constants.inc.php: dice faces, action codes
    and the (unused) state-id constants. */
module Constants {
  import opened Wrappers

  /** The six faces of a die (class DiceFaces). */
  datatype Face = Flame | Pentagram | Scythe | Trident | Skull | Imp

  /** The string value each face constant holds. */
  function FaceName(f: Face): string {
    match f
    case Flame => "flame"
    case Pentagram => "pentagram"
    case Scythe => "scythe"
    case Trident => "trident"
    case Skull => "skull"
    case Imp => "imp"
  }

  /** DiceFaces::getAllFaces: the six faces, in declaration order. */
  function AllFaces(): (fs: seq<Face>)
    ensures |fs| == 6
    ensures forall i, j :: 0 <= i < j < |fs| ==> fs[i] != fs[j]
    ensures forall f: Face :: f in fs
  {
    var fs := [Flame, Pentagram, Scythe, Trident, Skull, Imp];
    assert forall f: Face :: f in fs by {
      forall f: Face ensures f in fs {
        var i := match f
          case Flame => 0 case Pentagram => 1 case Scythe => 2
          case Trident => 3 case Skull => 4 case Imp => 5;
        assert fs[i] == f;
      }
    }
    fs
  }

  /** `in_array($face, DiceFaces::getAllFaces())` on a face sent by a client:
      the face whose constant is `s`, if there is one. */
  function ParseFace(s: string): (r: Option<Face>)
    ensures r.Some? ==> FaceName(r.value) == s
  {
    if s == "flame" then Some(Flame)
    else if s == "pentagram" then Some(Pentagram)
    else if s == "scythe" then Some(Scythe)
    else if s == "trident" then Some(Trident)
    else if s == "skull" then Some(Skull)
    else if s == "imp" then Some(Imp)
    else None
  }

  /** Every face constant is accepted, as exactly that face; and the six
      constant strings are pairwise distinct. */
  lemma FaceNamesRoundTrip(f: Face, g: Face)
    ensures ParseFace(FaceName(f)) == Some(f)
    ensures FaceName(f) == FaceName(g) ==> f == g
  {
  }

  /** The nine codes of class Actions. */
  datatype Action =
    | RaiseHell | HarvestSkulls | Extort | ReapSoul | PentagramAction | ImpsSet | SatansSteal
    | Challenge | Block

  /** The string value each action constant holds. */
  function ActionCode(a: Action): string {
    match a
    case RaiseHell => "raise_hell"
    case HarvestSkulls => "harvest_skulls"
    case Extort => "extort"
    case ReapSoul => "reap_soul"
    case PentagramAction => "pentagram"
    case ImpsSet => "imps_set"
    case SatansSteal => "satans_steal"
    case Challenge => "challenge"
    case Block => "block"
  }

  /** The seven actions a player may declare on their turn. */
  predicate Declarable(a: Action) {
    a != Challenge && a != Block
  }

  /** The nine action codes are pairwise distinct, so a stored code always
      names one action; in particular BLOCK and CHALLENGE are never mistaken
      for a declared action. */
  lemma ActionCodesDistinct(a: Action, b: Action)
    ensures ActionCode(a) == ActionCode(b) ==> a == b
  {
  }

  /** The constants of class States, in declaration order. */
  function StateConstants(): seq<int> {
    [1, 99, 10, 20, 21, 22, 23, 24, 25, 26, 27]
  }

  /** The state-id constants of class States are pairwise distinct. */
  lemma StateConstantsDistinct()
    ensures |StateConstants()| == 11
    ensures forall i, j :: 0 <= i < j < |StateConstants()| ==> StateConstants()[i] != StateConstants()[j]
  {
  }
}

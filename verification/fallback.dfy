/** The flat-colour images that stand in for parts absent from the photo, and
    the rule that picks one from the part's name. */
module Fallback {
  import opened Raster

  /** The five reference colours; LightGrey and Black are loaded but the
      rule never picks them. */
  datatype Colour = LightGrey | DarkGrey | Blue | Green | Black

  /** The five reference images, one per colour. */
  datatype Palette = Palette(lightGrey: Grid, darkGrey: Grid, blue: Grid, green: Grid, black: Grid)
  {
    function Image(c: Colour): Grid {
      match c
      case LightGrey => lightGrey
      case DarkGrey => darkGrey
      case Blue => blue
      case Green => green
      case Black => black
    }
  }

  /** `t` sits in `s` starting at position i. */
  predicate OccursAt(t: string, s: string, i: int) {
    0 <= i && i + |t| <= |s| && s[i..i + |t|] == t
  }

  /** `t` occurs in `s` as a contiguous piece (the `in` operator on strings). */
  predicate Occurs(t: string, s: string) {
    exists i | 0 <= i <= |s| - |t| :: OccursAt(t, s, i)
  }

  /** A string containing a character that `s` lacks does not occur in `s`. */
  lemma MissingCharMeansNoOccurrence(t: string, s: string, k: int)
    requires 0 <= k < |t| && t[k] !in s
    ensures !Occurs(t, s)
  {
    forall i | 0 <= i <= |s| - |t|
      ensures !OccursAt(t, s, i)
    {
      assert s[i..i + |t|][k] == s[i + k];
    }
  }

  /** The colour that paints a part absent from the photo: green by default,
      blue for a leg, green again for an arm, and dark grey for any bottom
      face, each later test overriding the earlier ones. */
  function FallbackColour(name: string): (c: Colour)
    ensures c != LightGrey && c != Black
    ensures c == DarkGrey <==> Occurs("Bottom", name)
    ensures c == Blue <==> !Occurs("Bottom", name) && Occurs("Leg", name) && !Occurs("Arm", name)
    ensures c == Green <==> !Occurs("Bottom", name) && (!Occurs("Leg", name) || Occurs("Arm", name))
  {
    var byDefault := Green;
    var afterLeg := if Occurs("Leg", name) then Blue else byDefault;
    var afterArm := if Occurs("Arm", name) then Green else afterLeg;
    if Occurs("Bottom", name) then DarkGrey else afterArm
  }

  /** A bottom face wins over the limb it belongs to. */
  lemma BottomWinsOverLeg(name: string)
    requires name == "leftLegBottom"
    ensures FallbackColour(name) == DarkGrey
  {
    assert OccursAt("Bottom", name, 7);
  }

  /** A leg face that is not a bottom face is painted blue. */
  lemma LegFaceIsBlue(name: string)
    requires name == "rightLegTop"
    ensures FallbackColour(name) == Blue
  {
    MissingCharMeansNoOccurrence("Bottom", name, 0);
    MissingCharMeansNoOccurrence("Arm", name, 0);
    assert OccursAt("Leg", name, 5);
  }

  /** An arm face that is not a bottom face is painted green. */
  lemma ArmFaceIsGreen(name: string)
    requires name == "rightArmTop"
    ensures FallbackColour(name) == Green
  {
    MissingCharMeansNoOccurrence("Bottom", name, 0);
    assert OccursAt("Arm", name, 5);
  }
}

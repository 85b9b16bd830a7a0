/**
 * The eight orientation codes of the Orientation tag (0x0112), section 4.6.4 of
 * Exif 2.3 (CIPA DC-008), and the explicit table between them and the integers 1..8.
 */
module Orientations {
  import opened Integers
  import opened Wrappers

  datatype Orientation =
    | Normal
    | Mirrored
    | UpsideDown
    | UpsideDownMirrored
    | QuarterRotationCCWMirrored
    | QuarterRotationCCW
    | QuarterRotationCWMirrored
    | QuarterRotationCW

  /** `orientation_as_u16`: the tag code of an orientation. */
  function AsU16(o: Orientation): (code: u16)
    ensures 1 <= code <= 8
  {
    match o
    case Normal => 1
    case Mirrored => 2
    case UpsideDown => 3
    case UpsideDownMirrored => 4
    case QuarterRotationCCWMirrored => 5
    case QuarterRotationCCW => 6
    case QuarterRotationCWMirrored => 7
    case QuarterRotationCW => 8
  }

  /**
   * `TryFrom<u16> for Orientation`: the orientation a code names; an error
   * exactly for codes outside 1..8, and otherwise the one orientation whose code it is.
   */
  function TryFromU16(v: u16): (r: Result<Orientation, ()>)
    ensures r.Err? <==> !(1 <= v <= 8)
    ensures r.Ok? ==> AsU16(r.value) == v
  {
    if v == 1 then Ok(Normal)
    else if v == 2 then Ok(Mirrored)
    else if v == 3 then Ok(UpsideDown)
    else if v == 4 then Ok(UpsideDownMirrored)
    else if v == 5 then Ok(QuarterRotationCCWMirrored)
    else if v == 6 then Ok(QuarterRotationCCW)
    else if v == 7 then Ok(QuarterRotationCWMirrored)
    else if v == 8 then Ok(QuarterRotationCW)
    else Err(())
  }

  /** Converting an orientation to its code and back gives the same orientation. */
  lemma TryFromAsU16(o: Orientation)
    ensures TryFromU16(AsU16(o)) == Ok(o)
  {
    match o
    case Normal =>
    case Mirrored =>
    case UpsideDown =>
    case UpsideDownMirrored =>
    case QuarterRotationCCWMirrored =>
    case QuarterRotationCCW =>
    case QuarterRotationCWMirrored =>
    case QuarterRotationCW =>
  }

  /** Distinct orientations have distinct codes. */
  lemma AsU16Injective(a: Orientation, b: Orientation)
    requires AsU16(a) == AsU16(b)
    ensures a == b
  {
    TryFromAsU16(a);
    TryFromAsU16(b);
  }

  /** Every code in 1..8 is the code of some orientation: the table's range is exactly 1..8. */
  lemma AsU16Onto(v: u16)
    requires 1 <= v <= 8
    ensures exists o :: AsU16(o) == v
  {
    var o := TryFromU16(v).value;
    assert AsU16(o) == v;
  }
}

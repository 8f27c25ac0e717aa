/** `OMKind` and the two namespace constants of `openmath/src/lib.rs`. */
module Kinds {
  import opened Wrappers

  /** The base of the official content dictionaries. */
  const OPENMATH_BASE_URI: string := "http://www.openmath.org/cd"

  /** The XML namespace of OpenMath elements. */
  const XML_NAMESPACE: string := "http://www.openmath.org/OpenMath"

  /** The twelve kinds of OpenMath object, in discriminant order. */
  datatype OMKind = OMI | OMF | OMSTR | OMB | OMV | OMS | OMA | OMBIND | OME | OMATTR | OMFOREIGN | OMR
  {
    /** The `#[repr(u8)]` discriminant. */
    function Discriminant(): (d: nat)
      ensures d < 12
    {
      match this
      case OMI => 0
      case OMF => 1
      case OMSTR => 2
      case OMB => 3
      case OMV => 4
      case OMS => 5
      case OMA => 6
      case OMBIND => 7
      case OME => 8
      case OMATTR => 9
      case OMFOREIGN => 10
      case OMR => 11
    }

    /** `as_str` (and `Display`): the kind's own name, which is also its XML element name. */
    function AsStr(): (r: string)
      ensures |r| >= 3 && r[..2] == "OM"
    {
      match this
      case OMI => "OMI"
      case OMF => "OMF"
      case OMSTR => "OMSTR"
      case OMB => "OMB"
      case OMV => "OMV"
      case OMS => "OMS"
      case OMA => "OMA"
      case OMBIND => "OMBIND"
      case OME => "OME"
      case OMATTR => "OMATTR"
      case OMFOREIGN => "OMFOREIGN"
      case OMR => "OMR"
    }
  }

  /** The kind with a given discriminant. */
  function FromDiscriminant(d: nat): (k: Option<OMKind>)
    ensures k.Some? <==> d < 12
    ensures k.Some? ==> k.value.Discriminant() == d
  {
    if d == 0 then Some(OMI) else if d == 1 then Some(OMF) else if d == 2 then Some(OMSTR)
    else if d == 3 then Some(OMB) else if d == 4 then Some(OMV) else if d == 5 then Some(OMS)
    else if d == 6 then Some(OMA) else if d == 7 then Some(OMBIND) else if d == 8 then Some(OME)
    else if d == 9 then Some(OMATTR) else if d == 10 then Some(OMFOREIGN) else if d == 11 then Some(OMR)
    else None
  }

  /** The kind an element name spells, as the reader's tag dispatch recognises it. */
  function FromName(name: string): (k: Option<OMKind>)
    ensures k.Some? ==> k.value.AsStr() == name
  {
    if name == "OMI" then Some(OMI) else if name == "OMF" then Some(OMF)
    else if name == "OMSTR" then Some(OMSTR) else if name == "OMB" then Some(OMB)
    else if name == "OMV" then Some(OMV) else if name == "OMS" then Some(OMS)
    else if name == "OMA" then Some(OMA) else if name == "OMBIND" then Some(OMBIND)
    else if name == "OME" then Some(OME) else if name == "OMATTR" then Some(OMATTR)
    else if name == "OMFOREIGN" then Some(OMFOREIGN) else if name == "OMR" then Some(OMR)
    else None
  }

  /** Discriminants are distinct, and every kind is found again from its discriminant and
      from its name. */
  lemma KindEncodings(k: OMKind, k': OMKind)
    ensures FromDiscriminant(k.Discriminant()) == Some(k)
    ensures FromName(k.AsStr()) == Some(k)
    ensures k.Discriminant() == k'.Discriminant() ==> k == k'
    ensures k.AsStr() == k'.AsStr() ==> k == k'
  {
    var d := FromDiscriminant(k.Discriminant());
    var d' := FromDiscriminant(k'.Discriminant());
    var n := FromName(k.AsStr());
    var n' := FromName(k'.AsStr());
  }
}

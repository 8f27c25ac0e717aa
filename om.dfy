/** What a deserializer is handed (de/mod.rs): the `OM` enum, one level of
    an OpenMath object whose children are already converted to `I`, its
    `kind`, and the `from_openmath` conversions the crate provides for
    primitive Rust types. */
module Om {
  import opened Wrappers
  import Ints
  import Floats
  import Base64
  import Kinds
  import Expr

  /** `OMAttr<I>`: an attribution whose value is an `I` or foreign. */
  type OMAttr<I> = Expr.Attr<Expr.MaybeForeign<I>>

  /** A bound variable of an OMBIND: its name and its attributions. */
  datatype OMVar<I> = OMVar(name: string, attrs: seq<OMAttr<I>>)

  /** `OM<I>`. There is no OMATTR case: attributions are every node's
      `attrs`. A symbol carries no cdbase; the base is passed beside it. */
  datatype OM<I> =
    | OMI(integer: Ints.Int, attrs: seq<OMAttr<I>>)
    | OMF(float: Floats.Float, attrs: seq<OMAttr<I>>)
    | OMSTR(text: string, attrs: seq<OMAttr<I>>)
    | OMB(bytes: seq<Base64.byte>, attrs: seq<OMAttr<I>>)
    | OMV(name: string, attrs: seq<OMAttr<I>>)
    | OMS(cd: string, name: string, attrs: seq<OMAttr<I>>)
    | OMA(applicant: I, arguments: seq<I>, attrs: seq<OMAttr<I>>)
    | OMBIND(binder: I, variables: seq<OMVar<I>>, object: I, attrs: seq<OMAttr<I>>)
    | OME(cdbase: Option<string>, cd: string, name: string, errorArguments: seq<Expr.MaybeForeign<I>>, attrs: seq<OMAttr<I>>)
  {
    /** The `repr(u8)` tag: each variant is declared `= OMKind::X as _`. */
    function Tag(): (t: nat)
      ensures t < 9
    {
      match this
      case OMI(_, _) => Kinds.OMKind.OMI.Discriminant()
      case OMF(_, _) => Kinds.OMKind.OMF.Discriminant()
      case OMSTR(_, _) => Kinds.OMKind.OMSTR.Discriminant()
      case OMB(_, _) => Kinds.OMKind.OMB.Discriminant()
      case OMV(_, _) => Kinds.OMKind.OMV.Discriminant()
      case OMS(_, _, _) => Kinds.OMKind.OMS.Discriminant()
      case OMA(_, _, _) => Kinds.OMKind.OMA.Discriminant()
      case OMBIND(_, _, _, _) => Kinds.OMKind.OMBIND.Discriminant()
      case OME(_, _, _, _, _) => Kinds.OMKind.OME.Discriminant()
    }

    /** `kind`: the tag read back as an `OMKind`. It is the variant's own
        kind and never OMATTR, OMFOREIGN or OMR. */
    function Kind(): (k: Kinds.OMKind)
      ensures k.Discriminant() == Tag()
      ensures k != Kinds.OMATTR && k != Kinds.OMFOREIGN && k != Kinds.OMR
      ensures OMI? <==> k == Kinds.OMI
      ensures OMF? <==> k == Kinds.OMF
      ensures OMSTR? <==> k == Kinds.OMSTR
      ensures OMB? <==> k == Kinds.OMB
      ensures OMV? <==> k == Kinds.OMV
      ensures OMS? <==> k == Kinds.OMS
      ensures OMA? <==> k == Kinds.OMA
      ensures OMBIND? <==> k == Kinds.OMBIND
      ensures OME? <==> k == Kinds.OME
    {
      Kinds.FromDiscriminant(Tag()).value
    }

    /** The same node with other attributions. */
    function WithAttrs(a: seq<OMAttr<I>>): (r: OM<I>)
      ensures r.attrs == a && r.Kind() == Kind()
    {
      match this
      case OMI(i, _) => OMI(i, a)
      case OMF(f, _) => OMF(f, a)
      case OMSTR(s, _) => OMSTR(s, a)
      case OMB(b, _) => OMB(b, a)
      case OMV(n, _) => OMV(n, a)
      case OMS(cd, n, _) => OMS(cd, n, a)
      case OMA(h, args, _) => OMA(h, args, a)
      case OMBIND(b, vars, body, _) => OMBIND(b, vars, body, a)
      case OME(base, cd, n, args, _) => OME(base, cd, n, args, a)
    }
  }

  // ---------------------------------------------------------------------
  // The primitive `from_openmath` conversions. Each takes the base in
  // effect as a second argument and ignores it, so it is left out here.

  /** `Int::from_openmath`. */
  function IntFrom<I>(om: OM<I>): (r: Result<Ints.Int, string>)
    ensures r.Ok? <==> om.Kind() == Kinds.OMI
    ensures r.Ok? ==> r.value == om.integer
    ensures r.Err? ==> r.error == "Not an integer"
  {
    if om.OMI? then Ok(om.integer) else Err("Not an integer")
  }

  /** `f64::from_openmath` (`f32` converts the same value; see README). */
  function F64From<I>(om: OM<I>): (r: Result<Floats.Float, string>)
    ensures r.Ok? <==> om.Kind() == Kinds.OMF
    ensures r.Ok? ==> r.value == om.float
    ensures r.Err? ==> r.error == "Not a float"
  {
    if om.OMF? then Ok(om.float) else Err("Not a float")
  }

  /** `String::from_openmath` and `Cow<str>::from_openmath`. */
  function StringFrom<I>(om: OM<I>): (r: Result<string, string>)
    ensures r.Ok? <==> om.Kind() == Kinds.OMSTR
    ensures r.Ok? ==> r.value == om.text
    ensures r.Err? ==> r.error == "Not an OMSTR"
  {
    if om.OMSTR? then Ok(om.text) else Err("Not an OMSTR")
  }

  /** `Vec<u8>::from_openmath` and `Cow<[u8]>::from_openmath`. */
  function BytesFrom<I>(om: OM<I>): (r: Result<seq<Base64.byte>, string>)
    ensures r.Ok? <==> om.Kind() == Kinds.OMB
    ensures r.Ok? ==> r.value == om.bytes
    ensures r.Err? ==> r.error == "Not an OMB"
  {
    if om.OMB? then Ok(om.bytes) else Err("Not an OMB")
  }

  /** The machine integer types of `impl_int_deserializable!`; `isize` and
      `usize` are taken to be 64 bits wide. */
  datatype IntType = I8 | U8 | I16 | U16 | U32 | I32 | I64 | U64 | I128 | Isize | Usize
  {
    function Min(): int {
      match this
      case I8 => -0x80
      case I16 => -0x8000
      case I32 => -0x8000_0000
      case I64 | Isize => -0x8000_0000_0000_0000
      case I128 => Ints.I128_MIN
      case _ => 0
    }

    function Max(): int {
      match this
      case I8 => 0x7F
      case U8 => 0xFF
      case I16 => 0x7FFF
      case U16 => 0xFFFF
      case I32 => 0x7FFF_FFFF
      case U32 => 0xFFFF_FFFF
      case I64 | Isize => 0x7FFF_FFFF_FFFF_FFFF
      case U64 | Usize => 0xFFFF_FFFF_FFFF_FFFF
      case I128 => Ints.I128_MAX
    }

    /** The message for an integer that does not fit. */
    function Message(): string {
      match this
      case I8 => "not an i8"
      case U8 => "not a u8"
      case I16 => "not an i16"
      case U16 => "not a u16"
      case U32 => "not a u32"
      case I32 => "not an i32"
      case I64 => "not an i64"
      case U64 => "not a u64"
      case I128 => "not an i128"
      case Isize => "not an isize"
      case Usize => "not a usize"
    }
  }

  /** `isize` and `usize` have the ranges of `i64` and `u64`. */
  lemma SizeTypesAre64Bit()
    ensures Isize.Min() == I64.Min() && Isize.Max() == I64.Max()
    ensures Usize.Min() == U64.Min() && Usize.Max() == U64.Max()
  {
  }

  /** `from_openmath` for a machine integer type: the `i128` of a stack
      integer, converted with `try_into`. */
  function MachineIntFrom<I>(t: IntType, om: OM<I>): (r: Result<int, string>)
    ensures r.Ok? <==> om.OMI? && om.integer.Stack? && t.Min() <= om.integer.v <= t.Max()
    ensures r.Ok? ==> r.value == om.integer.v
    ensures !om.OMI? ==> r == Err("Not an OMI")
    ensures om.OMI? && r.Err? ==> r.error == t.Message()
  {
    if om.OMI? then
      match Ints.IsI128(om.integer)
      case None => Err(t.Message())
      case Some(i) => if t.Min() <= i <= t.Max() then Ok(i) else Err(t.Message())
    else Err("Not an OMI")
  }

  /** For an integer parsed from text with at least one digit, the machine
      conversion succeeds exactly when the value is in the type's range: a
      heap integer never holds a value that fits. */
  lemma MachineIntOfParsed<I>(t: IntType, s: string, a: seq<OMAttr<I>>)
    requires Ints.New(s).Some? && |Ints.StripSign(s)| > 0
    ensures var om := OMI(Ints.New(s).value, a);
            var v := Ints.Value(Ints.New(s).value);
            (MachineIntFrom(t, om).Ok? <==> t.Min() <= v <= t.Max()) &&
            (MachineIntFrom(t, om).Ok? ==> MachineIntFrom(t, om).value == v)
  {
    if Ints.New(s).value.Heap? {
      Ints.HeapOnlyOutOfRange(s);
    }
  }

  /** Without a digit it does not: a lone `+` is the heap integer with
      empty text, whose value 0 fits every type, and is still refused. */
  lemma LoneSignIsNoMachineInt<I>(t: IntType, a: seq<OMAttr<I>>)
    ensures var x := Ints.New("+").value;
            Ints.Value(x) == 0 && t.Min() <= 0 <= t.Max() &&
            MachineIntFrom(t, OMI(x, a)) == Err(t.Message())
  {
    Ints.LonePlus();
  }

  /** The conversions look at the node's content only, not at its
      attributions. */
  lemma PrimitivesIgnoreAttrs<I>(om: OM<I>, a: seq<OMAttr<I>>, t: IntType)
    ensures IntFrom(om.WithAttrs(a)) == IntFrom(om)
    ensures F64From(om.WithAttrs(a)) == F64From(om)
    ensures StringFrom(om.WithAttrs(a)) == StringFrom(om)
    ensures BytesFrom(om.WithAttrs(a)) == BytesFrom(om)
    ensures MachineIntFrom(t, om.WithAttrs(a)) == MachineIntFrom(t, om)
  {
  }
}

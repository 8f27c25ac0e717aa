/** The crate's own object tree (lib.rs): `OMExpr`, its attributions, bound
    variables and foreign arguments, and `OMExpr::as_openmath`, which turns
    a node into the one serializer call for its kind. */
module Expr {
  import opened Wrappers
  import Ints
  import Floats
  import Base64
  import Kinds
  import opened SerTree

  /** `Attr`: an attribution with its symbol's cdbase, cd and name. Generic
      in the value, so that the reader's `OM` can reuse it. */
  datatype Attr<I> = Attr(cdbase: Option<string>, cd: string, name: string, value: I)

  /** `OMMaybeForeign`: an object, or foreign content. */
  datatype MaybeForeign<I> = OM(om: I) | Foreign(encoding: Option<string>, value: string)
  {
    /** `om_or_foreign`: the object on the left, the encoding and the
        value on the right, unchanged. */
    function OmOrForeign(): (r: Either<I, (Option<string>, string)>)
      ensures OM? <==> r.Left?
      ensures OM? ==> r.left == om
      ensures Foreign? ==> r.right == (encoding, value)
    {
      match this
      case OM(i) => Left(i)
      case Foreign(e, v) => Right((e, v))
    }
  }

  type ExprAttr = Attr<MaybeForeign<OMExpr>>

  datatype BoundVariable = BoundVariable(name: string, attributes: seq<ExprAttr>)

  /** `OMExpr`; every node carries a (usually empty) list of attributions. */
  datatype OMExpr =
    | OMI(integer: Ints.Int, attributes: seq<ExprAttr>)
    | OMF(float: Floats.Float, attributes: seq<ExprAttr>)
    | OMSTR(text: string, attributes: seq<ExprAttr>)
    | OMB(bytes: seq<Base64.byte>, attributes: seq<ExprAttr>)
    | OMV(name: string, attributes: seq<ExprAttr>)
    | OMS(cd: string, name: string, cdBase: Option<string>, attributes: seq<ExprAttr>)
    | OMA(applicant: OMExpr, arguments: seq<OMExpr>, attributes: seq<ExprAttr>)
    | OME(cd: string, name: string, cdbase: Option<string>, errorArguments: seq<MaybeForeign<OMExpr>>, attributes: seq<ExprAttr>)
    | OMBIND(binder: OMExpr, variables: seq<BoundVariable>, object: OMExpr, attributes: seq<ExprAttr>)
  {
    /** The kind the `repr(u8)` discriminant names (`= OMKind::X as _`). */
    function Kind(): (k: Kinds.OMKind)
      ensures k != Kinds.OMATTR && k != Kinds.OMFOREIGN && k != Kinds.OMR
      ensures OMI? <==> k == Kinds.OMI
      ensures OMS? <==> k == Kinds.OMS
      ensures OMA? <==> k == Kinds.OMA
      ensures OME? <==> k == Kinds.OME
      ensures OMBIND? <==> k == Kinds.OMBIND
    {
      match this
      case OMI(_, _) => Kinds.OMI
      case OMF(_, _) => Kinds.OMF
      case OMSTR(_, _) => Kinds.OMSTR
      case OMB(_, _) => Kinds.OMB
      case OMV(_, _) => Kinds.OMV
      case OMS(_, _, _, _) => Kinds.OMS
      case OMA(_, _, _) => Kinds.OMA
      case OME(_, _, _, _, _) => Kinds.OME
      case OMBIND(_, _, _, _) => Kinds.OMBIND
    }
  }

  /** The symbol an attribution presents: its own cdbase, cd and name. */
  function AttrSymbol<I>(a: Attr<I>): (u: Uri)
    ensures u.cdbase == a.cdbase && u.cd == a.cd && u.name == a.name
  {
    Uri(a.cdbase, a.cd, a.name)
  }

  /** Whether `as_openmath` can serialize `e`: the attributed-node path is
      `todo!()`, so every node it reaches must have no attributions. That
      includes the objects inside OME arguments and inside the
      attributions of bound variables, which the writers serialize too. */
  predicate Supported(e: OMExpr)
    decreases e, 3
  {
    e.attributes == [] &&
    match e
    case OMA(head, args, _) => Supported(head) && forall i :: 0 <= i < |args| ==> Supported(args[i])
    case OME(_, _, _, args, _) => forall i :: 0 <= i < |args| ==> SupportedArg(args[i])
    case OMBIND(binder, vars, body, _) =>
      Supported(binder) && Supported(body) && forall i :: 0 <= i < |vars| ==> SupportedVar(vars[i])
    case _ => true
  }

  predicate SupportedArg(a: MaybeForeign<OMExpr>)
    decreases a, 2
  {
    match a
    case OM(e) => Supported(e)
    case Foreign(_, _) => true
  }

  predicate SupportedVar(v: BoundVariable)
    decreases v, 2
  {
    forall i :: 0 <= i < |v.attributes| ==> SupportedAttr(v.attributes[i])
  }

  predicate SupportedAttr(a: ExprAttr)
    decreases a, 1
  {
    SupportedArg(a.value)
  }

  /** `OMExpr::as_openmath`: the serializer call each kind makes. An
      `OMExpr` has no `cdbase()` of its own, and the call is the one for
      the node's own kind. */
  function AsOpenMath(e: OMExpr): (o: Obj)
    requires Supported(e)
    ensures o.cdbase == None
    ensures CallKind(o.call) == e.Kind()
    decreases e, 2
  {
    match e
    case OMI(i, _) => Obj(None, Omi(i))
    case OMF(f, _) => Obj(None, Omf(f))
    case OMSTR(s, _) => Obj(None, Omstr(s))
    case OMB(b, _) => Obj(None, Omb(b))
    case OMV(n, _) => Var(n)
    case OMS(cd, n, base, _) => Symbol(Uri(base, cd, n))
    case _ => AsCompound(e)
  }

  /** The cases of `as_openmath` with children. */
  function AsCompound(e: OMExpr): (o: Obj)
    requires Supported(e) && (e.OMA? || e.OME? || e.OMBIND?)
    ensures o.cdbase == None
    ensures CallKind(o.call) == e.Kind()
    decreases e, 1
  {
    match e
    case OMA(head, args, _) => Obj(None, Oma(AsOpenMath(head), AsOpenMathAll(args)))
    case OME(cd, n, base, args, _) => Obj(None, Ome(Uri(base, cd, n), AsArgs(args)))
    case OMBIND(binder, vars, body, _) =>
      Obj(None, Ombind(AsOpenMath(binder), AsBindVars(vars), AsOpenMath(body)))
  }

  /** The arguments of an OMA, in stored order. */
  function AsOpenMathAll(args: seq<OMExpr>): (r: seq<Obj>)
    requires forall i :: 0 <= i < |args| ==> Supported(args[i])
    ensures |r| == |args|
    ensures forall i :: 0 <= i < |args| ==> r[i] == AsOpenMath(args[i])
    decreases args, 1
  {
    if |args| == 0 then [] else [AsOpenMath(args[0])] + AsOpenMathAll(args[1..])
  }

  /** An OME argument or attribution value through `om_or_foreign`. */
  function AsArg(a: MaybeForeign<OMExpr>): (r: OrForeign)
    requires SupportedArg(a)
    ensures a.OM? <==> r.OmArg?
    ensures a.Foreign? ==> r == OrForeign.Foreign(a.encoding, a.value)
    decreases a, 1
  {
    match a.OmOrForeign()
    case Left(i) => OmArg(AsOpenMath(i))
    case Right((enc, v)) => OrForeign.Foreign(enc, v)
  }

  function AsArgs(args: seq<MaybeForeign<OMExpr>>): (r: seq<OrForeign>)
    requires forall i :: 0 <= i < |args| ==> SupportedArg(args[i])
    ensures |r| == |args|
    ensures forall i :: 0 <= i < |args| ==> r[i] == AsArg(args[i])
    decreases args, 1
  {
    if |args| == 0 then [] else [AsArg(args[0])] + AsArgs(args[1..])
  }

  /** An attribution as the writers see it (`OMAttr for &Attr`). */
  function AsAttr(a: ExprAttr): (r: AttrS)
    requires SupportedAttr(a)
    ensures r.symbol == AttrSymbol(a)
    ensures r.value == AsArg(a.value)
    decreases a, 0
  {
    AttrS(AttrSymbol(a), AsArg(a.value))
  }

  function AsAttrs(attrs: seq<ExprAttr>): (r: seq<AttrS>)
    requires forall i :: 0 <= i < |attrs| ==> SupportedAttr(attrs[i])
    ensures |r| == |attrs|
    ensures forall i :: 0 <= i < |attrs| ==> r[i] == AsAttr(attrs[i])
    decreases attrs, 0
  {
    if |attrs| == 0 then [] else [AsAttr(attrs[0])] + AsAttrs(attrs[1..])
  }

  /** A bound variable as the writers see it (`BindVar for &BoundVariable`):
      its name and its attributions, unaltered. */
  function AsBindVar(v: BoundVariable): (r: BindVar)
    requires SupportedVar(v)
    ensures r.name == v.name
    ensures r.attrs == AsAttrs(v.attributes)
    decreases v, 1
  {
    BindVar(v.name, AsAttrs(v.attributes))
  }

  function AsBindVars(vars: seq<BoundVariable>): (r: seq<BindVar>)
    requires forall i :: 0 <= i < |vars| ==> SupportedVar(vars[i])
    ensures |r| == |vars|
    ensures forall i :: 0 <= i < |vars| ==> r[i] == AsBindVar(vars[i])
    decreases vars, 1
  {
    if |vars| == 0 then [] else [AsBindVar(vars[0])] + AsBindVars(vars[1..])
  }

  /** The kind of object a serializer call writes. */
  function CallKind(c: Call): Kinds.OMKind {
    match c
    case Omi(_) => Kinds.OMI
    case Omf(_) => Kinds.OMF
    case Omstr(_) => Kinds.OMSTR
    case Omb(_) => Kinds.OMB
    case Omv(_) => Kinds.OMV
    case Oms(_, _) => Kinds.OMS
    case AsOms(_) => Kinds.OMS
    case WithCdbase(_, inner) => CallKind(inner)
    case Oma(_, _) => Kinds.OMA
    case Ome(_, _) => Kinds.OME
    case Omattr(_, _) => Kinds.OMATTR
    case Ombind(_, _, _) => Kinds.OMBIND
  }

  // ---------------------------------------------------------------------
  // Nothing is lost: the call tree gives back the expression.

  /** Reading an `OMExpr` back from the calls `as_openmath` makes. */
  function FromObj(o: Obj): (r: Option<OMExpr>)
    decreases o, 2
  {
    match o.call
    case Omi(i) => Some(OMI(i, []))
    case Omf(f) => Some(OMF(f, []))
    case Omstr(s) => Some(OMSTR(s, []))
    case Omb(b) => Some(OMB(b, []))
    case Omv(n) => Some(OMV(n, []))
    case AsOms(u) => Some(OMS(u.cd, u.name, u.cdbase, []))
    case Oma(head, args) =>
      (match (FromObj(head), FromObjs(args))
       case (Some(h), Some(a)) => Some(OMA(h, a, []))
       case _ => None)
    case Ome(u, args) =>
      (match FromArgs(args)
       case Some(a) => Some(OME(u.cd, u.name, u.cdbase, a, []))
       case None => None)
    case Ombind(binder, vars, body) =>
      (match (FromObj(binder), FromBindVars(vars), FromObj(body))
       case (Some(b), Some(v), Some(c)) => Some(OMBIND(b, v, c, []))
       case _ => None)
    case _ => None
  }

  function FromObjs(os: seq<Obj>): Option<seq<OMExpr>>
    decreases os, 1
  {
    if |os| == 0 then Some([])
    else
      match (FromObj(os[0]), FromObjs(os[1..]))
      case (Some(e), Some(es)) => Some([e] + es)
      case _ => None
  }

  function FromArg(a: OrForeign): Option<MaybeForeign<OMExpr>>
    decreases a, 1
  {
    match a
    case OmArg(o) =>
      (match FromObj(o)
       case Some(e) => Some(OM(e))
       case None => None)
    case Foreign(enc, v) => Some(MaybeForeign.Foreign(enc, v))
  }

  function FromArgs(args: seq<OrForeign>): Option<seq<MaybeForeign<OMExpr>>>
    decreases args, 1
  {
    if |args| == 0 then Some([])
    else
      match (FromArg(args[0]), FromArgs(args[1..]))
      case (Some(a), Some(rest)) => Some([a] + rest)
      case _ => None
  }

  function FromAttr(a: AttrS): Option<ExprAttr>
    decreases a, 2
  {
    match FromArg(a.value)
    case Some(v) => Some(Attr(a.symbol.cdbase, a.symbol.cd, a.symbol.name, v))
    case None => None
  }

  function FromAttrs(attrs: seq<AttrS>): Option<seq<ExprAttr>>
    decreases attrs, 1
  {
    if |attrs| == 0 then Some([])
    else
      match (FromAttr(attrs[0]), FromAttrs(attrs[1..]))
      case (Some(a), Some(rest)) => Some([a] + rest)
      case _ => None
  }

  function FromBindVar(v: BindVar): Option<BoundVariable>
    decreases v, 2
  {
    match FromAttrs(v.attrs)
    case Some(a) => Some(BoundVariable(v.name, a))
    case None => None
  }

  function FromBindVars(vars: seq<BindVar>): Option<seq<BoundVariable>>
    decreases vars, 1
  {
    if |vars| == 0 then Some([])
    else
      match (FromBindVar(vars[0]), FromBindVars(vars[1..]))
      case (Some(v), Some(rest)) => Some([v] + rest)
      case _ => None
  }

  /** `as_openmath` forgets nothing about a serializable expression. */
  lemma {:induction false} AsOpenMathInjective(e: OMExpr)
    requires Supported(e)
    ensures FromObj(AsOpenMath(e)) == Some(e)
    decreases e, 2
  {
    if e.OMA? || e.OME? || e.OMBIND? {
      CompoundInjective(e);
    }
  }

  lemma {:induction false} CompoundInjective(e: OMExpr)
    requires Supported(e) && (e.OMA? || e.OME? || e.OMBIND?)
    ensures FromObj(AsCompound(e)) == Some(e)
    decreases e, 1
  {
    match e
    case OMA(head, args, _) =>
      AsOpenMathInjective(head);
      AllInjective(args);
      assert AsCompound(e).call == Oma(AsOpenMath(head), AsOpenMathAll(args));
    case OME(_, _, _, args, _) =>
      ArgsInjective(args);
    case OMBIND(binder, vars, body, _) =>
      OmbindInjective(e);
  }

  lemma {:induction false} OmbindInjective(e: OMExpr)
    requires Supported(e) && e.OMBIND?
    ensures FromObj(AsCompound(e)) == Some(e)
    decreases e, 0
  {
    var OMBIND(binder, vars, body, _) := e;
    AsOpenMathInjective(binder);
    BindVarsInjective(vars);
    AsOpenMathInjective(body);
    assert AsCompound(e).call == Ombind(AsOpenMath(binder), AsBindVars(vars), AsOpenMath(body));
  }

  lemma {:induction false} AllInjective(args: seq<OMExpr>)
    requires forall i :: 0 <= i < |args| ==> Supported(args[i])
    ensures FromObjs(AsOpenMathAll(args)) == Some(args)
    decreases args, 1
  {
    if |args| > 0 {
      AsOpenMathInjective(args[0]);
      AllInjective(args[1..]);
      assert AsOpenMathAll(args)[1..] == AsOpenMathAll(args[1..]);
      assert args == [args[0]] + args[1..];
    }
  }

  lemma {:induction false} ArgInjective(a: MaybeForeign<OMExpr>)
    requires SupportedArg(a)
    ensures FromArg(AsArg(a)) == Some(a)
    decreases a, 1
  {
    if a.OM? {
      AsOpenMathInjective(a.om);
    }
  }

  lemma {:induction false} ArgsInjective(args: seq<MaybeForeign<OMExpr>>)
    requires forall i :: 0 <= i < |args| ==> SupportedArg(args[i])
    ensures FromArgs(AsArgs(args)) == Some(args)
    decreases args, 1
  {
    if |args| > 0 {
      ArgInjective(args[0]);
      ArgsInjective(args[1..]);
      assert AsArgs(args)[1..] == AsArgs(args[1..]);
      assert args == [args[0]] + args[1..];
    }
  }

  lemma {:induction false} AttrsInjective(attrs: seq<ExprAttr>)
    requires forall i :: 0 <= i < |attrs| ==> SupportedAttr(attrs[i])
    ensures FromAttrs(AsAttrs(attrs)) == Some(attrs)
    decreases attrs, 0
  {
    if |attrs| > 0 {
      ArgInjective(attrs[0].value);
      AttrsInjective(attrs[1..]);
      assert AsAttrs(attrs)[1..] == AsAttrs(attrs[1..]);
      assert attrs == [attrs[0]] + attrs[1..];
    }
  }

  lemma {:induction false} BindVarsInjective(vars: seq<BoundVariable>)
    requires forall i :: 0 <= i < |vars| ==> SupportedVar(vars[i])
    ensures FromBindVars(AsBindVars(vars)) == Some(vars)
    decreases vars, 1
  {
    if |vars| > 0 {
      AttrsInjective(vars[0].attributes);
      BindVarsInjective(vars[1..]);
      assert AsBindVars(vars)[1..] == AsBindVars(vars[1..]);
      assert vars == [vars[0]] + vars[1..];
    }
  }

  // ---------------------------------------------------------------------
  // What the XML writer, which has no `omattr`, can write.

  /** No bound variable anywhere in `e` carries attributions. */
  predicate PlainBinders(e: OMExpr)
    decreases e, 1
  {
    match e
    case OMA(head, args, _) => PlainBinders(head) && forall i :: 0 <= i < |args| ==> PlainBinders(args[i])
    case OME(_, _, _, args, _) => forall i :: 0 <= i < |args| ==> PlainBindersArg(args[i])
    case OMBIND(binder, vars, body, _) =>
      PlainBinders(binder) && PlainBinders(body) && forall i :: 0 <= i < |vars| ==> vars[i].attributes == []
    case _ => true
  }

  predicate PlainBindersArg(a: MaybeForeign<OMExpr>)
    decreases a, 0
  {
    match a
    case OM(e) => PlainBinders(e)
    case Foreign(_, _) => true
  }

  /** A serializable expression whose bound variables carry no
      attributions makes no attribution call. */
  lemma {:induction false} PlainBindersNoAttribution(e: OMExpr)
    requires Supported(e) && PlainBinders(e)
    ensures NoAttributionObj(AsOpenMath(e))
    decreases e, 1
  {
    if e.OMA? || e.OME? || e.OMBIND? {
      CompoundNoAttribution(e);
    }
  }

  lemma {:induction false} CompoundNoAttribution(e: OMExpr)
    requires Supported(e) && PlainBinders(e) && (e.OMA? || e.OME? || e.OMBIND?)
    ensures NoAttributionObj(AsCompound(e))
    decreases e, 0
  {
    match e
    case OMA(head, args, _) =>
      PlainBindersNoAttribution(head);
      forall i | 0 <= i < |args| ensures NoAttributionObj(AsOpenMathAll(args)[i]) {
        PlainBindersNoAttribution(args[i]);
      }
    case OME(_, _, _, args, _) =>
      forall i | 0 <= i < |args| ensures NoAttributionArg(AsArgs(args)[i]) {
        if args[i].OM? {
          PlainBindersNoAttribution(args[i].om);
        }
      }
    case OMBIND(binder, vars, body, _) =>
      PlainBindersNoAttribution(binder);
      PlainBindersNoAttribution(body);
  }
}

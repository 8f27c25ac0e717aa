/** What a serializable value asks of a serializer (ser/mod.rs).

    In the crate a value implements `OMSerializable`: it may name its own
    `cdbase()`, and its `as_openmath` makes exactly one call on the
    serializer it is handed (`omi`, `oms`, `oma`, ...), possibly after
    `with_cdbase`. `Obj` records that: the value's `cdbase()` and the call
    it makes, with the values it passes to the call as nested `Obj`s. Both
    writers are functions of this tree and of the namespace context `Ns`. */
module SerTree {
  import opened Wrappers
  import Ints
  import Floats
  import Base64
  import Kinds

  /** `Uri`: an optional content dictionary base, a cd and a name. */
  datatype Uri = Uri(cdbase: Option<string>, cd: string, name: string)
  {
    /** `AsOMS::cdbase` for `Uri`: the own base, unless it is the one
        already in effect. */
    function Cdbase(current: string): (r: Option<string>)
      ensures r.None? <==> (cdbase.None? || cdbase.value == current)
      ensures r.Some? ==> r == cdbase
    {
      match cdbase
      case None => None
      case Some(s) => if s == current then None else Some(s)
    }
  }

  /** A serializable value: its own `cdbase()` and the call its
      `as_openmath` makes. */
  datatype Obj = Obj(cdbase: Option<string>, call: Call)

  /** The serializer calls. `AsOms(u)` is `u.as_oms()` (a value whose
      `cdbase()` is `None`), `WithCdbase(b, c)` is `with_cdbase(b)`
      followed by the call `c` on the serializer it returns. */
  datatype Call =
    | Omi(i: Ints.Int)
    | Omf(f: Floats.Float)
    | Omstr(s: string)
    | Omb(bytes: seq<Base64.byte>)
    | Omv(name: string)
    | Oms(cd: string, name: string)
    | AsOms(uri: Uri)
    | WithCdbase(base: string, inner: Call)
    | Oma(head: Obj, args: seq<Obj>)
    | Ome(error: Uri, eargs: seq<OrForeign>)
    | Omattr(attrs: seq<AttrS>, atp: Obj)
    | Ombind(binder: Obj, vars: seq<BindVar>, body: Obj)

  /** An argument of an OME or an attribute value: an object, or foreign
      content with an optional encoding (`OMOrForeign`). */
  datatype OrForeign = OmArg(obj: Obj) | Foreign(encoding: Option<string>, value: string)

  /** An attribution pair (`OMAttr`): the symbol and its value. */
  datatype AttrS = AttrS(symbol: Uri, value: OrForeign)

  /** A bound variable (`BindVar`): a name and its attributions. */
  datatype BindVar = BindVar(name: string, attrs: seq<AttrS>)

  /** `u.as_oms()` as a value. */
  function Symbol(u: Uri): Obj {
    Obj(None, AsOms(u))
  }

  /** `Omv(name)` as a value. */
  function Var(name: string): Obj {
    Obj(None, Omv(name))
  }

  /** The namespace context both writers carry: the base in force
      (`current_ns`) and one announced for the next element (`next_ns`). */
  datatype Ns = Ns(next: Option<string>, current: string)
  {
    /** `current_cdbase`: the announced base if there is one. */
    function CurrentCdbase(): (r: string)
      ensures next.Some? ==> r == next.value
      ensures next.None? ==> r == current
    {
      next.GetOr(current)
    }
  }

  /** `with_cdbase` as the source writes it: the new base is announced
      unless it equals `current_ns`, even when a different base is
      already announced. */
  function WithBaseAsWritten(ns: Ns, b: string): (r: Ns)
    ensures b == ns.current ==> r == ns
    ensures b != ns.current ==> r == Ns(Some(b), ns.current)
  {
    if ns.current == b then ns else Ns(Some(b), ns.current)
  }

  /** `with_cdbase` compared with the base in effect: afterwards `b` is in
      effect, and nothing changes when it already was. */
  function WithBase(ns: Ns, b: string): (r: Ns)
    ensures r.CurrentCdbase() == b
    ensures r.current == ns.current
    ensures ns.CurrentCdbase() == b ==> r == ns
  {
    if ns.CurrentCdbase() == b then ns else Ns(Some(b), ns.current)
  }

  /** The two agree whenever no base is announced, which is the state in
      which every symbol of the bundled tests is written. */
  lemma WithBaseAgreesWhenNothingPending(ns: Ns, b: string)
    requires ns.next.None?
    ensures WithBaseAsWritten(ns, b) == WithBase(ns, b)
  {
  }

  /** The as-written rule can leave a base announced that is not the one
      asked for: announced `http://example.org` over the OpenMath base,
      asking for the OpenMath base keeps `http://example.org`. */
  lemma WithBaseAsWrittenKeepsStaleBase()
    ensures var ns := Ns(Some("http://example.org"), Kinds.OPENMATH_BASE_URI);
            WithBaseAsWritten(ns, Kinds.OPENMATH_BASE_URI).CurrentCdbase() == "http://example.org"
  {
  }

  /** What a compound element (OMA, OMATTR, OMBIND, and OME in XML) does
      with an announced base: it becomes current and nothing is announced. */
  function Consume(ns: Ns): (r: Ns)
    ensures r.next.None?
    ensures r.current == ns.CurrentCdbase()
    ensures ns.next.None? ==> r == ns
  {
    match ns.next
    case Some(s) => Ns(None, s)
    case None => ns
  }

  /** The context an `AsOMS::as_oms` symbol is written in: `with_cdbase` of
      the URI's base when `Uri::cdbase(current_cdbase)` returns one. */
  function AsOmsNs(ns: Ns, u: Uri): Ns {
    match u.Cdbase(ns.CurrentCdbase())
    case Some(b) => WithBase(ns, b)
    case None => ns
  }

  /** A symbol is written in its own base when it has one, and in the base
      in effect otherwise; and no base is announced that was not before
      unless it differs from the one in effect. */
  lemma AsOmsNsBase(ns: Ns, u: Uri)
    ensures AsOmsNs(ns, u).CurrentCdbase() == u.cdbase.GetOr(ns.CurrentCdbase())
    ensures AsOmsNs(ns, u).current == ns.current
    ensures AsOmsNs(ns, u) != ns ==> u.cdbase.Some? && u.cdbase.value != ns.CurrentCdbase()
  {
  }

  /** With the as-written `with_cdbase`, a symbol whose base is the OpenMath
      base, written while `http://example.org` is announced over it, comes
      out in `http://example.org`. */
  lemma AsOmsAsWrittenWrongBase()
    ensures var ns := Ns(Some("http://example.org"), Kinds.OPENMATH_BASE_URI);
            var u := Uri(Some(Kinds.OPENMATH_BASE_URI), "arith1", "plus");
            u.Cdbase(ns.CurrentCdbase()) == Some(Kinds.OPENMATH_BASE_URI) &&
            WithBaseAsWritten(ns, u.cdbase.value).CurrentCdbase() != u.cdbase.value
  {
  }

  /** Whether a tree uses no attribution (OMATTR, or a bound variable with
      attributes); the XML writer has no `omattr`. */
  predicate NoAttribution(c: Call)
    decreases c, 1
  {
    match c
    case WithCdbase(_, inner) => NoAttribution(inner)
    case Oma(head, args) => NoAttributionObj(head) && forall i :: 0 <= i < |args| ==> NoAttributionObj(args[i])
    case Ome(_, eargs) => forall i :: 0 <= i < |eargs| ==> NoAttributionArg(eargs[i])
    case Omattr(_, _) => false
    case Ombind(binder, vars, body) =>
      NoAttributionObj(binder) && NoAttributionObj(body) && forall i :: 0 <= i < |vars| ==> vars[i].attrs == []
    case _ => true
  }

  predicate NoAttributionObj(o: Obj)
    decreases o, 2
  {
    NoAttribution(o.call)
  }

  predicate NoAttributionArg(a: OrForeign)
    decreases a, 0
  {
    match a
    case OmArg(o) => NoAttributionObj(o)
    case Foreign(_, _) => true
  }
}

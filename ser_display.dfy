/** The debug notation writer of ser/mod.rs: `OMDisplay`, the
    `DisplaySerializer` behind it and the `OMOBJ(...)` display of
    `OMObject`. The notation is specified by the `Show*` functions; the
    serializer class writes into a `Formatter` step by step and is proved to
    write exactly that. */
module DisplayWriter {
  import opened Wrappers
  import opened SerTree
  import opened Text
  import opened Fmt
  import Ints
  import Base64
  import Kinds

  const BASE: string := Kinds.OPENMATH_BASE_URI

  // ----- the notation --------------------------------------------------------------

  /** `@base` after a compound element's name, when a base is announced. */
  function Marker(ns: Ns): string {
    match ns.next
    case Some(s) => "@" + s
    case None => ""
  }

  /** `base/` before a symbol's cd, when a base is announced. */
  function BaseSlash(ns: Ns): string {
    match ns.next
    case Some(s) => s + "/"
    case None => ""
  }

  /** The context `rec` hands a nested value: a value naming a base other
      than the current one has it announced, over the OpenMath base. */
  function RecNs(ns: Ns, o: Obj): Ns {
    match o.cdbase
    case Some(nx) => if ns.current == nx then ns else Ns(Some(nx), BASE)
    case None => ns
  }

  function ShowOms(ns: Ns, cd: string, name: string): string {
    "OMS(" + BaseSlash(ns) + cd + "#" + name + ")"
  }

  /** The decimal texts of the bytes of an OMB. */
  function ByteTexts(bytes: seq<Base64.byte>): (r: seq<string>)
    ensures |r| == |bytes|
  {
    seq(|bytes|, i requires 0 <= i < |bytes| => Ints.NatToString(bytes[i] as nat))
  }

  /** What `c` writes in context `ns`. */
  function Show(ns: Ns, c: Call): string
    decreases c, 1
  {
    match c
    case Omi(i) => "OMI(" + Ints.Display(i) + ")"
    case Omf(x) => "OMF(" + x.text + ")"
    case Omstr(s) => "OMSTR(\"" + s + "\")"
    case Omb(bytes) => "OMB(" + Join(",", ByteTexts(bytes)) + ")"
    case Omv(name) => "OMV(" + name + ")"
    case Oms(cd, name) => ShowOms(ns, cd, name)
    case AsOms(u) => ShowOms(AsOmsNs(ns, u), u.cd, u.name)
    case WithCdbase(b, inner) => Show(WithBase(ns, b), inner)
    case Oma(head, args) =>
      var inner := Consume(ns);
      if |args| == 0 then ShowObj(inner, head)
      else "OMA" + Marker(ns) + "(" + ShowObj(inner, head) + ShowArgs(inner, args) + ")"
    case Ome(error, eargs) =>
      "OME" + BaseSlash(ns) + error.cd + "#" + error.name + "(" + ShowEargs(ns, eargs) + ")"
    case Omattr(attrs, atp) => ShowOmattr(ns, attrs, ShowObj(Consume(ns), atp))
    case Ombind(binder, vars, body) =>
      var inner := Consume(ns);
      "OMBIND" + Marker(ns) + "(" + ShowObj(inner, binder) + ",[" + ShowVars(inner, vars) + "],"
      + ShowObj(inner, body) + ")"
  }

  /** The arguments of an OMA, each after a `,`. */
  function ShowArgs(ns: Ns, args: seq<Obj>): string
    decreases args, 3
  {
    Concat(ArgTexts(ns, args))
  }

  function ArgTexts(ns: Ns, args: seq<Obj>): (r: seq<string>)
    decreases args, 2
    ensures |r| == |args|
    ensures forall i :: 0 <= i < |args| ==> r[i] == "," + ShowObj(ns, args[i])
  {
    seq(|args|, i requires 0 <= i < |args| => "," + ShowObj(ns, args[i]))
  }

  /** The arguments of an OME, separated by `,`. */
  function ShowEargs(ns: Ns, eargs: seq<OrForeign>): string
    decreases eargs, 3
  {
    Join(",", EargTexts(ns, eargs))
  }

  function EargTexts(ns: Ns, eargs: seq<OrForeign>): (r: seq<string>)
    decreases eargs, 2
    ensures |r| == |eargs|
    ensures forall i :: 0 <= i < |eargs| ==> r[i] == ShowForeign(ns, eargs[i])
  {
    seq(|eargs|, i requires 0 <= i < |eargs| => ShowForeign(ns, eargs[i]))
  }

  /** Attribution pairs, separated by `, `. */
  function ShowPairs(ns: Ns, attrs: seq<AttrS>): string
    decreases attrs, 3
  {
    Join(", ", PairTexts(ns, attrs))
  }

  function PairTexts(ns: Ns, attrs: seq<AttrS>): (r: seq<string>)
    decreases attrs, 2
    ensures |r| == |attrs|
    ensures forall i :: 0 <= i < |attrs| ==> r[i] == ShowAttr(ns, attrs[i])
  {
    seq(|attrs|, i requires 0 <= i < |attrs| => ShowAttr(ns, attrs[i]))
  }

  /** Bound variables, separated by `, `. */
  function ShowVars(ns: Ns, vars: seq<BindVar>): string
    decreases vars, 3
  {
    Join(", ", VarTexts(ns, vars))
  }

  function VarTexts(ns: Ns, vars: seq<BindVar>): (r: seq<string>)
    decreases vars, 2
    ensures |r| == |vars|
    ensures forall i :: 0 <= i < |vars| ==> r[i] == ShowVar(ns, vars[i])
  {
    seq(|vars|, i requires 0 <= i < |vars| => ShowVar(ns, vars[i]))
  }

  /** `rec`: a nested value in the context it is handed. */
  function ShowObj(ns: Ns, o: Obj): string
    decreases o, 2
  {
    Show(RecNs(ns, o), o.call)
  }

  /** `foreign`: an object, or `OMF(encoding:enc,value)` / `OMF(value)`. */
  function ShowForeign(ns: Ns, a: OrForeign): string
    decreases a, 0
  {
    match a
    case OmArg(o) => ShowObj(ns, o)
    case Foreign(Some(enc), v) => "OMF(encoding:" + enc + "," + v + ")"
    case Foreign(None, v) => "OMF(" + v + ")"
  }

  /** One attribution pair: `symbol = value`, the symbol through `as_oms`. */
  function ShowAttr(ns: Ns, a: AttrS): string
    decreases a, 0
  {
    ShowOms(AsOmsNs(ns, a.symbol), a.symbol.cd, a.symbol.name) + " = " + ShowForeign(ns, a.value)
  }

  /** `omattr` around an already written attributed object. */
  function ShowOmattr(ns: Ns, attrs: seq<AttrS>, atp: string): string
    decreases attrs, 4
  {
    "OMATTR" + Marker(ns) + "(" + atp + ",[" + ShowPairs(Consume(ns), attrs) + "])"
  }

  /** A bound variable: its name, or an OMATTR around `OMV(name)` written
      with nothing announced. */
  function ShowVar(ns: Ns, v: BindVar): string
    decreases v, 0
  {
    if |v.attrs| == 0 then v.name
    else ShowOmattr(Ns(None, ns.current), v.attrs, "OMV(" + v.name + ")")
  }

  /** `OMDisplay`: the value's own base announced over the OpenMath base. */
  function Display(o: Obj): string {
    Show(Ns(o.cdbase, BASE), o.call)
  }

  /** `Display for OMObject`. */
  function ObjectDisplay(o: Obj): string {
    "OMOBJ(" + Display(o) + ")"
  }

  // ----- the bound-variable separator as written -----------------------------------

  /** One turn of the `ombind` variable loop as the source writes it: a
      plain variable gets `", "` unless it is first, but an attributed one
      gets `", "` only when it IS first. */
  function VarPieceAsWritten(ns: Ns, v: BindVar, first: bool): string {
    if |v.attrs| == 0 then (if first then "" else ", ") + v.name
    else (if first then ", " else "") + ShowOmattr(Ns(None, ns.current), v.attrs, "OMV(" + v.name + ")")
  }

  /** The variable list as the source writes it. */
  function VarsAsWritten(ns: Ns, vars: seq<BindVar>): string {
    Concat(VarPiecesAsWritten(ns, vars))
  }

  function VarPiecesAsWritten(ns: Ns, vars: seq<BindVar>): (r: seq<string>)
    ensures |r| == |vars|
    ensures forall i :: 0 <= i < |vars| ==> r[i] == VarPieceAsWritten(ns, vars[i], i == 0)
  {
    seq(|vars|, i requires 0 <= i < |vars| => VarPieceAsWritten(ns, vars[i], i == 0))
  }

  /** A lone attributed variable comes out with a leading separator. */
  lemma LoneAttributedVarAsWritten()
    ensures var ns := Ns(None, BASE);
            var a := [AttrS(Uri(None, "c", "n"), Foreign(None, "v"))];
            var y := ShowOmattr(ns, a, "OMV(y)");
            VarsAsWritten(ns, [BindVar("y", a)]) == ", " + y &&
            ShowVars(ns, [BindVar("y", a)]) == y
  {
    var ns := Ns(None, BASE);
    var a := [AttrS(Uri(None, "c", "n"), Foreign(None, "v"))];
    var vy := BindVar("y", a);
    var y := ShowOmattr(ns, a, "OMV(y)");
    assert "OMV(" + vy.name + ")" == "OMV(y)";
    assert ShowVar(ns, vy) == y;
    var py := VarPieceAsWritten(ns, vy, true);
    assert py == ", " + y;
    var one := seq(1, i requires 0 <= i < 1 => VarPieceAsWritten(ns, [vy][i], i == 0));
    assert one == [py];
    assert one[..0] == [];
    assert Concat(one) == py;
    var one' := seq(1, i requires 0 <= i < 1 => ShowVar(ns, [vy][i]));
    assert one' == [y];
  }

  /** An attributed variable after a plain one comes out with no separator,
      where the join puts `, ` between the two. */
  lemma AttributedVarAfterPlainAsWritten()
    ensures var ns := Ns(None, BASE);
            var a := [AttrS(Uri(None, "c", "n"), Foreign(None, "v"))];
            var y := ShowOmattr(ns, a, "OMV(y)");
            VarsAsWritten(ns, [BindVar("x", []), BindVar("y", a)]) == "x" + y &&
            ShowVars(ns, [BindVar("x", []), BindVar("y", a)]) == "x, " + y
  {
    var ns := Ns(None, BASE);
    var a := [AttrS(Uri(None, "c", "n"), Foreign(None, "v"))];
    var vx := BindVar("x", []);
    var vy := BindVar("y", a);
    var y := ShowOmattr(ns, a, "OMV(y)");
    assert "OMV(" + vy.name + ")" == "OMV(y)";
    assert ShowVar(ns, vy) == y;
    var px := VarPieceAsWritten(ns, vx, true);
    var py := VarPieceAsWritten(ns, vy, false);
    assert px == "x" && py == y;
    var two := seq(2, i requires 0 <= i < 2 => VarPieceAsWritten(ns, [vx, vy][i], i == 0));
    assert two == [px, py];
    assert two[..1] == [px] && [px][..0] == [];
    assert Concat([px]) == px;
    assert Concat(two) == px + py;
    var two' := seq(2, i requires 0 <= i < 2 => ShowVar(ns, [vx, vy][i]));
    assert two' == ["x", y];
    assert two'[..1] == ["x"];
  }

  /** Without attributed variables the loop as written and the corrected
      join agree, which is why the bundled tests do not see the difference. */
  lemma VarsAsWrittenAgreesWithoutAttributes(ns: Ns, vars: seq<BindVar>)
    requires forall i :: 0 <= i < |vars| ==> vars[i].attrs == []
    ensures VarsAsWritten(ns, vars) == ShowVars(ns, vars)
  {
    var pieces := VarPiecesAsWritten(ns, vars);
    var names := VarTexts(ns, vars);
    forall i | 0 <= i < |vars| ensures pieces[i] == (if i == 0 then "" else ", ") + names[i] {
    }
    ConcatSeparated(", ", pieces, names);
  }

  // ----- properties of the notation ------------------------------------------------

  /** A symbol names the base it belongs to: either nothing is written and
      the base is the current one, or `base/` is written and it is the
      symbol's own base or the one announced. */
  lemma SymbolNamesItsBase(ns: Ns, u: Uri)
    ensures var b := u.cdbase.GetOr(ns.CurrentCdbase());
            var p := BaseSlash(AsOmsNs(ns, u));
            Show(ns, AsOms(u)) == "OMS(" + p + u.cd + "#" + u.name + ")" &&
            (p == "" ==> b == ns.current) && (p != "" ==> p == b + "/")
  {
    AsOmsNsBase(ns, u);
  }

  /** An announced base is written once, as `@base` on the compound element
      that consumes it, and the element's parts are written with it current
      and nothing announced. */
  lemma OmaConsumesBase(b: string, cur: string, head: Obj, args: seq<Obj>)
    requires |args| > 0
    ensures Show(Ns(Some(b), cur), Oma(head, args))
         == "OMA@" + b + "(" + ShowObj(Ns(None, b), head) + ShowArgs(Ns(None, b), args) + ")"
  {
  }

  lemma OmattrConsumesBase(b: string, cur: string, attrs: seq<AttrS>, atp: Obj)
    ensures Show(Ns(Some(b), cur), Omattr(attrs, atp))
         == "OMATTR@" + b + "(" + ShowObj(Ns(None, b), atp) + ",[" + ShowPairs(Ns(None, b), attrs) + "])"
  {
    assert Consume(Ns(Some(b), cur)) == Ns(None, b) && Marker(Ns(Some(b), cur)) == "@" + b;
  }

  lemma OmbindConsumesBase(b: string, cur: string, binder: Obj, vars: seq<BindVar>, body: Obj)
    ensures Show(Ns(Some(b), cur), Ombind(binder, vars, body))
         == "OMBIND@" + b + "(" + ShowObj(Ns(None, b), binder) + ",[" + ShowVars(Ns(None, b), vars) + "],"
            + ShowObj(Ns(None, b), body) + ")"
  {
    assert Consume(Ns(Some(b), cur)) == Ns(None, b) && Marker(Ns(Some(b), cur)) == "@" + b;
  }

  /** An OMA without arguments is written as its head alone. */
  lemma EmptyOmaIsItsHead(ns: Ns, head: Obj)
    ensures Show(ns, Oma(head, [])) == ShowObj(Consume(ns), head)
  {
  }

  /** Splitting the body of an OMB at `,` recovers every byte from its
      decimal text. */
  lemma OmbListsTheBytes(ns: Ns, bytes: seq<Base64.byte>)
    requires |bytes| > 0
    ensures var s := Show(ns, Omb(bytes));
            var parts := Split(s[4..|s| - 1], ',');
            s[..4] == "OMB(" && s[|s| - 1] == ')' && |parts| == |bytes| &&
            forall i :: 0 <= i < |bytes| ==> Ints.AllDigits(parts[i]) && Ints.DecimalValue(parts[i]) == bytes[i] as nat
  {
    var texts := ByteTexts(bytes);
    var s := Show(ns, Omb(bytes));
    assert s == "OMB(" + Join(",", texts) + ")";
    assert s[4..|s| - 1] == Join([','], texts);
    forall i | 0 <= i < |texts| ensures ',' !in texts[i] {
      assert Ints.AllDigits(texts[i]);
    }
    SplitJoin(texts, ',');
    forall i | 0 <= i < |bytes| ensures Ints.DecimalValue(texts[i]) == bytes[i] as nat {
      Ints.NatToStringValue(bytes[i] as nat);
    }
  }

  /** Bound variables without attributes are written as their names
      separated by `, `; no variables give `[]`. */
  lemma PlainVarsAreNames(ns: Ns, binder: Obj, vars: seq<BindVar>, body: Obj)
    requires forall i :: 0 <= i < |vars| ==> vars[i].attrs == []
    ensures var inner := Consume(ns);
            Show(ns, Ombind(binder, vars, body)) ==
            "OMBIND" + Marker(ns) + "(" + ShowObj(inner, binder) + ",["
            + Join(", ", seq(|vars|, i requires 0 <= i < |vars| => vars[i].name)) + "]," + ShowObj(inner, body) + ")"
  {
    var inner := Consume(ns);
    assert seq(|vars|, i requires 0 <= i < |vars| => ShowVar(inner, vars[i]))
        == seq(|vars|, i requires 0 <= i < |vars| => vars[i].name);
    assert ShowVars(inner, vars) == Join(", ", seq(|vars|, i requires 0 <= i < |vars| => vars[i].name));
  }

  // ----- the serializer ------------------------------------------------------------

  /** `DisplaySerializer`: the formatter and the namespace context. Each
      serializer call consumes the serializer in the source; here it is
      the object's last use. */
  class DisplaySerializer {
    const f: Formatter
    var next: Option<string>
    var current: string

    function Context(): Ns
      reads this
    {
      Ns(next, current)
    }

    constructor (f: Formatter, ns: Ns)
      ensures this.f == f && Context() == ns
    {
      this.f := f;
      next := ns.next;
      current := ns.current;
    }

    /** `with_cdbase`, compared with the base in effect. */
    method WithCdbase(b: string)
      modifies this
      ensures Context() == WithBase(old(Context()), b)
    {
      if !(if next.Some? then next.value == b else current == b) {
        next := Some(b);
      }
    }

    /** `as_openmath` of a value whose call is `c`. */
    method Write(c: Call)
      modifies this, f
      decreases c, 1
      ensures f.out == old(f.out) + Show(old(Context()), c)
    {
      match c
      case Omi(i) => f.WriteStr("OMI(" + Ints.Display(i) + ")");
      case Omf(x) => f.WriteStr("OMF(" + x.text + ")");
      case Omstr(s) => f.WriteStr("OMSTR(\"" + s + "\")");
      case Omb(bytes) => this.Omb(bytes);
      case Omv(name) => this.Omv(name);
      case Oms(cd, name) => this.Oms(cd, name);
      case AsOms(u) => this.AsOms(u);
      case WithCdbase(b, inner) =>
        this.WithCdbase(b);
        this.Write(inner);
      case Oma(head, args) => this.Oma(head, args);
      case Ome(error, eargs) => this.Ome(error, eargs);
      case Omattr(attrs, atp) => this.Omattr(attrs, atp);
      case Ombind(binder, vars, body) => this.Ombind(binder, vars, body);
    }

    /** `rec`: a nested value gets a serializer of its own. */
    method Rec(o: Obj)
      modifies f
      decreases o, 2
      ensures f.out == old(f.out) + ShowObj(Context(), o)
    {
      var s := new DisplaySerializer(f, RecNs(Context(), o));
      s.Write(o.call);
    }

    /** `foreign`. */
    method Foreign(a: OrForeign)
      modifies f
      decreases a, 0
      ensures f.out == old(f.out) + ShowForeign(Context(), a)
    {
      match a
      case OmArg(o) => Rec(o);
      case Foreign(Some(enc), v) => f.WriteStr("OMF(encoding:" + enc + "," + v + ")");
      case Foreign(None, v) => f.WriteStr("OMF(" + v + ")");
    }

    method Oms(cd: string, name: string)
      modifies f
      ensures f.out == old(f.out) + ShowOms(Context(), cd, name)
    {
      var prefix := if next.Some? then next.value + "/" else "";
      f.WriteStr("OMS(" + prefix + cd + "#" + name + ")");
    }

    /** `AsOMS::as_oms`: announce the URI's base if `Uri::cdbase` returns
        one, then `oms`. */
    method AsOms(u: Uri)
      modifies this, f
      ensures f.out == old(f.out) + Show(old(Context()), Call.AsOms(u))
    {
      var cur := if next.Some? then next.value else current;
      match u.Cdbase(cur)
      case Some(b) =>
        this.WithCdbase(b);
        this.Oms(u.cd, u.name);
      case None =>
        this.Oms(u.cd, u.name);
    }

    method Omv(name: string)
      modifies f
      ensures f.out == old(f.out) + Show(Context(), Call.Omv(name))
    {
      f.WriteStr("OMV(" + name + ")");
    }

    /** `omb`: the bytes in decimal, separated by `,`. */
    method Omb(bytes: seq<Base64.byte>)
      modifies f
      ensures f.out == old(f.out) + Show(Context(), Call.Omb(bytes))
    {
      ghost var texts := ByteTexts(bytes);
      f.WriteStr("OMB(");
      ghost var pre := f.out;
      var first := true;
      var i := 0;
      while i < |bytes|
        invariant 0 <= i <= |bytes|
        invariant first <==> i == 0
        invariant f.out == pre + Join(",", texts[..i])
      {
        var sep := if first then "" else ",";
        f.WriteStr(sep);
        f.WriteStr(Ints.NatToString(bytes[i] as nat));
        first := false;
        JoinStep(pre, ",", texts[..i], texts[i]);
        assert texts[..i + 1] == texts[..i] + [texts[i]];
        i := i + 1;
      }
      assert texts[..|bytes|] == texts;
      f.WriteStr(")");
    }

    /** The marker of a compound element; the announced base becomes
        current. */
    method TakeNext() returns (marker: string)
      modifies this
      ensures marker == Marker(old(Context()))
      ensures Context() == Consume(old(Context()))
    {
      marker := "";
      if next.Some? {
        marker := "@" + next.value;
        current := next.value;
        next := None;
      }
    }

    /** `oma`: the head alone without arguments, otherwise
        `OMA(head,arg,...)`. */
    method Oma(head: Obj, args: seq<Obj>)
      modifies this, f
      decreases Call.Oma(head, args), 0
      ensures f.out == old(f.out) + Show(old(Context()), Call.Oma(head, args))
      ensures Context() == Consume(old(Context()))
    {
      ghost var ns := Context();
      var marker := TakeNext();
      ghost var inner := Context();
      assert inner == Consume(ns);
      ghost var h := ShowObj(inner, head);
      ghost var s0 := f.out;
      if |args| == 0 {
        assert Show(ns, Call.Oma(head, args)) == h;
        Rec(head);
        return;
      }
      ghost var r := ShowArgs(inner, args);
      assert Show(ns, Call.Oma(head, args)) == "OMA" + marker + "(" + h + r + ")";
      f.WriteStr("OMA" + marker + "(");
      Rec(head);
      Args(args);
      f.WriteStr(")");
      Cat4(s0, "OMA" + marker + "(", h, r, ")");
    }
    /** The argument loop of `oma`. */
    method Args(args: seq<Obj>)
      modifies f
      decreases args, 3
      ensures f.out == old(f.out) + ShowArgs(Context(), args)
    {
      ghost var parts := ArgTexts(Context(), args);
      ghost var pre := f.out;
      var i := 0;
      while i < |args|
        invariant 0 <= i <= |args|
        invariant f.out == pre + Concat(parts[..i])
      {
        Arg(args[i]);
        ConcatPrefixStep(pre, parts, i);
        i := i + 1;
      }
      assert parts[..|args|] == parts;
    }

    /** One argument of `oma`, after its `,`. */
    method Arg(o: Obj)
      modifies f
      decreases o, 3
      ensures f.out == old(f.out) + ("," + ShowObj(Context(), o))
    {
      ghost var s0 := f.out;
      f.WriteStr(",");
      Rec(o);
      Cat2(s0, ",", ShowObj(Context(), o));
    }

    /** `ome`: the error symbol with `base/` when announced, then the
        arguments separated by `,`. The announced base is not consumed. */
    method Ome(error: Uri, eargs: seq<OrForeign>)
      modifies f
      decreases Call.Ome(error, eargs), 0
      ensures f.out == old(f.out) + Show(Context(), Call.Ome(error, eargs))
    {
      var prefix := if next.Some? then next.value + "/" else "";
      f.WriteStr("OME" + prefix + error.cd + "#" + error.name + "(");
      Eargs(eargs);
      f.WriteStr(")");
    }

    /** The argument loop of `ome`: the first, then `,` before each other. */
    method Eargs(eargs: seq<OrForeign>)
      modifies f
      decreases eargs, 3
      ensures f.out == old(f.out) + ShowEargs(Context(), eargs)
    {
      ghost var parts := EargTexts(Context(), eargs);
      ghost var pre := f.out;
      if |eargs| > 0 {
        Foreign(eargs[0]);
        assert parts[..1] == [parts[0]];
        var i := 1;
        while i < |eargs|
          invariant 1 <= i <= |eargs|
          invariant f.out == pre + Join(",", parts[..i])
        {
          Separated(",", eargs[i]);
          JoinPrefixStep(pre, ",", parts, i);
          i := i + 1;
        }
        assert parts[..|eargs|] == parts;
      }
    }

    /** One more argument of `ome`, after its separator. */
    method Separated(sep: string, a: OrForeign)
      modifies f
      decreases a, 1
      ensures f.out == old(f.out) + sep + ShowForeign(Context(), a)
    {
      f.WriteStr(sep);
      Foreign(a);
    }

    /** One attribution pair: the symbol through `rec(as_oms())`, ` = `,
        then the value. */
    method Attr(a: AttrS)
      modifies f
      decreases a, 0
      ensures f.out == old(f.out) + ShowAttr(Context(), a)
    {
      var s := new DisplaySerializer(f, Context());
      s.AsOms(a.symbol);
      f.WriteStr(" = ");
      Foreign(a.value);
    }

    /** The pair loop of `omattr`, driven by a `first` flag. */
    method AttrPairs(attrs: seq<AttrS>)
      modifies f
      decreases attrs, 3
      ensures f.out == old(f.out) + ShowPairs(Context(), attrs)
    {
      ghost var parts := PairTexts(Context(), attrs);
      ghost var pre := f.out;
      var first := true;
      var i := 0;
      while i < |attrs|
        invariant 0 <= i <= |attrs|
        invariant first <==> i == 0
        invariant f.out == pre + Join(", ", parts[..i])
      {
        var sep := if first then "" else ", ";
        first := false;
        Pair(sep, attrs[i]);
        JoinPrefixStep(pre, ", ", parts, i);
        i := i + 1;
      }
      assert parts[..|attrs|] == parts;
    }

    /** One more pair of `omattr`, after its separator. */
    method Pair(sep: string, a: AttrS)
      modifies f
      decreases a, 1
      ensures f.out == old(f.out) + sep + ShowAttr(Context(), a)
    {
      f.WriteStr(sep);
      Attr(a);
    }

    /** `omattr`. */
    method Omattr(attrs: seq<AttrS>, atp: Obj)
      modifies this, f
      decreases Call.Omattr(attrs, atp), 0
      ensures f.out == old(f.out) + Show(old(Context()), Call.Omattr(attrs, atp))
      ensures Context() == Consume(old(Context()))
    {
      ghost var ns := Context();
      var marker := TakeNext();
      ghost var inner := Context();
      ghost var t := ShowObj(inner, atp);
      assert inner == Consume(ns);
      ghost var p := ShowPairs(inner, attrs);
      assert Show(ns, Call.Omattr(attrs, atp)) == "OMATTR" + marker + "(" + t + ",[" + p + "])";
      ghost var s0 := f.out;
      f.WriteStr("OMATTR" + marker + "(");
      Rec(atp);
      f.WriteStr(",[");
      AttrPairs(attrs);
      f.WriteStr("])");
      Cat5(s0, "OMATTR" + marker + "(", t, ",[", p, "])");
    }
    /** `omattr(attrs, Omv(name))`, as `ombind` calls it for an attributed
        variable. */
    method OmattrOmv(attrs: seq<AttrS>, name: string)
      modifies this, f
      decreases attrs, 4
      ensures f.out == old(f.out) + ShowOmattr(old(Context()), attrs, "OMV(" + name + ")")
      ensures Context() == Consume(old(Context()))
    {
      ghost var ns := Context();
      var marker := TakeNext();
      ghost var inner := Context();
      assert inner == Consume(ns);
      ghost var p := ShowPairs(inner, attrs);
      assert ShowOmattr(ns, attrs, "OMV(" + name + ")") == "OMATTR" + marker + "(" + "OMV(" + name + ")" + ",[" + p + "])";
      ghost var s0 := f.out;
      f.WriteStr("OMATTR" + marker + "(");
      var s := new DisplaySerializer(f, Context());
      s.Omv(name);
      f.WriteStr(",[");
      AttrPairs(attrs);
      f.WriteStr("])");
      Cat5(s0, "OMATTR" + marker + "(", "OMV(" + name + ")", ",[", p, "])");
    }
    /** `ombind`: head, the variables between `[` and `]`, then the body. */
    method Ombind(binder: Obj, vars: seq<BindVar>, body: Obj)
      modifies this, f
      decreases Call.Ombind(binder, vars, body), 0
      ensures f.out == old(f.out) + Show(old(Context()), Call.Ombind(binder, vars, body))
      ensures Context() == Consume(old(Context()))
    {
      ghost var ns := Context();
      var marker := TakeNext();
      ghost var inner := Context();
      assert inner == Consume(ns);
      ghost var h := ShowObj(inner, binder);
      ghost var v := ShowVars(inner, vars);
      ghost var t := ShowObj(inner, body);
      assert Show(ns, Call.Ombind(binder, vars, body)) == "OMBIND" + marker + "(" + h + ",[" + v + "]," + t + ")";
      ghost var s0 := f.out;
      f.WriteStr("OMBIND" + marker + "(");
      Rec(binder);
      f.WriteStr(",[");
      Vars(vars);
      f.WriteStr("],");
      Rec(body);
      f.WriteStr(")");
      Cat7(s0, "OMBIND" + marker + "(", h, ",[", v, "],", t, ")");
    }
    /** One bound variable that has attributions: an OMATTR around its
        OMV, written by a serializer with nothing announced. */
    method AttributedVar(v: BindVar)
      modifies f
      decreases v, 0
      requires |v.attrs| > 0
      ensures f.out == old(f.out) + ShowVar(Context(), v)
    {
      var s := new DisplaySerializer(f, Ns(None, current));
      s.OmattrOmv(v.attrs, v.name);
    }

    /** The variable loop of `ombind`, driven by a `first` flag; the
        separator is written before every variable but the first. */
    method Vars(vars: seq<BindVar>)
      modifies f
      decreases vars, 3
      ensures f.out == old(f.out) + ShowVars(Context(), vars)
    {
      ghost var parts := VarTexts(Context(), vars);
      ghost var pre := f.out;
      var first := true;
      var i := 0;
      while i < |vars|
        invariant 0 <= i <= |vars|
        invariant first <==> i == 0
        invariant f.out == pre + Join(", ", parts[..i])
      {
        var sep := if first then "" else ", ";
        first := false;
        Var(sep, vars[i]);
        JoinPrefixStep(pre, ", ", parts, i);
        i := i + 1;
      }
      assert parts[..|vars|] == parts;
    }

    /** One more bound variable, after its separator. */
    method Var(sep: string, v: BindVar)
      modifies f
      decreases v, 1
      ensures f.out == old(f.out) + sep + ShowVar(Context(), v)
    {
      if |v.attrs| == 0 {
        f.WriteStr(sep + v.name);
      } else {
        f.WriteStr(sep);
        AttributedVar(v);
      }
    }
  }

  /** `OMDisplay::fmt`: a serializer with the value's base announced over
      the OpenMath base. */
  method FormatDisplay(o: Obj) returns (s: string)
    ensures s == Display(o)
  {
    var f := new Formatter();
    var ser := new DisplaySerializer(f, Ns(o.cdbase, BASE));
    ser.Write(o.call);
    s := f.out;
  }

  /** `Display for OMObject`. */
  method FormatObject(o: Obj) returns (s: string)
    ensures s == ObjectDisplay(o)
  {
    var d := FormatDisplay(o);
    s := "OMOBJ(" + d + ")";
  }
}

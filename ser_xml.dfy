/** The OpenMath XML writer of ser/xml.rs: `XmlDisplay`, `XmlObjDisplay`
    and the `XmlDisplayer` serializer behind both. The output is specified
    by the `Xml*` functions; the serializer class writes into a `Formatter`
    step by step and is proved to write exactly that.

    ser/xml.rs implements no `omattr`, so every tree written here is
    without attributions (`NoAttribution`). A child value is handed a clone
    of the serializer, so its own `cdbase()` is not consulted. */
module XmlWriter {
  import opened Wrappers
  import opened SerTree
  import opened Text
  import opened Fmt
  import opened XmlEscape
  import Ints
  import Floats
  import Base64
  import Kinds

  const BASE: string := Kinds.OPENMATH_BASE_URI

  // ----- indentation ---------------------------------------------------------------

  /** The pretty-printing state: whether anything was written at this level
      yet, and the depth. `None` writes no layout at all. */
  datatype Indentation = Indentation(had: bool, depth: nat)

  /** `depth` times two spaces. */
  function Spaces(depth: nat): (r: string)
    ensures |r| == 2 * depth
    ensures forall i :: 0 <= i < |r| ==> r[i] == ' '
  {
    if depth == 0 then "" else Spaces(depth - 1) + "  "
  }

  /** What `indent` writes: a line break unless nothing was written yet,
      then the indentation of the depth. */
  function IndentText(ind: Option<Indentation>): string {
    match ind
    case None => ""
    case Some(Indentation(had, d)) => (if had then "\n" else "") + Spaces(d)
  }

  /** The state after `indent`. */
  function Indented(ind: Option<Indentation>): (r: Option<Indentation>)
    ensures r.None? <==> ind.None?
  {
    match ind
    case None => None
    case Some(Indentation(_, d)) => Some(Indentation(true, d))
  }

  /** `*v += 1`. */
  function Deeper(ind: Option<Indentation>): (r: Option<Indentation>)
    ensures r.None? <==> ind.None?
  {
    match ind
    case None => None
    case Some(Indentation(had, d)) => Some(Indentation(had, d + 1))
  }

  /** `*v -= 1`. */
  function Shallower(ind: Option<Indentation>): (r: Option<Indentation>)
    requires ind.Some? ==> ind.value.depth > 0
  {
    match ind
    case None => None
    case Some(Indentation(had, d)) => Some(Indentation(had, d - 1))
  }

  /** Going one level up from the children's state gives back the state
      after the element's own `indent`. */
  lemma ShallowerInner(ind: Option<Indentation>)
    ensures Shallower(Inner(ind)) == Indented(ind)
    ensures Indented(Inner(ind)) == Inner(ind)
    ensures Indented(Indented(ind)) == Indented(ind)
  {
  }

  /** The state children of a compound element start in. */
  function Inner(ind: Option<Indentation>): Option<Indentation> {
    Deeper(Indented(ind))
  }

  // ----- the notation --------------------------------------------------------------

  /** ` cdbase="..."` on a compound element when a base is announced. */
  function CdbaseAttr(ns: Ns): string {
    match ns.next
    case Some(b) => " cdbase=\"" + Escape(b) + "\""
    case None => ""
  }

  /** The opening tag of a compound element, which takes the announced
      base. */
  function OpenTag(ind: Option<Indentation>, ns: Ns, tag: string): string {
    IndentText(ind) + "<" + tag + CdbaseAttr(ns) + ">"
  }

  /** The closing tag of a compound element, on a line of its own. */
  function CloseTag(ind: Option<Indentation>, tag: string): string {
    IndentText(Indented(ind)) + "</" + tag + ">"
  }

  /** `oms`: the announced base, the cd and the name as attributes. */
  function XmlOms(ns: Ns, cd: string, name: string): string {
    "<OMS " + OmsBaseAttr(ns) + "cd=\"" + Escape(cd) + "\" name=\"" + Escape(name) + "\"/>"
  }

  /** `cdbase="..." ` on an OMS when a base is announced. */
  function OmsBaseAttr(ns: Ns): string {
    match ns.next
    case Some(b) => "cdbase=\"" + Escape(b) + "\" "
    case None => ""
  }

  /** `oms` after `indent`. */
  function XmlSymbol(ind: Option<Indentation>, ns: Ns, cd: string, name: string): string {
    IndentText(ind) + XmlOms(ns, cd, name)
  }

  /** `omv`. */
  function XmlOmv(name: string): string {
    "<OMV name=\"" + Escape(name) + "\"/>"
  }

  /** `omv` after `indent`. */
  function XmlVar(ind: Option<Indentation>, name: string): string {
    IndentText(ind) + XmlOmv(name)
  }

  /** What `c` writes with indentation state `ind` in context `ns`. */
  function Xml(ind: Option<Indentation>, ns: Ns, c: Call): string
    requires NoAttribution(c)
    decreases c, 1
  {
    match c
    case Omi(i) => IndentText(ind) + "<OMI>" + Ints.Display(i) + "</OMI>"
    case Omf(x) => IndentText(ind) + "<OMF dec=\"" + x.text + "\"/>"
    case Omstr(s) => IndentText(ind) + "<OMSTR>" + Escape(s) + "</OMSTR>"
    case Omb(bytes) => IndentText(ind) + "<OMB>" + Base64.EncodeString(bytes) + "</OMB>"
    case Omv(name) => XmlVar(ind, name)
    case Oms(cd, name) => XmlSymbol(ind, ns, cd, name)
    case AsOms(u) => IndentText(ind) + XmlOms(AsOmsNs(ns, u), u.cd, u.name)
    case WithCdbase(b, inner) => Xml(ind, WithBase(ns, b), inner)
    case Oma(head, args) => XmlOma(ind, ns, head, args)
    case Ome(error, eargs) => XmlOme(ind, ns, error, eargs)
    case Omattr(_, _) => assert false; ""
    case Ombind(binder, vars, body) => XmlOmbind(ind, ns, binder, vars, body)
  }

  /** `oma`: the head and the arguments one level deeper. */
  function XmlOma(ind: Option<Indentation>, ns: Ns, head: Obj, args: seq<Obj>): string
    requires NoAttribution(Oma(head, args))
    decreases Oma(head, args), 0
  {
    var inner := Consume(ns);
    OpenTag(ind, ns, "OMA") + XmlObj(Inner(ind), inner, head) + XmlArgs(Inner(ind), inner, args) + CloseTag(ind, "OMA")
  }

  /** `ome`: the error symbol, then the arguments, one level deeper. */
  function XmlOme(ind: Option<Indentation>, ns: Ns, error: Uri, eargs: seq<OrForeign>): string
    requires NoAttribution(Ome(error, eargs))
    decreases Ome(error, eargs), 0
  {
    var inner := Consume(ns);
    OpenTag(ind, ns, "OME") + XmlSymbol(Inner(ind), inner, error.cd, error.name)
    + XmlEargs(Inner(ind), inner, eargs) + CloseTag(ind, "OME")
  }

  /** `ombind`: the binder, the variables in an OMBVAR and the body, one
      level deeper. */
  function XmlOmbind(ind: Option<Indentation>, ns: Ns, binder: Obj, vars: seq<BindVar>, body: Obj): string
    requires NoAttribution(Ombind(binder, vars, body))
    decreases Ombind(binder, vars, body), 0
  {
    var inner := Consume(ns);
    OpenTag(ind, ns, "OMBIND") + XmlObj(Inner(ind), inner, binder) + XmlOmbvar(Inner(ind), vars)
    + XmlObj(Inner(ind), inner, body) + CloseTag(ind, "OMBIND")
  }

  /** The OMBVAR element: `<OMBVAR/>` without variables, otherwise the
      variables one level deeper. */
  function XmlOmbvar(ind: Option<Indentation>, vars: seq<BindVar>): string {
    IndentText(ind) + "<OMBVAR"
    + (if |vars| == 0 then "/>"
       else ">" + Concat(VarTexts(Inner(ind), vars)) + IndentText(Indented(ind)) + "</OMBVAR>")
  }

  /** Each variable as an OMV element, written by a clone. */
  function VarTexts(ind: Option<Indentation>, vars: seq<BindVar>): (r: seq<string>)
    ensures |r| == |vars|
    ensures forall i :: 0 <= i < |vars| ==> r[i] == XmlVar(ind, vars[i].name)
  {
    seq(|vars|, i requires 0 <= i < |vars| => XmlVar(ind, vars[i].name))
  }

  /** The end of the OMBVAR element after `n` variables. */
  function OmbvarEnd(ind: Option<Indentation>, n: nat): string {
    if n == 0 then "/>" else IndentText(Indented(ind)) + "</OMBVAR>"
  }

  /** The OMBVAR element in the pieces the `ombind` loop writes. */
  lemma OmbvarShape(ind: Option<Indentation>, vars: seq<BindVar>)
    ensures XmlOmbvar(ind, vars)
         == IndentText(ind) + "<OMBVAR" + VarsWritten(VarTexts(Inner(ind), vars), |vars|) + OmbvarEnd(ind, |vars|)
  {
    var parts := VarTexts(Inner(ind), vars);
    if |vars| > 0 {
      assert parts[..|vars|] == parts;
      Cat3(IndentText(ind) + "<OMBVAR", ">", Concat(parts), IndentText(Indented(ind)) + "</OMBVAR>");
    }
  }

  /** What the variable loop of `ombind` has written after `i` variables:
      nothing, or `>` and the variables. */
  function VarsWritten(parts: seq<string>, i: nat): string
    requires i <= |parts|
  {
    if i == 0 then "" else ">" + Concat(parts[..i])
  }

  lemma VarsWrittenStep(pre: string, parts: seq<string>, i: nat)
    requires i < |parts|
    ensures pre + VarsWritten(parts, i) + (if i == 0 then ">" else "") + parts[i] == pre + VarsWritten(parts, i + 1)
  {
    assert parts[..i + 1] == parts[..i] + [parts[i]];
    ConcatSnoc(parts[..i], parts[i]);
    if i == 0 {
      assert Concat(parts[..1]) == parts[0];
    }
  }

  /** A nested value, written by a clone of the serializer. */
  function XmlObj(ind: Option<Indentation>, ns: Ns, o: Obj): string
    requires NoAttributionObj(o)
    decreases o, 2
  {
    Xml(ind, ns, o.call)
  }

  function XmlArgs(ind: Option<Indentation>, ns: Ns, args: seq<Obj>): string
    requires forall i :: 0 <= i < |args| ==> NoAttributionObj(args[i])
    decreases args, 3
  {
    Concat(ArgTexts(ind, ns, args))
  }

  function ArgTexts(ind: Option<Indentation>, ns: Ns, args: seq<Obj>): (r: seq<string>)
    requires forall i :: 0 <= i < |args| ==> NoAttributionObj(args[i])
    decreases args, 2
    ensures |r| == |args|
    ensures forall i :: 0 <= i < |args| ==> r[i] == XmlObj(ind, ns, args[i])
  {
    seq(|args|, i requires 0 <= i < |args| => XmlObj(ind, ns, args[i]))
  }

  function XmlEargs(ind: Option<Indentation>, ns: Ns, eargs: seq<OrForeign>): string
    requires forall i :: 0 <= i < |eargs| ==> NoAttributionArg(eargs[i])
    decreases eargs, 3
  {
    Concat(EargTexts(ind, ns, eargs))
  }

  function EargTexts(ind: Option<Indentation>, ns: Ns, eargs: seq<OrForeign>): (r: seq<string>)
    requires forall i :: 0 <= i < |eargs| ==> NoAttributionArg(eargs[i])
    decreases eargs, 2
    ensures |r| == |eargs|
    ensures forall i :: 0 <= i < |eargs| ==> r[i] == XmlEarg(ind, ns, eargs[i])
  {
    seq(|eargs|, i requires 0 <= i < |eargs| => XmlEarg(ind, ns, eargs[i]))
  }

  /** An argument of an OME: an object, or an OMFOREIGN element. */
  function XmlEarg(ind: Option<Indentation>, ns: Ns, a: OrForeign): string
    requires NoAttributionArg(a)
    decreases a, 0
  {
    match a
    case OmArg(o) => XmlObj(ind, ns, o)
    case Foreign(enc, v) => XmlForeign(ind, enc, v)
  }

  /** An OMFOREIGN element; when pretty, the tag and the value (after two
      spaces) each on a line of their own. */
  function XmlForeign(ind: Option<Indentation>, enc: Option<string>, v: string): string {
    if ind.Some? then IndentText(ind) + ForeignOpen(enc) + IndentText(ind) + Escape("  " + v) + IndentText(ind) + "</OMFOREIGN>"
    else ForeignOpen(enc) + Escape(v) + "</OMFOREIGN>"
  }

  /** The OMFOREIGN start tag, with the encoding when there is one. */
  function ForeignOpen(enc: Option<string>): string {
    match enc
    case Some(e) => "<OMFOREIGN encoding=\"" + Escape(e) + "\">"
    case None => "<OMFOREIGN>"
  }

  /** `XmlDisplay`: the value's base announced over the OpenMath base,
      indentation from depth 0 when pretty. */
  function XmlDisplay(o: Obj, pretty: bool): string
    requires NoAttributionObj(o)
  {
    Xml(if pretty then Some(Indentation(false, 0)) else None, Ns(o.cdbase, BASE), o.call)
  }

  // ----- OMOBJ ---------------------------------------------------------------------

  /** One attribute as a start tag lists it: a space, the name, `="`, the
      escaped value and `"`. */
  function Attribute(name: string, value: string): string {
    " " + name + "=\"" + Escape(value) + "\""
  }

  /** The attributes of an OMOBJ start tag, in the order they are
      written. */
  function ObjAttributes(insertNamespace: bool, cdbase: Option<string>): seq<(string, string)> {
    [("version", "2.0")]
    + (if insertNamespace then [("xmlns", Kinds.XML_NAMESPACE)] else [])
    + (match cdbase case Some(b) => [("cdbase", b)] case None => [])
  }

  /** Each attribute, one after the other. */
  function AttributeText(attrs: seq<(string, string)>): string {
    Concat(AttributeTexts(attrs))
  }

  function AttributeTexts(attrs: seq<(string, string)>): (r: seq<string>)
    ensures |r| == |attrs|
    ensures forall i :: 0 <= i < |attrs| ==> r[i] == Attribute(attrs[i].0, attrs[i].1)
  {
    seq(|attrs|, i requires 0 <= i < |attrs| => Attribute(attrs[i].0, attrs[i].1))
  }

  /** A start tag: the name, then each attribute. */
  function StartTag(name: string, attrs: seq<(string, string)>): string {
    "<" + name + AttributeText(attrs) + ">"
  }

  /** The OMOBJ start tag as ser/xml.rs writes it: `cdbase="` follows the
      previous attribute without a space. */
  function ObjOpenTagAsWritten(insertNamespace: bool, cdbase: Option<string>): string {
    "<OMOBJ version=\"2.0\""
    + (if insertNamespace then " xmlns=\"" + Kinds.XML_NAMESPACE + "\"" else "")
    + (match cdbase case Some(b) => "cdbase=\"" + Escape(b) + "\"" case None => "")
    + ">"
  }

  /** The OMOBJ start tag with the space before `cdbase`. */
  function ObjOpenTag(insertNamespace: bool, cdbase: Option<string>): string {
    "<OMOBJ version=\"2.0\""
    + (if insertNamespace then " xmlns=\"" + Kinds.XML_NAMESPACE + "\"" else "")
    + (match cdbase case Some(b) => " cdbase=\"" + Escape(b) + "\"" case None => "")
    + ">"
  }

  /** `XmlObjDisplay`: the OMOBJ element; its base is declared on it, so the
      content is written with nothing announced, one level deep when
      pretty. */
  function XmlObjDisplay(o: Obj, pretty: bool, insertNamespace: bool): string
    requires NoAttributionObj(o)
  {
    ObjOpenTag(insertNamespace, o.cdbase)
    + Xml(if pretty then Some(Indentation(true, 1)) else None, Ns(None, o.cdbase.GetOr(BASE)), o.call)
    + (if pretty then "\n</OMOBJ>" else "</OMOBJ>")
  }

  lemma AttributeTextAppend(a: seq<(string, string)>, b: seq<(string, string)>)
    ensures AttributeText(a + b) == AttributeText(a) + AttributeText(b)
  {
    assert AttributeTexts(a + b) == AttributeTexts(a) + AttributeTexts(b);
    ConcatAppend(AttributeTexts(a), AttributeTexts(b));
  }

  lemma AttributeTextOne(x: (string, string))
    ensures AttributeText([x]) == Attribute(x.0, x.1)
  {
    assert AttributeTexts([x]) == [] + [Attribute(x.0, x.1)];
    ConcatSnoc([], Attribute(x.0, x.1));
  }

  /** The corrected OMOBJ start tag is the start tag of its attribute
      list. */
  lemma ObjOpenTagIsStartTag(insertNamespace: bool, cdbase: Option<string>)
    ensures ObjOpenTag(insertNamespace, cdbase) == StartTag("OMOBJ", ObjAttributes(insertNamespace, cdbase))
  {
    var v := [("version", "2.0")];
    var x := if insertNamespace then [("xmlns", Kinds.XML_NAMESPACE)] else [];
    var c := match cdbase case Some(b) => [("cdbase", b)] case None => [];
    assert ObjAttributes(insertNamespace, cdbase) == v + x + c;
    AttributeTextAppend(v + x, c);
    AttributeTextAppend(v, x);
    var vs := " version=\"2.0\"";
    var xs := if insertNamespace then " xmlns=\"" + Kinds.XML_NAMESPACE + "\"" else "";
    var cs := match cdbase case Some(b) => " cdbase=\"" + Escape(b) + "\"" case None => "";
    VersionText();
    if insertNamespace {
      NamespacePlain();
      XmlnsText(Kinds.XML_NAMESPACE);
    }
    if cdbase.Some? { CdbaseText(cdbase.value); }
    assert AttributeText(v + x + c) == vs + xs + cs;
    OpenTagRegroup(vs, xs, cs);
  }

  lemma OpenTagRegroup(vs: string, xs: string, cs: string)
    requires vs == " version=\"2.0\""
    ensures "<OMOBJ version=\"2.0\"" + xs + cs + ">" == "<" + "OMOBJ" + (vs + xs + cs) + ">"
  {
    assert "<OMOBJ version=\"2.0\"" == "<" + "OMOBJ" + vs;
  }

  lemma VersionText()
    ensures AttributeText([("version", "2.0")]) == " version=\"2.0\""
  {
    AttributeTextOne(("version", "2.0"));
    EscapePlain("2.0");
  }

  lemma XmlnsText(n: string)
    requires Escape(n) == n
    ensures AttributeText([("xmlns", n)]) == " xmlns=\"" + n + "\""
  {
    AttributeTextOne(("xmlns", n));
    assert " " + "xmlns" + "=\"" == " xmlns=\"";
  }

  lemma NamespacePlain()
    ensures Escape(Kinds.XML_NAMESPACE) == Kinds.XML_NAMESPACE
  {
    EscapePlain(Kinds.XML_NAMESPACE);
  }

  lemma CdbaseText(b: string)
    ensures AttributeText([("cdbase", b)]) == " cdbase=\"" + Escape(b) + "\""
  {
    AttributeTextOne(("cdbase", b));
    assert " " + "cdbase" + "=\"" == " cdbase=\"";
  }

  /** With no base the two tags agree. */
  lemma ObjOpenTagAgreesWithoutBase(insertNamespace: bool)
    ensures ObjOpenTagAsWritten(insertNamespace, None) == ObjOpenTag(insertNamespace, None)
  {
  }

  /** As written, the quote closing the previous attribute is followed
      directly by the `c` of `cdbase`, where XML requires white space
      between attributes. */
  lemma ObjOpenTagAsWrittenRunsTogether(insertNamespace: bool, b: string)
    ensures var t := ObjOpenTagAsWritten(insertNamespace, Some(b));
            var k := |"<OMOBJ version=\"2.0\""| + (if insertNamespace then |" xmlns=\"" + Kinds.XML_NAMESPACE + "\""| else 0);
            k < |t| && t[k - 1] == '"' && t[k..k + 8] == "cdbase=\""
  {
    var p := "<OMOBJ version=\"2.0\"" + (if insertNamespace then " xmlns=\"" + Kinds.XML_NAMESPACE + "\"" else "");
    var q := "cdbase=\"" + Escape(b) + "\"" + ">";
    assert ObjOpenTagAsWritten(insertNamespace, Some(b)) == p + q;
  }

  // ----- the serializer ------------------------------------------------------------

  /** `XmlDisplayer`: the formatter, the indentation state and the
      namespace context. */
  class XmlDisplayer {
    const w: Formatter
    var indent: Option<Indentation>
    var next: Option<string>
    var current: string

    function Context(): Ns
      reads this`next, this`current
    {
      Ns(next, current)
    }

    constructor (w: Formatter, indent: Option<Indentation>, ns: Ns)
      ensures this.w == w && this.indent == indent && Context() == ns
    {
      this.w := w;
      this.indent := indent;
      next := ns.next;
      current := ns.current;
    }

    /** `indent`: a line break unless nothing was written yet, then two
        spaces per level; afterwards something was written. */
    method WriteIndent()
      modifies this, w
      ensures w.out == old(w.out) + IndentText(old(indent))
      ensures indent == Indented(old(indent))
      ensures Context() == old(Context())
    {
      match indent
      case None =>
      case Some(Indentation(had, d)) =>
        ghost var s0 := w.out;
        var nl := if had then "\n" else "";
        w.WriteStr(nl);
        indent := Some(Indentation(true, d));
        ghost var pre := w.out;
        var k := 0;
        while k < d
          invariant 0 <= k <= d
          invariant w.out == pre + Spaces(k)
          invariant indent == Some(Indentation(true, d)) && Context() == old(Context())
        {
          w.WriteStr("  ");
          k := k + 1;
        }
        Cat2(s0, nl, Spaces(d));
    }

    /** `clone`: a serializer with the same state writing to the same
        formatter. */
    method Clone() returns (c: XmlDisplayer)
      ensures fresh(c)
      ensures c.w == w && c.indent == indent && c.Context() == Context()
    {
      c := new XmlDisplayer(w, indent, Context());
    }

    /** `with_cd_base`, compared with the base in effect. */
    method WithCdbase(b: string)
      modifies this
      ensures Context() == WithBase(old(Context()), b)
      ensures indent == old(indent)
    {
      if !(if next.Some? then next.value == b else current == b) {
        next := Some(b);
      }
    }

    /** `as_openmath` of a value whose call is `c`. */
    method Write(c: Call)
      requires NoAttribution(c)
      modifies this, w
      decreases c, 1
      ensures w.out == old(w.out) + Xml(old(indent), old(Context()), c)
    {
      match c
      case Omi(i) => this.Omi(i);
      case Omf(x) => this.Omf(x);
      case Omstr(s) => this.Omstr(s);
      case Omb(bytes) => this.Omb(bytes);
      case Omv(name) => this.Omv(name);
      case Oms(cd, name) => this.Oms(cd, name);
      case AsOms(u) => this.AsOms(u);
      case WithCdbase(b, inner) =>
        this.WithCdbase(b);
        this.Write(inner);
      case Oma(head, args) => this.Oma(head, args);
      case Ome(error, eargs) => this.Ome(error, eargs);
      case Ombind(binder, vars, body) => this.Ombind(binder, vars, body);
    }

    method Omi(i: Ints.Int)
      modifies this, w
      ensures w.out == old(w.out) + Xml(old(indent), old(Context()), Call.Omi(i))
    {
      ghost var s0 := w.out;
      ghost var t := IndentText(indent);
      WriteIndent();
      w.WriteStr("<OMI>" + Ints.Display(i) + "</OMI>");
      Cat2(s0, t, "<OMI>" + Ints.Display(i) + "</OMI>");
    }

    /** `omf`: the decimal text of the float as the `dec` attribute. */
    method Omf(x: Floats.Float)
      modifies this, w
      ensures w.out == old(w.out) + Xml(old(indent), old(Context()), Call.Omf(x))
    {
      ghost var s0 := w.out;
      ghost var t := IndentText(indent);
      WriteIndent();
      w.WriteStr("<OMF dec=\"" + x.text + "\"/>");
      Cat2(s0, t, "<OMF dec=\"" + x.text + "\"/>");
    }

    method Omstr(s: string)
      modifies this, w
      ensures w.out == old(w.out) + Xml(old(indent), old(Context()), Call.Omstr(s))
    {
      ghost var s0 := w.out;
      ghost var i := IndentText(indent);
      assert Xml(indent, Context(), Call.Omstr(s)) == i + "<OMSTR>" + Escape(s) + "</OMSTR>";
      WriteIndent();
      w.WriteStr("<OMSTR>");
      WriteEscaped(w, s);
      w.WriteStr("</OMSTR>");
      Cat4(s0, i, "<OMSTR>", Escape(s), "</OMSTR>");
    }

    method Omv(name: string)
      modifies this, w
      ensures w.out == old(w.out) + Xml(old(indent), old(Context()), Call.Omv(name))
    {
      ghost var s0 := w.out;
      ghost var i := IndentText(indent);
      assert Xml(indent, Context(), Call.Omv(name)) == i + XmlOmv(name);
      WriteIndent();
      ghost var s1 := w.out;
      w.WriteStr("<OMV name=\"");
      WriteEscaped(w, name);
      w.WriteStr("\"/>");
      Cat3(s1, "<OMV name=\"", Escape(name), "\"/>");
      Cat2(s0, i, XmlOmv(name));
    }

    /** `omb`: the base64 quads of the bytes, one character at a time. */
    method Omb(bytes: seq<Base64.byte>)
      modifies this, w
      ensures w.out == old(w.out) + Xml(old(indent), old(Context()), Call.Omb(bytes))
    {
      ghost var s0 := w.out;
      ghost var i := IndentText(indent);
      ghost var t := Base64.EncodeString(bytes);
      WriteIndent();
      ghost var s1 := w.out;
      w.WriteStr("<OMB>");
      var e := new Base64.Encoder(bytes);
      WriteQuads(e);
      w.WriteStr("</OMB>");
      Cat3(s1, "<OMB>", t, "</OMB>");
      Cat4(s0, i, "<OMB>", t, "</OMB>");
    }

    /** The loop of `omb`: every quad the encoder yields. */
    method WriteQuads(e: Base64.Encoder)
      requires e.chunks.Valid()
      modifies w, e.chunks
      ensures w.out == old(w.out) + Base64.EncodeString(old(e.chunks.Remaining()))
    {
      ghost var pre := w.out;
      ghost var all := Base64.Encode(e.chunks.Remaining());
      ghost var done: seq<Base64.byte> := [];
      while true
        invariant e.chunks.Valid()
        invariant done + Base64.Encode(e.chunks.Remaining()) == all
        invariant w.out == pre + Base64.Chars(done)
        decreases |e.chunks.Remaining()|
      {
        var q := e.Next();
        if q.None? {
          break;
        }
        var quad := q.value;
        // the four symbols, each as the character of the same code
        w.WriteStr(Base64.Chars(quad));
        Base64.CharsAppend(done, quad);
        Cat2(pre, Base64.Chars(done), Base64.Chars(quad));
        Assoc(done, quad, Base64.Encode(e.chunks.Remaining()));
        done := done + quad;
      }
      assert done == all;
    }

    method Oms(cd: string, name: string)
      modifies this, w
      ensures w.out == old(w.out) + Xml(old(indent), old(Context()), Call.Oms(cd, name))
    {
      ghost var s0 := w.out;
      ghost var i := IndentText(indent);
      ghost var p := OmsBaseAttr(Context());
      assert XmlOms(Context(), cd, name) == "<OMS " + p + "cd=\"" + Escape(cd) + "\" name=\"" + Escape(name) + "\"/>";
      assert Xml(indent, Context(), Call.Oms(cd, name)) == i + XmlOms(Context(), cd, name);
      WriteIndent();
      ghost var s1 := w.out;
      w.WriteStr("<OMS ");
      OmsBase();
      w.WriteStr("cd=\"");
      WriteEscaped(w, cd);
      w.WriteStr("\" name=\"");
      WriteEscaped(w, name);
      w.WriteStr("\"/>");
      Cat7(s1, "<OMS ", p, "cd=\"", Escape(cd), "\" name=\"", Escape(name), "\"/>");
      Cat2(s0, i, XmlOms(old(Context()), cd, name));
    }

    /** The announced base of an OMS. */
    method OmsBase()
      modifies w
      ensures w.out == old(w.out) + OmsBaseAttr(Context())
    {
      if next.Some? {
        ghost var s0 := w.out;
        w.WriteStr("cdbase=\"");
        WriteEscaped(w, next.value);
        w.WriteStr("\" ");
        Cat3(s0, "cdbase=\"", Escape(next.value), "\" ");
      }
    }

    /** `AsOMS::as_openmath` of a URI: announce its base if `Uri::cdbase`
        returns one, then `oms`. */
    method AsOms(u: Uri)
      modifies this, w
      ensures w.out == old(w.out) + Xml(old(indent), old(Context()), Call.AsOms(u))
    {
      var cur := if next.Some? then next.value else current;
      match u.Cdbase(cur)
      case Some(b) =>
        this.WithCdbase(b);
        this.Oms(u.cd, u.name);
      case None =>
        this.Oms(u.cd, u.name);
    }

    /** The opening of a compound element: `indent`, the tag with the
        announced base, which becomes current, then one level deeper. */
    method Open(tag: string)
      modifies this, w
      ensures w.out == old(w.out) + OpenTag(old(indent), old(Context()), tag)
      ensures indent == Inner(old(indent))
      ensures Context() == Consume(old(Context()))
    {
      ghost var s0 := w.out;
      ghost var i := IndentText(indent);
      ghost var a := CdbaseAttr(Context());
      WriteIndent();
      w.WriteStr("<");
      w.WriteStr(tag);
      ghost var s1 := w.out;
      if next.Some? {
        var b := next.value;
        w.WriteStr(" cdbase=\"");
        WriteEscaped(w, b);
        w.WriteStr("\"");
        Cat3(s1, " cdbase=\"", Escape(b), "\"");
        current := b;
        next := None;
      }
      w.WriteStr(">");
      indent := Deeper(indent);
      Cat5(s0, i, "<", tag, a, ">");
    }

    /** The closing of a compound element: one level up, `indent`, the
        closing tag. */
    method Close(tag: string)
      requires indent.Some? ==> indent.value.depth > 0 && indent.value.had
      modifies this, w
      ensures w.out == old(w.out) + CloseTag(Shallower(old(indent)), tag)
    {
      indent := Shallower(indent);
      assert Indented(indent) == indent;
      ghost var s0 := w.out;
      ghost var i := IndentText(indent);
      WriteIndent();
      w.WriteStr("</");
      w.WriteStr(tag);
      w.WriteStr(">");
      Cat4(s0, i, "</", tag, ">");
    }

    /** A nested value: `as_openmath` on a clone. */
    method Child(o: Obj)
      requires NoAttributionObj(o)
      modifies w
      decreases o, 2
      ensures w.out == old(w.out) + XmlObj(indent, Context(), o)
    {
      var c := Clone();
      c.Write(o.call);
    }

    /** `oma`. */
    method Oma(head: Obj, args: seq<Obj>)
      requires NoAttribution(Call.Oma(head, args))
      modifies this, w
      decreases Call.Oma(head, args), 0
      ensures w.out == old(w.out) + Xml(old(indent), old(Context()), Call.Oma(head, args))
    {
      ghost var ind := indent;
      ghost var ns := Context();
      ghost var o := OpenTag(ind, ns, "OMA");
      ghost var h := XmlObj(Inner(ind), Consume(ns), head);
      ghost var r := XmlArgs(Inner(ind), Consume(ns), args);
      ghost var e := CloseTag(ind, "OMA");
      assert Xml(ind, ns, Call.Oma(head, args)) == o + h + r + e;
      ShallowerInner(ind);
      ghost var s0 := w.out;
      Open("OMA");
      Child(head);
      Args(args);
      Close("OMA");
      Cat4(s0, o, h, r, e);
    }

    /** The argument loop of `oma`. */
    method Args(args: seq<Obj>)
      requires forall i :: 0 <= i < |args| ==> NoAttributionObj(args[i])
      modifies w
      decreases args, 3
      ensures w.out == old(w.out) + XmlArgs(indent, Context(), args)
    {
      ghost var parts := ArgTexts(indent, Context(), args);
      ghost var pre := w.out;
      var i := 0;
      while i < |args|
        invariant 0 <= i <= |args|
        invariant w.out == pre + Concat(parts[..i])
      {
        Child(args[i]);
        ConcatPrefixStep(pre, parts, i);
        i := i + 1;
      }
      assert parts[..|args|] == parts;
    }

    /** `ome`: the error symbol written by a clone, then the arguments. */
    method Ome(error: Uri, eargs: seq<OrForeign>)
      requires NoAttribution(Call.Ome(error, eargs))
      modifies this, w
      decreases Call.Ome(error, eargs), 0
      ensures w.out == old(w.out) + Xml(old(indent), old(Context()), Call.Ome(error, eargs))
    {
      ghost var ind := indent;
      ghost var ns := Context();
      ghost var o := OpenTag(ind, ns, "OME");
      ghost var h := XmlSymbol(Inner(ind), Consume(ns), error.cd, error.name);
      ghost var r := XmlEargs(Inner(ind), Consume(ns), eargs);
      ghost var e := CloseTag(ind, "OME");
      assert Xml(ind, ns, Call.Ome(error, eargs)) == o + h + r + e;
      ShallowerInner(ind);
      ghost var s0 := w.out;
      Open("OME");
      Symbol(error.cd, error.name);
      Eargs(eargs);
      Close("OME");
      Cat4(s0, o, h, r, e);
    }

    /** The argument loop of `ome`; foreign arguments use this
        serializer's own `indent`, which has already written at this
        level. */
    method Eargs(eargs: seq<OrForeign>)
      requires forall i :: 0 <= i < |eargs| ==> NoAttributionArg(eargs[i])
      requires indent.Some? ==> indent.value.had
      modifies this, w
      decreases eargs, 3
      ensures w.out == old(w.out) + XmlEargs(old(indent), old(Context()), eargs)
      ensures indent == old(indent) && Context() == old(Context())
    {
      ghost var ind := indent;
      ghost var ns := Context();
      ghost var parts := EargTexts(ind, ns, eargs);
      ghost var pre := w.out;
      var i := 0;
      while i < |eargs|
        invariant 0 <= i <= |eargs|
        invariant indent == ind && Context() == ns
        invariant w.out == pre + Concat(parts[..i])
      {
        Earg(eargs[i]);
        ConcatPrefixStep(pre, parts, i);
        i := i + 1;
      }
      assert parts[..|eargs|] == parts;
    }

    method Earg(a: OrForeign)
      requires NoAttributionArg(a)
      requires indent.Some? ==> indent.value.had
      modifies this, w
      decreases a, 0
      ensures w.out == old(w.out) + XmlEarg(old(indent), old(Context()), a)
      ensures indent == old(indent) && Context() == old(Context())
    {
      match a
      case OmArg(o) => Child(o);
      case Foreign(enc, v) => Foreign(enc, v);
    }

    /** An OMFOREIGN argument. */
    method Foreign(enc: Option<string>, v: string)
      requires indent.Some? ==> indent.value.had
      modifies this, w
      ensures w.out == old(w.out) + XmlForeign(old(indent), enc, v)
      ensures indent == old(indent) && Context() == old(Context())
    {
      ghost var s0 := w.out;
      ghost var i := IndentText(indent);
      ghost var open := ForeignOpen(enc);
      var pretty := indent.Some?;
      if pretty {
        WriteIndent();
      }
      ghost var s1 := w.out;
      match enc {
        case Some(e) =>
          w.WriteStr("<OMFOREIGN encoding=\"");
          WriteEscaped(w, e);
          w.WriteStr("\">");
          Cat3(s1, "<OMFOREIGN encoding=\"", Escape(e), "\">");
        case None =>
          w.WriteStr("<OMFOREIGN>");
      }
      if pretty {
        WriteIndent();
        WriteEscaped(w, "  " + v);
        WriteIndent();
        w.WriteStr("</OMFOREIGN>");
        Cat6(s0, i, open, i, Escape("  " + v), i, "</OMFOREIGN>");
      } else {
        WriteEscaped(w, v);
        w.WriteStr("</OMFOREIGN>");
        Cat3(s0, open, Escape(v), "</OMFOREIGN>");
      }
    }

    /** `ombind`: the binder, the OMBVAR element and the body. */
    method Ombind(binder: Obj, vars: seq<BindVar>, body: Obj)
      requires NoAttribution(Call.Ombind(binder, vars, body))
      modifies this, w
      decreases Call.Ombind(binder, vars, body), 0
      ensures w.out == old(w.out) + Xml(old(indent), old(Context()), Call.Ombind(binder, vars, body))
    {
      ghost var ind := indent;
      ghost var ns := Context();
      ghost var o := OpenTag(ind, ns, "OMBIND");
      ghost var h := XmlObj(Inner(ind), Consume(ns), binder);
      ghost var v := XmlOmbvar(Inner(ind), vars);
      ghost var b := XmlObj(Inner(ind), Consume(ns), body);
      ghost var e := CloseTag(ind, "OMBIND");
      assert Xml(ind, ns, Call.Ombind(binder, vars, body)) == o + h + v + b + e;
      ShallowerInner(ind);
      ghost var s0 := w.out;
      Open("OMBIND");
      Child(binder);
      Ombvar(vars);
      Child(body);
      Close("OMBIND");
      Cat5(s0, o, h, v, b, e);
    }

    /** The OMBVAR element of `ombind`: the variables one level deeper,
        closed by `/>` when there was none. */
    method Ombvar(vars: seq<BindVar>)
      modifies this, w
      ensures w.out == old(w.out) + XmlOmbvar(old(indent), vars)
      ensures indent == Indented(old(indent)) && Context() == old(Context())
    {
      ghost var ind := indent;
      ghost var s0 := w.out;
      ghost var i0 := IndentText(ind);
      ghost var vw := VarsWritten(VarTexts(Inner(ind), vars), |vars|);
      ghost var end := OmbvarEnd(ind, |vars|);
      OmbvarShape(ind, vars);
      ShallowerInner(ind);
      WriteIndent();
      w.WriteStr("<OMBVAR");
      indent := Deeper(indent);
      var wasEmpty := BoundVars(vars);
      ghost var s1 := w.out;
      indent := Shallower(indent);
      if wasEmpty {
        w.WriteStr("/>");
      } else {
        WriteIndent();
        w.WriteStr("</OMBVAR>");
        Cat2(s1, IndentText(Indented(ind)), "</OMBVAR>");
      }
      Cat4(s0, i0, "<OMBVAR", vw, end);
    }

    /** The error symbol of an OME: `oms` on a clone. */
    method Symbol(cd: string, name: string)
      modifies w
      ensures w.out == old(w.out) + XmlSymbol(indent, Context(), cd, name)
    {
      var c := Clone();
      c.Oms(cd, name);
    }

    /** A bound variable: `omv` on a clone. */
    method Var(name: string)
      modifies w
      ensures w.out == old(w.out) + XmlVar(indent, name)
    {
      var c := Clone();
      c.Omv(name);
    }

    /** The variable loop of `ombind`: `>` before the first variable, then
        each variable written by a clone; whether there was none. */
    method BoundVars(vars: seq<BindVar>) returns (wasEmpty: bool)
      modifies w
      ensures wasEmpty <==> |vars| == 0
      ensures w.out == old(w.out) + VarsWritten(VarTexts(indent, vars), |vars|)
    {
      ghost var parts := VarTexts(indent, vars);
      ghost var pre := w.out;
      wasEmpty := true;
      var i := 0;
      while i < |vars|
        invariant 0 <= i <= |vars|
        invariant wasEmpty <==> i == 0
        invariant w.out == pre + VarsWritten(parts, i)
      {
        ghost var s0 := w.out;
        ghost var lead := if wasEmpty then ">" else "";
        if wasEmpty {
          w.WriteStr(">");
        } else {
          EmptyRight(s0);
        }
        wasEmpty := false;
        Var(vars[i].name);
        VarsWrittenStep(pre, parts, i);
        i := i + 1;
      }
    }
  }

  /** `Display for XmlDisplay`. */
  method FormatXml(o: Obj, pretty: bool) returns (s: string)
    requires NoAttributionObj(o)
    ensures s == XmlDisplay(o, pretty)
  {
    var f := new Formatter();
    var ser := new XmlDisplayer(f, if pretty then Some(Indentation(false, 0)) else None, Ns(o.cdbase, BASE));
    ser.Write(o.call);
    s := f.out;
  }

  /** `Display for XmlObjDisplay`, with the space before `cdbase`. */
  method FormatXmlObject(o: Obj, pretty: bool, insertNamespace: bool) returns (s: string)
    requires NoAttributionObj(o)
    ensures s == XmlObjDisplay(o, pretty, insertNamespace)
  {
    var f := new Formatter();
    ghost var x := if insertNamespace then " xmlns=\"" + Kinds.XML_NAMESPACE + "\"" else "";
    ghost var c := match o.cdbase case Some(b) => " cdbase=\"" + Escape(b) + "\"" case None => "";
    f.WriteStr("<OMOBJ version=\"2.0\"");
    ghost var s1 := f.out;
    if insertNamespace {
      f.WriteStr(" xmlns=\"" + Kinds.XML_NAMESPACE + "\"");
    } else {
      EmptyRight(s1);
    }
    ghost var s2 := f.out;
    var ns := BASE;
    if o.cdbase.Some? {
      ns := o.cdbase.value;
      f.WriteStr(" cdbase=\"");
      WriteEscaped(f, ns);
      f.WriteStr("\"");
      Cat3(s2, " cdbase=\"", Escape(ns), "\"");
    } else {
      EmptyRight(s2);
    }
    f.WriteStr(">");
    ghost var head := f.out;
    Cat4("", "<OMOBJ version=\"2.0\"", x, c, ">");
    assert head == ObjOpenTag(insertNamespace, o.cdbase);
    var ser := new XmlDisplayer(f, if pretty then Some(Indentation(true, 1)) else None, Ns(None, ns));
    ser.Write(o.call);
    ghost var body := Xml(if pretty then Some(Indentation(true, 1)) else None, Ns(None, ns), o.call);
    var close := if pretty then "\n</OMOBJ>" else "</OMOBJ>";
    f.WriteStr(close);
    Cat2(head, body, close);
    s := f.out;
  }
}

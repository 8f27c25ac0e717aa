/** The pretty OpenMath XML that the tests of ser/mod.rs expect from
    `xml(true)`, proved of the model, with the general layout lemmas they
    rest on. */
module XmlExamples {
  import opened Wrappers
  import opened SerTree
  import opened XmlEscape
  import opened XmlWriter
  import opened Text
  import DisplayExamples
  import Ints
  import Floats
  import Base64

  const PRETTY: Option<Indentation> := Some(Indentation(false, 0))

  /** A machine-sized integer in decimal, with no layout around the leaf. */
  lemma PrettyOmi()
    ensures XmlDisplay(Obj(None, Omi(Ints.Stack(42))), true) == "<OMI>42</OMI>"
  {
    assert Ints.NatToString(42) == "42";
  }

  /** The thirty-digit integer of the test, built by `Int::new`: an `i128`, in decimal. */
  lemma PrettyBigOmi()
    ensures Ints.New(DisplayExamples.BIG_DIGITS).Some?
    ensures Ints.New(DisplayExamples.BIG_DIGITS).value.Stack?
    ensures XmlDisplay(Obj(None, Omi(Ints.New(DisplayExamples.BIG_DIGITS).value)), true)
         == "<OMI>123456789012345678901234567890</OMI>"
  {
    DisplayExamples.BigDigitsNew();
    var x := Ints.New(DisplayExamples.BIG_DIGITS).value;
    LeafHasNoLayout(Omi(x));
    OmiShape(x);
    BigOmiConcat();
  }

  /** An integer at the top level: its display inside OMI. */
  lemma OmiShape(x: Ints.Int)
    ensures XmlDisplay(Obj(None, Omi(x)), false) == "<OMI>" + Ints.Display(x) + "</OMI>"
  {
  }

  /** A string that needs no escaping, as it is. */
  lemma PrettyOmstr()
    ensures XmlDisplay(Obj(None, Omstr("42")), true) == "<OMSTR>42</OMSTR>"
  {
    EscapePlain("42");
  }

  /** A float is written with the decimal text it is given. */
  lemma PrettyOmf()
    ensures XmlDisplay(Obj(None, Omf(Floats.Float("3.14159"))), true) == "<OMF dec=\"3.14159\"/>"
  {
    assert "<OMF dec=\"" + "3.14159" == "<OMF dec=\"3.14159";
  }

  /** The bytes of `foo bar`. */
  const FOO_BAR: seq<Base64.byte> := [0x66, 0x6F, 0x6F, 0x20, 0x62, 0x61, 0x72]

  lemma FooBarChunks()
    ensures Base64.Chunks(FOO_BAR) == [Base64.Three(0x66, 0x6F, 0x6F), Base64.Three(0x20, 0x62, 0x61), Base64.One(0x72)]
  {
    assert FOO_BAR[3..][3..] == [0x72];
  }

  lemma FooEncoded()
    ensures Base64.EncodeChunk(Base64.Three(0x66, 0x6F, 0x6F)) == [0x5A, 0x6D, 0x39, 0x76]
  {
    assert (0x66 as Base64.byte) >> 2 == 25;
    assert (((0x66 as Base64.byte) << 4) | ((0x6F as Base64.byte) >> 4)) & 0x3F == 38;
    assert (((0x6F as Base64.byte) << 2) | ((0x6F as Base64.byte) >> 6)) & 0x3F == 61;
    assert (0x6F as Base64.byte) & 0x3F == 47;
  }

  lemma SpaceBaEncoded()
    ensures Base64.EncodeChunk(Base64.Three(0x20, 0x62, 0x61)) == [0x49, 0x47, 0x4A, 0x68]
  {
    assert (0x20 as Base64.byte) >> 2 == 8;
    assert (((0x20 as Base64.byte) << 4) | ((0x62 as Base64.byte) >> 4)) & 0x3F == 6;
    assert (((0x62 as Base64.byte) << 2) | ((0x61 as Base64.byte) >> 6)) & 0x3F == 9;
    assert (0x61 as Base64.byte) & 0x3F == 33;
  }

  lemma REncoded()
    ensures Base64.EncodeChunk(Base64.One(0x72)) == [0x63, 0x67, 0x3D, 0x3D]
  {
    assert (0x72 as Base64.byte) >> 2 == 28;
    assert ((0x72 as Base64.byte) << 4) & 0x3F == 32;
  }

  lemma FooBarEncoded()
    ensures Base64.EncodeString(FOO_BAR) == "Zm9vIGJhcg=="
  {
    FooBarChunks();
    FooEncoded();
    SpaceBaEncoded();
    REncoded();
    var cs := Base64.Chunks(FOO_BAR);
    assert cs[1..][1..][1..] == [];
    var e := Base64.Encode(FOO_BAR);
    assert e == [0x5A, 0x6D, 0x39, 0x76] + ([0x49, 0x47, 0x4A, 0x68] + ([0x63, 0x67, 0x3D, 0x3D] + []));
    assert e == [0x5A, 0x6D, 0x39, 0x76, 0x49, 0x47, 0x4A, 0x68, 0x63, 0x67, 0x3D, 0x3D];
    var t := Base64.Chars(e);
    assert t == "Zm9vIGJhcg==";
  }

  /** A leaf written pretty at the top level has no layout around it. */
  lemma LeafHasNoLayout(c: Call)
    requires c.Omi? || c.Omf? || c.Omstr? || c.Omb? || c.Omv?
    ensures XmlDisplay(Obj(None, c), true) == XmlDisplay(Obj(None, c), false)
  {
  }

  /** Bytes in base64, pretty or not. */
  lemma PrettyOmb()
    ensures XmlDisplay(Obj(None, Omb(FOO_BAR)), true) == "<OMB>Zm9vIGJhcg==</OMB>"
  {
    LeafHasNoLayout(Omb(FOO_BAR));
    OmbText();
  }

  /** The bytes of `foo bar` inside OMB. */
  lemma OmbText()
    ensures XmlDisplay(Obj(None, Omb(FOO_BAR)), false) == "<OMB>Zm9vIGJhcg==</OMB>"
  {
    OmbShape(FOO_BAR);
    FooBarEncoded();
    OmbConcat();
  }

  /** Bytes at the top level, not pretty: their base64 text inside OMB. */
  lemma OmbShape(bytes: seq<Base64.byte>)
    ensures XmlDisplay(Obj(None, Omb(bytes)), false) == "<OMB>" + Base64.EncodeString(bytes) + "</OMB>"
  {
  }

  /** A variable as an empty OMV element naming it. */
  lemma PrettyOmv()
    ensures XmlDisplay(Var("variable"), true) == "<OMV name=\"variable\"/>"
  {
    LeafHasNoLayout(Omv("variable"));
    OmvText();
  }

  /** The variable `variable` as OMV. */
  lemma OmvText()
    ensures XmlDisplay(Var("variable"), false) == "<OMV name=\"variable\"/>"
  {
    assert Plain("variable");
    OmvPlain("variable");
    OmvConcat();
  }

  /** An OMV at the top level naming a variable that needs no escaping. */
  lemma OmvPlain(name: string)
    requires Plain(name)
    ensures XmlDisplay(Var(name), false) == "<OMV name=\"" + name + "\"/>"
  {
    OmvShape(name);
    EscapePlain(name);
  }

  /** An OMV at the top level, not pretty. */
  lemma OmvShape(name: string)
    ensures XmlDisplay(Var(name), false) == "<OMV name=\"" + Escape(name) + "\"/>"
  {
    assert XmlDisplay(Var(name), false) == "" + XmlOmv(name);
  }

  /** A symbol in a base of its own, when no base is announced, carries
      that base as its `cdbase` attribute. */
  lemma SymbolInOwnBase(ind: Option<Indentation>, ns: Ns, u: Uri)
    requires ns.next.None? && u.cdbase.Some? && u.cdbase.value != ns.current
    ensures Xml(ind, ns, AsOms(u))
         == IndentText(ind) + ("<OMS " + ("cdbase=\"" + Escape(u.cdbase.value) + "\" ") + "cd=\"" + Escape(u.cd)
                               + "\" name=\"" + Escape(u.name) + "\"/>")
  {
  }

  /** A symbol in the base in effect carries no `cdbase` attribute. */
  lemma SymbolInCurrentBase(ind: Option<Indentation>, ns: Ns, u: Uri)
    requires ns.next.None? && (u.cdbase.None? || u.cdbase.value == ns.current)
    ensures Xml(ind, ns, AsOms(u)) == IndentText(ind) + ("<OMS " + "" + "cd=\"" + Escape(u.cd) + "\" name=\"" + Escape(u.name) + "\"/>")
  {
  }

  /** Text that `Escape` leaves as it is. */
  predicate Plain(s: string) {
    '&' !in s && '<' !in s
  }

  /** A symbol at the top level in a base other than OpenMath's, with parts
      that need no escaping. */
  lemma TopSymbol(b: string, cd: string, name: string)
    requires b != BASE && Plain(b) && Plain(cd) && Plain(name)
    ensures XmlDisplay(Symbol(Uri(Some(b), cd, name)), true)
         == "<OMS " + ("cdbase=\"" + b + "\" ") + "cd=\"" + cd + "\" name=\"" + name + "\"/>"
  {
    SymbolInOwnBase(PRETTY, Ns(None, BASE), Uri(Some(b), cd, name));
    EscapePlain(b);
    EscapePlain(cd);
    EscapePlain(name);
  }

  lemma TestOrgText()
    ensures "<OMS " + ("cdbase=\"" + "http://test.org" + "\" ") + "cd=\"" + "test" + "\" name=\"" + "symbol" + "\"/>"
         == "<OMS cdbase=\"http://test.org\" cd=\"test\" name=\"symbol\"/>"
  {
    assert "cdbase=\"" + "http://test.org" + "\" " == "cdbase=\"http://test.org\" ";
    assert "<OMS " + "cdbase=\"http://test.org\" " == "<OMS cdbase=\"http://test.org\" ";
    assert "<OMS cdbase=\"http://test.org\" " + "cd=\"" == "<OMS cdbase=\"http://test.org\" cd=\"";
    assert "<OMS cdbase=\"http://test.org\" cd=\"" + "test" == "<OMS cdbase=\"http://test.org\" cd=\"test";
    assert "<OMS cdbase=\"http://test.org\" cd=\"test" + "\" name=\"" == "<OMS cdbase=\"http://test.org\" cd=\"test\" name=\"";
    assert "<OMS cdbase=\"http://test.org\" cd=\"test\" name=\"" + "symbol" == "<OMS cdbase=\"http://test.org\" cd=\"test\" name=\"symbol";
  }

  /** The `test_oms_serialization_xml` test: the symbol's own base as its `cdbase`
      attribute. */
  lemma PrettyOms()
    ensures XmlDisplay(Symbol(Uri(Some("http://test.org"), "test", "symbol")), true)
         == "<OMS cdbase=\"http://test.org\" cd=\"test\" name=\"symbol\"/>"
  {
    TopSymbol("http://test.org", "test", "symbol");
    TestOrgText();
  }

  // ----- compound values -----------------------------------------------------------

  /** `p + a + b` once `a + b` is known as one literal. */
  lemma MergeAfter(p: string, a: string, b: string, ab: string)
    requires a + b == ab
    ensures p + a + b == p + ab
  {
  }

  /** Two parts written one after the other. */
  lemma ConcatTwo(a: string, b: string)
    ensures Concat([a, b]) == a + b
  {
    assert [a, b][..1] == [a];
    assert [a][..0] == [];
  }

  /** The indentation of the children of a top-level element, and of
      theirs. */
  lemma ChildIndent()
    ensures IndentText(Inner(PRETTY)) == "\n  "
    ensures IndentText(Inner(Inner(PRETTY))) == "\n    "
    ensures IndentText(Indented(Inner(PRETTY))) == "\n  "
    ensures IndentText(Indented(PRETTY)) == "\n"
  {
  }

  // ----- an application -----------------------------------------------------------

  /** An application of a symbol in a base of its own to two floats. */
  function FloatPair(b: string, cd: string, name: string, x: string, y: string): (o: Obj)
    ensures NoAttributionObj(o)
  {
    var args := [Obj(None, Omf(Floats.Float(x))), Obj(None, Omf(Floats.Float(y)))];
    var head := Symbol(Uri(Some(b), cd, name));
    assert NoAttributionObj(args[0]) && NoAttributionObj(args[1]) && NoAttributionObj(head);
    assert NoAttribution(Oma(head, args));
    Obj(None, Oma(head, args))
  }

  lemma FloatLines(ns: Ns, x: string, y: string)
    ensures XmlArgs(Inner(PRETTY), ns, [Obj(None, Omf(Floats.Float(x))), Obj(None, Omf(Floats.Float(y)))])
         == ("\n  " + "<OMF dec=\"" + x + "\"/>") + ("\n  " + "<OMF dec=\"" + y + "\"/>")
  {
    ChildIndent();
    var args := [Obj(None, Omf(Floats.Float(x))), Obj(None, Omf(Floats.Float(y)))];
    var t := ArgTexts(Inner(PRETTY), ns, args);
    assert t[0] == XmlObj(Inner(PRETTY), ns, args[0]) == Xml(Inner(PRETTY), ns, Omf(Floats.Float(x)));
    assert t[1] == XmlObj(Inner(PRETTY), ns, args[1]) == Xml(Inner(PRETTY), ns, Omf(Floats.Float(y)));
    assert t == ["\n  " + "<OMF dec=\"" + x + "\"/>", "\n  " + "<OMF dec=\"" + y + "\"/>"];
    ConcatTwo("\n  " + "<OMF dec=\"" + x + "\"/>", "\n  " + "<OMF dec=\"" + y + "\"/>");
  }

  /** `FloatPair` written pretty, when its parts need no escaping: the
      head and each float on a line of its own, two spaces in, the head
      with its base. */
  lemma OmaOfTwoFloats(b: string, cd: string, name: string, x: string, y: string)
    requires b != BASE && Plain(b) && Plain(cd) && Plain(name)
    ensures XmlDisplay(FloatPair(b, cd, name, x, y), true)
         == "<OMA>" + ("\n  " + ("<OMS " + ("cdbase=\"" + b + "\" ") + "cd=\"" + cd + "\" name=\"" + name + "\"/>"))
            + (("\n  " + "<OMF dec=\"" + x + "\"/>") + ("\n  " + "<OMF dec=\"" + y + "\"/>")) + "\n</OMA>"
  {
    var ns := Ns(None, BASE);
    ChildIndent();
    assert OpenTag(PRETTY, ns, "OMA") == "<OMA>";
    assert CloseTag(PRETTY, "OMA") == "\n</OMA>";
    var head := Symbol(Uri(Some(b), cd, name));
    SymbolInOwnBase(Inner(PRETTY), ns, head.call.uri);
    EscapePlain(b);
    EscapePlain(cd);
    EscapePlain(name);
    FloatLines(ns, x, y);
    var args := [Obj(None, Omf(Floats.Float(x))), Obj(None, Omf(Floats.Float(y)))];
    assert Consume(ns) == ns;
    assert XmlDisplay(FloatPair(b, cd, name, x, y), true) == XmlOma(PRETTY, ns, head, args);
  }

  /** The same, as one chain of the pieces written. */
  lemma TwoFloatsChain(b: string, cd: string, name: string, x: string, y: string)
    ensures "<OMA>" + ("\n  " + ("<OMS " + ("cdbase=\"" + b + "\" ") + "cd=\"" + cd + "\" name=\"" + name + "\"/>"))
            + (("\n  " + "<OMF dec=\"" + x + "\"/>") + ("\n  " + "<OMF dec=\"" + y + "\"/>")) + "\n</OMA>"
         == "<OMA>" + "\n  " + "<OMS " + "cdbase=\"" + b + "\" " + "cd=\"" + cd + "\" name=\"" + name + "\"/>"
            + "\n  " + "<OMF dec=\"" + x + "\"/>" + "\n  " + "<OMF dec=\"" + y + "\"/>" + "\n</OMA>"
  {
  }


  /** The `test_oma_serialization_xml` test: the head and both floats each on a line of
      their own, two spaces in, the head in its own base. */
  lemma PrettyPoint()
    ensures XmlDisplay(DisplayExamples.Point("13.1", "17.4"), true)
         == "<OMA>"
            + "\n  <OMS cdbase=\"http://example.org\" cd=\"geometry1\" name=\"point\"/>"
            + "\n  <OMF dec=\"13.1\"/>"
            + "\n  <OMF dec=\"17.4\"/>"
            + "\n</OMA>"
  {
    assert DisplayExamples.Point("13.1", "17.4") == FloatPair("http://example.org", "geometry1", "point", "13.1", "17.4");
    OmaOfTwoFloats("http://example.org", "geometry1", "point", "13.1", "17.4");
    TwoFloatsChain("http://example.org", "geometry1", "point", "13.1", "17.4");
    PointHeadLine("<OMA>");
    PointXLine("<OMA>" + "\n  <OMS cdbase=\"http://example.org\" cd=\"geometry1\" name=\"point\"/>");
    PointYLine("<OMA>" + "\n  <OMS cdbase=\"http://example.org\" cd=\"geometry1\" name=\"point\"/>" + "\n  <OMF dec=\"13.1\"/>");
  }

  // ----- a binding -----------------------------------------------------------------

  /** A binding by a symbol in the base the binding announces, of
      variables without attributions, over a string. */
  function Binding(b: string, cd: string, name: string, vars: seq<BindVar>, s: string): (o: Obj)
    requires forall i :: 0 <= i < |vars| ==> vars[i].attrs == []
    ensures NoAttributionObj(o)
  {
    var binder := Symbol(Uri(Some(b), cd, name));
    var body := Obj(None, Omstr(s));
    assert NoAttributionObj(binder) && NoAttributionObj(body);
    assert NoAttribution(Ombind(binder, vars, body));
    Obj(Some(b), Ombind(binder, vars, body))
  }

  /** `Binding` written pretty, when its parts need no escaping: the base
      on the OMBIND tag and not on the binder, each child on a line of its
      own, two spaces in. */
  lemma OmbindOfString(b: string, cd: string, name: string, vars: seq<BindVar>, s: string)
    requires forall i :: 0 <= i < |vars| ==> vars[i].attrs == []
    requires Plain(b) && Plain(cd) && Plain(name) && Plain(s)
    ensures XmlDisplay(Binding(b, cd, name, vars, s), true)
         == ("" + "<" + "OMBIND" + (" cdbase=\"" + b + "\"") + ">")
            + ("\n  " + ("<OMS " + "" + "cd=\"" + cd + "\" name=\"" + name + "\"/>"))
            + XmlOmbvar(Inner(PRETTY), vars)
            + ("\n  " + "<OMSTR>" + s + "</OMSTR>")
            + ("\n" + "</" + "OMBIND" + ">")
  {
    var ns := Ns(Some(b), BASE);
    var inner := Ns(None, b);
    ChildIndent();
    assert IndentText(PRETTY) == "";
    assert Consume(ns) == inner;
    var o := Binding(b, cd, name, vars, s);
    assert XmlDisplay(o, true) == XmlOmbind(PRETTY, ns, o.call.binder, vars, o.call.body);
    SymbolInCurrentBase(Inner(PRETTY), inner, Uri(Some(b), cd, name));
    EscapePlain(b);
    EscapePlain(cd);
    EscapePlain(name);
    EscapePlain(s);
    assert XmlObj(Inner(PRETTY), inner, o.call.binder) == "\n  " + ("<OMS " + "" + "cd=\"" + cd + "\" name=\"" + name + "\"/>");
    assert XmlObj(Inner(PRETTY), inner, o.call.body) == "\n  " + "<OMSTR>" + s + "</OMSTR>";
    assert OpenTag(PRETTY, ns, "OMBIND") == "" + "<" + "OMBIND" + (" cdbase=\"" + b + "\"") + ">";
    assert CloseTag(PRETTY, "OMBIND") == "\n" + "</" + "OMBIND" + ">";
  }

  /** Two variables on lines of their own, four spaces in, between the
      OMBVAR tags. */
  lemma OmbvarOfTwo(x: string, y: string)
    requires Plain(x) && Plain(y)
    ensures XmlOmbvar(Inner(PRETTY), [BindVar(x, []), BindVar(y, [])])
         == ("\n  " + "<OMBVAR" + ">") + ("\n    " + "<OMV name=\"" + x + "\"/>")
            + ("\n    " + "<OMV name=\"" + y + "\"/>") + ("\n  " + "</OMBVAR>")
  {
    ChildIndent();
    var vars := [BindVar(x, []), BindVar(y, [])];
    var t := VarTexts(Inner(Inner(PRETTY)), vars);
    EscapePlain(x);
    EscapePlain(y);
    var vx := "\n    " + "<OMV name=\"" + x + "\"/>";
    var vy := "\n    " + "<OMV name=\"" + y + "\"/>";
    assert t[0] == XmlVar(Inner(Inner(PRETTY)), x) == vx;
    assert t[1] == XmlVar(Inner(Inner(PRETTY)), y) == vy;
    assert t == [vx, vy];
    ConcatTwo(vx, vy);
    Regroup("\n  ", "<OMBVAR", ">", vx, vy, "\n  ", "</OMBVAR>");
  }

  /** The regrouping `OmbvarOfTwo` needs. */
  lemma Regroup(a: string, b: string, c: string, x: string, y: string, d: string, e: string)
    ensures a + b + (c + (x + y) + d + e) == (a + b + c) + x + y + (d + e)
  {
  }

  /** No variables: an empty OMBVAR element. */
  lemma OmbvarOfNone()
    ensures XmlOmbvar(Inner(PRETTY), []) == "\n  " + "<OMBVAR" + "/>"
  {
    ChildIndent();
  }

  /** Lines spliced into the middle of a text. */
  lemma Splice(a: string, b: string, v1: string, v2: string, v3: string, v4: string, d: string, e: string)
    ensures a + b + (v1 + v2 + v3 + v4) + d + e == a + b + v1 + v2 + v3 + v4 + d + e
  {
  }

  /** A `Lambda` written pretty, over any variables without attributions
      and a body that needs no escaping. */
  lemma PrettyLambdaOf(vars: seq<BindVar>, s: string)
    requires forall i :: 0 <= i < |vars| ==> vars[i].attrs == []
    requires Plain(s)
    ensures DisplayExamples.Lambda(vars, s) == Binding("http://openmath.org", "fns1", "lambda", vars, s)
    ensures XmlDisplay(DisplayExamples.Lambda(vars, s), true)
         == "<OMBIND cdbase=\"http://openmath.org\">"
            + "\n  <OMS cd=\"fns1\" name=\"lambda\"/>"
            + XmlOmbvar(Inner(PRETTY), vars)
            + ("\n  " + "<OMSTR>" + s + "</OMSTR>")
            + "\n</OMBIND>"
  {
    OmbindOfString("http://openmath.org", "fns1", "lambda", vars, s);
    LambdaOpenLine();
    LambdaBinderLine();
    OmbindCloseLine();
  }

  const XY := [BindVar("x", []), BindVar("y", [])]

  /** The children of the `test_ombind_serialization_xml` binding, the variables not yet
      written out. */
  lemma LambdaBlocks()
    ensures XmlDisplay(DisplayExamples.Lambda(XY, "x + y"), true)
         == "<OMBIND cdbase=\"http://openmath.org\">"
            + "\n  <OMS cd=\"fns1\" name=\"lambda\"/>"
            + XmlOmbvar(Inner(PRETTY), XY)
            + "\n  <OMSTR>x + y</OMSTR>"
            + "\n</OMBIND>"
  {
    PrettyLambdaOf(XY, "x + y");
    BodyXYLine();
  }

  /** The OMBVAR element of the `test_ombind_serialization_xml` binding. */
  lemma LambdaVars()
    ensures XmlOmbvar(Inner(PRETTY), XY)
         == "\n  <OMBVAR>" + "\n    <OMV name=\"x\"/>" + "\n    <OMV name=\"y\"/>" + "\n  </OMBVAR>"
  {
    OmbvarOfTwo("x", "y");
    OmbvarOpenLine();
    VarXLine();
    VarYLine();
    OmbvarCloseLine();
  }

  /** The `test_ombind_serialization_xml` test: the base on the OMBIND tag only, each child on
      a line of its own, the variables one level deeper inside OMBVAR. */
  lemma PrettyLambda()
    ensures XmlDisplay(DisplayExamples.Lambda(XY, "x + y"), true)
         == "<OMBIND cdbase=\"http://openmath.org\">"
            + "\n  <OMS cd=\"fns1\" name=\"lambda\"/>"
            + "\n  <OMBVAR>"
            + "\n    <OMV name=\"x\"/>"
            + "\n    <OMV name=\"y\"/>"
            + "\n  </OMBVAR>"
            + "\n  <OMSTR>x + y</OMSTR>"
            + "\n</OMBIND>"
  {
    LambdaBlocks();
    LambdaVars();
    Splice("<OMBIND cdbase=\"http://openmath.org\">", "\n  <OMS cd=\"fns1\" name=\"lambda\"/>",
           "\n  <OMBVAR>", "\n    <OMV name=\"x\"/>", "\n    <OMV name=\"y\"/>", "\n  </OMBVAR>",
           "\n  <OMSTR>x + y</OMSTR>", "\n</OMBIND>");
  }

  /** A lambda binding no variables: an empty OMBVAR element. */
  lemma PrettyEmptyLambda()
    ensures XmlDisplay(DisplayExamples.Lambda([], "true"), true)
         == "<OMBIND cdbase=\"http://openmath.org\">"
            + "\n  <OMS cd=\"fns1\" name=\"lambda\"/>"
            + "\n  <OMBVAR/>"
            + "\n  <OMSTR>true</OMSTR>"
            + "\n</OMBIND>"
  {
    PrettyLambdaOf([], "true");
    OmbvarOfNone();
    EmptyOmbvarLine();
    BodyTrueLine();
  }

  // ----- literal text -------------------------------------------------------------

  // The test literals are long concatenations of short pieces, and merging all of
  // them in one proof is more than the solver can do within its resource limit. So
  // each lemma below merges the pieces of one line or one part of a line. The test
  // lemmas above join these lemmas to the layout lemmas.

  lemma BigOmiConcat()
    ensures "<OMI>" + DisplayExamples.BIG_DIGITS + "</OMI>" == "<OMI>123456789012345678901234567890</OMI>"
  {
    assert "<OMI>" + DisplayExamples.BIG_DIGITS == "<OMI>123456789012345678901234567890";
  }

  lemma OmbConcat()
    ensures "<OMB>" + "Zm9vIGJhcg==" + "</OMB>" == "<OMB>Zm9vIGJhcg==</OMB>"
  {
  }

  /** The pieces of the OMV element for `variable`, joined. */
  lemma OmvConcat()
    ensures "<OMV name=\"" + "variable" + "\"/>" == "<OMV name=\"variable\"/>"
  {
  }

  lemma PointHeadLinePart1(p: string)
    ensures p + "\n  " + "<OMS " + "cdbase=\"" + "http://example.org" == p + "\n  <OMS cdbase=\"http://example.org"
  {
    MergeAfter(p, "\n  ", "<OMS ", "\n  <OMS ");
    MergeAfter(p, "\n  <OMS ", "cdbase=\"", "\n  <OMS cdbase=\"");
    MergeAfter(p, "\n  <OMS cdbase=\"", "http://example.org", "\n  <OMS cdbase=\"http://example.org");
  }

  lemma PointHeadLinePart2(p: string)
    ensures p + "\n  <OMS cdbase=\"http://example.org" + "\" " + "cd=\"" + "geometry1" == p + "\n  <OMS cdbase=\"http://example.org\" cd=\"geometry1"
  {
    MergeAfter(p, "\n  <OMS cdbase=\"http://example.org", "\" ", "\n  <OMS cdbase=\"http://example.org\" ");
    MergeAfter(p, "\n  <OMS cdbase=\"http://example.org\" ", "cd=\"", "\n  <OMS cdbase=\"http://example.org\" cd=\"");
    MergeAfter(p, "\n  <OMS cdbase=\"http://example.org\" cd=\"", "geometry1", "\n  <OMS cdbase=\"http://example.org\" cd=\"geometry1");
  }

  lemma PointHeadLinePart3(p: string)
    ensures p + "\n  <OMS cdbase=\"http://example.org\" cd=\"geometry1" + "\" name=\"" + "point" + "\"/>" == p + "\n  <OMS cdbase=\"http://example.org\" cd=\"geometry1\" name=\"point\"/>"
  {
    MergeAfter(p, "\n  <OMS cdbase=\"http://example.org\" cd=\"geometry1", "\" name=\"", "\n  <OMS cdbase=\"http://example.org\" cd=\"geometry1\" name=\"");
    MergeAfter(p, "\n  <OMS cdbase=\"http://example.org\" cd=\"geometry1\" name=\"", "point", "\n  <OMS cdbase=\"http://example.org\" cd=\"geometry1\" name=\"point");
    MergeAfter(p, "\n  <OMS cdbase=\"http://example.org\" cd=\"geometry1\" name=\"point", "\"/>", "\n  <OMS cdbase=\"http://example.org\" cd=\"geometry1\" name=\"point\"/>");
  }

  lemma PointHeadLine(p: string)
    ensures p + "\n  " + "<OMS " + "cdbase=\"" + "http://example.org" + "\" " + "cd=\"" + "geometry1" + "\" name=\"" + "point" + "\"/>" == p + "\n  <OMS cdbase=\"http://example.org\" cd=\"geometry1\" name=\"point\"/>"
  {
    PointHeadLinePart1(p);
    PointHeadLinePart2(p);
    PointHeadLinePart3(p);
  }

  lemma PointXLine(p: string)
    ensures p + "\n  " + "<OMF dec=\"" + "13.1" + "\"/>" == p + "\n  <OMF dec=\"13.1\"/>"
  {
    MergeAfter(p, "\n  ", "<OMF dec=\"", "\n  <OMF dec=\"");
    MergeAfter(p, "\n  <OMF dec=\"", "13.1", "\n  <OMF dec=\"13.1");
    MergeAfter(p, "\n  <OMF dec=\"13.1", "\"/>", "\n  <OMF dec=\"13.1\"/>");
  }

  lemma PointYLine(p: string)
    ensures p + "\n  " + "<OMF dec=\"" + "17.4" + "\"/>" == p + "\n  <OMF dec=\"17.4\"/>"
  {
    MergeAfter(p, "\n  ", "<OMF dec=\"", "\n  <OMF dec=\"");
    MergeAfter(p, "\n  <OMF dec=\"", "17.4", "\n  <OMF dec=\"17.4");
    MergeAfter(p, "\n  <OMF dec=\"17.4", "\"/>", "\n  <OMF dec=\"17.4\"/>");
  }

  lemma LambdaOpenLine()
    ensures "" + "<" + "OMBIND" + (" cdbase=\"" + "http://openmath.org" + "\"") + ">" == "<OMBIND cdbase=\"http://openmath.org\">"
  {
    OpenMathAttr();
    assert "" + "<" + "OMBIND" == "<OMBIND";
    assert "<OMBIND" + " cdbase=\"http://openmath.org\"" == "<OMBIND cdbase=\"http://openmath.org\"";
  }

  lemma OpenMathAttr()
    ensures " cdbase=\"" + "http://openmath.org" + "\"" == " cdbase=\"http://openmath.org\""
  {
    assert " cdbase=\"" + "http://openmath.org" == " cdbase=\"http://openmath.org";
  }

  lemma LambdaBinderLine()
    ensures "\n  " + ("<OMS " + "" + "cd=\"" + "fns1" + "\" name=\"" + "lambda" + "\"/>") == "\n  <OMS cd=\"fns1\" name=\"lambda\"/>"
  {
    assert "\n  " + "<OMS " == "\n  <OMS ";
    assert "\n  <OMS " + "cd=\"" == "\n  <OMS cd=\"";
    assert "\n  <OMS cd=\"" + "fns1" == "\n  <OMS cd=\"fns1";
    assert "\n  <OMS cd=\"fns1" + "\" name=\"" == "\n  <OMS cd=\"fns1\" name=\"";
    assert "\n  <OMS cd=\"fns1\" name=\"" + "lambda" == "\n  <OMS cd=\"fns1\" name=\"lambda";
  }

  lemma VarXLine()
    ensures "\n    " + "<OMV name=\"" + "x" + "\"/>" == "\n    <OMV name=\"x\"/>"
  {
    assert "\n    " + "<OMV name=\"" == "\n    <OMV name=\"";
    assert "\n    <OMV name=\"" + "x" == "\n    <OMV name=\"x";
  }

  lemma VarYLine()
    ensures "\n    " + "<OMV name=\"" + "y" + "\"/>" == "\n    <OMV name=\"y\"/>"
  {
    assert "\n    " + "<OMV name=\"" == "\n    <OMV name=\"";
    assert "\n    <OMV name=\"" + "y" == "\n    <OMV name=\"y";
  }

  lemma BodyXYLine()
    ensures "\n  " + "<OMSTR>" + "x + y" + "</OMSTR>" == "\n  <OMSTR>x + y</OMSTR>"
  {
    assert "\n  " + "<OMSTR>" == "\n  <OMSTR>";
    assert "\n  <OMSTR>" + "x + y" == "\n  <OMSTR>x + y";
  }

  lemma BodyTrueLine()
    ensures "\n  " + "<OMSTR>" + "true" + "</OMSTR>" == "\n  <OMSTR>true</OMSTR>"
  {
    assert "\n  " + "<OMSTR>" == "\n  <OMSTR>";
    assert "\n  <OMSTR>" + "true" == "\n  <OMSTR>true";
  }

  lemma OmbvarOpenLine()
    ensures "\n  " + "<OMBVAR" + ">" == "\n  <OMBVAR>"
  {
    assert "\n  " + "<OMBVAR" == "\n  <OMBVAR";
  }

  lemma OmbvarCloseLine()
    ensures "\n  " + "</OMBVAR>" == "\n  </OMBVAR>"
  {
  }

  lemma EmptyOmbvarLine()
    ensures "\n  " + "<OMBVAR" + "/>" == "\n  <OMBVAR/>"
  {
    assert "\n  " + "<OMBVAR" == "\n  <OMBVAR";
  }

  lemma OmbindCloseLine()
    ensures "\n" + "</" + "OMBIND" + ">" == "\n</OMBIND>"
  {
    assert "\n" + "</" == "\n</";
    assert "\n</" + "OMBIND" == "\n</OMBIND";
  }
}

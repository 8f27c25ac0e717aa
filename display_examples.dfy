/** The display notation of the values the test module of ser/mod.rs
    writes, evaluated in the model. */
module DisplayExamples {
  import opened Wrappers
  import opened SerTree
  import opened Text
  import opened DisplayWriter
  import Ints
  import Floats

  lemma DisplayOmi()
    ensures Display(Obj(None, Omi(Ints.Stack(42)))) == "OMI(42)"
  {
    assert Ints.NatToString(42) == "42";
  }

  /** The thirty digits of the second integer test. */
  const BIG_DIGITS: string := "123456789012345678901234567890"

  /** `Int::new` of the thirty digits: they fit an `i128`, so the value is kept on the
      stack and written by `i128`'s display, which gives the digits back. */
  lemma BigDigitsNew()
    ensures Ints.New(BIG_DIGITS).Some? && Ints.New(BIG_DIGITS).value.Stack?
    ensures Ints.Display(Ints.New(BIG_DIGITS).value) == BIG_DIGITS
  {
    assert Ints.Canonical(BIG_DIGITS);
    Ints.DisplayNewCanonical(BIG_DIGITS);
  }

  lemma DisplayBigOmi()
    ensures Ints.New(BIG_DIGITS).Some? && Ints.New(BIG_DIGITS).value.Stack?
    ensures Display(Obj(None, Omi(Ints.New(BIG_DIGITS).value))) == "OMI(123456789012345678901234567890)"
  {
    BigDigitsNew();
    OmiText(Ints.New(BIG_DIGITS).value);
    BigOmiConcat();
  }

  /** An integer at the top level: its display inside `OMI(...)`. */
  lemma OmiText(x: Ints.Int)
    ensures Display(Obj(None, Omi(x))) == "OMI(" + Ints.Display(x) + ")"
  {
  }

  lemma DisplayOmstr()
    ensures Display(Obj(None, Omstr("42"))) == "OMSTR(\"42\")"
  {
  }

  lemma DisplayOmb()
    ensures Display(Obj(None, Omb([1, 2, 3, 4, 5]))) == "OMB(1,2,3,4,5)"
  {
    var texts := ByteTexts([1, 2, 3, 4, 5]);
    assert texts == ["1", "2", "3", "4", "5"];
    assert Join(",", texts[..1]) == "1";
    assert texts[..2][..1] == texts[..1];
    assert Join(",", texts[..2]) == "1,2";
    assert texts[..3][..2] == texts[..2];
    assert Join(",", texts[..3]) == "1,2,3";
    assert texts[..4][..3] == texts[..3];
    assert Join(",", texts[..4]) == "1,2,3,4";
    assert texts[..5][..4] == texts[..4];
    assert texts[..5] == texts;
  }

  lemma DisplayOmv()
    ensures Display(Var("variable")) == "OMV(variable)"
  {
  }

  lemma DisplayOmsShape()
    ensures Display(Symbol(Uri(Some("http://test.org"), "test", "symbol")))
         == "OMS(" + ("http://test.org" + "/") + "test" + "#" + "symbol" + ")"
  {
  }

  lemma DisplayOms()
    ensures Display(Symbol(Uri(Some("http://test.org"), "test", "symbol"))) == "OMS(http://test.org/test#symbol)"
  {
    DisplayOmsShape();
    assert "OMS(" + ("http://test.org" + "/") == "OMS(http://test.org/";
  }

  /** The `Point` value: an OMA of `geometry1#point` in base
      `http://example.org` over two floats. */
  function Point(x: string, y: string): Obj {
    Obj(None, Oma(Symbol(Uri(Some("http://example.org"), "geometry1", "point")),
                  [Obj(None, Omf(Floats.Float(x))), Obj(None, Omf(Floats.Float(y)))]))
  }

  lemma PointArgs(ns: Ns, x: string, y: string)
    ensures ShowArgs(ns, Point(x, y).call.args) == "," + ("OMF(" + x + ")") + ("," + ("OMF(" + y + ")"))
  {
    var args := Point(x, y).call.args;
    assert ShowObj(ns, args[0]) == "OMF(" + x + ")";
    assert ShowObj(ns, args[1]) == "OMF(" + y + ")";
    var parts := seq(2, i requires 0 <= i < 2 => "," + ShowObj(ns, args[i]));
    assert parts == ["," + ("OMF(" + x + ")"), "," + ("OMF(" + y + ")")];
    assert parts[..1][..0] == [];
    assert parts[..1] == [parts[0]];
    assert Concat(parts[..1]) == "" + parts[0];
    assert "" + parts[0] == parts[0];
  }

  lemma PointHeadShape()
    ensures ShowObj(Ns(None, BASE), Point("13.1", "17.4").call.head)
         == "OMS(" + ("http://example.org" + "/") + "geometry1" + "#" + "point" + ")"
  {
  }

  lemma PointHead()
    ensures ShowObj(Ns(None, BASE), Point("13.1", "17.4").call.head) == "OMS(http://example.org/geometry1#point)"
  {
    PointHeadShape();
    PointBase();
  }

  lemma PointArgsText(ns: Ns)
    ensures ShowArgs(ns, Point("13.1", "17.4").call.args) == ",OMF(13.1),OMF(17.4)"
  {
    PointArgs(ns, "13.1", "17.4");
  }

  lemma DisplayPoint()
    ensures Display(Point("13.1", "17.4")) == "OMA(OMS(http://example.org/geometry1#point),OMF(13.1),OMF(17.4))"
  {
    DisplayPointShape();
    PointClose();
  }

  lemma DisplayPointShape()
    ensures Display(Point("13.1", "17.4")) == "OMA(OMS(http://example.org/geometry1#point)" + ",OMF(13.1),OMF(17.4))"
  {
    var ns := Ns(None, BASE);
    var o := Point("13.1", "17.4");
    PointHead();
    PointArgsText(ns);
    var h := "OMS(http://example.org/geometry1#point)";
    var r := ",OMF(13.1),OMF(17.4)";
    assert Consume(ns) == ns && Marker(ns) == "";
    assert Display(o) == Show(ns, o.call);
    assert Show(ns, o.call) == "OMA" + "" + "(" + h + r + ")";
    assert "OMA" + "" + "(" == "OMA(";
    PointOpen();
    assert "OMA(OMS(http://example.org/geometry1#point)" + r + ")"
        == "OMA(OMS(http://example.org/geometry1#point)" + (r + ")");
    assert r + ")" == ",OMF(13.1),OMF(17.4))";
  }

  /** The `Lambda` value: an OMBIND of `fns1#lambda` announcing its base
      `http://openmath.org`. */
  function Lambda(vars: seq<BindVar>, body: string): Obj {
    Obj(Some("http://openmath.org"),
        Ombind(Symbol(Uri(Some("http://openmath.org"), "fns1", "lambda")), vars, Obj(None, Omstr(body))))
  }

  lemma LambdaParts(vars: seq<BindVar>, body: string)
    ensures var o := Lambda(vars, body);
            var inner := Ns(None, "http://openmath.org");
            Display(o) == "OMBIND@" + "http://openmath.org" + "(" + ("OMS(" + "fns1" + "#" + "lambda" + ")") + ",["
                          + ShowVars(inner, vars) + "]," + ("OMSTR(\"" + body + "\")") + ")"
  {
    var o := Lambda(vars, body);
    var inner := Ns(None, "http://openmath.org");
    OmbindConsumesBase("http://openmath.org", BASE, o.call.binder, vars, o.call.body);
    assert ShowObj(inner, o.call.binder) == "OMS(" + "fns1" + "#" + "lambda" + ")";
  }

  lemma VarsXY(ns: Ns)
    ensures ShowVars(ns, [BindVar("x", []), BindVar("y", [])]) == "x" + ", " + "y"
  {
    var vars := [BindVar("x", []), BindVar("y", [])];
    var names := seq(2, i requires 0 <= i < 2 => ShowVar(ns, vars[i]));
    assert names == ["x", "y"];
    assert names[..1] == ["x"];
  }

  lemma DisplayLambda()
    ensures Display(Lambda([BindVar("x", []), BindVar("y", [])], "x + y"))
         == "OMBIND@http://openmath.org(OMS(fns1#lambda),[x, y],OMSTR(\"x + y\"))"
  {
    LambdaParts([BindVar("x", []), BindVar("y", [])], "x + y");
    VarsXY(Ns(None, "http://openmath.org"));
    LambdaOpen();
    LambdaRegroup("OMBIND@http://openmath.org(OMS(fns1#lambda),[", "x" + ", " + "y", "OMSTR(\"" + "x + y" + "\")");
    LambdaXYText();
    LambdaXYClose();
  }

  lemma DisplayEmptyLambda()
    ensures Display(Lambda([], "true"))
         == "OMBIND@http://openmath.org(OMS(fns1#lambda),[],OMSTR(\"true\"))"
  {
    LambdaParts([], "true");
    assert ShowVars(Ns(None, "http://openmath.org"), []) == "";
    LambdaOpen();
    LambdaRegroup("OMBIND@http://openmath.org(OMS(fns1#lambda),[", "", "OMSTR(\"" + "true" + "\")");
    LambdaEmptyText();
    LambdaEmptyClose();
  }

  // ----- literal text -------------------------------------------------------------

  // The test literals are long concatenations of short pieces, and merging all of
  // them in one proof is more than the solver can do within its resource limit. So
  // each lemma below merges the pieces of one line or one part of a line. The test
  // lemmas above join these lemmas to the layout lemmas.

  lemma BigOmiConcat()
    ensures "OMI(" + BIG_DIGITS + ")" == "OMI(123456789012345678901234567890)"
  {
    assert "OMI(" + BIG_DIGITS == "OMI(123456789012345678901234567890";
  }

  lemma PointBase()
    ensures "OMS(" + ("http://example.org" + "/") == "OMS(http://example.org/"
  {
  }

  lemma PointOpen()
    ensures "OMA(" + "OMS(http://example.org/geometry1#point)" == "OMA(OMS(http://example.org/geometry1#point)"
  {
  }

  lemma PointClose()
    ensures "OMA(OMS(http://example.org/geometry1#point)" + ",OMF(13.1),OMF(17.4))"
         == "OMA(OMS(http://example.org/geometry1#point),OMF(13.1),OMF(17.4))"
  {
  }

  lemma LambdaOpen()
    ensures "OMBIND@" + "http://openmath.org" + "(" + ("OMS(" + "fns1" + "#" + "lambda" + ")") + ",["
         == "OMBIND@http://openmath.org(OMS(fns1#lambda),["
  {
    assert "OMBIND@" + "http://openmath.org" == "OMBIND@http://openmath.org";
    assert "OMS(" + "fns1" + "#" + "lambda" + ")" == "OMS(fns1#lambda)";
    assert "OMBIND@http://openmath.org" + "(" + "OMS(fns1#lambda)" == "OMBIND@http://openmath.org(OMS(fns1#lambda)";
  }

  lemma LambdaRegroup(open: string, v: string, b: string)
    ensures open + v + "]," + b + ")" == (open + (v + "],")) + (b + ")")
  {
  }

  lemma LambdaXYText()
    ensures "OMBIND@http://openmath.org(OMS(fns1#lambda),[" + ("x" + ", " + "y" + "],")
         == "OMBIND@http://openmath.org(OMS(fns1#lambda),[x, y],"
  {
    assert "x" + ", " + "y" + "]," == "x, y],";
  }

  lemma LambdaXYClose()
    ensures "OMBIND@http://openmath.org(OMS(fns1#lambda),[x, y]," + ("OMSTR(\"" + "x + y" + "\")" + ")")
         == "OMBIND@http://openmath.org(OMS(fns1#lambda),[x, y],OMSTR(\"x + y\"))"
  {
    assert "OMSTR(\"" + "x + y" + "\")" + ")" == "OMSTR(\"x + y\"))";
  }

  lemma LambdaEmptyText()
    ensures "OMBIND@http://openmath.org(OMS(fns1#lambda),[" + ("" + "],")
         == "OMBIND@http://openmath.org(OMS(fns1#lambda),[],"
  {
    assert "" + "]," == "],";
  }

  lemma LambdaEmptyClose()
    ensures "OMBIND@http://openmath.org(OMS(fns1#lambda),[]," + ("OMSTR(\"" + "true" + "\")" + ")")
         == "OMBIND@http://openmath.org(OMS(fns1#lambda),[],OMSTR(\"true\"))"
  {
    assert "OMSTR(\"" + "true" + "\")" + ")" == "OMSTR(\"true\"))";
  }
}

/** Documents read by the XML reader: the arithmetic examples of
    de/mod.rs, read and then evaluated bottom-up by the `SimplifiedInt`
    deserializer of those examples, and the OMFOREIGN closing-tag check. */
module ReaderExamples {
  import opened Wrappers
  import Ints
  import Kinds
  import Om
  import Expr
  import opened XmlEvents
  import opened ReaderSpec

  /** The crate's default CD base. */
  const CD: string := Kinds.OPENMATH_BASE_URI

  // ---------------------------------------------------------------------
  // Reading single elements.

  lemma ReadsOmi(events: seq<Event>, s: St, t: string, cdbase: string, attrs: seq<TreeAttr>)
    requires s.pos + 2 < |events| && events[s.pos] == Start("OMI", [])
    requires events[s.pos + 1] == Text(t) && events[s.pos + 2] == End("OMI")
    requires !HexText(t) && Ints.New(t).Some?
    ensures HandleNext(events, s, cdbase, attrs) ==
            (Ok(Flow.Break(Tree(Om.OMI(Ints.New(t).value, attrs), cdbase))), St(s.pos + 3, s.pos + 2))
  {
    var v := Tree(Om.OMI(Ints.New(t).value, attrs), cdbase);
    assert TextOf(events, St(s.pos + 1, s.pos)) == (Ok(t), St(s.pos + 2, s.pos + 1));
    assert Closed(events, St(s.pos + 2, s.pos + 1), v) == (Ok(v), St(s.pos + 3, s.pos + 2));
  }

  lemma ReadsOms(events: seq<Event>, s: St, cd: string, name: string, cdbase: string, attrs: seq<TreeAttr>)
    requires s.pos < |events| && events[s.pos] == Empty("OMS", [("cd", cd), ("name", name)])
    ensures HandleNext(events, s, cdbase, attrs) ==
            (Ok(Flow.Break(Tree(Om.OMS(cd, name, attrs), cdbase))), St(s.pos + 1, s.pos))
  {
    var atts := [("cd", cd), ("name", name)];
    assert GetAttr(atts, "name") == Some(name);
    assert GetAttr(atts, "cd") == Some(cd);
    assert GetAttr(atts, "cdbase") == None;
    assert LocalName("OMS") == "OMS";
    assert EmptyElement("OMS", atts, s.position, cdbase, attrs) == Ok(Tree(Om.OMS(cd, name, attrs), cdbase));
    assert NextEvent(events, s) == (Ok(events[s.pos]), St(s.pos + 1, s.pos));
  }

  lemma Two()
    ensures Ints.New("2") == Some(Ints.Stack(2))
  {
    assert Ints.StripSign("2") == "2";
    assert Ints.DecimalValue("2") == 2;
    Ints.NewInRange("2");
  }

  // ---------------------------------------------------------------------
  // The bare OMA of the `fancy` example.

  const WS: string := "\n  "

  /** `<OMA cdbase="http://www.openmath.org/cd"><OMS cd="arith1" name="plus"/>
      <OMI>2</OMI><OMI>2</OMI></OMA>`, with the whitespace between the tags. */
  function PlusEvents(): seq<Event> {
    [Text(WS), Start("OMA", [("cdbase", CD)]),
     Text(WS), Empty("OMS", [("cd", "arith1"), ("name", "plus")]),
     Text(WS), Start("OMI", []), Text("2"), End("OMI"),
     Text(WS), Start("OMI", []), Text("2"), End("OMI"),
     Text(WS), End("OMA")]
  }

  function PlusTree(): Tree {
    var two := Tree(Om.OMI(Ints.Stack(2), []), CD);
    Tree(Om.OMA(Tree(Om.OMS("arith1", "plus", []), CD), [two, two], []), CD)
  }

  /** What `PlusEvents` holds, index by index. */
  predicate IsPlusEvents(ev: seq<Event>) {
    |ev| == 14 &&
    ev[0] == Text(WS) && ev[1] == Start("OMA", [("cdbase", CD)]) &&
    ev[2] == Text(WS) && ev[3] == Empty("OMS", [("cd", "arith1"), ("name", "plus")]) &&
    ev[4] == Text(WS) && ev[5] == Start("OMI", []) && ev[6] == Text("2") && ev[7] == End("OMI") &&
    ev[8] == Text(WS) && ev[9] == Start("OMI", []) && ev[10] == Text("2") && ev[11] == End("OMI") &&
    ev[12] == Text(WS) && ev[13] == End("OMA")
  }

  lemma WsIsWhitespace()
    ensures Whitespace(WS)
  {
    assert WS == ['\n', ' ', ' '];
  }

  /** A whitespace text is skipped. */
  lemma SkipWs(ev: seq<Event>, s: St, cdbase: string, attrs: seq<TreeAttr>)
    requires s.pos < |ev| && ev[s.pos] == Text(WS)
    ensures HandleNext(ev, s, cdbase, attrs) == HandleNext(ev, St(s.pos + 1, s.pos), cdbase, attrs)
  {
    WsIsWhitespace();
  }

  lemma PlusSecondArg(ev: seq<Event>)
    requires IsPlusEvents(ev)
    ensures var two := Tree(Om.OMI(Ints.Stack(2), []), CD);
            OmaArgs(ev, St(8, 7), CD, 0, [two]) == (Ok([two, two]), St(14, 13))
  {
    var two := Tree(Om.OMI(Ints.Stack(2), []), CD);
    Two();
    SkipWs(ev, St(8, 7), CD, []);
    ReadsOmi(ev, St(9, 8), "2", CD, []);
    SkipWs(ev, St(12, 11), CD, []);
    assert HandleNext(ev, St(13, 12), CD, []) == (Ok(Continue(true)), St(14, 13));
    assert OmaArgs(ev, St(12, 11), CD, 0, [two, two]) == (Ok([two, two]), St(14, 13));
    assert HandleNext(ev, St(8, 7), CD, []) == (Ok(Flow.Break(two)), St(12, 11));
    assert [two] + [two] == [two, two];
  }

  lemma PlusArgs(ev: seq<Event>)
    requires IsPlusEvents(ev)
    ensures var two := Tree(Om.OMI(Ints.Stack(2), []), CD);
            OmaArgs(ev, St(4, 3), CD, 0, []) == (Ok([two, two]), St(14, 13))
  {
    var two := Tree(Om.OMI(Ints.Stack(2), []), CD);
    Two();
    SkipWs(ev, St(4, 3), CD, []);
    ReadsOmi(ev, St(5, 4), "2", CD, []);
    PlusSecondArg(ev);
    assert HandleNext(ev, St(4, 3), CD, []) == (Ok(Flow.Break(two)), St(8, 7));
    assert [] + [two] == [two];
  }

  lemma PlusOma(ev: seq<Event>)
    requires IsPlusEvents(ev)
    ensures Oma(ev, St(2, 1), CD, 0, []) == (Ok(PlusTree()), St(14, 13))
  {
    var plus := Tree(Om.OMS("arith1", "plus", []), CD);
    SkipWs(ev, St(2, 1), CD, []);
    ReadsOms(ev, St(3, 2), "arith1", "plus", CD, []);
    PlusArgs(ev);
  }

  lemma ReadPlusOf(ev: seq<Event>)
    requires IsPlusEvents(ev)
    ensures FromXml(ev) == Ok(PlusTree())
  {
    SkipWs(ev, St(0, 0), Kinds.OPENMATH_BASE_URI, []);
    PlusOma(ev);
    assert GetAttr(ev[1].attributes, "cdbase") == Some(CD);
    assert StartElement(ev, St(2, 1), "OMA", ev[1].attributes, 0, Kinds.OPENMATH_BASE_URI, [])
        == (Ok(PlusTree()), St(14, 13));
    assert HandleNext(ev, St(0, 0), Kinds.OPENMATH_BASE_URI, []) == (Ok(Flow.Break(PlusTree())), St(14, 13));
  }

  /** The object read, with the base of the OMA on its children. */
  lemma ReadPlus()
    ensures FromXml(PlusEvents()) == Ok(PlusTree())
  {
    ReadPlusOf(PlusEvents());
  }

  // ---------------------------------------------------------------------
  // The `SimplifiedInt` deserializer of the `fancy` example: every node is
  // converted after its children, in reading order.

  /** `Either<SimplifiedInt, OM<..>>`: a value, or a `plus`/`times` symbol
      kept back for the application it heads. */
  datatype Simplified = Value(n: int) | Op(times: bool)

  /** `from_openmath` of `SimplifiedInt`, applied bottom-up. The reader
      converts every object as it is read, so the values of a node's
      attributions are converted first, then its children in reading
      order, then the node itself; the first error is the result. */
  function Simplify(t: Tree): (r: Result<Simplified, string>)
    ensures AttrsError(t.om.attrs).Some? ==> r == Err(AttrsError(t.om.attrs).value)
    ensures r.Ok? && r.value.Op? ==>
              t.om.OMS? && t.om.cd == "arith1" && t.cdbase == CD &&
              (t.om.name == "plus" || t.om.name == "times") && r.value.times == (t.om.name == "times")
    ensures t.om.OMI? && AttrsError(t.om.attrs).None? ==> (r.Ok? <==> t.om.integer.Stack?)
    ensures t.om.OMI? && r.Ok? ==> r.value == Value(t.om.integer.v)
    ensures r.Ok? && r.value.Value? ==> t.om.OMI? || t.om.OMA?
    decreases t, 2
  {
    var e := AttrsError(t.om.attrs);
    if e.Some? then Err(e.value) else SimplifyNode(t)
  }

  /** The conversion of one node once its attributions are converted. */
  function SimplifyNode(t: Tree): (r: Result<Simplified, string>)
    ensures r.Ok? && r.value.Op? ==>
              t.om.OMS? && t.om.cd == "arith1" && t.cdbase == CD &&
              (t.om.name == "plus" || t.om.name == "times") && r.value.times == (t.om.name == "times")
    ensures t.om.OMI? ==> (r.Ok? <==> t.om.integer.Stack?)
    ensures t.om.OMI? && r.Ok? ==> r.value == Value(t.om.integer.v)
    ensures r.Ok? && r.value.Value? ==> t.om.OMI? || t.om.OMA?
    ensures t.om.OMBIND? || t.om.OME? || t.om.OMF? || t.om.OMSTR? || t.om.OMB? || t.om.OMV? ==> r.Err?
    decreases t, 1
  {
    match t.om
    case OMI(n, _) =>
      if Ints.IsI128(n).Some? then Ok(Value(Ints.IsI128(n).value)) else Err("Invalid int value")
    case OMS(cd, name, _) =>
      if cd == "arith1" && (name == "plus" || name == "times") && t.cdbase == CD
      then Ok(Op(name == "times"))
      else Err("Not an arithmetic expression")
    case OMA(head, args, _) =>
      var h := Simplify(head);
      if h.Err? then Err(h.error)
      else
        var a := SimplifyArgs(t, 0);
        if a.Err? then Err(a.error)
        else if h.value.Op? && |a.value| == 2 && a.value[0].Value? && a.value[1].Value? && t.cdbase == CD then
          var (x, y) := (a.value[0].n, a.value[1].n);
          Ok(Value(if h.value.times then x * y else x + y))
        else Err("Not an arithmetic expression")
    case OMBIND(binder, _, body, _) =>
      var h := Simplify(binder);
      if h.Err? then Err(h.error)
      else
        var v := VarsError(t, 0);
        if v.Some? then Err(v.value)
        else
          var b := Simplify(body);
          if b.Err? then Err(b.error) else Err("Not an arithmetic expression")
    case OME(_, _, _, eargs, _) =>
      var e := EargsError(t, 0);
      if e.Some? then Err(e.value) else Err("Not an arithmetic expression")
    case _ => Err("Not an arithmetic expression")
  }

  /** The conversion of an object argument, in order; foreign content is
      not converted. */
  function ForeignOrError(m: Expr.MaybeForeign<Tree>): (r: Option<string>)
    ensures m.Foreign? ==> r.None?
    ensures m.OM? ==> (r.Some? <==> Simplify(m.om).Err?)
    ensures m.OM? && r.Some? ==> Simplify(m.om) == Err(r.value)
    decreases m, 3
  {
    match m
    case OM(o) => if Simplify(o).Err? then Some(Simplify(o).error) else None
    case Foreign(_, _) => None
  }

  /** The first error among the values of attributions, in order. */
  function AttrsError(attrs: seq<TreeAttr>): (r: Option<string>)
    ensures r.None? <==> forall i :: 0 <= i < |attrs| ==> ForeignOrError(attrs[i].value).None?
    ensures r.Some? ==> exists i :: 0 <= i < |attrs| && ForeignOrError(attrs[i].value) == r
    decreases attrs, 0
  {
    if |attrs| == 0 then None
    else
      var e := ForeignOrError(attrs[0].value);
      if e.Some? then e
      else
        var rest := AttrsError(attrs[1..]);
        assert forall i :: 1 <= i < |attrs| ==> attrs[i] == attrs[1..][i - 1];
        rest
  }

  /** The first error among the attributions of bound variables, from the
      `j`-th on. */
  function VarsError(t: Tree, j: nat): (r: Option<string>)
    requires t.om.OMBIND? && j <= |t.om.variables|
    ensures r.None? <==> forall k :: j <= k < |t.om.variables| ==> AttrsError(t.om.variables[k].attrs).None?
    decreases t, 0, |t.om.variables| - j
  {
    if j == |t.om.variables| then None
    else
      var e := AttrsError(t.om.variables[j].attrs);
      if e.Some? then e else VarsError(t, j + 1)
  }

  /** The first error among the arguments of an error object, from the
      `j`-th on. */
  function EargsError(t: Tree, j: nat): (r: Option<string>)
    requires t.om.OME? && j <= |t.om.errorArguments|
    ensures r.None? <==> forall k :: j <= k < |t.om.errorArguments| ==> ForeignOrError(t.om.errorArguments[k]).None?
    decreases t, 0, |t.om.errorArguments| - j
  {
    if j == |t.om.errorArguments| then None
    else
      var e := ForeignOrError(t.om.errorArguments[j]);
      if e.Some? then e else EargsError(t, j + 1)
  }

  /** The arguments of an application from the `i`-th on, converted in order. */
  function SimplifyArgs(t: Tree, i: nat): (r: Result<seq<Simplified>, string>)
    requires t.om.OMA? && i <= |t.om.arguments|
    ensures r.Ok? ==> |r.value| == |t.om.arguments| - i
    ensures r.Ok? ==> forall k :: i <= k < |t.om.arguments| ==> Simplify(t.om.arguments[k]) == Ok(r.value[k - i])
    ensures r.Err? ==> exists k :: i <= k < |t.om.arguments| && Simplify(t.om.arguments[k]) == Err(r.error)
    decreases t, 0, |t.om.arguments| - i
  {
    if i == |t.om.arguments| then Ok([])
    else
      var x := Simplify(t.om.arguments[i]);
      if x.Err? then Err(x.error)
      else
        var rest := SimplifyArgs(t, i + 1);
        if rest.Err? then Err(rest.error) else Ok([x.value] + rest.value)
  }

  /** The final `try_from`: only a value is a `SimplifiedInt`. */
  function SimplifiedInt(t: Tree): (r: Result<int, string>)
    ensures r.Ok? <==> Simplify(t).Ok? && Simplify(t).value.Value?
    ensures r.Ok? ==> r.value == Simplify(t).value.n
  {
    var s := Simplify(t);
    if s.Err? then Err(s.error)
    else if s.value.Op? then Err("nope")
    else Ok(s.value.n)
  }

  lemma PlusTreeIsFour()
    ensures SimplifiedInt(PlusTree()) == Ok(4)
  {
    var t := PlusTree();
    assert Simplify(t.om.applicant) == Ok(Op(false));
    assert Simplify(t.om.arguments[0]) == Ok(Value(2));
    assert Simplify(t.om.arguments[1]) == Ok(Value(2));
    assert |t.om.arguments| == 2;
    assert SimplifyArgs(t, 2) == Ok([]);
    assert [Value(2)] + [] == [Value(2)];
    assert SimplifyArgs(t, 1) == Ok([Value(2)]);
    assert [Value(2)] + [Value(2)] == [Value(2), Value(2)];
    assert SimplifyArgs(t, 0) == Ok([Value(2), Value(2)]);
  }

  /** `2 + 2`, read and simplified, is 4. */
  lemma PlusIsFour()
    ensures FromXml(PlusEvents()).Ok?
    ensures SimplifiedInt(FromXml(PlusEvents()).value) == Ok(4)
  {
    ReadPlus();
    PlusTreeIsFour();
  }

  /** The same symbol, read in another CD base, is not arithmetic. */
  lemma PlusNeedsCdBase(base: string)
    requires base != CD
    ensures Simplify(Tree(Om.OMS("arith1", "plus", []), base)) == Err("Not an arithmetic expression")
  {
  }

  /** `2^127`, one more than the largest `i128`. */
  const BIG: string := "170141183460469231731687303715884105728"

  /** An attribution value is converted before the object it is attached
      to: `2` attributed with `2^127` fails on the attribution. */
  lemma AttributionConvertedFirst()
    ensures var big := Tree(Om.OMI(Ints.Heap(BIG), []), CD);
            var t := Tree(Om.OMI(Ints.Stack(2), [Expr.Attr(None, "a", "b", Expr.OM(big))]), CD);
            SimplifiedInt(t) == Err("Invalid int value")
  {
    var big := Tree(Om.OMI(Ints.Heap(BIG), []), CD);
    assert Simplify(big) == Err("Invalid int value");
  }

  /** The binder of an OMBIND is converted before the OMBIND itself is
      refused. */
  lemma BinderConvertedFirst()
    ensures var big := Tree(Om.OMI(Ints.Heap(BIG), []), CD);
            var body := Tree(Om.OMI(Ints.Stack(1), []), CD);
            SimplifiedInt(Tree(Om.OMBIND(big, [], body, []), CD)) == Err("Invalid int value")
  {
    var big := Tree(Om.OMI(Ints.Heap(BIG), []), CD);
    assert Simplify(big) == Err("Invalid int value");
  }

  // ---------------------------------------------------------------------
  // The end-tag check after OMFOREIGN.

  /** `<OMFOREIGN>x</OMFOREIGN><OMI>1</OMI>`, as the arguments of an error. */
  function ForeignThenOmi(): seq<Event> {
    [Start("OMFOREIGN", []), Text("x"), End("OMFOREIGN"), Start("OMI", []), Text("1"), End("OMI")]
  }

  /** `<OMFOREIGN>x</OMFOREIGN></OME>`: the last argument of an error. */
  function ForeignThenEnd(): seq<Event> {
    [Start("OMFOREIGN", []), Text("x"), End("OMFOREIGN"), End("OME")]
  }

  lemma ForeignContent(ev: seq<Event>)
    requires |ev| >= 3 && ev[1] == Text("x") && ev[2] == End("OMFOREIGN")
    ensures Foreign(ev, St(1, 0), "OMFOREIGN", []) == (Ok(Expr.Foreign(None, "x")), St(3, 0))
  {
    assert UntilEnd(ev, 2, "OMFOREIGN", 0) == Some(("", 3));
    assert Raw(ev[1]) == "x";
    assert "x" + "" == "x";
    assert UntilEnd(ev, 1, "OMFOREIGN", 0) == Prepend("x", UntilEnd(ev, 2, "OMFOREIGN", 0));
  }

  /** Read as written, a foreign object followed by a sibling is refused
      at the sibling, which the corrected reading leaves to be read next. */
  lemma ForeignSiblingRefused()
    ensures ForeignAsWritten(ForeignThenOmi(), St(1, 0), "OMFOREIGN", []).0 == Err(UnexpectedTag(3))
    ensures Foreign(ForeignThenOmi(), St(1, 0), "OMFOREIGN", []) == (Ok(Expr.Foreign(None, "x")), St(3, 0))
  {
    ForeignContent(ForeignThenOmi());
  }

  /** Read as written, a foreign object that ends its parent consumes the
      parent's end tag. */
  lemma ForeignEatsParentEnd()
    ensures ForeignAsWritten(ForeignThenEnd(), St(1, 0), "OMFOREIGN", []) == (Ok(Expr.Foreign(None, "x")), St(4, 3))
    ensures Foreign(ForeignThenEnd(), St(1, 0), "OMFOREIGN", []) == (Ok(Expr.Foreign(None, "x")), St(3, 0))
  {
    ForeignContent(ForeignThenEnd());
  }
}

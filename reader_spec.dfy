/** What the XML reader of de/xml.rs computes, as functions of the event
    sequence and the reader's state: each returns its result and the state
    it leaves. The `Reader` class runs the same steps in place and is
    proved to agree with these functions. Offsets in errors are the
    `position` at the point the source reads `now()`. */
module ReaderSpec {
  import opened Wrappers
  import Ints
  import Base64
  import Kinds
  import Om
  import Expr
  import opened XmlEvents

  /** A step that reads: it stays within the events, never goes back, and
      when it succeeds it has consumed at least one event. */
  predicate Reads<T>(events: seq<Event>, s: St, r: (Result<T, XmlReadError>, St)) {
    Moves(events, s, r.1) && (r.0.Ok? ==> s.pos < r.1.pos)
  }

  /** The closing-tag check after a complete element: the next event must
      be an end tag, else `UnexpectedTag` at that event. */
  function Closed<T>(events: seq<Event>, s: St, v: T): (r: (Result<T, XmlReadError>, St))
    requires s.pos <= |events|
    ensures Reads(events, s, r)
    ensures r.0.Ok? <==> s.pos < |events| && events[s.pos].End?
    ensures r.0.Ok? ==> r.0.value == v
  {
    var (n, s1) := NextEvent(events, s);
    if n.Err? then (Err(n.error), s1)
    else if n.value.End? then (Ok(v), s1)
    else (Err(UnexpectedTag(s1.position)), s1)
  }

  /** A text element's text: the next event must be text, else
      `ExpectedText`. */
  function TextOf(events: seq<Event>, s: St): (r: (Result<string, XmlReadError>, St))
    requires s.pos <= |events|
    ensures Reads(events, s, r)
    ensures r.0.Ok? <==> s.pos < |events| && events[s.pos].Text?
    ensures r.0.Ok? ==> r.0.value == events[s.pos].raw
  {
    var (n, s1) := NextEvent(events, s);
    if n.Err? then (Err(n.error), s1)
    else if n.value.Text? then (Ok(n.value.raw), s1)
    else (Err(ExpectedText), s1)
  }

  predicate HexText(t: string) {
    (|t| > 0 && t[0] == 'x') || (|t| > 1 && t[0] == '-' && t[1] == 'x')
  }

  /** `omi`: its text must be an integer (`Hex` for a leading `x` or `-x`),
      followed by the end tag. */
  function Omi(events: seq<Event>, s: St, cdbase: string, attrs: seq<TreeAttr>): (r: (Result<Tree, XmlReadError>, St))
    requires s.pos <= |events|
    ensures Reads(events, s, r)
    ensures r.0.Ok? ==> r.0.value.om.OMI? && r.0.value.om.attrs == attrs && r.0.value.cdbase == cdbase
  {
    var (t, s1) := TextOf(events, s);
    if t.Err? then (Err(t.error), s1)
    else if HexText(t.value) then (Err(Hex), s1)
    else match Ints.New(t.value)
      case None => (Err(InvalidInteger(t.value)), s1)
      case Some(i) => Closed(events, s1, Tree(Om.OMI(i, attrs), cdbase))
  }

  /** `omb`: its text decoded as base64, followed by the end tag. */
  function Omb(events: seq<Event>, s: St, cdbase: string, attrs: seq<TreeAttr>): (r: (Result<Tree, XmlReadError>, St))
    requires s.pos <= |events|
    ensures Reads(events, s, r)
    ensures r.0.Ok? ==> r.0.value.om.OMB? && r.0.value.om.attrs == attrs && r.0.value.cdbase == cdbase
  {
    var (t, s1) := TextOf(events, s);
    if t.Err? then (Err(t.error), s1)
    else match Base64.DecodeCorrected(Utf8(t.value))
      case Err(e) => (Err(XmlReadError.Base64(e)), s1)
      case Ok(b) => Closed(events, s1, Tree(Om.OMB(b, attrs), cdbase))
  }

  /** `omstr`: its raw text, followed by the end tag. */
  function Omstr(events: seq<Event>, s: St, cdbase: string, attrs: seq<TreeAttr>): (r: (Result<Tree, XmlReadError>, St))
    requires s.pos <= |events|
    ensures Reads(events, s, r)
    ensures r.0.Ok? ==> r.0.value.om.OMSTR? && r.0.value.om.attrs == attrs && r.0.value.cdbase == cdbase
  {
    var (t, s1) := TextOf(events, s);
    if t.Err? then (Err(t.error), s1)
    else Closed(events, s1, Tree(Om.OMSTR(t.value, attrs), cdbase))
  }

  /** An OMFOREIGN element after its start tag: everything up to its end
      tag, with the start tag's `encoding`. */
  function Foreign(events: seq<Event>, s: St, name: string, atts: seq<Attribute>): (r: (Result<Expr.MaybeForeign<Tree>, XmlReadError>, St))
    requires s.pos <= |events|
    ensures Reads(events, s, r)
    ensures r.0.Ok? <==> UntilEnd(events, s.pos, name, 0).Some?
    ensures r.0.Ok? ==> r.0.value == Expr.Foreign(GetAttr(atts, "encoding"), UntilEnd(events, s.pos, name, 0).value.0)
  {
    match UntilEnd(events, s.pos, name, 0)
    case None => (Err(Xml(s.position)), s)
    case Some((text, p)) => (Ok(Expr.Foreign(GetAttr(atts, "encoding"), text)), St(p, s.position))
  }

  /** The same as the source writes it: after `until` has consumed the end
      tag, one more event is read and must be an end tag. */
  function ForeignAsWritten(events: seq<Event>, s: St, name: string, atts: seq<Attribute>): (r: (Result<Expr.MaybeForeign<Tree>, XmlReadError>, St))
    requires s.pos <= |events|
    ensures Reads(events, s, r)
  {
    var (f, s1) := Foreign(events, s, name, atts);
    if f.Err? then (Err(f.error), s1) else Closed(events, s1, f.value)
  }

  function AsBreak<T>(r: Result<T, XmlReadError>): (r': Result<Flow<T>, XmlReadError>)
    ensures r.Ok? <==> r'.Ok?
    ensures r.Ok? ==> r'.value == Flow.Break(r.value)
    ensures r.Err? ==> r'.error == r.error
  {
    match r
    case Ok(v) => Ok(Flow.Break(v))
    case Err(e) => Err(e)
  }

  function AsBreakOm(r: Result<Tree, XmlReadError>): (r': Result<Flow<Expr.MaybeForeign<Tree>>, XmlReadError>)
    ensures r.Ok? <==> r'.Ok?
    ensures r.Ok? ==> r'.value == Flow.Break(Expr.OM(r.value))
    ensures r.Err? ==> r'.error == r.error
  {
    match r
    case Ok(v) => Ok(Flow.Break(Expr.OM(v)))
    case Err(e) => Err(e)
  }

  // ---------------------------------------------------------------------
  // The recursive descent. Every call either reads an event first or is
  // made by a function of higher rank at the same position.

  /** `handle_next`: skips whitespace-only text, dispatches an element on
      its local name, reports the end of the enclosing element as
      `Continue(true)`, anything else but the end of input as
      `Continue(false)`. */
  function HandleNext(events: seq<Event>, s: St, cdbase: string, attrs: seq<TreeAttr>): (r: (Result<Flow<Tree>, XmlReadError>, St))
    requires s.pos <= |events|
    ensures Reads(events, s, r)
    decreases |events| - s.pos, 1
  {
    var (n, s1) := NextEvent(events, s);
    if n.Err? then (Err(n.error), s1)
    else match n.value
      case Empty(name, atts) => (AsBreak(EmptyElement(name, atts, s.position, cdbase, attrs)), s1)
      case Start(name, atts) =>
        var (e, s2) := StartElement(events, s1, name, atts, s.position, cdbase, attrs);
        (AsBreak(e), s2)
      case Text(t) => if Whitespace(t) then HandleNext(events, s1, cdbase, attrs) else (Ok(Continue(false)), s1)
      case Eof => (Err(NoObject), s1)
      case End(_) => (Ok(Continue(true)), s1)
      case _ => (Ok(Continue(false)), s1)
  }

  /** `next_omforeign`: `handle_next` without attributions, also accepting
      an OMFOREIGN element. */
  function NextOmForeign(events: seq<Event>, s: St, cdbase: string): (r: (Result<Flow<Expr.MaybeForeign<Tree>>, XmlReadError>, St))
    requires s.pos <= |events|
    ensures Reads(events, s, r)
    decreases |events| - s.pos, 1
  {
    var (n, s1) := NextEvent(events, s);
    if n.Err? then (Err(n.error), s1)
    else match n.value
      case Empty(name, atts) =>
        if LocalName(name) == "OMFOREIGN" then (Err(NonEmptyExpectedFor("OMFOREIGN", s.position)), s1)
        else (AsBreakOm(EmptyElement(name, atts, s.position, cdbase, [])), s1)
      case Start(name, atts) =>
        if LocalName(name) == "OMFOREIGN" then
          var (f, s2) := Foreign(events, s1, name, atts);
          (AsBreak(f), s2)
        else
          var (e, s2) := StartElement(events, s1, name, atts, s.position, cdbase, []);
          (AsBreakOm(e), s2)
      case Text(t) => if Whitespace(t) then NextOmForeign(events, s1, cdbase) else (Ok(Continue(false)), s1)
      case Eof => (Err(NoObject), s1)
      case End(_) => (Ok(Continue(true)), s1)
      case _ => (Ok(Continue(false)), s1)
  }

  /** The start-tag half of the dispatch: OMA, OMBIND, OME and OMATTR take
      their own `cdbase` attribute as the base for themselves and what
      they contain. `now` is the offset reported for errors. */
  function StartElement(events: seq<Event>, s: St, name: string, atts: seq<Attribute>, now: nat,
                        cdbase: string, attrs: seq<TreeAttr>): (r: (Result<Tree, XmlReadError>, St))
    requires s.pos <= |events|
    ensures Reads(events, s, r)
    decreases |events| - s.pos, 6
  {
    var local := LocalName(name);
    var base := GetAttr(atts, "cdbase").GetOr(cdbase);
    if local == "OMI" then Omi(events, s, cdbase, attrs)
    else if local == "OMB" then Omb(events, s, cdbase, attrs)
    else if local == "OMSTR" then Omstr(events, s, cdbase, attrs)
    else if local == "OMA" then Oma(events, s, base, now, attrs)
    else if local == "OMBIND" then Ombind(events, s, base, now, attrs)
    else if local == "OME" then Ome(events, s, base, now, attrs)
    else if local == "OMATTR" then Omattr(events, s, base, attrs)
    else if NeedsNoContent(local) then (Err(EmptyExpectedFor(local, now)), s)
    else (Err(UnexpectedTag(now)), s)
  }

  /** `oma`: a head, then arguments up to the end tag. */
  function Oma(events: seq<Event>, s: St, cdbase: string, off: nat, attrs: seq<TreeAttr>): (r: (Result<Tree, XmlReadError>, St))
    requires s.pos <= |events|
    ensures Reads(events, s, r)
    ensures r.0.Ok? ==> r.0.value.om.OMA? && r.0.value.om.attrs == attrs && r.0.value.cdbase == cdbase
    decreases |events| - s.pos, 4
  {
    var (h, s1) := HandleNext(events, s, cdbase, []);
    if h.Err? then (Err(h.error), s1)
    else match h.value
      case Continue(_) => (Err(NonEmptyExpectedFor("OMA Applicant", off)), s1)
      case Break(head) =>
        var (a, s2) := OmaArgs(events, s1, cdbase, off, []);
        if a.Err? then (Err(a.error), s2)
        else (Ok(Tree(Om.OMA(head, a.value, attrs), cdbase)), s2)
  }

  /** The argument loop of `oma`, with the arguments read so far. */
  function OmaArgs(events: seq<Event>, s: St, cdbase: string, off: nat, acc: seq<Tree>): (r: (Result<seq<Tree>, XmlReadError>, St))
    requires s.pos <= |events|
    ensures Reads(events, s, r)
    decreases |events| - s.pos, 2
  {
    var (n, s1) := HandleNext(events, s, cdbase, []);
    if n.Err? then (Err(n.error), s1)
    else match n.value
      case Break(a) => OmaArgs(events, s1, cdbase, off, acc + [a])
      case Continue(closed) => if closed then (Ok(acc), s1) else (Err(UnexpectedTag(off)), s1)
  }

  /** `ome`: the error symbol must be the very next event, then arguments
      (objects or foreign) up to the end tag. */
  function Ome(events: seq<Event>, s: St, cdbase: string, now: nat, attrs: seq<TreeAttr>): (r: (Result<Tree, XmlReadError>, St))
    requires s.pos <= |events|
    ensures Reads(events, s, r)
    ensures r.0.Ok? ==> r.0.value.om.OME? && r.0.value.om.attrs == attrs && r.0.value.cdbase == cdbase
    decreases |events| - s.pos, 4
  {
    var (n, s1) := NextEvent(events, s);
    if n.Err? then (Err(n.error), s1)
    else if n.value.Empty? && LocalName(n.value.name) == "OMS" then
      match SymbolAttrs(n.value.attributes)
      case Err(e) => (Err(e), s1)
      case Ok((cdb, cd, name)) =>
        var (a, s2) := OmeArgs(events, s1, cdbase, now, []);
        if a.Err? then (Err(a.error), s2)
        else (Ok(Tree(Om.OME(cdb, cd, name, a.value, attrs), cdbase)), s2)
    else (Err(UnexpectedTag(now)), s1)
  }

  /** The argument loop of `ome`. */
  function OmeArgs(events: seq<Event>, s: St, cdbase: string, now: nat, acc: seq<Expr.MaybeForeign<Tree>>): (r: (Result<seq<Expr.MaybeForeign<Tree>>, XmlReadError>, St))
    requires s.pos <= |events|
    ensures Reads(events, s, r)
    decreases |events| - s.pos, 2
  {
    var (n, s1) := NextOmForeign(events, s, cdbase);
    if n.Err? then (Err(n.error), s1)
    else match n.value
      case Break(a) => OmeArgs(events, s1, cdbase, now, acc + [a])
      case Continue(closed) => if closed then (Ok(acc), s1) else (Err(UnexpectedTag(now)), s1)
  }

  /** The first half of `omattr_i`: OMATP must come next, its pairs are
      added after the attributions already given. */
  function OmattrHead(events: seq<Event>, s: St, cdbase: string, attrs: seq<TreeAttr>): (r: (Result<seq<TreeAttr>, XmlReadError>, St))
    requires s.pos <= |events|
    ensures Reads(events, s, r)
    decreases |events| - s.pos, 3
  {
    var (n, s1) := NextEvent(events, s);
    if n.Err? then (Err(n.error), s1)
    else match n.value
      case Empty(name, _) => if LocalName(name) == "OMATP" then (Ok(attrs), s1) else (Err(UnexpectedTag(s.position)), s1)
      case Start(name, _) =>
        if LocalName(name) == "OMATP" then OmattrPairs(events, s1, cdbase, attrs) else (Err(UnexpectedTag(s.position)), s1)
      case _ => (Err(UnexpectedTag(s.position)), s1)
  }

  /** `omattr_pairs`: empty OMS keys, each followed by its value, up to
      the end tag. */
  function OmattrPairs(events: seq<Event>, s: St, cdbase: string, acc: seq<TreeAttr>): (r: (Result<seq<TreeAttr>, XmlReadError>, St))
    requires s.pos <= |events|
    ensures Reads(events, s, r)
    decreases |events| - s.pos, 2
  {
    var (n, s1) := NextEvent(events, s);
    if n.Err? then (Err(n.error), s1)
    else match n.value
      case End(_) => (Ok(acc), s1)
      case Empty(name, atts) =>
        if LocalName(name) != "OMS" then (Err(UnexpectedTag(s.position)), s1)
        else (match SymbolAttrs(atts)
          case Err(e) => (Err(e), s1)
          case Ok((cdb, cd, key)) =>
            var (v, s2) := NextOmForeign(events, s1, cdbase);
            if v.Err? then (Err(v.error), s2)
            else match v.value
              case Break(x) => OmattrPairs(events, s2, cdbase, acc + [Expr.Attr(cdb, cd, key, x)])
              case Continue(closed) =>
                if closed then (Err(AttributeValue(s1.position)), s2) else (Err(UnexpectedTag(s1.position)), s2))
      case _ => (Err(UnexpectedTag(s.position)), s1)
  }

  /** `omattr`: the attributions, then the attributed object read with
      them as its `attrs`, then the end tag. */
  function Omattr(events: seq<Event>, s: St, cdbase: string, attrs: seq<TreeAttr>): (r: (Result<Tree, XmlReadError>, St))
    requires s.pos <= |events|
    ensures Reads(events, s, r)
    decreases |events| - s.pos, 4
  {
    var (h, s1) := OmattrHead(events, s, cdbase, attrs);
    if h.Err? then (Err(h.error), s1)
    else
      var (o, s2) := HandleNext(events, s1, cdbase, h.value);
      if o.Err? then (Err(o.error), s2)
      else match o.value
        case Continue(_) => (Err(NonEmptyExpectedFor("OMATTR", s1.position)), s2)
        case Break(obj) => Closed(events, s2, obj)
  }

  /** `omattr_or_var`: one entry of OMBVAR, or `None` at its end tag. */
  function OmattrOrVar(events: seq<Event>, s: St, cdbase: string, attrs: seq<TreeAttr>): (r: (Result<Option<Var>, XmlReadError>, St))
    requires s.pos <= |events|
    ensures Reads(events, s, r)
    decreases |events| - s.pos, 4
  {
    var (n, s1) := NextEvent(events, s);
    if n.Err? then (Err(n.error), s1)
    else match n.value
      case End(_) => (Ok(None), s1)
      case Start(name, atts) =>
        if LocalName(name) != "OMATTR" then (Err(UnexpectedTag(s.position)), s1)
        else
          var base := GetAttr(atts, "cdbase").GetOr(cdbase);
          var (h, s2) := OmattrHead(events, s1, base, attrs);
          if h.Err? then (Err(h.error), s2)
          else
            var (v, s3) := OmattrOrVar(events, s2, base, h.value);
            if v.Err? then (Err(v.error), s3) else Closed(events, s3, v.value)
      case Empty(name, atts) =>
        if LocalName(name) != "OMV" then (Err(UnexpectedTag(s.position)), s1)
        else (match GetAttr(atts, "name")
          case None => (Err(ExpectedAttribute("name")), s1)
          case Some(x) => (Ok(Some(Om.OMVar(x, attrs))), s1))
      case _ => (Err(UnexpectedTag(s.position)), s1)
  }

  /** The variable loop of `ombind`. */
  function OmbindVars(events: seq<Event>, s: St, cdbase: string, acc: seq<Var>): (r: (Result<seq<Var>, XmlReadError>, St))
    requires s.pos <= |events|
    ensures Reads(events, s, r)
    decreases |events| - s.pos, 5
  {
    var (v, s1) := OmattrOrVar(events, s, cdbase, []);
    if v.Err? then (Err(v.error), s1)
    else match v.value
      case None => (Ok(acc), s1)
      case Some(x) => OmbindVars(events, s1, cdbase, acc + [x])
  }

  /** `ombind`: a head, OMBVAR as the very next event, one body, the end
      tag. */
  function Ombind(events: seq<Event>, s: St, cdbase: string, off: nat, attrs: seq<TreeAttr>): (r: (Result<Tree, XmlReadError>, St))
    requires s.pos <= |events|
    ensures Reads(events, s, r)
    ensures r.0.Ok? ==> r.0.value.om.OMBIND? && r.0.value.om.attrs == attrs && r.0.value.cdbase == cdbase
    decreases |events| - s.pos, 4
  {
    var (h, s1) := HandleNext(events, s, cdbase, []);
    if h.Err? then (Err(h.error), s1)
    else match h.value
      case Continue(_) => (Err(NonEmptyExpectedFor("OMBIND", off)), s1)
      case Break(head) => OmbindVariables(events, s1, cdbase, head, attrs)
  }

  /** `ombind` after the head: OMBVAR, empty or with entries. */
  function OmbindVariables(events: seq<Event>, s: St, cdbase: string, head: Tree, attrs: seq<TreeAttr>): (r: (Result<Tree, XmlReadError>, St))
    requires s.pos <= |events|
    ensures Reads(events, s, r)
    ensures r.0.Ok? ==> r.0.value.om.OMBIND? && r.0.value.om.binder == head &&
                        r.0.value.om.attrs == attrs && r.0.value.cdbase == cdbase
    decreases |events| - s.pos, 3
  {
    var (n, s1) := NextEvent(events, s);
    if n.Err? then (Err(n.error), s1)
    else match n.value
      case Empty(name, _) =>
        if LocalName(name) == "OMBVAR" then OmbindBody(events, s1, cdbase, s.position, head, [], attrs)
        else (Err(UnexpectedTag(s.position)), s1)
      case Start(name, _) =>
        if LocalName(name) == "OMBVAR" then
          var (vs, s2) := OmbindVars(events, s1, cdbase, []);
          if vs.Err? then (Err(vs.error), s2)
          else OmbindBody(events, s2, cdbase, s.position, head, vs.value, attrs)
        else (Err(UnexpectedTag(s.position)), s1)
      case _ => (Err(UnexpectedTag(s.position)), s1)
  }

  /** `ombind` after the variables: the body and the end tag. */
  function OmbindBody(events: seq<Event>, s: St, cdbase: string, now: nat, head: Tree, vars: seq<Var>, attrs: seq<TreeAttr>): (r: (Result<Tree, XmlReadError>, St))
    requires s.pos <= |events|
    ensures Reads(events, s, r)
    ensures r.0.Ok? ==> r.0.value.om.OMBIND? && r.0.value.om.binder == head && r.0.value.om.variables == vars &&
                        r.0.value.om.attrs == attrs && r.0.value.cdbase == cdbase
    decreases |events| - s.pos, 2
  {
    var (b, s1) := HandleNext(events, s, cdbase, []);
    if b.Err? then (Err(b.error), s1)
    else match b.value
      case Continue(_) => (Err(NonEmptyExpectedFor("OMBIND", now)), s1)
      case Break(body) => Closed(events, s1, Tree(Om.OMBIND(head, vars, body, attrs), cdbase))
  }

  // ---------------------------------------------------------------------
  // Top level.

  /** `read`: the first object, skipping whatever `handle_next` continues
      past. */
  function Read(events: seq<Event>, s: St, cdbase: string): (r: (Result<Tree, XmlReadError>, St))
    requires s.pos <= |events|
    ensures Reads(events, s, r)
    decreases |events| - s.pos
  {
    var (n, s1) := HandleNext(events, s, cdbase, []);
    if n.Err? then (Err(n.error), s1)
    else match n.value
      case Break(t) => (Ok(t), s1)
      case Continue(_) => Read(events, s1, cdbase)
  }

  /** `read_obj`: skips to an `OMOBJ` start tag (matched on the full name)
      and reads its object in the base it names, the OpenMath base by
      default. */
  function ReadObj(events: seq<Event>, s: St): (r: (Result<Tree, XmlReadError>, St))
    requires s.pos <= |events|
    ensures Reads(events, s, r)
    decreases |events| - s.pos
  {
    var (n, s1) := NextEvent(events, s);
    if n.Err? then (Err(n.error), s1)
    else match n.value
      case Start(name, atts) =>
        if name == "OMOBJ" then Read(events, s1, GetAttr(atts, "cdbase").GetOr(Kinds.OPENMATH_BASE_URI))
        else ReadObj(events, s1)
      case Text(t) => if Whitespace(t) then ReadObj(events, s1) else (Err(UnexpectedTag(s.position)), s1)
      case Eof => (Err(NoObject), s1)
      case End(_) => (Err(UnexpectedTag(s.position)), s1)
      case Empty(_, _) => (Err(UnexpectedTag(s.position)), s1)
      case _ => ReadObj(events, s1)
  }

  /** `OMObject::from_openmath_xml`: a document with an `OMOBJ` root. */
  function FromXmlObject(events: seq<Event>): Result<Tree, XmlReadError> {
    ReadObj(events, St(0, 0)).0
  }

  /** `OMDeserializable::from_openmath_xml`: a bare object. */
  function FromXml(events: seq<Event>): Result<Tree, XmlReadError> {
    Read(events, St(0, 0), Kinds.OPENMATH_BASE_URI).0
  }
}

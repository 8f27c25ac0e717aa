/** The XML reader of de/xml.rs as the source runs it: an object over the
    event stream whose `pos` (the events consumed) and `position` (the
    offset of the last event read, what `now()` reports) change as it
    reads. Every method is proved to do what the matching function of
    `ReaderSpec` describes. */
module XmlReader {
  import opened Wrappers
  import Ints
  import Base64
  import Kinds
  import Om
  import Expr
  import opened XmlEvents
  import Spec = ReaderSpec

  class Reader {
    /** The tokenised input. */
    const events: seq<Event>
    /** How many events have been consumed. */
    var pos: nat
    /** The offset of the last event read. */
    var position: nat

    ghost predicate Valid()
      reads this
    {
      pos <= |events|
    }

    function State(): St
      reads this
    {
      St(pos, position)
    }

    /** `Readable::new`: at the start, offset 0. */
    constructor(events: seq<Event>)
      ensures Valid() && this.events == events && State() == St(0, 0)
    {
      this.events := events;
      pos := 0;
      position := 0;
    }

    /** `next`: one event, recording its offset first. */
    method Next() returns (r: Result<Event, XmlReadError>)
      requires Valid()
      modifies this
      ensures Valid() && (r, State()) == NextEvent(events, old(State()))
    {
      position := pos;
      if pos == |events| {
        r := Ok(Eof);
      } else {
        var e := events[pos];
        pos := pos + 1;
        r := if e == Malformed then Err(Xml(position)) else Ok(e);
      }
    }

    /** The end-tag check that closes `omi`, `omb`, `omstr`, `omattr_i`
        and `ombind`. */
    method Close<T>(v: T) returns (r: Result<T, XmlReadError>)
      requires Valid()
      modifies this
      ensures Valid() && (r, State()) == Spec.Closed(events, old(State()), v)
    {
      var n := Next();
      if n.Err? {
        r := Err(n.error);
      } else if n.value.End? {
        r := Ok(v);
      } else {
        r := Err(UnexpectedTag(position));
      }
    }

    /** The text of `omi`, `omb` and `omstr`. */
    method ExpectText() returns (r: Result<string, XmlReadError>)
      requires Valid()
      modifies this
      ensures Valid() && (r, State()) == Spec.TextOf(events, old(State()))
    {
      var n := Next();
      if n.Err? {
        r := Err(n.error);
      } else if n.value.Text? {
        r := Ok(n.value.raw);
      } else {
        r := Err(ExpectedText);
      }
    }

    method Omi(cdbase: string, attrs: seq<TreeAttr>) returns (r: Result<Tree, XmlReadError>)
      requires Valid()
      modifies this
      ensures Valid() && (r, State()) == Spec.Omi(events, old(State()), cdbase, attrs)
    {
      var t := ExpectText();
      if t.Err? {
        return Err(t.error);
      }
      if Spec.HexText(t.value) {
        return Err(Hex);
      }
      match Ints.New(t.value) {
        case None => r := Err(InvalidInteger(t.value));
        case Some(i) => r := Close(Tree(Om.OMI(i, attrs), cdbase));
      }
    }

    method Omb(cdbase: string, attrs: seq<TreeAttr>) returns (r: Result<Tree, XmlReadError>)
      requires Valid()
      modifies this
      ensures Valid() && (r, State()) == Spec.Omb(events, old(State()), cdbase, attrs)
    {
      var t := ExpectText();
      if t.Err? {
        return Err(t.error);
      }
      match Base64.DecodeCorrected(Utf8(t.value)) {
        case Err(e) => r := Err(XmlReadError.Base64(e));
        case Ok(b) => r := Close(Tree(Om.OMB(b, attrs), cdbase));
      }
    }

    method Omstr(cdbase: string, attrs: seq<TreeAttr>) returns (r: Result<Tree, XmlReadError>)
      requires Valid()
      modifies this
      ensures Valid() && (r, State()) == Spec.Omstr(events, old(State()), cdbase, attrs)
    {
      var t := ExpectText();
      if t.Err? {
        return Err(t.error);
      }
      r := Close(Tree(Om.OMSTR(t.value, attrs), cdbase));
    }

    /** The OMFOREIGN branch of `next_omforeign`: the content is taken by
        quick_xml's `read_to_end`, which does not move `position`. */
    method Foreign(name: string, atts: seq<Attribute>) returns (r: Result<Expr.MaybeForeign<Tree>, XmlReadError>)
      requires Valid()
      modifies this
      ensures Valid() && (r, State()) == Spec.Foreign(events, old(State()), name, atts)
    {
      var encoding := GetAttr(atts, "encoding");
      match UntilEnd(events, pos, name, 0) {
        case None => r := Err(Xml(position));
        case Some((text, p)) =>
          pos := p;
          r := Ok(Expr.Foreign(encoding, text));
      }
    }

    method HandleNext(cdbase: string, attrs: seq<TreeAttr>) returns (r: Result<Flow<Tree>, XmlReadError>)
      requires Valid()
      modifies this
      ensures Valid() && (r, State()) == Spec.HandleNext(events, old(State()), cdbase, attrs)
      decreases |events| - pos, 1
    {
      var now := position;
      var n := Next();
      if n.Err? {
        return Err(n.error);
      }
      match n.value {
        case Empty(name, atts) =>
          r := Spec.AsBreak(EmptyElement(name, atts, now, cdbase, attrs));
        case Start(name, atts) =>
          var e := StartElement(name, atts, now, cdbase, attrs);
          r := Spec.AsBreak(e);
        case Text(t) =>
          if Whitespace(t) {
            r := HandleNext(cdbase, attrs);
          } else {
            r := Ok(Continue(false));
          }
        case Eof => r := Err(NoObject);
        case End(_) => r := Ok(Continue(true));
        case _ => r := Ok(Continue(false));
      }
    }

    method NextOmForeign(cdbase: string) returns (r: Result<Flow<Expr.MaybeForeign<Tree>>, XmlReadError>)
      requires Valid()
      modifies this
      ensures Valid() && (r, State()) == Spec.NextOmForeign(events, old(State()), cdbase)
      decreases |events| - pos, 1
    {
      var now := position;
      var n := Next();
      if n.Err? {
        return Err(n.error);
      }
      match n.value {
        case Empty(name, atts) =>
          if LocalName(name) == "OMFOREIGN" {
            r := Err(NonEmptyExpectedFor("OMFOREIGN", now));
          } else {
            r := Spec.AsBreakOm(EmptyElement(name, atts, now, cdbase, []));
          }
        case Start(name, atts) =>
          if LocalName(name) == "OMFOREIGN" {
            var f := Foreign(name, atts);
            r := Spec.AsBreak(f);
          } else {
            var e := StartElement(name, atts, now, cdbase, []);
            r := Spec.AsBreakOm(e);
          }
        case Text(t) =>
          if Whitespace(t) {
            r := NextOmForeign(cdbase);
          } else {
            r := Ok(Continue(false));
          }
        case Eof => r := Err(NoObject);
        case End(_) => r := Ok(Continue(true));
        case _ => r := Ok(Continue(false));
      }
    }

    /** The start-tag arms shared by `handle_next` and `next_omforeign`. */
    method StartElement(name: string, atts: seq<Attribute>, now: nat, cdbase: string, attrs: seq<TreeAttr>)
      returns (r: Result<Tree, XmlReadError>)
      requires Valid()
      modifies this
      ensures Valid() && (r, State()) == Spec.StartElement(events, old(State()), name, atts, now, cdbase, attrs)
      decreases |events| - pos, 6
    {
      var local := LocalName(name);
      var base := GetAttr(atts, "cdbase").GetOr(cdbase);
      if local == "OMI" {
        r := Omi(cdbase, attrs);
      } else if local == "OMB" {
        r := Omb(cdbase, attrs);
      } else if local == "OMSTR" {
        r := Omstr(cdbase, attrs);
      } else if local == "OMA" {
        r := Oma(base, now, attrs);
      } else if local == "OMBIND" {
        r := Ombind(base, now, attrs);
      } else if local == "OME" {
        r := Ome(base, now, attrs);
      } else if local == "OMATTR" {
        r := Omattr(base, attrs);
      } else if NeedsNoContent(local) {
        r := Err(EmptyExpectedFor(local, now));
      } else {
        r := Err(UnexpectedTag(now));
      }
    }

    method Oma(cdbase: string, off: nat, attrs: seq<TreeAttr>) returns (r: Result<Tree, XmlReadError>)
      requires Valid()
      modifies this
      ensures Valid() && (r, State()) == Spec.Oma(events, old(State()), cdbase, off, attrs)
      decreases |events| - pos, 4
    {
      var h := HandleNext(cdbase, []);
      if h.Err? {
        return Err(h.error);
      }
      if h.value.Continue? {
        return Err(NonEmptyExpectedFor("OMA Applicant", off));
      }
      ghost var s1 := State();
      var args: seq<Tree> := [];
      while true
        invariant Valid() && s1.pos <= pos
        invariant Spec.OmaArgs(events, s1, cdbase, off, []) == Spec.OmaArgs(events, State(), cdbase, off, args)
        decreases |events| - pos
      {
        var a := HandleNext(cdbase, []);
        if a.Err? {
          return Err(a.error);
        }
        match a.value {
          case Break(arg) => args := args + [arg];
          case Continue(closed) =>
            if closed {
              return Ok(Tree(Om.OMA(h.value.value, args, attrs), cdbase));
            }
            return Err(UnexpectedTag(off));
        }
      }
    }

    method Ome(cdbase: string, now: nat, attrs: seq<TreeAttr>) returns (r: Result<Tree, XmlReadError>)
      requires Valid()
      modifies this
      ensures Valid() && (r, State()) == Spec.Ome(events, old(State()), cdbase, now, attrs)
      decreases |events| - pos, 4
    {
      var n := Next();
      if n.Err? {
        return Err(n.error);
      }
      if !(n.value.Empty? && LocalName(n.value.name) == "OMS") {
        return Err(UnexpectedTag(now));
      }
      var sym := SymbolAttrs(n.value.attributes);
      if sym.Err? {
        return Err(sym.error);
      }
      var (cdb, cd, name) := sym.value;
      ghost var s1 := State();
      var args: seq<Expr.MaybeForeign<Tree>> := [];
      while true
        invariant Valid() && s1.pos <= pos
        invariant Spec.OmeArgs(events, s1, cdbase, now, []) == Spec.OmeArgs(events, State(), cdbase, now, args)
        decreases |events| - pos
      {
        var a := NextOmForeign(cdbase);
        if a.Err? {
          return Err(a.error);
        }
        match a.value {
          case Break(arg) => args := args + [arg];
          case Continue(closed) =>
            if closed {
              return Ok(Tree(Om.OME(cdb, cd, name, args, attrs), cdbase));
            }
            return Err(UnexpectedTag(now));
        }
      }
    }

    /** `omattr_pairs`, returning the extended attributions instead of
        pushing onto a borrowed vector. */
    method OmattrPairs(cdbase: string, attrs: seq<TreeAttr>) returns (r: Result<seq<TreeAttr>, XmlReadError>)
      requires Valid()
      modifies this
      ensures Valid() && (r, State()) == Spec.OmattrPairs(events, old(State()), cdbase, attrs)
      decreases |events| - pos, 2
    {
      var acc := attrs;
      while true
        invariant Valid() && old(pos) <= pos
        invariant Spec.OmattrPairs(events, old(State()), cdbase, attrs) == Spec.OmattrPairs(events, State(), cdbase, acc)
        decreases |events| - pos
      {
        var now := position;
        var n := Next();
        if n.Err? {
          return Err(n.error);
        }
        match n.value {
          case End(_) => return Ok(acc);
          case Empty(name, atts) =>
            if LocalName(name) != "OMS" {
              return Err(UnexpectedTag(now));
            }
            var sym := SymbolAttrs(atts);
            if sym.Err? {
              return Err(sym.error);
            }
            var (cdb, cd, key) := sym.value;
            var now2 := position;
            var v := NextOmForeign(cdbase);
            if v.Err? {
              return Err(v.error);
            }
            match v.value {
              case Break(x) => acc := acc + [Expr.Attr(cdb, cd, key, x)];
              case Continue(closed) =>
                if closed {
                  return Err(AttributeValue(now2));
                }
                return Err(UnexpectedTag(now2));
            }
          case _ => return Err(UnexpectedTag(now));
        }
      }
    }

    /** The part of `omattr_i` before its continuation. */
    method OmattrHead(cdbase: string, attrs: seq<TreeAttr>) returns (r: Result<seq<TreeAttr>, XmlReadError>)
      requires Valid()
      modifies this
      ensures Valid() && (r, State()) == Spec.OmattrHead(events, old(State()), cdbase, attrs)
      decreases |events| - pos, 3
    {
      var now := position;
      var n := Next();
      if n.Err? {
        return Err(n.error);
      }
      match n.value {
        case Empty(name, _) =>
          r := if LocalName(name) == "OMATP" then Ok(attrs) else Err(UnexpectedTag(now));
        case Start(name, _) =>
          if LocalName(name) == "OMATP" {
            r := OmattrPairs(cdbase, attrs);
          } else {
            r := Err(UnexpectedTag(now));
          }
        case _ => r := Err(UnexpectedTag(now));
      }
    }

    method Omattr(cdbase: string, attrs: seq<TreeAttr>) returns (r: Result<Tree, XmlReadError>)
      requires Valid()
      modifies this
      ensures Valid() && (r, State()) == Spec.Omattr(events, old(State()), cdbase, attrs)
      decreases |events| - pos, 4
    {
      var h := OmattrHead(cdbase, attrs);
      if h.Err? {
        return Err(h.error);
      }
      var now := position;
      var o := HandleNext(cdbase, h.value);
      if o.Err? {
        return Err(o.error);
      }
      if o.value.Continue? {
        return Err(NonEmptyExpectedFor("OMATTR", now));
      }
      r := Close(o.value.value);
    }

    method OmattrOrVar(cdbase: string, attrs: seq<TreeAttr>) returns (r: Result<Option<Var>, XmlReadError>)
      requires Valid()
      modifies this
      ensures Valid() && (r, State()) == Spec.OmattrOrVar(events, old(State()), cdbase, attrs)
      decreases |events| - pos, 4
    {
      var now := position;
      var n := Next();
      if n.Err? {
        return Err(n.error);
      }
      match n.value {
        case End(_) => r := Ok(None);
        case Start(name, atts) =>
          if LocalName(name) != "OMATTR" {
            return Err(UnexpectedTag(now));
          }
          var base := GetAttr(atts, "cdbase").GetOr(cdbase);
          var h := OmattrHead(base, attrs);
          if h.Err? {
            return Err(h.error);
          }
          var v := OmattrOrVar(base, h.value);
          if v.Err? {
            return Err(v.error);
          }
          r := Close(v.value);
        case Empty(name, atts) =>
          if LocalName(name) != "OMV" {
            return Err(UnexpectedTag(now));
          }
          r := match GetAttr(atts, "name")
            case None => Err(ExpectedAttribute("name"))
            case Some(x) => Ok(Some(Om.OMVar(x, attrs)));
        case _ => r := Err(UnexpectedTag(now));
      }
    }

    /** The `while let` loop of `ombind` over the entries of OMBVAR. */
    method OmbindVars(cdbase: string) returns (r: Result<seq<Var>, XmlReadError>)
      requires Valid()
      modifies this
      ensures Valid() && (r, State()) == Spec.OmbindVars(events, old(State()), cdbase, [])
      decreases |events| - pos, 5
    {
      var vars: seq<Var> := [];
      while true
        invariant Valid() && old(pos) <= pos
        invariant Spec.OmbindVars(events, old(State()), cdbase, []) == Spec.OmbindVars(events, State(), cdbase, vars)
        decreases |events| - pos
      {
        var v := OmattrOrVar(cdbase, []);
        if v.Err? {
          return Err(v.error);
        }
        if v.value.None? {
          return Ok(vars);
        }
        vars := vars + [v.value.value];
      }
    }

    method Ombind(cdbase: string, off: nat, attrs: seq<TreeAttr>) returns (r: Result<Tree, XmlReadError>)
      requires Valid()
      modifies this
      ensures Valid() && (r, State()) == Spec.Ombind(events, old(State()), cdbase, off, attrs)
      decreases |events| - pos, 4
    {
      var h := HandleNext(cdbase, []);
      if h.Err? {
        return Err(h.error);
      }
      if h.value.Continue? {
        return Err(NonEmptyExpectedFor("OMBIND", off));
      }
      ghost var s1 := State();
      var now := position;
      var n := Next();
      if n.Err? {
        return Err(n.error);
      }
      var vars: seq<Var> := [];
      if n.value.Start? && LocalName(n.value.name) == "OMBVAR" {
        var vs := OmbindVars(cdbase);
        if vs.Err? {
          return Err(vs.error);
        }
        vars := vs.value;
      } else if !(n.value.Empty? && LocalName(n.value.name) == "OMBVAR") {
        return Err(UnexpectedTag(now));
      }
      assert Spec.OmbindVariables(events, s1, cdbase, h.value.value, attrs)
          == Spec.OmbindBody(events, State(), cdbase, now, h.value.value, vars, attrs);
      var b := HandleNext(cdbase, []);
      if b.Err? {
        return Err(b.error);
      }
      if b.value.Continue? {
        return Err(NonEmptyExpectedFor("OMBIND", now));
      }
      r := Close(Tree(Om.OMBIND(h.value.value, vars, b.value.value, attrs), cdbase));
    }

    method Read(cdbase: string) returns (r: Result<Tree, XmlReadError>)
      requires Valid()
      modifies this
      ensures Valid() && (r, State()) == Spec.Read(events, old(State()), cdbase)
    {
      while true
        invariant Valid() && old(pos) <= pos
        invariant Spec.Read(events, old(State()), cdbase) == Spec.Read(events, State(), cdbase)
        decreases |events| - pos
      {
        var n := HandleNext(cdbase, []);
        if n.Err? {
          return Err(n.error);
        }
        if n.value.Break? {
          return Ok(n.value.value);
        }
      }
    }

    method ReadObj() returns (r: Result<Tree, XmlReadError>)
      requires Valid()
      modifies this
      ensures Valid() && (r, State()) == Spec.ReadObj(events, old(State()))
    {
      while true
        invariant Valid() && old(pos) <= pos
        invariant Spec.ReadObj(events, old(State())) == Spec.ReadObj(events, State())
        decreases |events| - pos
      {
        var now := position;
        var n := Next();
        if n.Err? {
          return Err(n.error);
        }
        match n.value {
          case Start(name, atts) =>
            if name == "OMOBJ" {
              r := Read(GetAttr(atts, "cdbase").GetOr(Kinds.OPENMATH_BASE_URI));
              return;
            }
          case Text(t) =>
            if !Whitespace(t) {
              return Err(UnexpectedTag(now));
            }
          case Eof => return Err(NoObject);
          case End(_) => return Err(UnexpectedTag(now));
          case Empty(_, _) => return Err(UnexpectedTag(now));
          case _ =>
        }
      }
    }
  }

  /** `OMObject::from_openmath_xml` on a fresh reader. */
  method ReadObject(events: seq<Event>) returns (r: Result<Tree, XmlReadError>)
    ensures r == Spec.FromXmlObject(events)
  {
    var reader := new Reader(events);
    r := reader.ReadObj();
  }

  /** `OMDeserializable::from_openmath_xml` on a fresh reader. */
  method ReadBare(events: seq<Event>) returns (r: Result<Tree, XmlReadError>)
    ensures r == Spec.FromXml(events)
  {
    var reader := new Reader(events);
    r := reader.Read(Kinds.OPENMATH_BASE_URI);
  }
}

/** What the XML reader promises, proved about the functions of
    `ReaderSpec` (and so, through the `Reader` methods' contracts, about
    the reader itself). */
module ReaderProps {
  import opened Wrappers
  import Ints
  import Base64
  import Kinds
  import Om
  import Expr
  import opened XmlEvents
  import opened ReaderSpec

  // ---------------------------------------------------------------------
  // The element-shape rules of the dispatch.

  /** A self-closing element: content elements are refused with
      `NonEmptyExpectedFor` at the offset before it, OMF, OMV and OMS are
      read from their attributes, unknown names are `UnexpectedTag`. */
  lemma EmptyElementShapes(events: seq<Event>, s: St, name: string, atts: seq<Attribute>,
                           cdbase: string, attrs: seq<TreeAttr>)
    requires s.pos < |events| && events[s.pos] == Empty(name, atts)
    ensures var (r, s') := HandleNext(events, s, cdbase, attrs);
            var local := LocalName(name);
            s' == St(s.pos + 1, s.pos) &&
            (NeedsContent(local) ==> r == Err(NonEmptyExpectedFor(local, s.position))) &&
            (local == "OMV" ==> r == AsBreak(Omv(atts, cdbase, attrs))) &&
            (local == "OMS" ==> r == AsBreak(Oms(atts, cdbase, attrs))) &&
            (local == "OMF" ==> r == AsBreak(Omf(atts, cdbase, attrs))) &&
            (!NeedsContent(local) && !NeedsNoContent(local) ==> r == Err(UnexpectedTag(s.position)))
  {
  }

  /** An element with a start tag: OMS, OMF and OMV are refused with
      `EmptyExpectedFor`, unknown names (OMFOREIGN among them) are
      `UnexpectedTag`, both at the offset before the tag. */
  lemma StartElementShapes(events: seq<Event>, s: St, name: string, atts: seq<Attribute>,
                           cdbase: string, attrs: seq<TreeAttr>)
    requires s.pos < |events| && events[s.pos] == Start(name, atts)
    ensures var r := HandleNext(events, s, cdbase, attrs).0;
            var local := LocalName(name);
            (NeedsNoContent(local) ==> r == Err(EmptyExpectedFor(local, s.position))) &&
            (!NeedsContent(local) && !NeedsNoContent(local) ==> r == Err(UnexpectedTag(s.position)))
  {
  }

  /** The events that end a `handle_next` without an object. */
  lemma HandleNextStops(events: seq<Event>, s: St, cdbase: string, attrs: seq<TreeAttr>)
    requires s.pos <= |events|
    ensures s.pos == |events| ==> HandleNext(events, s, cdbase, attrs).0 == Err(NoObject)
    ensures s.pos < |events| && events[s.pos].End? ==> HandleNext(events, s, cdbase, attrs).0 == Ok(Continue(true))
    ensures s.pos < |events| && (events[s.pos] == Other || (events[s.pos].Text? && !Whitespace(events[s.pos].raw))) ==>
            HandleNext(events, s, cdbase, attrs).0 == Ok(Continue(false))
    ensures s.pos < |events| && events[s.pos] == Malformed ==> HandleNext(events, s, cdbase, attrs).0 == Err(Xml(s.pos))
  {
  }

  /** Whitespace-only text before what `handle_next` reads. */
  predicate WhitespaceRun(events: seq<Event>, i: nat, j: nat) {
    i <= j <= |events| && forall k :: i <= k < j ==> events[k].Text? && Whitespace(events[k].raw)
  }

  /** `handle_next` skips any run of whitespace-only text. */
  lemma {:induction false} HandleNextSkipsWhitespace(events: seq<Event>, s: St, j: nat, cdbase: string, attrs: seq<TreeAttr>)
    requires s.pos < j && WhitespaceRun(events, s.pos, j)
    ensures HandleNext(events, s, cdbase, attrs) == HandleNext(events, St(j, j - 1), cdbase, attrs)
    decreases j - s.pos
  {
    if s.pos + 1 < j {
      HandleNextSkipsWhitespace(events, St(s.pos + 1, s.pos), j, cdbase, attrs);
    }
  }

  /** So does `next_omforeign`. */
  lemma {:induction false} NextOmForeignSkipsWhitespace(events: seq<Event>, s: St, j: nat, cdbase: string)
    requires s.pos < j && WhitespaceRun(events, s.pos, j)
    ensures NextOmForeign(events, s, cdbase) == NextOmForeign(events, St(j, j - 1), cdbase)
    decreases j - s.pos
  {
    if s.pos + 1 < j {
      NextOmForeignSkipsWhitespace(events, St(s.pos + 1, s.pos), j, cdbase);
    }
  }

  /** The reads at a fixed place do not skip whitespace: OME's symbol,
      OMATP, OMBVAR and every closing-tag check see a text event as the
      wrong tag. */
  lemma FixedReadsSeeText(events: seq<Event>, s: St, t: string, cdbase: string, now: nat,
                          head: Tree, attrs: seq<TreeAttr>)
    requires s.pos < |events| && events[s.pos] == Text(t)
    ensures Ome(events, s, cdbase, now, attrs).0 == Err(UnexpectedTag(now))
    ensures OmattrHead(events, s, cdbase, attrs).0 == Err(UnexpectedTag(s.position))
    ensures OmbindVariables(events, s, cdbase, head, attrs).0 == Err(UnexpectedTag(s.position))
    ensures Closed(events, s, head).0 == Err(UnexpectedTag(s.pos))
  {
  }

  // ---------------------------------------------------------------------
  // The base in effect.

  /** OMA, OMBIND and OME take their `cdbase` attribute, or else the
      enclosing base, as their own base; text elements keep the enclosing
      one. */
  lemma StartElementBase(events: seq<Event>, s: St, name: string, atts: seq<Attribute>, now: nat,
                         cdbase: string, attrs: seq<TreeAttr>)
    requires s.pos <= |events|
    ensures var r := StartElement(events, s, name, atts, now, cdbase, attrs).0;
            var local := LocalName(name);
            r.Ok? && (local == "OMA" || local == "OMBIND" || local == "OME") ==>
              r.value.cdbase == GetAttr(atts, "cdbase").GetOr(cdbase)
    ensures var r := StartElement(events, s, name, atts, now, cdbase, attrs).0;
            var local := LocalName(name);
            r.Ok? && (local == "OMI" || local == "OMB" || local == "OMSTR") ==> r.value.cdbase == cdbase
  {
  }

  // ---------------------------------------------------------------------
  // Attributions.

  /** `omattr_pairs` only ever adds to the attributions it was given. */
  lemma {:induction false} OmattrPairsExtend(events: seq<Event>, s: St, cdbase: string, acc: seq<TreeAttr>)
    requires s.pos <= |events|
    ensures var r := OmattrPairs(events, s, cdbase, acc).0;
            r.Ok? ==> acc <= r.value
    decreases |events| - s.pos
  {
    var (n, s1) := NextEvent(events, s);
    if n.Ok? && n.value.Empty? && LocalName(n.value.name) == "OMS" {
      var sym := SymbolAttrs(n.value.attributes);
      if sym.Ok? {
        var (cdb, cd, key) := sym.value;
        var (v, s2) := NextOmForeign(events, s1, cdbase);
        if v.Ok? && v.value.Break? {
          var acc' := acc + [Expr.Attr(cdb, cd, key, v.value.value)];
          OmattrPairsExtend(events, s2, cdbase, acc');
          assert OmattrPairs(events, s, cdbase, acc) == OmattrPairs(events, s2, cdbase, acc');
        }
      }
    }
  }

  lemma OmattrHeadExtends(events: seq<Event>, s: St, cdbase: string, attrs: seq<TreeAttr>)
    requires s.pos <= |events|
    ensures var r := OmattrHead(events, s, cdbase, attrs).0;
            r.Ok? ==> attrs <= r.value
  {
    var (n, s1) := NextEvent(events, s);
    if n.Ok? && n.value.Start? && LocalName(n.value.name) == "OMATP" {
      OmattrPairsExtend(events, s1, cdbase, attrs);
    }
  }

  /** The attributions `handle_next` is given end up on the object it
      reads, first; an OMATTR adds its own pairs after them and becomes no
      node of its own. */
  lemma {:induction false} HandleNextKeepsAttrs(events: seq<Event>, s: St, cdbase: string, attrs: seq<TreeAttr>)
    requires s.pos <= |events|
    ensures var r := HandleNext(events, s, cdbase, attrs).0;
            r.Ok? && r.value.Break? ==> attrs <= r.value.value.om.attrs
    decreases |events| - s.pos, 1
  {
    var (n, s1) := NextEvent(events, s);
    if n.Ok? {
      match n.value
      case Start(name, atts) => StartElementKeepsAttrs(events, s1, name, atts, s.position, cdbase, attrs);
      case Text(t) =>
        if Whitespace(t) {
          HandleNextKeepsAttrs(events, s1, cdbase, attrs);
        }
      case _ =>
    }
  }

  /** Every element but OMATTR carries exactly the attributions given. */
  lemma {:induction false} StartElementKeepsAttrs(events: seq<Event>, s: St, name: string, atts: seq<Attribute>,
                                                  now: nat, cdbase: string, attrs: seq<TreeAttr>)
    requires s.pos <= |events|
    ensures var r := StartElement(events, s, name, atts, now, cdbase, attrs).0;
            r.Ok? ==> attrs <= r.value.om.attrs
    ensures var r := StartElement(events, s, name, atts, now, cdbase, attrs).0;
            r.Ok? && LocalName(name) != "OMATTR" ==> r.value.om.attrs == attrs
    decreases |events| - s.pos, 2
  {
    var local := LocalName(name);
    var base := GetAttr(atts, "cdbase").GetOr(cdbase);
    if local == "OMATTR" {
      var (h, s1) := OmattrHead(events, s, base, attrs);
      OmattrHeadExtends(events, s, base, attrs);
      if h.Ok? {
        HandleNextKeepsAttrs(events, s1, base, h.value);
      }
    }
  }

  /** A key with no value before OMATP's end is `AttributeValue` at the
      key's offset. */
  lemma MissingAttributeValue(events: seq<Event>, s: St, cdbase: string, acc: seq<TreeAttr>,
                              atts: seq<Attribute>, endName: string)
    requires s.pos + 1 < |events| && events[s.pos] == Empty("OMS", atts) && events[s.pos + 1] == End(endName)
    requires SymbolAttrs(atts).Ok?
    ensures OmattrPairs(events, s, cdbase, acc).0 == Err(AttributeValue(s.pos))
  {
  }

  // ---------------------------------------------------------------------
  // OMA and OMBIND.

  /** An OMA that ends before its head. */
  lemma OmaWithoutHead(events: seq<Event>, s: St, cdbase: string, off: nat, attrs: seq<TreeAttr>, n: string)
    requires s.pos < |events| && events[s.pos] == End(n)
    ensures Oma(events, s, cdbase, off, attrs).0 == Err(NonEmptyExpectedFor("OMA Applicant", off))
  {
  }

  /** The argument loop keeps the arguments read so far, in order, in
      front of those it adds. */
  lemma {:induction false} OmaArgsExtend(events: seq<Event>, s: St, cdbase: string, off: nat, acc: seq<Tree>)
    requires s.pos <= |events|
    ensures var r := OmaArgs(events, s, cdbase, off, acc).0;
            r.Ok? ==> acc <= r.value
    decreases |events| - s.pos
  {
    var (n, s1) := HandleNext(events, s, cdbase, []);
    if n.Ok? && n.value.Break? {
      OmaArgsExtend(events, s1, cdbase, off, acc + [n.value.value]);
    }
  }

  /** After OMBIND's head anything but OMBVAR is `UnexpectedTag` at the
      offset before it; an empty OMBVAR binds no variable. */
  lemma OmbindNeedsVariables(events: seq<Event>, s: St, cdbase: string, head: Tree, attrs: seq<TreeAttr>)
    requires s.pos < |events|
    ensures var e := events[s.pos];
            !((e.Start? || e.Empty?) && LocalName(e.name) == "OMBVAR") && e != Malformed ==>
              OmbindVariables(events, s, cdbase, head, attrs).0 == Err(UnexpectedTag(s.position))
    ensures var e := events[s.pos];
            var r := OmbindVariables(events, s, cdbase, head, attrs).0;
            e.Empty? && LocalName(e.name) == "OMBVAR" && r.Ok? ==> r.value.om.variables == []
  {
  }

  // ---------------------------------------------------------------------
  // Leaves.

  /** `omi` on a text and an end tag: `Hex` for a leading `x` or `-x`,
      `InvalidInteger` for text that is no integer, else the integer. */
  lemma OmiLeaf(events: seq<Event>, s: St, t: string, endName: string, cdbase: string, attrs: seq<TreeAttr>)
    requires s.pos + 1 < |events| && events[s.pos] == Text(t) && events[s.pos + 1] == End(endName)
    ensures var r := Omi(events, s, cdbase, attrs).0;
            (HexText(t) ==> r == Err(Hex)) &&
            (!HexText(t) && Ints.New(t).None? ==> r == Err(InvalidInteger(t))) &&
            (!HexText(t) && Ints.New(t).Some? ==> r == Ok(Tree(Om.OMI(Ints.New(t).value, attrs), cdbase)))
  {
  }

  /** A closing tag must follow the integer. */
  lemma OmiNeedsEnd(events: seq<Event>, s: St, t: string, cdbase: string, attrs: seq<TreeAttr>)
    requires s.pos + 1 < |events| && events[s.pos] == Text(t) && !events[s.pos + 1].End?
    requires events[s.pos + 1] != Malformed && !HexText(t) && Ints.New(t).Some?
    ensures Omi(events, s, cdbase, attrs).0 == Err(UnexpectedTag(s.pos + 1))
  {
  }

  /** OMF: a `hex` attribute first is `Hex`, no `hex` or `dec` at all is
      `ExpectedAttribute("dec")`. */
  lemma OmfLeaf(atts: seq<Attribute>, cdbase: string, attrs: seq<TreeAttr>)
    ensures |atts| > 0 && atts[0].0 == "hex" ==> Omf(atts, cdbase, attrs) == Err(Hex)
    ensures (forall i :: 0 <= i < |atts| ==> atts[i].0 != "hex" && atts[i].0 != "dec") ==>
            Omf(atts, cdbase, attrs) == Err(ExpectedAttribute("dec"))
  {
  }

  /** A failed base64 decoding is reported as `Base64`. */
  lemma OmbLeaf(events: seq<Event>, s: St, t: string, cdbase: string, attrs: seq<TreeAttr>)
    requires s.pos < |events| && events[s.pos] == Text(t)
    requires Base64.DecodeCorrected(Utf8(t)).Err?
    ensures Omb(events, s, cdbase, attrs).0 == Err(XmlReadError.Base64(Base64.DecodeCorrected(Utf8(t)).error))
  {
  }

  /** ASCII text is its own UTF-8. */
  lemma {:induction false} Utf8OfAscii(bs: seq<Base64.byte>)
    requires forall i :: 0 <= i < |bs| ==> bs[i] < 0x80
    ensures Utf8(Base64.Chars(bs)) == bs
  {
    if |bs| > 0 {
      assert Base64.Chars(bs)[1..] == Base64.Chars(bs[1..]);
      Utf8OfAscii(bs[1..]);
      assert Utf8Char(bs[0] as char) == [bs[0]];
      assert bs == [bs[0]] + bs[1..];
    }
  }

  /** The text the XML writer gives an OMB decodes to the same bytes. */
  lemma EncodingDecodes(bytes: seq<Base64.byte>)
    ensures Base64.DecodeCorrected(Utf8(Base64.EncodeString(bytes))) == Ok(bytes)
  {
    Base64.EncodeChunksAscii(Base64.Chunks(bytes));
    Utf8OfAscii(Base64.Encode(bytes));
    Base64.RoundTrip(bytes);
  }

  /** An OMB whose text decodes to `bytes` reads as those bytes. */
  lemma OmbReadsText(events: seq<Event>, s: St, t: string, bytes: seq<Base64.byte>,
                     cdbase: string, attrs: seq<TreeAttr>)
    requires s.pos + 1 < |events| && events[s.pos] == Text(t) && events[s.pos + 1].End?
    requires Base64.DecodeCorrected(Utf8(t)) == Ok(bytes)
    ensures Omb(events, s, cdbase, attrs) == (Ok(Tree(Om.OMB(bytes, attrs), cdbase)), St(s.pos + 2, s.pos + 1))
  {
    var v := Tree(Om.OMB(bytes, attrs), cdbase);
    assert TextOf(events, s) == (Ok(t), St(s.pos + 1, s.pos));
    assert Closed(events, St(s.pos + 1, s.pos), v) == (Ok(v), St(s.pos + 2, s.pos + 1));
  }

  /** The body the XML writer gives an OMB reads back as the same bytes. */
  lemma OmbReadsEncoding(events: seq<Event>, s: St, bytes: seq<Base64.byte>, endName: string,
                         cdbase: string, attrs: seq<TreeAttr>)
    requires s.pos + 1 < |events| && events[s.pos] == Text(Base64.EncodeString(bytes))
    requires events[s.pos + 1] == End(endName)
    ensures Omb(events, s, cdbase, attrs) == (Ok(Tree(Om.OMB(bytes, attrs), cdbase)), St(s.pos + 2, s.pos + 1))
  {
    EncodingDecodes(bytes);
    OmbReadsText(events, s, Base64.EncodeString(bytes), bytes, cdbase, attrs);
  }

  // ---------------------------------------------------------------------
  // The top level.

  /** `read_obj`: text before the root is an error unless it is
      whitespace, so are end tags and self-closing elements; the root must
      be named `OMOBJ` exactly and gives the base of what it holds. */
  lemma ReadObjRules(events: seq<Event>, s: St)
    requires s.pos <= |events|
    ensures s.pos == |events| ==> ReadObj(events, s).0 == Err(NoObject)
    ensures s.pos < |events| && events[s.pos].Text? && !Whitespace(events[s.pos].raw) ==>
            ReadObj(events, s).0 == Err(UnexpectedTag(s.position))
    ensures s.pos < |events| && (events[s.pos].End? || events[s.pos].Empty?) ==>
            ReadObj(events, s).0 == Err(UnexpectedTag(s.position))
    ensures s.pos < |events| && events[s.pos].Start? && events[s.pos].name == "OMOBJ" ==>
            ReadObj(events, s) ==
            Read(events, St(s.pos + 1, s.pos), GetAttr(events[s.pos].attributes, "cdbase").GetOr(Kinds.OPENMATH_BASE_URI))
    ensures s.pos < |events| && ((events[s.pos].Start? && events[s.pos].name != "OMOBJ") || events[s.pos] == Other ||
                                 (events[s.pos].Text? && Whitespace(events[s.pos].raw))) ==>
            ReadObj(events, s) == ReadObj(events, St(s.pos + 1, s.pos))
  {
  }

  /** `read` returns the first object `handle_next` produces. */
  lemma ReadFirstObject(events: seq<Event>, s: St, cdbase: string)
    requires s.pos <= |events|
    ensures var (n, s1) := HandleNext(events, s, cdbase, []);
            (n.Ok? && n.value.Break? ==> Read(events, s, cdbase) == (Ok(n.value.value), s1)) &&
            (n.Ok? && n.value.Continue? ==> Read(events, s, cdbase) == Read(events, s1, cdbase)) &&
            (n.Err? ==> Read(events, s, cdbase) == (Err(n.error), s1))
  {
  }
}

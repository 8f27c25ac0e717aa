/** The event source and the values of the XML reader (de/xml.rs).

    The reader pulls events from quick_xml; the model replaces quick_xml by
    the sequence of events it would produce. Reading at index `pos` yields
    `events[pos]`, and past the end yields `Eof`. The offsets the reader
    reports (`now()`, the `position` field) are event indices: `position`
    is the index of the event read last. */
module XmlEvents {
  import opened Wrappers
  import Base64
  import Floats
  import Om

  /** An attribute as quick_xml yields it: its key and its raw value. */
  type Attribute = (string, string)

  /** quick_xml's events. `Text` holds the raw (still escaped) text;
      `Other` stands for comments, CDATA, declarations, processing
      instructions and doctypes; `Malformed` is a quick_xml error. */
  datatype Event =
    | Start(name: string, attributes: seq<Attribute>)
    | Empty(name: string, attributes: seq<Attribute>)
    | End(name: string)
    | Text(raw: string)
    | Other
    | Eof
    | Malformed

  /** The first attribute with the given key (`get_attr_from_start`,
      `get_attr_from_empty`, `borrow_attr`). */
  function GetAttr(atts: seq<Attribute>, key: string): (r: Option<string>)
    ensures r.Some? <==> exists i :: 0 <= i < |atts| && atts[i].0 == key
    ensures r.Some? ==> exists i :: 0 <= i < |atts| && atts[i] == (key, r.value) &&
                                    forall j :: 0 <= j < i ==> atts[j].0 != key
  {
    if |atts| == 0 then None
    else if atts[0].0 == key then Some(atts[0].1)
    else
      var r := GetAttr(atts[1..], key);
      assert forall i :: 1 <= i < |atts| ==> atts[i] == atts[1..][i - 1];
      r
  }

  /** `local_name`: the name without its namespace prefix. */
  function LocalName(name: string): (r: string)
    ensures ':' !in name ==> r == name
  {
    if |name| == 0 then name
    else if name[0] == ':' then name[1..]
    else
      var rest := LocalName(name[1..]);
      if ':' in name[1..] then rest else name
  }

  /** `u8::is_ascii_whitespace`: space, tab, line feed, form feed and
      carriage return. */
  predicate IsXmlSpace(c: char) {
    c == ' ' || c == '\t' || c == '\n' || c as int == 0x0C || c == '\r'
  }

  predicate Whitespace(t: string) {
    forall i :: 0 <= i < |t| ==> IsXmlSpace(t[i])
  }

  /** The UTF-8 bytes of a text, which is what the base64 decoder reads. */
  function Utf8(s: string): (r: seq<Base64.byte>)
  {
    if |s| == 0 then [] else Utf8Char(s[0]) + Utf8(s[1..])
  }

  function Utf8Char(c: char): (r: seq<Base64.byte>)
    ensures (c as int) < 0x80 ==> r == [(c as int) as Base64.byte]
  {
    var n := c as int;
    if n < 0x80 then [n as Base64.byte]
    else if n < 0x800 then [(0xC0 + n / 0x40) as Base64.byte, (0x80 + n % 0x40) as Base64.byte]
    else if n < 0x1_0000 then
      [(0xE0 + n / 0x1000) as Base64.byte, (0x80 + n / 0x40 % 0x40) as Base64.byte, (0x80 + n % 0x40) as Base64.byte]
    else
      [(0xF0 + n / 0x4_0000 % 8) as Base64.byte, (0x80 + n / 0x1000 % 0x40) as Base64.byte,
       (0x80 + n / 0x40 % 0x40) as Base64.byte, (0x80 + n % 0x40) as Base64.byte]
  }

  /** `XmlReadError`, for the variants the reader produces. */
  datatype XmlReadError =
    | Xml(position: nat)
    | UnexpectedTag(at: nat)
    | NoObject
    | ExpectedText
    | InvalidInteger(integer: string)
    | InvalidFloat(float: string)
    | ExpectedAttribute(attribute: string)
    | Base64(base64: Base64.Error)
    | EmptyExpectedFor(tag: string, at: nat)
    | NonEmptyExpectedFor(tag: string, at: nat)
    | Hex
    | AttributeValue(at: nat)

  /** A read object. `from_openmath` here builds the tree: the node handed
      to it and the base it was read in. */
  datatype Tree = Tree(om: Om.OM<Tree>, cdbase: string)

  type TreeAttr = Om.OMAttr<Tree>

  /** A bound variable: its name and attributions. */
  type Var = Om.OMVar<Tree>

  /** `ControlFlow`: an object was read, or the caller's element ended
      (`Continue(true)`) or something else came (`Continue(false)`). */
  datatype Flow<T> = Break(value: T) | Continue(closed: bool)

  /** The reader's state: the next event to read and the `position` field. */
  datatype St = St(pos: nat, position: nat)

  /** Whether a read went from `s` to `s'` without going back or past the
      end. */
  predicate Moves(events: seq<Event>, s: St, s': St) {
    s.pos <= s'.pos <= |events|
  }

  /** `next`: the `position` field takes the index of the event read. */
  function NextEvent(events: seq<Event>, s: St): (r: (Result<Event, XmlReadError>, St))
    requires s.pos <= |events|
    ensures Moves(events, s, r.1) && r.1.position == s.pos
    ensures r.0.Ok? && r.0.value != Eof ==> r.1.pos == s.pos + 1
    ensures s.pos < |events| ==> r.1.pos == s.pos + 1 && (r.0.Ok? <==> events[s.pos] != Malformed) &&
                                 (r.0.Ok? ==> r.0.value == events[s.pos])
    ensures s.pos == |events| ==> r == (Ok(Eof), s.(position := s.pos))
  {
    if s.pos == |events| then (Ok(Eof), St(s.pos, s.pos))
    else if events[s.pos] == Malformed then (Err(Xml(s.pos)), St(s.pos + 1, s.pos))
    else (Ok(events[s.pos]), St(s.pos + 1, s.pos))
  }

  /** The element names the dispatch refuses in self-closing form. */
  predicate NeedsContent(local: string) {
    local == "OME" || local == "OMA" || local == "OMBIND" || local == "OMSTR" ||
    local == "OMI" || local == "OMB" || local == "OMATTR"
  }

  /** The element names the dispatch refuses with content. */
  predicate NeedsNoContent(local: string) {
    local == "OMS" || local == "OMF" || local == "OMV"
  }

  /** `omf`: the first `hex` or `dec` attribute decides; the float text is
      not converted (see the `Floats` module). */
  function Omf(atts: seq<Attribute>, cdbase: string, attrs: seq<TreeAttr>): (r: Result<Tree, XmlReadError>)
    ensures r.Ok? ==> r.value.om.OMF? && r.value.om.attrs == attrs && r.value.cdbase == cdbase
    ensures (forall i :: 0 <= i < |atts| ==> atts[i].0 != "hex" && atts[i].0 != "dec") ==>
            r == Err(ExpectedAttribute("dec"))
  {
    if |atts| == 0 then Err(ExpectedAttribute("dec"))
    else if atts[0].0 == "hex" then Err(Hex)
    else if atts[0].0 == "dec" then
      match Floats.ParseF64(atts[0].1)
      case Some(f) => Ok(Tree(Om.OMF(f, attrs), cdbase))
      case None => Err(InvalidFloat(atts[0].1))
    else
      assert forall i :: 1 <= i < |atts| ==> atts[i] == atts[1..][i - 1];
      Omf(atts[1..], cdbase, attrs)
  }

  /** `omv`. */
  function Omv(atts: seq<Attribute>, cdbase: string, attrs: seq<TreeAttr>): (r: Result<Tree, XmlReadError>)
    ensures r.Ok? <==> GetAttr(atts, "name").Some?
    ensures r.Ok? ==> r.value == Tree(Om.OMV(GetAttr(atts, "name").value, attrs), cdbase)
    ensures r.Err? ==> r.error == ExpectedAttribute("name")
  {
    match GetAttr(atts, "name")
    case None => Err(ExpectedAttribute("name"))
    case Some(n) => Ok(Tree(Om.OMV(n, attrs), cdbase))
  }

  /** `oms`: a `cdbase` attribute is the base of this symbol only. */
  function Oms(atts: seq<Attribute>, cdbase: string, attrs: seq<TreeAttr>): (r: Result<Tree, XmlReadError>)
    ensures r.Ok? <==> GetAttr(atts, "name").Some? && GetAttr(atts, "cd").Some?
    ensures r.Ok? ==> r.value == Tree(Om.OMS(GetAttr(atts, "cd").value, GetAttr(atts, "name").value, attrs),
                                      GetAttr(atts, "cdbase").GetOr(cdbase))
    ensures GetAttr(atts, "name").None? ==> r == Err(ExpectedAttribute("name"))
    ensures GetAttr(atts, "name").Some? && GetAttr(atts, "cd").None? ==> r == Err(ExpectedAttribute("cd"))
  {
    match GetAttr(atts, "name")
    case None => Err(ExpectedAttribute("name"))
    case Some(n) =>
      match GetAttr(atts, "cd")
      case None => Err(ExpectedAttribute("cd"))
      case Some(cd) => Ok(Tree(Om.OMS(cd, n, attrs), GetAttr(atts, "cdbase").GetOr(cdbase)))
  }

  /** The symbol of an OME or of an attribution pair: name and cd are
      required, the cdbase is kept as given. */
  function SymbolAttrs(atts: seq<Attribute>): (r: Result<(Option<string>, string, string), XmlReadError>)
    ensures r.Ok? <==> GetAttr(atts, "name").Some? && GetAttr(atts, "cd").Some?
    ensures r.Ok? ==> r.value == (GetAttr(atts, "cdbase"), GetAttr(atts, "cd").value, GetAttr(atts, "name").value)
    ensures GetAttr(atts, "name").None? ==> r == Err(ExpectedAttribute("name"))
    ensures GetAttr(atts, "name").Some? && GetAttr(atts, "cd").None? ==> r == Err(ExpectedAttribute("cd"))
  {
    match GetAttr(atts, "name")
    case None => Err(ExpectedAttribute("name"))
    case Some(n) =>
      match GetAttr(atts, "cd")
      case None => Err(ExpectedAttribute("cd"))
      case Some(cd) => Ok((GetAttr(atts, "cdbase"), cd, n))
  }

  /** The self-closing half of the dispatch of `handle_next` and
      `next_omforeign` (OMFOREIGN excepted). */
  function EmptyElement(name: string, atts: seq<Attribute>, now: nat, cdbase: string, attrs: seq<TreeAttr>): (r: Result<Tree, XmlReadError>)
    ensures NeedsContent(LocalName(name)) ==> r == Err(NonEmptyExpectedFor(LocalName(name), now))
    ensures !NeedsContent(LocalName(name)) && !NeedsNoContent(LocalName(name)) ==> r == Err(UnexpectedTag(now))
  {
    var local := LocalName(name);
    if local == "OMF" then Omf(atts, cdbase, attrs)
    else if local == "OMV" then Omv(atts, cdbase, attrs)
    else if local == "OMS" then Oms(atts, cdbase, attrs)
    else if NeedsContent(local) then Err(NonEmptyExpectedFor(local, now))
    else Err(UnexpectedTag(now))
  }

  // ---------------------------------------------------------------------
  // Foreign content.

  /** A normal form of the markup an event stands for. */
  function Raw(e: Event): string {
    match e
    case Start(n, a) => "<" + n + AttrsText(a) + ">"
    case Empty(n, a) => "<" + n + AttrsText(a) + "/>"
    case End(n) => "</" + n + ">"
    case Text(t) => t
    case _ => ""
  }

  function AttrsText(a: seq<Attribute>): string {
    if |a| == 0 then "" else " " + a[0].0 + "=\"" + a[0].1 + "\"" + AttrsText(a[1..])
  }

  /** `text` in front of the content of a successful read. */
  function Prepend(text: string, r: Option<(string, nat)>): (r': Option<(string, nat)>)
    ensures r'.Some? <==> r.Some?
    ensures r.Some? ==> r'.value == (text + r.value.0, r.value.1)
  {
    match r
    case Some((t, p)) => Some((text + t, p))
    case None => None
  }

  lemma PrependTwice(a: string, b: string, r: Option<(string, nat)>)
    ensures Prepend(a, Prepend(b, r)) == Prepend(a + b, r)
  {
    if r.Some? {
      assert a + (b + r.value.0) == a + b + r.value.0;
    }
  }

  /** quick_xml's `read_to_end(name)` from index `pos`, at nesting `depth`
      of elements with the same name: the markup up to the matching end
      tag and the index after it, or `None` when the input ends or is
      malformed first. */
  function UntilEnd(events: seq<Event>, pos: nat, name: string, depth: nat): (r: Option<(string, nat)>)
    requires pos <= |events|
    ensures r.Some? ==> pos < r.value.1 <= |events|
    decreases |events| - pos
  {
    if pos == |events| then None
    else
      var e := events[pos];
      match e
      case Malformed => None
      case Eof => None
      case End(n) =>
        if n == name && depth == 0 then Some(("", pos + 1))
        else Prepend(Raw(e), UntilEnd(events, pos + 1, name, if n == name then depth - 1 else depth))
      case Start(n, _) =>
        Prepend(Raw(e), UntilEnd(events, pos + 1, name, if n == name then depth + 1 else depth))
      case _ => Prepend(Raw(e), UntilEnd(events, pos + 1, name, depth))
  }

  /** The content stops at the first end tag of that name outside nested
      elements of that name. */
  lemma UntilEndStops(events: seq<Event>, pos: nat, name: string, text: string)
    requires pos < |events| && events[pos] == Text(text)
    requires pos + 1 < |events| && events[pos + 1] == End(name)
    ensures UntilEnd(events, pos, name, 0) == Some((text, pos + 2))
  {
    assert UntilEnd(events, pos + 1, name, 0) == Some(("", pos + 2));
    assert text + "" == text;
  }
}

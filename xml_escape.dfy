/** `DisplayEscaper` of ser/xml.rs: text and attribute values are written
    with `&` as `&amp;` and `<` as `&lt;`, everything else as it is. The
    entity decoding of section 4.6 of the XML 1.0 recommendation is its
    partner. */
module XmlEscape {
  import opened Text
  import opened Fmt

  /** What one character becomes. */
  function EscapeChar(c: char): string {
    if c == '&' then "&amp;" else if c == '<' then "&lt;" else [c]
  }

  /** The escaped text, character by character. */
  function Escape(s: string): string
    decreases |s|
  {
    if |s| == 0 then "" else EscapeChar(s[0]) + Escape(s[1..])
  }

  /** `s` with every `c` replaced by `rep`. */
  function Replace(s: string, c: char, rep: string): string
    decreases |s|
  {
    if |s| == 0 then "" else (if s[0] == c then rep else [s[0]]) + Replace(s[1..], c, rep)
  }

  /** The inner loop of `write_str`: only `<` is replaced. */
  function EscapeLt(p: string): string {
    Replace(p, '<', "&lt;")
  }

  /** Decoding the predefined entities `&amp;`, `&lt;`, `&gt;`, `&quot;`
      and `&apos;`; anything else is kept as it is. */
  function Unescape(s: string): string
    decreases |s|
  {
    if |s| == 0 then ""
    else if |s| >= 5 && s[..5] == "&amp;" then "&" + Unescape(s[5..])
    else if |s| >= 4 && s[..4] == "&lt;" then "<" + Unescape(s[4..])
    else if |s| >= 4 && s[..4] == "&gt;" then ">" + Unescape(s[4..])
    else if |s| >= 6 && s[..6] == "&quot;" then "\"" + Unescape(s[6..])
    else if |s| >= 6 && s[..6] == "&apos;" then "'" + Unescape(s[6..])
    else [s[0]] + Unescape(s[1..])
  }

  // ----- properties ----------------------------------------------------------------

  /** Decoding the entities gives back the text that was escaped. */
  lemma {:induction false} UnescapeEscape(s: string)
    ensures Unescape(Escape(s)) == s
    decreases |s|
  {
    if |s| > 0 {
      var e := Escape(s[1..]);
      UnescapeEscape(s[1..]);
      assert Escape(s) == EscapeChar(s[0]) + e;
      if s[0] == '&' {
        UnescapeAmp(e);
      } else if s[0] == '<' {
        UnescapeLt(e);
      } else {
        UnescapeOther(s[0], e);
      }
      assert s == [s[0]] + s[1..];
    }
  }

  lemma UnescapeAmp(e: string)
    ensures Unescape("&amp;" + e) == "&" + Unescape(e)
  {
    var t := "&amp;" + e;
    assert t[..5] == "&amp;" && t[5..] == e;
  }

  lemma UnescapeLt(e: string)
    ensures Unescape("&lt;" + e) == "<" + Unescape(e)
  {
    var t := "&lt;" + e;
    assert t[1] == 'l';
    assert t[..4] == "&lt;" && t[4..] == e;
  }

  lemma UnescapeOther(c: char, e: string)
    requires c != '&'
    ensures Unescape([c] + e) == [c] + Unescape(e)
  {
    var t := [c] + e;
    assert t[0] == c && t[1..] == e;
  }

  /** Text that can stand as XML character data as an escaper writes it:
      no `<`, and every `&` starts `&amp;` or `&lt;`. */
  predicate CharData(e: string) {
    '<' !in e &&
    forall i :: 0 <= i < |e| && e[i] == '&' ==>
      (i + 5 <= |e| && e[i..i + 5] == "&amp;") || (i + 4 <= |e| && e[i..i + 4] == "&lt;")
  }

  /** Escaped text is character data. */
  lemma {:induction false} EscapeIsCharData(s: string)
    ensures CharData(Escape(s))
    decreases |s|
  {
    if |s| > 0 {
      EscapeIsCharData(s[1..]);
      CharDataPrepend(EscapeChar(s[0]), Escape(s[1..]));
    }
  }

  lemma CharDataPrepend(h: string, e: string)
    requires h == "&amp;" || h == "&lt;" || (|h| == 1 && h[0] != '&' && h[0] != '<')
    requires CharData(e)
    ensures CharData(h + e)
  {
    var t := h + e;
    assert '<' !in h;
    forall i | 0 <= i < |t| && t[i] == '&'
      ensures (i + 5 <= |t| && t[i..i + 5] == "&amp;") || (i + 4 <= |t| && t[i..i + 4] == "&lt;")
    {
      if i < |h| {
        assert t[..|h|] == h;
      } else {
        ShiftedEntity(h, e, i - |h|);
      }
    }
  }

  lemma ShiftedEntity(h: string, e: string, k: nat)
    requires CharData(e)
    requires k < |e| && e[k] == '&'
    ensures var t := h + e; var i := |h| + k;
            (i + 5 <= |t| && t[i..i + 5] == "&amp;") || (i + 4 <= |t| && t[i..i + 4] == "&lt;")
  {
    var t := h + e;
    var i := |h| + k;
    if k + 5 <= |e| && e[k..k + 5] == "&amp;" {
      assert t[i..i + 5] == e[k..k + 5];
    } else {
      assert t[i..i + 4] == e[k..k + 4];
    }
  }

  /** Text without `&` and `<` is written unchanged. */
  lemma {:induction false} EscapePlain(s: string)
    requires '&' !in s && '<' !in s
    ensures Escape(s) == s
    decreases |s|
  {
    if |s| > 0 {
      assert s[0] != '&' && s[0] != '<' by { assert s[0] in s; }
      assert '&' !in s[1..] && '<' !in s[1..] by {
        assert forall ch :: ch in s[1..] ==> ch in s;
      }
      EscapePlain(s[1..]);
      assert s == [s[0]] + s[1..];
    }
  }

  // ----- the two loops of `write_str` ----------------------------------------------

  /** Replacing a character is joining the pieces between its occurrences
      with the replacement. */
  lemma {:induction false} ReplaceIsJoinSplit(s: string, c: char, rep: string)
    ensures Replace(s, c, rep) == Join(rep, Split(s, c))
    decreases |s|
  {
    if |s| > 0 {
      var rest := Split(s[1..], c);
      var r := Replace(s[1..], c, rep);
      ReplaceIsJoinSplit(s[1..], c, rep);
      assert r == Join(rep, rest);
      if s[0] == c {
        assert Split(s, c) == [""] + rest;
        assert Replace(s, c, rep) == rep + r;
        JoinCons(rep, "", rest);
        assert "" + rep + r == rep + r;
      } else {
        assert Split(s, c) == [[s[0]] + rest[0]] + rest[1..];
        assert Replace(s, c, rep) == [s[0]] + r;
        JoinPrefix(rep, [s[0]], rest);
      }
    }
  }

  /** Escaping is joining, with `&amp;`, the pieces between the `&`s, each
      with its `<`s replaced. */
  lemma {:induction false} EscapeIsNestedSplit(s: string)
    ensures Escape(s) == Join("&amp;", EscapeLtAll(Split(s, '&')))
    decreases |s|
  {
    if |s| == 0 {
      assert EscapeLtAll([""]) == [""];
    } else {
      var rest := Split(s[1..], '&');
      var er := EscapeLtAll(rest);
      var e := Escape(s[1..]);
      EscapeIsNestedSplit(s[1..]);
      assert e == Join("&amp;", er);
      assert Escape(s) == EscapeChar(s[0]) + e;
      if s[0] == '&' {
        assert Split(s, '&') == [""] + rest;
        EscapeLtAllCons("", rest);
        JoinCons("&amp;", "", er);
        assert "" + "&amp;" + e == "&amp;" + e;
      } else {
        var h := EscapeChar(s[0]);
        assert Split(s, '&') == [[s[0]] + rest[0]] + rest[1..];
        EscapeLtHead(s[0], rest[0]);
        EscapeLtAllHead([s[0]] + rest[0], rest);
        JoinPrefix("&amp;", h, er);
      }
    }
  }

  /** Each piece with its `<`s replaced. */
  function EscapeLtAll(ps: seq<string>): (r: seq<string>)
    ensures |r| == |ps|
  {
    seq(|ps|, i requires 0 <= i < |ps| => EscapeLt(ps[i]))
  }

  lemma EscapeLtAllCons(p: string, ps: seq<string>)
    ensures EscapeLtAll([p] + ps) == [EscapeLt(p)] + EscapeLtAll(ps)
  {
  }

  lemma EscapeLtAllHead(p: string, ps: seq<string>)
    requires |ps| > 0
    ensures EscapeLtAll([p] + ps[1..]) == [EscapeLt(p)] + EscapeLtAll(ps)[1..]
  {
  }

  lemma EscapeLtHead(c: char, p: string)
    requires c != '&'
    ensures EscapeLt([c] + p) == EscapeChar(c) + EscapeLt(p)
  {
    assert ([c] + p)[1..] == p;
  }

  /** `DisplayEscaper::write_str`: the pieces between `&`s, `&amp;` before
      all but the first, each written as its pieces between `<`s with
      `&lt;` before all but the first. */
  method WriteEscaped(f: Formatter, s: string)
    modifies f
    ensures f.out == old(f.out) + Escape(s)
  {
    var outer := Split(s, '&');
    ghost var pieces := EscapeLtAll(outer);
    ghost var pre := f.out;
    var isFirst := true;
    var i := 0;
    while i < |outer|
      invariant 0 <= i <= |outer|
      invariant isFirst <==> i == 0
      invariant f.out == pre + Join("&amp;", pieces[..i])
    {
      var sep := if isFirst then "" else "&amp;";
      f.WriteStr(sep);
      isFirst := false;
      ghost var mid := f.out;
      WriteLtPieces(f, outer[i]);
      assert f.out == mid + pieces[i];
      JoinStep(pre, "&amp;", pieces[..i], pieces[i]);
      assert pieces[..i + 1] == pieces[..i] + [pieces[i]];
      i := i + 1;
    }
    assert pieces[..|outer|] == pieces;
    EscapeIsNestedSplit(s);
  }

  /** The inner loop of `DisplayEscaper::write_str`. */
  method WriteLtPieces(f: Formatter, p: string)
    modifies f
    ensures f.out == old(f.out) + EscapeLt(p)
  {
    var inner := Split(p, '<');
    ghost var pre := f.out;
    var isFirst := true;
    var j := 0;
    while j < |inner|
      invariant 0 <= j <= |inner|
      invariant isFirst <==> j == 0
      invariant f.out == pre + Join("&lt;", inner[..j])
    {
      var sep := if isFirst then "" else "&lt;";
      f.WriteStr(sep);
      isFirst := false;
      f.WriteStr(inner[j]);
      JoinStep(pre, "&lt;", inner[..j], inner[j]);
      assert inner[..j + 1] == inner[..j] + [inner[j]];
      j := j + 1;
    }
    assert inner[..|inner|] == inner;
    ReplaceIsJoinSplit(p, '<', "&lt;");
  }

  /** `DisplayEscaper::write_char`. */
  method WriteEscapedChar(f: Formatter, c: char)
    modifies f
    ensures f.out == old(f.out) + Escape([c])
  {
    assert Escape([c]) == EscapeChar(c) + Escape([]);
    match c
    case '&' => f.WriteStr("&amp;");
    case '<' => f.WriteStr("&lt;");
    case _ => f.WriteStr([c]);
  }
}

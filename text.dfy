/** String helpers shared by the writers and the reader: joining with a
    separator (what the `first`-flag loops of the writers produce) and
    splitting at a character (Rust's `str::split` with a `char` pattern). */
module Text {

  /** `parts` separated by `sep`, as a loop that writes `sep` before every
      part but the first produces it. */
  function Join(sep: string, parts: seq<string>): (r: string)
    ensures |parts| == 0 ==> r == ""
    ensures |parts| == 1 ==> r == parts[0]
  {
    if |parts| == 0 then ""
    else if |parts| == 1 then parts[0]
    else Join(sep, parts[..|parts| - 1]) + sep + parts[|parts| - 1]
  }

  /** Every part, one after the other. */
  function Concat(parts: seq<string>): (r: string)
    ensures |parts| == 0 ==> r == ""
  {
    if |parts| == 0 then "" else Concat(parts[..|parts| - 1]) + parts[|parts| - 1]
  }

  /** What one more turn of a `first`-flag loop appends. */
  lemma JoinSnoc(sep: string, parts: seq<string>, p: string)
    ensures Join(sep, parts + [p]) == if |parts| == 0 then p else Join(sep, parts) + sep + p
  {
    assert (parts + [p])[..|parts|] == parts;
  }

  /** The same, as a writer sees it: what is already written, the
      separator unless nothing was, then the next part. */
  lemma JoinStep(pre: string, sep: string, parts: seq<string>, p: string)
    ensures pre + Join(sep, parts) + (if |parts| == 0 then "" else sep) + p == pre + Join(sep, parts + [p])
  {
    JoinSnoc(sep, parts, p);
    if |parts| > 0 {
      assert pre + Join(sep, parts) + sep + p == pre + (Join(sep, parts) + sep + p);
    }
  }

  lemma ConcatStep(pre: string, parts: seq<string>, p: string)
    ensures pre + Concat(parts) + p == pre + Concat(parts + [p])
  {
    ConcatSnoc(parts, p);
  }

  /** One more part of a loop that writes every part. */
  lemma ConcatPrefixStep(pre: string, parts: seq<string>, i: nat)
    requires i < |parts|
    ensures pre + Concat(parts[..i]) + parts[i] == pre + Concat(parts[..i + 1])
  {
    assert parts[..i + 1] == parts[..i] + [parts[i]];
    ConcatStep(pre, parts[..i], parts[i]);
  }

  /** One more part of a loop that writes the separator before every part
      but the first. */
  lemma JoinPrefixStep(pre: string, sep: string, parts: seq<string>, i: nat)
    requires i < |parts|
    ensures pre + Join(sep, parts[..i]) + (if i == 0 then "" else sep) + parts[i] == pre + Join(sep, parts[..i + 1])
  {
    assert parts[..i + 1] == parts[..i] + [parts[i]];
    JoinStep(pre, sep, parts[..i], parts[i]);
  }

  lemma ConcatSnoc(parts: seq<string>, p: string)
    ensures Concat(parts + [p]) == Concat(parts) + p
  {
    assert (parts + [p])[..|parts|] == parts;
  }

  /** Regrouping what a writer appends piece by piece into one string. */
  lemma Cat2(s0: string, a: string, b: string)
    ensures s0 + a + b == s0 + (a + b)
  {
  }

  lemma Cat3(s0: string, a: string, b: string, c: string)
    ensures s0 + a + b + c == s0 + (a + b + c)
  {
  }

  lemma Cat4(s0: string, a: string, b: string, c: string, d: string)
    ensures s0 + a + b + c + d == s0 + (a + b + c + d)
  {
  }

  lemma Cat5(s0: string, a: string, b: string, c: string, d: string, e: string)
    ensures s0 + a + b + c + d + e == s0 + (a + b + c + d + e)
  {
  }

  lemma Cat6(s0: string, a: string, b: string, c: string, d: string, e: string, g: string)
    ensures s0 + a + b + c + d + e + g == s0 + (a + b + c + d + e + g)
  {
  }

  lemma Cat7(s0: string, a: string, b: string, c: string, d: string, e: string, g: string, h: string)
    ensures s0 + a + b + c + d + e + g + h == s0 + (a + b + c + d + e + g + h)
  {
  }

  lemma EmptyRight<T>(a: seq<T>)
    ensures a + [] == a
  {
  }

  lemma Assoc<T>(a: seq<T>, b: seq<T>, c: seq<T>)
    ensures a + (b + c) == a + b + c
  {
  }

  /** Writing the separator before every part but the first, part by
      part, gives the join. */
  lemma {:induction false} ConcatSeparated(sep: string, p: seq<string>, q: seq<string>)
    requires |p| == |q|
    requires forall i :: 0 <= i < |p| ==> p[i] == (if i == 0 then "" else sep) + q[i]
    ensures Concat(p) == Join(sep, q)
    decreases |p|
  {
    if |p| > 0 {
      var n := |p| - 1;
      ConcatSeparated(sep, p[..n], q[..n]);
      if n > 0 {
        assert p[n] == sep + q[n];
      }
    }
  }

  /** Concatenating two lists of parts is concatenating their texts. */
  lemma {:induction false} ConcatAppend(p: seq<string>, q: seq<string>)
    ensures Concat(p + q) == Concat(p) + Concat(q)
    decreases |q|
  {
    if |q| == 0 {
      assert p + q == p;
    } else {
      var n := |q| - 1;
      assert (p + q)[..|p + q| - 1] == p + q[..n];
      ConcatAppend(p, q[..n]);
    }
  }

  /** Joining read from the front. */
  lemma {:induction false} JoinCons(sep: string, p: string, parts: seq<string>)
    requires |parts| > 0
    ensures Join(sep, [p] + parts) == p + sep + Join(sep, parts)
    decreases |parts|
  {
    if |parts| == 1 {
      assert [p] + parts == [p] + [parts[0]];
      assert ([p] + parts)[..1] == [p];
    } else {
      var init := parts[..|parts| - 1];
      var last := parts[|parts| - 1];
      calc {
        Join(sep, [p] + parts);
        == { assert [p] + parts == ([p] + init) + [last]; JoinSnoc(sep, [p] + init, last); }
        Join(sep, [p] + init) + sep + last;
        == { JoinCons(sep, p, init); }
        p + sep + Join(sep, init) + sep + last;
        == { assert parts == init + [last]; JoinSnoc(sep, init, last); }
        p + sep + Join(sep, parts);
      }
    }
  }

  /** The pieces of `s` between occurrences of `c`; there is always one
      more piece than there are occurrences, and `""` gives `[""]`. */
  function Split(s: string, c: char): (r: seq<string>)
    ensures |r| > 0
    ensures forall i :: 0 <= i < |r| ==> c !in r[i]
  {
    if |s| == 0 then [""]
    else
      var rest := Split(s[1..], c);
      if s[0] == c then [""] + rest
      else [[s[0]] + rest[0]] + rest[1..]
  }

  /** Splitting at the separator undoes joining with it. */
  lemma {:induction false} SplitJoin(parts: seq<string>, c: char)
    requires |parts| > 0
    requires forall i :: 0 <= i < |parts| ==> c !in parts[i]
    ensures Split(Join([c], parts), c) == parts
    decreases |parts|, |parts[0]|
  {
    if |parts[0]| > 0 {
      var p := parts[0];
      var parts' := [p[1..]] + parts[1..];
      assert forall i :: 0 <= i < |parts'| ==> c !in parts'[i] by {
        forall i | 0 <= i < |parts'| ensures c !in parts'[i] {
          if i == 0 {
            assert forall ch :: ch in p[1..] ==> ch in p;
          } else {
            assert parts'[i] == parts[i];
          }
        }
      }
      SplitJoin(parts', c);
      assert p == [p[0]] + p[1..];
      assert parts == [[p[0]] + parts'[0]] + parts'[1..];
      JoinPrefix([c], [p[0]], parts');
      assert Join([c], parts) == [p[0]] + Join([c], parts');
      assert p[0] != c by { assert p[0] in p; }
      assert Join([c], parts)[1..] == Join([c], parts');
      assert parts == [[p[0]] + parts'[0]] + parts'[1..];
    } else if |parts| == 1 {
    } else {
      var rest := parts[1..];
      assert parts == [""] + rest;
      JoinCons([c], "", rest);
      SplitJoin(rest, c);
      assert Join([c], parts)[1..] == Join([c], rest);
    }
  }

  /** A prefix of the first part is a prefix of the join. */
  lemma JoinPrefix(sep: string, a: string, parts: seq<string>)
    requires |parts| > 0
    ensures Join(sep, [a + parts[0]] + parts[1..]) == a + Join(sep, parts)
  {
    var p := parts[0];
    var rest := parts[1..];
    if |parts| == 1 {
      assert [a + p] + rest == [a + p];
    } else {
      assert parts == [p] + rest;
      JoinCons(sep, a + p, rest);
      JoinCons(sep, p, rest);
    }
  }

  /** Joining split pieces with the same character gives back `s`. */
  lemma {:induction false} JoinSplit(s: string, c: char)
    ensures Join([c], Split(s, c)) == s
    decreases |s|
  {
    if |s| > 0 {
      var rest := Split(s[1..], c);
      JoinSplit(s[1..], c);
      assert s == [s[0]] + s[1..];
      if s[0] == c {
        JoinCons([c], "", rest);
      } else {
        JoinPrefix([c], [s[0]], rest);
      }
    }
  }
}

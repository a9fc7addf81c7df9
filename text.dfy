/**
 * The pieces of Go's `strings` package the three programs use, over
 * `seq<char>`: `Split` and `Join` with a one-character separator,
 * `ToLower` and `TrimSpace`, and the line prefixer built from them.
 */
module Text {

  /** strings.Split(s, string(sep)): the pieces between the separators, always at least one. */
  function Split(s: string, sep: char): (parts: seq<string>)
    ensures |parts| >= 1
    ensures forall i :: 0 <= i < |parts| ==> sep !in parts[i]
  {
    if s == [] then [[]]
    else
      var rest := Split(s[1..], sep);
      if s[0] == sep then [[]] + rest
      else [[s[0]] + rest[0]] + rest[1..]
  }

  /** strings.Join(parts, string(sep)). */
  function Join(parts: seq<string>, sep: char): string
  {
    if |parts| == 0 then []
    else if |parts| == 1 then parts[0]
    else parts[0] + [sep] + Join(parts[1..], sep)
  }

  /** No piece of `parts` contains `sep`. */
  predicate SepFree(parts: seq<string>, sep: char)
  {
    forall i :: 0 <= i < |parts| ==> sep !in parts[i]
  }

  /** Joining the pieces back gives the original string. */
  lemma {:induction false} SplitJoin(s: string, sep: char)
    ensures Join(Split(s, sep), sep) == s
  {
    if s != [] {
      SplitJoin(s[1..], sep);
      var rest := Split(s[1..], sep);
      if s[0] == sep {
        assert ([[]] + rest)[1..] == rest;
      } else if |rest| > 1 {
        assert ([[s[0]] + rest[0]] + rest[1..])[1..] == rest[1..];
      }
    }
  }

  /** A separator-free prefix followed by the separator becomes a piece of its own. */
  lemma {:induction false} SplitAfterPiece(p: string, t: string, sep: char)
    requires sep !in p
    ensures Split(p + [sep] + t, sep) == [p] + Split(t, sep)
  {
    var s := p + [sep] + t;
    if p == [] {
      assert s[1..] == t;
    } else {
      assert s[1..] == p[1..] + [sep] + t;
      SplitAfterPiece(p[1..], t, sep);
      assert [p[0]] + p[1..] == p;
    }
  }

  /** A string without the separator splits into itself. */
  lemma {:induction false} SplitNoSep(p: string, sep: char)
    requires sep !in p
    ensures Split(p, sep) == [p]
  {
    if p != [] {
      SplitNoSep(p[1..], sep);
      assert [p[0]] + p[1..] == p;
    }
  }

  /** Splitting a join of separator-free pieces gives the pieces back. */
  lemma {:induction false} JoinSplit(parts: seq<string>, sep: char)
    requires |parts| >= 1 && SepFree(parts, sep)
    ensures Split(Join(parts, sep), sep) == parts
  {
    if |parts| == 1 {
      SplitNoSep(parts[0], sep);
    } else {
      JoinSplit(parts[1..], sep);
      SplitAfterPiece(parts[0], Join(parts[1..], sep), sep);
      assert [parts[0]] + parts[1..] == parts;
    }
  }

  /** Joining two non-empty lists puts one separator between their joins. */
  lemma {:induction false} JoinAppend(a: seq<string>, b: seq<string>, sep: char)
    requires |a| >= 1 && |b| >= 1
    ensures Join(a + b, sep) == Join(a, sep) + [sep] + Join(b, sep)
  {
    if |a| == 1 {
      assert (a + b)[1..] == b;
    } else {
      JoinAppend(a[1..], b, sep);
      assert (a + b)[1..] == a[1..] + b;
    }
  }

  /** The string splits into more than one piece exactly when it holds the separator;
      the first piece is the text before the first separator. */
  lemma {:induction false} SplitFirst(s: string, sep: char)
    ensures |Split(s, sep)| > 1 <==> sep in s
    ensures |Split(s, sep)| == 1 ==> Split(s, sep)[0] == s
    ensures |Split(s, sep)| > 1 ==>
              s == Split(s, sep)[0] + [sep] + Join(Split(s, sep)[1..], sep)
  {
    var parts := Split(s, sep);
    SplitJoin(s, sep);
    if |parts| > 1 {
      assert s == parts[0] + [sep] + Join(parts[1..], sep);
      assert s[|parts[0]|] == sep;
    } else {
      assert s == parts[0];
    }
  }

  /** Lines each ended by a newline. */
  function Terminated(lines: seq<string>): string
  {
    if lines == [] then "" else lines[0] + "\n" + Terminated(lines[1..])
  }

  lemma {:induction false} TerminatedAppend(a: seq<string>, b: seq<string>)
    ensures Terminated(a + b) == Terminated(a) + Terminated(b)
  {
    if a == [] {
      assert a + b == b;
    } else {
      TerminatedAppend(a[1..], b);
      assert (a + b)[1..] == a[1..] + b;
    }
  }

  /** Newline-ended lines followed by one unended line are those lines joined by newlines. */
  lemma {:induction false} TerminatedJoin(lines: seq<string>, last: string)
    ensures Terminated(lines) + last == Join(lines + [last], '\n')
  {
    if lines != [] {
      TerminatedJoin(lines[1..], last);
      assert (lines + [last])[1..] == lines[1..] + [last];
      assert Join(lines + [last], '\n') == lines[0] + ['\n'] + Join(lines[1..] + [last], '\n');
    }
  }

  /** A non-empty run of lines joined by newlines, with one more newline, is those lines each ended. */
  lemma {:induction false} JoinTerminated(lines: seq<string>)
    requires |lines| >= 1
    ensures Join(lines, '\n') + "\n" == Terminated(lines)
    decreases |lines|
  {
    if |lines| == 1 {
      assert Terminated(lines) == lines[0] + "\n" + Terminated([]);
    } else {
      JoinTerminated(lines[1..]);
      assert Join(lines, '\n') == lines[0] + ['\n'] + Join(lines[1..], '\n');
      assert Join(lines, '\n') + "\n" == lines[0] + "\n" + (Join(lines[1..], '\n') + "\n");
    }
  }

  /** Splitting newline-ended lines gives the lines and a final empty piece. */
  lemma SplitTerminated(lines: seq<string>)
    requires SepFree(lines, '\n')
    ensures Split(Terminated(lines), '\n') == lines + [""]
  {
    TerminatedJoin(lines, "");
    assert Terminated(lines) + "" == Terminated(lines);
    assert SepFree(lines + [""], '\n') by {
      forall i | 0 <= i < |lines + [""]| ensures '\n' !in (lines + [""])[i] {
        if i < |lines| { assert (lines + [""])[i] == lines[i]; }
      }
    }
    JoinSplit(lines + [""], '\n');
  }

  /** `prefix` put in front of every line. */
  function PrefixLines(prefix: string, lines: seq<string>): (r: seq<string>)
    ensures |r| == |lines|
    ensures forall i :: 0 <= i < |lines| ==> r[i] == prefix + lines[i]
  {
    seq(|lines|, i requires 0 <= i < |lines| => prefix + lines[i])
  }

  /** The join starts with the first piece. */
  lemma JoinHead(parts: seq<string>, sep: char)
    requires |parts| >= 1
    ensures parts[0] <= Join(parts, sep)
  {
    if |parts| > 1 {
      assert Join(parts, sep) == parts[0] + ([sep] + Join(parts[1..], sep));
    }
  }

  /** Prefixing every piece lengthens the join by the prefix once per piece. */
  lemma {:induction false} JoinPrefixLength(prefix: string, parts: seq<string>, sep: char)
    ensures |Join(PrefixLines(prefix, parts), sep)| == |Join(parts, sep)| + |prefix| * |parts|
  {
    if |parts| > 1 {
      JoinPrefixLength(prefix, parts[1..], sep);
      assert PrefixLines(prefix, parts)[1..] == PrefixLines(prefix, parts[1..]);
      assert |prefix| * |parts| == |prefix| * (|parts| - 1) + |prefix|;
    }
  }

  lemma PrefixLinesAppend(prefix: string, a: seq<string>, b: seq<string>)
    ensures PrefixLines(prefix, a + b) == PrefixLines(prefix, a) + PrefixLines(prefix, b)
  {
    assert PrefixLines(prefix, a + b) == PrefixLines(prefix, a) + PrefixLines(prefix, b);
  }

  lemma PrefixLinesCons(prefix: string, lines: seq<string>)
    requires lines != []
    ensures PrefixLines(prefix, lines) == [prefix + lines[0]] + PrefixLines(prefix, lines[1..])
  {
    assert PrefixLines(prefix, lines) == [prefix + lines[0]] + PrefixLines(prefix, lines[1..]);
  }

  lemma PrefixLinesSepFree(prefix: string, lines: seq<string>, sep: char)
    requires sep !in prefix && SepFree(lines, sep)
    ensures SepFree(PrefixLines(prefix, lines), sep)
  {
    forall i | 0 <= i < |lines| ensures sep !in PrefixLines(prefix, lines)[i] {
      assert PrefixLines(prefix, lines)[i] == prefix + lines[i];
    }
  }

  /**
   * unicode.ToLower on one rune, as far as it can matter here: the ASCII
   * capitals, and the only two other runes whose simple lower case is an
   * ASCII letter (U+0130 and the Kelvin sign U+212A).
   */
  function LowerChar(c: char): char
  {
    if 'A' <= c <= 'Z' then (c as int + 32) as char
    else if c == '\U{0130}' then 'i'
    else if c == '\U{212A}' then 'k'
    else c
  }

  /** strings.ToLower, rune by rune: an ASCII capital becomes its own small letter,
      U+0130 becomes 'i' and the Kelvin sign U+212A becomes 'k', and every other rune
      is kept where it was. */
  function ToLower(s: string): (r: string)
    ensures |r| == |s|
    ensures NoCapital(r)
    ensures forall i :: 0 <= i < |s| && !('A' <= s[i] <= 'Z') && s[i] != '\U{0130}' && s[i] != '\U{212A}' ==> r[i] == s[i]
    ensures forall i :: 0 <= i < |s| && 'A' <= s[i] <= 'Z' ==> r[i] == (s[i] as int + 32) as char
    ensures forall i :: 0 <= i < |s| && s[i] == '\U{0130}' ==> r[i] == 'i'
    ensures forall i :: 0 <= i < |s| && s[i] == '\U{212A}' ==> r[i] == 'k'
  {
    seq(|s|, i requires 0 <= i < |s| => LowerChar(s[i]))
  }

  /** No character of `s` is an ASCII capital letter. */
  predicate NoCapital(s: string)
  {
    forall i :: 0 <= i < |s| ==> !('A' <= s[i] <= 'Z')
  }

  /** unicode.IsSpace. */
  predicate IsSpace(c: char)
  {
    c == ' ' || c == '\t' || c == '\n' || c == '\U{0B}' || c == '\U{0C}' || c == '\r'
    || c == '\U{85}' || c == '\U{A0}' || c == '\U{1680}'
    || ('\U{2000}' <= c <= '\U{200A}')
    || c == '\U{2028}' || c == '\U{2029}' || c == '\U{202F}' || c == '\U{205F}' || c == '\U{3000}'
  }

  /** Drops the leading white space. */
  function TrimLeft(s: string): (r: string)
    ensures |r| <= |s| && r == s[|s| - |r|..]
    ensures forall k :: 0 <= k < |s| - |r| ==> IsSpace(s[k])
    ensures r == [] || !IsSpace(r[0])
  {
    if s != [] && IsSpace(s[0]) then
      var r := TrimLeft(s[1..]);
      assert forall k :: 1 <= k < |s| - |r| ==> s[k] == s[1..][k - 1];
      assert s[|s| - |r|..] == s[1..][|s| - 1 - |r|..];
      r
    else s
  }

  /** Drops the trailing white space. */
  function TrimRight(s: string): (r: string)
    ensures |r| <= |s| && r == s[..|r|]
    ensures forall k :: |r| <= k < |s| ==> IsSpace(s[k])
    ensures r == [] || !IsSpace(r[|r| - 1])
  {
    if s != [] && IsSpace(s[|s| - 1]) then
      var r := TrimRight(s[..|s| - 1]);
      assert forall k :: |r| <= k < |s| - 1 ==> s[k] == s[..|s| - 1][k];
      assert s[..|r|] == s[..|s| - 1][..|r|];
      r
    else s
  }

  /** strings.TrimSpace: the result neither starts nor ends with white space,
      and it is empty only when the input was all white space. */
  function TrimSpace(s: string): (r: string)
    ensures Trimmed(r)
    ensures |r| <= |s|
    ensures forall i :: 0 <= i < |s| && !IsSpace(s[i]) ==> r != []
    ensures exists i, j :: TrimmedAt(s, r, i, j)
  {
    var l := TrimLeft(s);
    var r := TrimRight(l);
    assert l != [] ==> r != [] && r[0] == l[0];
    assert forall i :: 0 <= i < |s| && !IsSpace(s[i]) ==> l != [];
    TrimBothEnds(s, l, r);
    r
  }

  /** Trimming the left and then the right end leaves a slice of the input. */
  lemma TrimBothEnds(s: string, l: string, r: string)
    requires |l| <= |s| && l == s[|s| - |l|..]
    requires forall k :: 0 <= k < |s| - |l| ==> IsSpace(s[k])
    requires |r| <= |l| && r == l[..|r|]
    requires forall k :: |r| <= k < |l| ==> IsSpace(l[k])
    ensures TrimmedAt(s, r, |s| - |l|, |s| - |l| + |r|)
  {
    var i := |s| - |l|;
    assert r == s[i..i + |r|];
    forall k | i + |r| <= k < |s|
      ensures IsSpace(s[k])
    {
      assert s[k] == l[k - i];
    }
  }

  /** r is s[i..j], and all that lies outside i..j is white space. */
  predicate TrimmedAt(s: string, r: string, i: int, j: int)
  {
    0 <= i <= j <= |s| && r == s[i..j] &&
    (forall k :: 0 <= k < i ==> IsSpace(s[k])) &&
    (forall k :: j <= k < |s| ==> IsSpace(s[k]))
  }

  /** Lower-casing twice is lower-casing once. */
  lemma ToLowerIdempotent(s: string)
    ensures ToLower(ToLower(s)) == ToLower(s)
  {
  }

  /** Lower-casing neither creates nor removes white space. */
  lemma LowerCharSpace(c: char)
    ensures IsSpace(LowerChar(c)) <==> IsSpace(c)
  {
  }

  /** A string without white space at either end is its own TrimSpace. */
  lemma TrimSpaceFixed(s: string)
    requires s == [] || (!IsSpace(s[0]) && !IsSpace(s[|s| - 1]))
    ensures TrimSpace(s) == s
  {
    assert TrimLeft(s) == s;
    assert TrimRight(s) == s;
  }

  /** Trimming after lower-casing a trimmed string changes nothing. */
  lemma TrimSpaceToLower(s: string)
    requires s == [] || (!IsSpace(s[0]) && !IsSpace(s[|s| - 1]))
    ensures TrimSpace(ToLower(s)) == ToLower(s)
  {
    ToLowerEnds(s);
    TrimSpaceFixed(ToLower(s));
  }

  /** Trimming, then lower-casing: no white space at either end, no ASCII capital, and
      empty exactly when the input is all white space. */
  lemma TrimLower(s: string)
    ensures |ToLower(TrimSpace(s))| <= |s|
    ensures Trimmed(ToLower(TrimSpace(s)))
    ensures NoCapital(ToLower(TrimSpace(s)))
    ensures ToLower(TrimSpace(s)) == [] <==> Blank(s)
  {
    var t := TrimSpace(s);
    assert Trimmed(ToLower(t)) by {
      ToLowerEnds(t);
    }
    assert t == [] <==> Blank(s) by {
      TrimSpaceBlank(s);
    }
  }

  /** Every character of `s` is white space. */
  predicate Blank(s: string)
  {
    forall i :: 0 <= i < |s| ==> IsSpace(s[i])
  }

  /** Neither end of `s` is white space. */
  predicate Trimmed(s: string)
  {
    s == [] || (!IsSpace(s[0]) && !IsSpace(s[|s| - 1]))
  }


  /** Lower-casing a string without white space at either end keeps it so. */
  lemma ToLowerEnds(s: string)
    requires Trimmed(s)
    ensures Trimmed(ToLower(s))
  {
    var t := ToLower(s);
    if s != [] {
      LowerCharSpace(s[0]);
      LowerCharSpace(s[|s| - 1]);
      assert t[0] == LowerChar(s[0]) && t[|t| - 1] == LowerChar(s[|s| - 1]);
    }
  }

  /** TrimSpace leaves nothing exactly when the input is all white space. */
  lemma TrimSpaceBlank(s: string)
    ensures TrimSpace(s) == [] <==> Blank(s)
  {
    if TrimSpace(s) == [] {
      var i, j :| TrimmedAt(s, [], i, j);
      assert i == j;
    }
  }
}

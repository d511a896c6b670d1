/**
 * The two Python `str` operations the pipeline uses, on `seq<char>`:
 * `strip(c)` and `replace('\\"', '"')`. Beside them are specification
 * helpers the pipeline itself does not call: `EscapeQuotes`, the escaping
 * that the `replace` undoes, and `JoinLines`/`SplitLines`, newline joining
 * and its inverse, used to describe the prompt's layout and read it back.
 */
module Strings {

  /** Regrouping a concatenation (used to keep the proofs below cheap). */
  lemma ConcatAssoc<T>(a: seq<T>, b: seq<T>, c: seq<T>)
    ensures (a + b) + c == a + (b + c)
  {
  }

  /** `s.lstrip(c)`: drops every leading `c`. */
  function LStrip(s: string, c: char): (r: string)
    ensures |r| <= |s| && r == s[|s| - |r|..]
    ensures forall k :: 0 <= k < |s| - |r| ==> s[k] == c
    ensures r == [] || r[0] != c
    decreases |s|
  {
    if s != [] && s[0] == c then LStrip(s[1..], c) else s
  }

  /** `s.rstrip(c)`: drops every trailing `c`. */
  function RStrip(s: string, c: char): (r: string)
    ensures |r| <= |s| && r == s[..|r|]
    ensures forall k :: |r| <= k < |s| ==> s[k] == c
    ensures r == [] || r[|r| - 1] != c
    decreases |s|
  {
    if s != [] && s[|s| - 1] == c then RStrip(s[..|s| - 1], c) else s
  }

  /**
   * `s.strip(c)`: removes ALL leading and trailing occurrences of `c`, not
   * one layer; what remains neither starts nor ends with `c`.
   */
  function Strip(s: string, c: char): (r: string)
    ensures |r| <= |s|
    ensures r == [] || (r[0] != c && r[|r| - 1] != c)
  {
    var left := LStrip(s, c);
    var r := RStrip(left, c);
    assert r == [] || r[0] == left[0];
    r
  }

  /**
   * What `strip(c)` keeps is the slice of `s` that starts after the run of
   * `c` at its start.
   */
  lemma StripKeepsMiddleSlice(s: string, c: char)
    ensures |s| - |LStrip(s, c)| + |Strip(s, c)| <= |s|
    ensures Strip(s, c) == s[|s| - |LStrip(s, c)|..|s| - |LStrip(s, c)| + |Strip(s, c)|]
  {
    var left := LStrip(s, c);
    var i := |s| - |left|;
    var r := RStrip(left, c);
    assert left == s[i..];
    assert r == left[..|r|];
    SuffixPrefixSlice(s, i, |r|);
  }

  /** Everything `strip(c)` removes around that slice is `c`: only enclosing `c` go. */
  lemma StripRemovesOnlyEnclosing(s: string, c: char)
    ensures forall k :: 0 <= k < |s| - |LStrip(s, c)| ==> s[k] == c
    ensures forall k :: |s| - |LStrip(s, c)| + |Strip(s, c)| <= k < |s| ==> s[k] == c
  {
    var left := LStrip(s, c);
    var i := |s| - |left|;
    var r := RStrip(left, c);
    assert left == s[i..];
    forall k | i + |r| <= k < |s| ensures s[k] == c {
      assert s[k] == left[k - i];
    }
  }

  /** A prefix of a suffix is a middle slice. */
  lemma SuffixPrefixSlice<T>(s: seq<T>, i: nat, n: nat)
    requires i + n <= |s|
    ensures s[i..][..n] == s[i..i + n]
  {
  }

  /** A string that neither starts nor ends with `c` is left as it is. */
  lemma StripUnchanged(s: string, c: char)
    ensures s == [] || (s[0] != c && s[|s| - 1] != c) ==> Strip(s, c) == s
  {
  }

  /** Stripping twice is stripping once. */
  lemma StripIdempotent(s: string, c: char)
    ensures Strip(Strip(s, c), c) == Strip(s, c)
  {
    StripUnchanged(Strip(s, c), c);
  }

  /** A run of `c` in front of a text that does not start with `c` is all that `lstrip` removes. */
  lemma {:induction false} LStripRun(run: string, rest: string, c: char)
    requires forall k :: 0 <= k < |run| ==> run[k] == c
    requires rest == [] || rest[0] != c
    ensures LStrip(run + rest, c) == rest
    decreases |run|
  {
    if run == [] {
      assert run + rest == rest;
    } else {
      assert (run + rest)[1..] == run[1..] + rest;
      LStripRun(run[1..], rest, c);
    }
  }

  /** A run of `c` after a text that does not end with `c` is all that `rstrip` removes. */
  lemma {:induction false} RStripRun(rest: string, run: string, c: char)
    requires forall k :: 0 <= k < |run| ==> run[k] == c
    requires rest == [] || rest[|rest| - 1] != c
    ensures RStrip(rest + run, c) == rest
    decreases |run|
  {
    if run == [] {
      assert rest + run == rest;
    } else {
      var s := rest + run;
      assert s[..|s| - 1] == rest + run[..|run| - 1];
      RStripRun(rest, run[..|run| - 1], c);
    }
  }

  /** `strip(c)` removes any number of enclosing layers of `c`, not just one. */
  lemma StripLayers(left: string, inner: string, right: string, c: char)
    requires forall k :: 0 <= k < |left| ==> left[k] == c
    requires forall k :: 0 <= k < |right| ==> right[k] == c
    requires inner == [] || (inner[0] != c && inner[|inner| - 1] != c)
    ensures Strip(left + inner + right, c) == inner
  {
    var s := left + inner + right;
    if inner == [] {
      assert forall k :: 0 <= k < |s| ==> s[k] == c;
      LStripRun(s, [], c);
      assert s + [] == s;
    } else {
      assert s == left + (inner + right);
      LStripRun(left, inner + right, c);
      RStripRun(inner, right, c);
    }
  }

  /**
   * `s.replace('\\"', '"')`: scanning left to right, every backslash that is
   * followed by a double quote is dropped; the pairs do not overlap.
   */
  function UnescapeQuotes(s: string): (r: string)
    ensures |r| <= |s|
    decreases |s|
  {
    if s == [] then []
    else if |s| >= 2 && s[0] == '\\' && s[1] == '"' then ['"'] + UnescapeQuotes(s[2..])
    else [s[0]] + UnescapeQuotes(s[1..])
  }

  /** Without a quote there is no pair to replace: the text is unchanged. */
  lemma {:induction false} UnescapeWithoutQuote(s: string)
    ensures '"' !in s ==> UnescapeQuotes(s) == s
    decreases |s|
  {
    if s != [] && '"' !in s {
      assert '"' !in s[1..];
      UnescapeWithoutQuote(s[1..]);
    }
  }

  /** A last character that is not a quote is still the last character after unescaping. */
  lemma {:induction false} UnescapeKeepsLast(s: string)
    ensures s != [] && s[|s| - 1] != '"' ==>
              UnescapeQuotes(s) != [] && UnescapeQuotes(s)[|UnescapeQuotes(s)| - 1] == s[|s| - 1]
    decreases |s|
  {
    if |s| >= 2 && s[|s| - 1] != '"' {
      if s[0] == '\\' && s[1] == '"' {
        assert s[2..][|s[2..]| - 1] == s[|s| - 1];
        UnescapeKeepsLast(s[2..]);
      } else {
        assert s[1..][|s[1..]| - 1] == s[|s| - 1];
        UnescapeKeepsLast(s[1..]);
      }
    }
  }

  /** Specification helper: the escaping that `UnescapeQuotes` undoes, every `"` becoming `\"`. */
  function EscapeQuotes(t: string): (r: string)
    ensures |r| >= |t|
    ensures t != [] ==> r != [] && r[0] != '"'
    ensures t != [] && t[|t| - 1] != '"' ==> r[|r| - 1] == t[|t| - 1]
    decreases |t|
  {
    if t == [] then []
    else (if t[0] == '"' then ['\\', '"'] else [t[0]]) + EscapeQuotes(t[1..])
  }

  /** A backslash-quote pair at the front becomes one quote. */
  lemma UnescapePair(rest: string)
    ensures UnescapeQuotes(['\\', '"'] + rest) == ['"'] + UnescapeQuotes(rest)
  {
    assert (['\\', '"'] + rest)[2..] == rest;
  }

  /** Any other first character is kept. */
  lemma UnescapeKeep(c: char, rest: string)
    requires c != '\\' || rest == [] || rest[0] != '"'
    ensures UnescapeQuotes([c] + rest) == [c] + UnescapeQuotes(rest)
  {
    assert ([c] + rest)[1..] == rest;
  }

  /** Unescaping an escaped text gives back its first character, then the rest. */
  lemma UnescapeEscapeStep(t: string, u: string)
    requires t != []
    requires u == [] || u[0] != '"'
    ensures UnescapeQuotes(EscapeQuotes(t) + u) == [t[0]] + UnescapeQuotes(EscapeQuotes(t[1..]) + u)
  {
    var rest := EscapeQuotes(t[1..]) + u;
    var head := if t[0] == '"' then ['\\', '"'] else [t[0]];
    assert EscapeQuotes(t) == head + EscapeQuotes(t[1..]);
    ConcatAssoc(head, EscapeQuotes(t[1..]), u);
    if t[0] == '"' {
      UnescapePair(rest);
    } else {
      UnescapeKeep(t[0], rest);
    }
  }

  /**
   * Unescaping an escaped text followed by anything that does not start with
   * a quote gives back the text, backslashes in it included.
   */
  lemma {:induction false} UnescapeEscapeAppend(t: string, u: string)
    requires u == [] || u[0] != '"'
    ensures UnescapeQuotes(EscapeQuotes(t) + u) == t + UnescapeQuotes(u)
    decreases |t|
  {
    if t == [] {
      assert EscapeQuotes(t) + u == u;
    } else {
      UnescapeEscapeStep(t, u);
      UnescapeEscapeAppend(t[1..], u);
      ConcatAssoc([t[0]], t[1..], UnescapeQuotes(u));
      assert t == [t[0]] + t[1..];
    }
  }

  /** Unescaping undoes escaping. */
  lemma UnescapeEscapeRoundTrip(t: string)
    ensures UnescapeQuotes(EscapeQuotes(t)) == t
  {
    UnescapeEscapeAppend(t, []);
    assert EscapeQuotes(t) + [] == EscapeQuotes(t) && t + [] == t;
  }

  /** Escaping a concatenation escapes each part. */
  lemma {:induction false} EscapeQuotesAppend(t: string, u: string)
    ensures EscapeQuotes(t + u) == EscapeQuotes(t) + EscapeQuotes(u)
    decreases |t|
  {
    if t == [] {
      assert t + u == u;
    } else {
      assert (t + u)[0] == t[0] && (t + u)[1..] == t[1..] + u;
      EscapeQuotesAppend(t[1..], u);
    }
  }

  /** Specification helper: the lines with one newline between each two (Python's `"\n".join(lines)`). */
  function JoinLines(lines: seq<string>): (s: string)
    ensures lines != [] ==> |s| >= |lines[0]| && s[..|lines[0]|] == lines[0]
    decreases |lines|
  {
    if lines == [] then ""
    else if |lines| == 1 then lines[0]
    else lines[0] + "\n" + JoinLines(lines[1..])
  }

  /** Joining five lines puts one newline between each two. */
  lemma JoinFiveLines(a: string, b: string, c: string, d: string, e: string)
    ensures JoinLines([a, b, c, d, e]) == a + "\n" + b + "\n" + c + "\n" + d + "\n" + e
  {
    assert [a, b, c, d, e][1..] == [b, c, d, e];
    assert [b, c, d, e][1..] == [c, d, e];
    assert [c, d, e][1..] == [d, e];
    assert [d, e][1..] == [e];
    assert JoinLines([d, e]) == d + "\n" + e;
    assert JoinLines([c, d, e]) == c + "\n" + (d + "\n" + e);
    assert JoinLines([b, c, d, e]) == b + "\n" + (c + "\n" + (d + "\n" + e));
  }

  /**
   * Specification helper, the inverse of `JoinLines`: the pieces between
   * newlines, as Python's `s.split("\n")` gives them; never an empty list.
   */
  function SplitLines(s: string): (lines: seq<string>)
    ensures |lines| >= 1
    ensures forall k :: 0 <= k < |lines| ==> '\n' !in lines[k]
    decreases |s|
  {
    if s == [] then [""]
    else
      var rest := SplitLines(s[1..]);
      if s[0] == '\n' then [""] + rest
      else [[s[0]] + rest[0]] + rest[1..]
  }

  /** A piece without newline in front of a string becomes the start of its first line. */
  lemma {:induction false} SplitLinesPrefix(line: string, tail: string)
    requires '\n' !in line
    ensures SplitLines(line + tail) == [line + SplitLines(tail)[0]] + SplitLines(tail)[1..]
    decreases |line|
  {
    var parts := SplitLines(tail);
    if line == [] {
      assert line + tail == tail && line + parts[0] == parts[0];
      assert parts == [parts[0]] + parts[1..];
    } else {
      var s := line + tail;
      assert s[0] == line[0] && s[1..] == line[1..] + tail;
      SplitLinesPrefix(line[1..], tail);
      assert SplitLines(s) == [[line[0]] + (line[1..] + parts[0])] + parts[1..];
      ConcatAssoc([line[0]], line[1..], parts[0]);
      assert [line[0]] + line[1..] == line;
    }
  }

  /** Splitting at newlines undoes joining lines that contain none. */
  lemma {:induction false} SplitJoinLines(lines: seq<string>)
    requires lines != []
    requires forall k :: 0 <= k < |lines| ==> '\n' !in lines[k]
    ensures SplitLines(JoinLines(lines)) == lines
    decreases |lines|
  {
    if |lines| == 1 {
      SplitLinesPrefix(lines[0], "");
      assert lines[0] + "" == lines[0];
    } else {
      var rest := JoinLines(lines[1..]);
      SplitJoinLines(lines[1..]);
      assert JoinLines(lines) == lines[0] + ("\n" + rest);
      SplitLinesPrefix(lines[0], "\n" + rest);
      assert ("\n" + rest)[1..] == rest;
      assert lines[0] + "" == lines[0];
      assert lines == [lines[0]] + lines[1..];
    }
  }
}

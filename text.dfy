/**
 * Character-level string helpers shared by the formatter, the text cleaner
 * and the speech chunker: Python's notion of whitespace, strip/lstrip/rstrip,
 * substring containment, single-character replacement, joining, and the
 * whitespace-separated words of a string (what `str.split()` returns).
 */
module Text {

  /** The characters for which Python's `str.isspace()` holds; these are also
      what `\s`, `str.strip()` and `str.split()` treat as whitespace. */
  predicate IsSpace(c: char) {
    || c == ' ' || c == '\t' || c == '\n' || c == '\r' || c == '\U{B}' || c == '\U{C}'
    || ('\U{1C}' <= c <= '\U{1F}') || c == '\U{85}' || c == '\U{A0}' || c == '\U{1680}'
    || ('\U{2000}' <= c <= '\U{200A}') || c == '\U{2028}' || c == '\U{2029}'
    || c == '\U{202F}' || c == '\U{205F}' || c == '\U{3000}'
  }

  predicate AllSpace(s: string) {
    forall i :: 0 <= i < |s| ==> IsSpace(s[i])
  }

  predicate NoSpace(s: string) {
    forall i :: 0 <= i < |s| ==> !IsSpace(s[i])
  }

  /** Python's `s.lstrip()`: drops the leading whitespace run. */
  function LStrip(s: string): (r: string)
    ensures |r| <= |s| && r == s[|s| - |r|..]
    ensures AllSpace(s[..|s| - |r|])
    ensures r == [] || !IsSpace(r[0])
    decreases |s|
  {
    if s != [] && IsSpace(s[0]) then
      var t := s[1..];
      var r := LStrip(t);
      var k := |t| - |r|;
      assert s[k + 1..] == t[k..];
      assert forall i :: 1 <= i < k + 1 ==> s[i] == t[i - 1];
      r
    else s
  }

  /** Python's `s.rstrip()`: drops the trailing whitespace run. */
  function RStrip(s: string): (r: string)
    ensures |r| <= |s| && r == s[..|r|]
    ensures AllSpace(s[|r|..])
    ensures r == [] || !IsSpace(r[|r| - 1])
    decreases |s|
  {
    if s != [] && IsSpace(s[|s| - 1]) then
      var r := RStrip(s[..|s| - 1]);
      assert s[|r|..] == s[..|s| - 1][|r|..] + [s[|s| - 1]];
      r
    else s
  }

  /** Python's `s.strip()`. */
  function Strip(s: string): (r: string)
    ensures |r| <= |s|
    ensures r == [] || (!IsSpace(r[0]) && !IsSpace(r[|r| - 1]))
  {
    RStrip(LStrip(s))
  }

  lemma {:induction false} LStripAllSpace(s: string)
    requires AllSpace(s)
    ensures LStrip(s) == []
    decreases |s|
  {
    if s != [] {
      LStripAllSpace(s[1..]);
    }
  }

  /** Stripping leaves nothing exactly when the string is all whitespace. */
  lemma StripAllSpace(s: string)
    ensures Strip(s) == [] <==> AllSpace(s)
  {
    var l := LStrip(s);
    if AllSpace(s) {
      LStripAllSpace(s);
    }
    if Strip(s) == [] {
      assert AllSpace(l[0..]);
      assert s == s[..|s| - |l|] + l;
    }
  }

  /** Stripping a string that has no whitespace at either end changes nothing. */
  lemma StripTrimmed(s: string)
    requires s == [] || (!IsSpace(s[0]) && !IsSpace(s[|s| - 1]))
    ensures Strip(s) == s
  {
  }

  predicate StartsWith(s: string, p: string) {
    |p| <= |s| && s[..|p|] == p
  }

  predicate EndsWith(s: string, p: string) {
    |p| <= |s| && s[|s| - |p|..] == p
  }

  lemma StartsEndsWith(a: string, b: string)
    ensures StartsWith(a + b, a) && EndsWith(a + b, b)
  {
    assert (a + b)[..|a|] == a;
    assert (a + b)[|a + b| - |b|..] == b;
  }

  ghost predicate ContainsAt(s: string, t: string, i: int) {
    0 <= i && i + |t| <= |s| && s[i..i + |t|] == t
  }

  /** Python's `t in s` for strings. */
  ghost predicate Contains(s: string, t: string) {
    exists i :: ContainsAt(s, t, i)
  }

  /** `t in s`, computed: `t` is a prefix of `s` or of one of its suffixes. */
  function HasInfix(s: string, t: string): bool
    decreases |s|
  {
    if StartsWith(s, t) then true
    else if s == [] then false
    else HasInfix(s[1..], t)
  }

  lemma ContainsAtTail(s: string, t: string, i: int)
    requires s != [] && 0 <= i
    ensures ContainsAt(s[1..], t, i) <==> ContainsAt(s, t, i + 1)
  {
    if 0 <= i && i + 1 + |t| <= |s| {
      assert s[1..][i..i + |t|] == s[i + 1..i + 1 + |t|];
    }
  }

  /** The computed search agrees with `Contains`. */
  lemma {:induction false} HasInfixContains(s: string, t: string)
    ensures HasInfix(s, t) <==> Contains(s, t)
    decreases |s|
  {
    if StartsWith(s, t) {
      assert ContainsAt(s, t, 0);
    } else if s == [] {
      assert forall i :: !ContainsAt(s, t, i);
    } else {
      HasInfixContains(s[1..], t);
      if Contains(s[1..], t) {
        var i :| ContainsAt(s[1..], t, i);
        ContainsAtTail(s, t, i);
      }
      if Contains(s, t) {
        var i :| ContainsAt(s, t, i);
        assert i != 0;
        ContainsAtTail(s, t, i - 1);
      }
    }
  }

  lemma ContainsPrefix(s: string, t: string, u: string)
    requires s == t + u
    ensures Contains(s, t)
  {
    assert ContainsAt(s, t, 0);
  }

  lemma ContainsInfix(s: string, a: string, t: string, b: string)
    requires s == a + t + b
    ensures Contains(s, t)
  {
    assert s[|a|..|a| + |t|] == t;
    assert ContainsAt(s, t, |a|);
  }

  /** A string holding `t + u` holds `t` and `t + u`. */
  lemma ContainsInfixHead(s: string, a: string, t: string, u: string, b: string)
    requires s == a + (t + u) + b
    ensures Contains(s, t + u) && Contains(s, t)
  {
    ContainsInfix(s, a, t + u, b);
    assert s == a + t + (u + b);
    ContainsInfix(s, a, t, u + b);
  }

  /** A string that lacks some character of `t` cannot contain `t`. */
  lemma NotContainsMissingChar(s: string, t: string, k: nat)
    requires k < |t|
    requires forall i :: 0 <= i < |s| ==> s[i] != t[k]
    ensures !Contains(s, t)
  {
    forall i ensures !ContainsAt(s, t, i) {
      if 0 <= i && i + |t| <= |s| {
        assert s[i..i + |t|][k] == s[i + k] != t[k];
      }
    }
  }

  /** Python's `s.replace(a, b)` for single characters. */
  function ReplaceChar(s: string, a: char, b: char): (r: string)
    ensures |r| == |s|
    ensures forall i :: 0 <= i < |s| ==> r[i] == (if s[i] == a then b else s[i])
  {
    seq(|s|, i requires 0 <= i < |s| => if s[i] == a then b else s[i])
  }

  /** Python's `sep.join(parts)`. */
  function Join(sep: string, parts: seq<string>): string
    decreases |parts|
  {
    if parts == [] then ""
    else if |parts| == 1 then parts[0]
    else parts[0] + sep + Join(sep, parts[1..])
  }

  function Concat<T>(ss: seq<seq<T>>): seq<T>
    decreases |ss|
  {
    if ss == [] then [] else ss[0] + Concat(ss[1..])
  }

  lemma ConcatSingle<T>(s: seq<T>)
    ensures Concat([s]) == s
  {
    assert [s][1..] == [];
  }

  lemma ConcatAppend<T>(a: seq<seq<T>>, b: seq<seq<T>>)
    ensures Concat(a + b) == Concat(a) + Concat(b)
    decreases |a|
  {
    if a == [] {
      assert a + b == b;
    } else {
      assert (a + b)[0] == a[0];
      assert (a + b)[1..] == a[1..] + b;
      ConcatAppend(a[1..], b);
      calc {
        Concat(a + b);
        a[0] + Concat(a[1..] + b);
        a[0] + (Concat(a[1..]) + Concat(b));
        (a[0] + Concat(a[1..])) + Concat(b);
      }
    }
  }

  /** The visible characters of `s`: everything but whitespace, in order. */
  function NonSpace(s: string): (r: string)
    ensures |r| <= |s|
    decreases |s|
  {
    if s == [] then [] else (if IsSpace(s[0]) then [] else [s[0]]) + NonSpace(s[1..])
  }

  lemma {:induction false} NonSpaceAppend(a: string, b: string)
    ensures NonSpace(a + b) == NonSpace(a) + NonSpace(b)
    decreases |a|
  {
    if a != [] {
      assert (a + b)[1..] == a[1..] + b;
      NonSpaceAppend(a[1..], b);
    } else {
      assert a + b == b;
    }
  }

  lemma {:induction false} NonSpaceAllSpace(s: string)
    requires AllSpace(s)
    ensures NonSpace(s) == []
    decreases |s|
  {
    if s != [] {
      NonSpaceAllSpace(s[1..]);
    }
  }

  /** Dropping leading whitespace keeps every visible character. */
  lemma NonSpaceLStrip(s: string)
    ensures NonSpace(LStrip(s)) == NonSpace(s)
  {
    var l := LStrip(s);
    assert s == s[..|s| - |l|] + l;
    NonSpaceAppend(s[..|s| - |l|], l);
    NonSpaceAllSpace(s[..|s| - |l|]);
  }

  // ---------------------------------------------------------------------
  // Words: what Python's `str.split()` (no argument) returns.
  // ---------------------------------------------------------------------

  /** Length of the whitespace-free prefix of `s`. */
  function WordEnd(s: string): (k: nat)
    ensures k <= |s| && NoSpace(s[..k])
    ensures k < |s| ==> IsSpace(s[k])
    decreases |s|
  {
    if s == [] || IsSpace(s[0]) then 0 else 1 + WordEnd(s[1..])
  }

  /** The maximal whitespace-free runs of `s`, in order. */
  function Words(s: string): (ws: seq<string>)
    decreases |s|
  {
    if s == [] then []
    else if IsSpace(s[0]) then Words(s[1..])
    else
      var k := WordEnd(s);
      [s[..k]] + Words(s[k..])
  }

  lemma WordEndAppend(a: string, b: string)
    requires (a != [] && IsSpace(a[|a| - 1])) || b == [] || IsSpace(b[0])
    ensures WordEnd(a + b) == WordEnd(a)
    decreases |a|
  {
    if a != [] && !IsSpace(a[0]) {
      var ab := a + b;
      assert ab[0] == a[0];
      assert ab[1..] == a[1..] + b;
      var t := a[1..];
      assert t == [] || t[|t| - 1] == a[|a| - 1];
      WordEndAppend(t, b);
      assert WordEnd(ab) == 1 + WordEnd(ab[1..]);
    }
  }

  /** Words split cleanly at a whitespace boundary. */
  lemma {:induction false} WordsAppend(a: string, b: string)
    requires a == [] || b == [] || IsSpace(a[|a| - 1]) || IsSpace(b[0])
    ensures Words(a + b) == Words(a) + Words(b)
    decreases |a|
  {
    if a == [] {
      assert a + b == b;
    } else if b == [] {
      assert a + b == a;
    } else if IsSpace(a[0]) {
      WordsAppendSpace(a, b);
    } else {
      WordsAppendWord(a, b);
    }
  }

  lemma {:induction false} WordsAppendSpace(a: string, b: string)
    requires a != [] && b != [] && IsSpace(a[0])
    requires IsSpace(a[|a| - 1]) || IsSpace(b[0])
    ensures Words(a + b) == Words(a) + Words(b)
    decreases |a|, 0
  {
    var ab := a + b;
    assert ab[0] == a[0];
    assert ab[1..] == a[1..] + b;
    var t := a[1..];
    assert t == [] || t[|t| - 1] == a[|a| - 1];
    WordsAppend(t, b);
  }

  lemma {:induction false} WordsAppendWord(a: string, b: string)
    requires a != [] && b != [] && !IsSpace(a[0])
    requires IsSpace(a[|a| - 1]) || IsSpace(b[0])
    ensures Words(a + b) == Words(a) + Words(b)
    decreases |a|, 0
  {
    var k := WordEnd(a);
    WordEndAppend(a, b);
    var ab := a + b;
    assert ab[0] == a[0];
    assert Words(ab) == [ab[..k]] + Words(ab[k..]);
    assert ab[..k] == a[..k];
    assert ab[k..] == a[k..] + b;
    var rest := a[k..];
    assert rest == [] || rest[|rest| - 1] == a[|a| - 1];
    WordsAppend(rest, b);
  }

  lemma {:induction false} WordsAllSpace(s: string)
    requires AllSpace(s)
    ensures Words(s) == []
    decreases |s|
  {
    if s != [] {
      WordsAllSpace(s[1..]);
    }
  }

  lemma {:induction false} WordEndNoSpace(w: string)
    requires NoSpace(w)
    ensures WordEnd(w) == |w|
    decreases |w|
  {
    if w != [] {
      WordEndNoSpace(w[1..]);
    }
  }

  lemma WordsOfWord(w: string)
    requires w != [] && NoSpace(w)
    ensures Words(w) == [w]
  {
    WordEndNoSpace(w);
    assert w[..|w|] == w && w[|w|..] == [];
  }

  lemma WordsSpacePrefix(p: string, s: string)
    requires AllSpace(p)
    ensures Words(p + s) == Words(s)
  {
    WordsAllSpace(p);
    if p != [] {
      assert IsSpace(p[|p| - 1]);
    }
    WordsAppend(p, s);
  }

  lemma WordsSpaceSuffix(s: string, q: string)
    requires AllSpace(q)
    ensures Words(s + q) == Words(s)
  {
    WordsAllSpace(q);
    if q != [] {
      assert IsSpace(q[0]);
    }
    WordsAppend(s, q);
    assert Words(s) + [] == Words(s);
  }

  lemma WordsLStrip(s: string)
    ensures Words(LStrip(s)) == Words(s)
  {
    var l := LStrip(s);
    var n := |s| - |l|;
    assert s == s[..n] + l;
    WordsSpacePrefix(s[..n], l);
  }

  lemma WordsRStrip(s: string)
    ensures Words(RStrip(s)) == Words(s)
  {
    var r := RStrip(s);
    assert s == r + s[|r|..];
    WordsSpaceSuffix(r, s[|r|..]);
  }

  /** Dropping outer whitespace does not change the words. */
  lemma WordsStrip(s: string)
    ensures Words(LStrip(s)) == Words(s)
    ensures Words(Strip(s)) == Words(s)
  {
    WordsLStrip(s);
    WordsRStrip(LStrip(s));
  }

  /** Joining two strings with a single space concatenates their words. */
  lemma WordsSpaceJoin(a: string, b: string)
    ensures Words(a + " " + b) == Words(a) + Words(b)
  {
    WordsAppend(a, " " + b);
    assert a + " " + b == a + (" " + b);
    WordsAppend(" ", b);
    WordsAllSpace(" ");
  }

  /** Every word is non-empty and whitespace-free. */
  lemma {:induction false} WordsShape(s: string)
    ensures forall w :: w in Words(s) ==> w != [] && NoSpace(w)
    decreases |s|
  {
    if s != [] {
      if IsSpace(s[0]) {
        WordsShape(s[1..]);
      } else {
        WordsShape(s[WordEnd(s)..]);
      }
    }
  }

  /** A string with no whitespace at its ends is empty or has a first word. */
  lemma WordsNonEmpty(s: string)
    requires s != [] && !IsSpace(s[0])
    ensures Words(s) != []
  {
  }

  // ---------------------------------------------------------------------
  // Searching and splitting on one character
  // ---------------------------------------------------------------------

  /** Index of the first `c` in `s`, or `|s|` if there is none. */
  function IndexOf(s: string, c: char): (k: nat)
    ensures k <= |s|
    ensures forall i :: 0 <= i < k ==> s[i] != c
    ensures k < |s| ==> s[k] == c
    decreases |s|
  {
    if s == [] then 0 else if s[0] == c then 0 else 1 + IndexOf(s[1..], c)
  }

  lemma {:induction false} IndexOfAbsent(s: string, c: char)
    requires forall i :: 0 <= i < |s| ==> s[i] != c
    ensures IndexOf(s, c) == |s|
    decreases |s|
  {
    if s != [] {
      IndexOfAbsent(s[1..], c);
    }
  }

  lemma {:induction false} IndexOfAfter(a: string, b: string, c: char)
    requires forall i :: 0 <= i < |a| ==> a[i] != c
    requires b != [] && b[0] == c
    ensures IndexOf(a + b, c) == |a|
    decreases |a|
  {
    if a == [] {
      assert a + b == b;
    } else {
      assert (a + b)[1..] == a[1..] + b;
      IndexOfAfter(a[1..], b, c);
    }
  }

  /** Python's `s.split(c)` for a single character. */
  function SplitOn(s: string, c: char): (parts: seq<string>)
    ensures parts != []
    decreases |s|
  {
    var k := IndexOf(s, c);
    if k == |s| then [s] else [s[..k]] + SplitOn(s[k + 1..], c)
  }

  /** Splitting undoes joining when no part holds the separator. */
  lemma {:induction false} SplitJoinRoundTrip(parts: seq<string>, c: char)
    requires parts != []
    requires forall p, i :: p in parts && 0 <= i < |p| ==> p[i] != c
    ensures SplitOn(Join([c], parts), c) == parts
    decreases |parts|
  {
    if |parts| == 1 {
      IndexOfAbsent(parts[0], c);
    } else {
      var j := Join([c], parts);
      var rest := Join([c], parts[1..]);
      assert j == parts[0] + ([c] + rest);
      IndexOfAfter(parts[0], [c] + rest, c);
      assert j[..|parts[0]|] == parts[0];
      assert j[|parts[0]| + 1..] == rest;
      SplitJoinRoundTrip(parts[1..], c);
    }
  }
}

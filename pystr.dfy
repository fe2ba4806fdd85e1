/** The Python `str` and `list` built-ins that build-info.py relies on, over `seq<char>`. */
module PyStr {
  import opened Wrappers

  /** Python's `str.isspace` for one character: the set `str.split()` and `str.strip()` use. */
  predicate IsSpace(c: char) {
    || ('\t' <= c <= '\r')
    || ('\U{1C}' <= c <= '\U{1F}')
    || c == ' ' || c == '\U{85}' || c == '\U{A0}' || c == '\U{1680}'
    || ('\U{2000}' <= c <= '\U{200A}')
    || c == '\U{2028}' || c == '\U{2029}' || c == '\U{202F}' || c == '\U{205F}' || c == '\U{3000}'
  }

  predicate NoSpace(s: string) {
    forall i :: 0 <= i < |s| ==> !IsSpace(s[i])
  }

  /** A piece as `str.split()` yields it: non-empty and free of whitespace. */
  predicate IsToken(t: string) {
    |t| > 0 && NoSpace(t)
  }

  predicate AllTokens(ts: seq<string>) {
    forall k :: 0 <= k < |ts| ==> IsToken(ts[k])
  }

  /** Regrouping a concatenation, stated apart so that larger proofs need not search for it. */
  lemma AppendAssoc<T>(a: seq<T>, b: seq<T>, c: seq<T>)
    ensures a + b + c == a + (b + c)
  {
  }

  lemma EmptyAppend<T>(e: seq<T>, xs: seq<T>)
    requires e == []
    ensures e + xs == xs
  {
  }

  lemma EmptyAppendRight<T>(xs: seq<T>)
    ensures xs + [] == xs
  {
  }

  /** The first `m` elements, without their head, are the first `m - 1` of the tail. */
  lemma TakeTail<T>(xs: seq<T>, m: nat)
    requires 0 < m <= |xs|
    ensures xs[..m][0] == xs[0] && xs[..m][1..] == xs[1..][..m - 1]
  {
  }

  /** `s.startswith(p)` */
  predicate StartsWith(s: string, p: string) {
    |p| <= |s| && s[..|p|] == p
  }

  lemma StartsWithAppend(p: string, s: string)
    ensures StartsWith(p + s, p)
  {
    assert (p + s)[..|p|] == p;
  }

  /** `s.endswith(p)` */
  predicate EndsWith(s: string, p: string) {
    |p| <= |s| && s[|s| - |p|..] == p
  }

  /** `p in s`: `p` occurs somewhere in `s` (the empty string occurs everywhere). */
  predicate Contains(s: string, p: string)
    decreases |s|
  {
    StartsWith(s, p) || (s != [] && Contains(s[1..], p))
  }

  /** A pattern cannot start inside a prefix that lacks its first character. */
  lemma {:induction false} NotContainsAfter(a: string, b: string, p: string)
    requires p != [] && p[0] !in a && !Contains(b, p)
    ensures !Contains(a + b, p)
    decreases |a|
  {
    if a != [] {
      ConsAppend(a, b);
      assert !StartsWith(a + b, p) by {
        if |p| <= |a + b| { assert (a + b)[..|p|][0] == a[0]; }
      }
      NotContainsAfter(a[1..], b, p);
    } else {
      EmptyAppend(a, b);
    }
  }

  /** Length of the leading run of non-whitespace characters of `s`. */
  function WordLen(s: string): (n: nat)
    ensures n <= |s|
    ensures NoSpace(s[..n])
    ensures n < |s| ==> IsSpace(s[n])
  {
    if s == [] || IsSpace(s[0]) then 0 else 1 + WordLen(s[1..])
  }

  /** `s.split()`: the maximal runs of non-whitespace characters, in order. */
  function Split(s: string): (r: seq<string>)
    ensures AllTokens(r)
    decreases |s|
  {
    if s == [] then []
    else if IsSpace(s[0]) then Split(s[1..])
    else
      var n := WordLen(s);
      [s[..n]] + Split(s[n..])
  }

  /** `sep.join(parts)` */
  function Join(parts: seq<string>, sep: string): string {
    if parts == [] then ""
    else if |parts| == 1 then parts[0]
    else parts[0] + sep + Join(parts[1..], sep)
  }

  lemma {:induction false} WordLenOfToken(t: string, rest: string)
    requires IsToken(t)
    requires rest == [] || IsSpace(rest[0])
    ensures WordLen(t + rest) == |t|
    decreases |t|
  {
    assert (t + rest)[0] == t[0];
    if |t| > 1 {
      assert (t + rest)[1..] == t[1..] + rest;
      assert IsToken(t[1..]) by { assert forall i :: 0 <= i < |t| - 1 ==> t[1..][i] == t[i + 1]; }
      WordLenOfToken(t[1..], rest);
    } else {
      assert (t + rest)[1..] == rest;
    }
  }

  /** A token followed by whitespace (or nothing) splits off as one piece. */
  lemma SplitTokenThen(t: string, rest: string)
    requires IsToken(t)
    requires rest == [] || IsSpace(rest[0])
    ensures Split(t + rest) == [t] + Split(rest)
  {
    WordLenOfToken(t, rest);
    assert (t + rest)[..|t|] == t;
    assert (t + rest)[|t|..] == rest;
  }

  /** Round trip of the output format: splitting `" ".join(ts) + "\n"` gives back `ts`. */
  lemma {:induction false} SplitJoinLine(ts: seq<string>)
    requires AllTokens(ts)
    ensures Split(Join(ts, " ") + "\n") == ts
  {
    if ts == [] {
      assert Split("\n") == Split("") by { assert "\n"[1..] == ""; }
    } else if |ts| == 1 {
      SplitTokenThen(ts[0], "\n");
      assert Split("\n") == Split("") by { assert "\n"[1..] == ""; }
    } else {
      var tail := Join(ts[1..], " ") + "\n";
      assert Join(ts, " ") + "\n" == ts[0] + (" " + tail);
      SplitTokenThen(ts[0], " " + tail);
      assert (" " + tail)[1..] == tail;
      SplitJoinLine(ts[1..]);
    }
  }

  /** `s.lstrip()` */
  function LStrip(s: string): (r: string)
    ensures |r| <= |s| && r == s[|s| - |r|..]
    ensures r == [] || !IsSpace(r[0])
  {
    if s != [] && IsSpace(s[0]) then LStrip(s[1..]) else s
  }

  /** What `s.lstrip()` removes is whitespace only. */
  lemma {:induction false} LStripRemoves(s: string)
    ensures forall i :: 0 <= i < |s| - |LStrip(s)| ==> IsSpace(s[i])
    decreases |s|
  {
    if s != [] && IsSpace(s[0]) {
      LStripRemoves(s[1..]);
    }
  }

  /** `s.rstrip()` */
  function RStrip(s: string): (r: string)
    ensures |r| <= |s| && r == s[..|r|]
    ensures r == [] || !IsSpace(r[|r| - 1])
  {
    if s != [] && IsSpace(s[|s| - 1]) then RStrip(s[..|s| - 1]) else s
  }

  /** What `s.rstrip()` removes is whitespace only. */
  lemma {:induction false} RStripRemoves(s: string)
    ensures forall i :: |RStrip(s)| <= i < |s| ==> IsSpace(s[i])
    decreases |s|
  {
    if s != [] && IsSpace(s[|s| - 1]) {
      RStripRemoves(s[..|s| - 1]);
    }
  }

  /** `s.strip()` */
  function Strip(s: string): string {
    RStrip(LStrip(s))
  }

  /** `s.rstrip(c)` for a single character `c`. */
  function RStripChar(s: string, c: char): (r: string)
    ensures |r| <= |s| && r == s[..|r|]
    ensures r == [] || r[|r| - 1] != c
  {
    if s != [] && s[|s| - 1] == c then RStripChar(s[..|s| - 1], c) else s
  }

  /** What `s.rstrip(c)` removes is a run of `c` only. */
  lemma {:induction false} RStripCharRemoves(s: string, c: char)
    ensures forall i :: |RStripChar(s, c)| <= i < |s| ==> s[i] == c
    decreases |s|
  {
    if s != [] && s[|s| - 1] == c {
      RStripCharRemoves(s[..|s| - 1], c);
    }
  }

  /** Stripping a whitespace-free string changes nothing. */
  lemma StripNoSpace(s: string)
    requires NoSpace(s)
    ensures Strip(s) == s
  {
    assert LStrip(s) == s by {
      if s != [] { assert !IsSpace(s[0]); }
    }
    if s != [] { assert !IsSpace(s[|s| - 1]); }
  }

  /**
   * `s.replace(pat, rep)`: every occurrence of `pat`, found left to right without overlap,
   * becomes `rep`; an empty `pat` matches before every character and at the end.
   */
  function Replace(s: string, pat: string, rep: string): string
    decreases |s|
  {
    if pat == [] then
      if s == [] then rep else rep + [s[0]] + Replace(s[1..], pat, rep)
    else if StartsWith(s, pat) then rep + Replace(s[|pat|..], pat, rep)
    else if s == [] then []
    else [s[0]] + Replace(s[1..], pat, rep)
  }

  /** Replacing an absent (non-empty) pattern leaves the string as it is. */
  lemma {:induction false} ReplaceAbsent(s: string, pat: string, rep: string)
    requires pat != []
    requires !Contains(s, pat)
    ensures Replace(s, pat, rep) == s
    decreases |s|
  {
    if s != [] {
      ReplaceAbsent(s[1..], pat, rep);
      assert [s[0]] + s[1..] == s;
    }
  }

  /** A prefix holding no first character of the pattern passes through a replacement unchanged. */
  lemma {:induction false} ReplaceSkipPrefix(a: string, b: string, pat: string, rep: string)
    requires pat != [] && pat[0] !in a
    ensures Replace(a + b, pat, rep) == a + Replace(b, pat, rep)
    decreases |a|
  {
    if a != [] {
      assert (a + b)[0] == a[0];
      assert !StartsWith(a + b, pat) by {
        if |pat| <= |a + b| { assert (a + b)[..|pat|][0] == a[0]; }
      }
      assert (a + b)[1..] == a[1..] + b;
      assert pat[0] !in a[1..];
      ReplaceSkipPrefix(a[1..], b, pat, rep);
      assert a == [a[0]] + a[1..];
    } else {
      assert a + b == b;
    }
  }

  /** A string made of the pattern and a rest free of it becomes the replacement and that rest. */
  lemma ReplaceRooted(pat: string, rest: string, rep: string)
    requires pat != [] && !Contains(rest, pat)
    ensures Replace(pat + rest, pat, rep) == rep + rest
  {
    StartsWithAppend(pat, rest);
    assert (pat + rest)[|pat|..] == rest;
    ReplaceAbsent(rest, pat, rep);
  }

  /** A string that starts with the pattern starts, once replaced, with the replacement. */
  lemma ReplaceAtStart(s: string, pat: string, rep: string)
    requires StartsWith(s, pat)
    ensures StartsWith(Replace(s, pat, rep), rep)
  {
    if pat == [] {
      if s != [] {
        assert Replace(s, pat, rep) == rep + ([s[0]] + Replace(s[1..], pat, rep));
      }
    } else {
      assert Replace(s, pat, rep) == rep + Replace(s[|pat|..], pat, rep);
    }
  }

  /** Replacement keeps a string free of whitespace when the replacement is. */
  lemma {:induction false} ReplaceNoSpace(s: string, pat: string, rep: string)
    requires NoSpace(s) && NoSpace(rep)
    ensures NoSpace(Replace(s, pat, rep))
    ensures |s| > 0 && |rep| > 0 ==> |Replace(s, pat, rep)| > 0
    decreases |s|
  {
    if s != [] {
      assert NoSpace(s[1..]) by { assert forall i :: 0 <= i < |s| - 1 ==> s[1..][i] == s[i + 1]; }
      ReplaceNoSpace(s[1..], pat, rep);
      if pat != [] && StartsWith(s, pat) {
        assert NoSpace(s[|pat|..]) by {
          assert forall i :: 0 <= i < |s| - |pat| ==> s[|pat|..][i] == s[i + |pat|];
        }
        ReplaceNoSpace(s[|pat|..], pat, rep);
      }
    }
  }

  /**
   * `s.split(sep)` for a non-empty separator: the pieces between the occurrences of `sep`,
   * found left to right, including empty ones at the ends.
   */
  function SplitOn(s: string, sep: string): (parts: seq<string>)
    requires sep != []
    ensures |parts| >= 1
    decreases |s|
  {
    if StartsWith(s, sep) then [""] + SplitOn(s[|sep|..], sep)
    else if s == [] then [""]
    else
      var rest := SplitOn(s[1..], sep);
      [[s[0]] + rest[0]] + rest[1..]
  }

  /** `sep.join(s.split(sep)) == s` */
  lemma {:induction false} JoinSplitOn(s: string, sep: string)
    requires sep != []
    ensures Join(SplitOn(s, sep), sep) == s
    decreases |s|
  {
    if StartsWith(s, sep) {
      JoinSplitOn(s[|sep|..], sep);
      JoinSplitOnAtSep(s, sep);
    } else if s != [] {
      JoinSplitOn(s[1..], sep);
      JoinSplitOnAtChar(s, sep);
    }
  }

  /** The step of `JoinSplitOn` where `s` starts with the separator. */
  lemma {:induction false} JoinSplitOnAtSep(s: string, sep: string)
    requires sep != [] && StartsWith(s, sep)
    requires Join(SplitOn(s[|sep|..], sep), sep) == s[|sep|..]
    ensures Join(SplitOn(s, sep), sep) == s
  {
    var rest := SplitOn(s[|sep|..], sep);
    assert SplitOn(s, sep) == [""] + rest;
    JoinCons("", rest, sep);
    StartsWithRest(s, sep);
  }

  /** A string that starts with `p` is `p` followed by the rest. */
  lemma StartsWithRest(s: string, p: string)
    requires StartsWith(s, p)
    ensures "" + p + s[|p|..] == s
  {
    assert s == s[..|p|] + s[|p|..];
  }

  /** The step of `JoinSplitOn` where `s` starts with a character that begins no separator. */
  lemma {:induction false} JoinSplitOnAtChar(s: string, sep: string)
    requires sep != [] && !StartsWith(s, sep) && s != []
    requires Join(SplitOn(s[1..], sep), sep) == s[1..]
    ensures Join(SplitOn(s, sep), sep) == s
  {
    var rest := SplitOn(s[1..], sep);
    assert SplitOn(s, sep) == [[s[0]] + rest[0]] + rest[1..];
    JoinPrepend(s[0], rest, sep);
    assert s == [s[0]] + s[1..];
  }

  lemma JoinCons(x: string, rest: seq<string>, sep: string)
    requires rest != []
    ensures Join([x] + rest, sep) == x + sep + Join(rest, sep)
  {
    assert ([x] + rest)[1..] == rest;
  }

  /** Putting a character in front of the first piece puts it in front of the joined string. */
  lemma JoinPrepend(c: char, parts: seq<string>, sep: string)
    requires parts != []
    ensures Join([[c] + parts[0]] + parts[1..], sep) == [c] + Join(parts, sep)
  {
    var tail := parts[1..];
    if tail != [] {
      JoinCons([c] + parts[0], tail, sep);
      JoinCons(parts[0], tail, sep);
      assert [parts[0]] + tail == parts;
    }
  }

  /** `s.replace(pat, rep) == rep.join(s.split(pat))` for a non-empty pattern. */
  lemma {:induction false} ReplaceIsJoinSplit(s: string, pat: string, rep: string)
    requires pat != []
    ensures Replace(s, pat, rep) == Join(SplitOn(s, pat), rep)
    decreases |s|
  {
    if StartsWith(s, pat) {
      ReplaceIsJoinSplit(s[|pat|..], pat, rep);
      var rest := SplitOn(s[|pat|..], pat);
      assert SplitOn(s, pat) == [""] + rest;
      JoinCons("", rest, rep);
      EmptyAppend("", rep);
    } else if s != [] {
      ReplaceIsJoinSplit(s[1..], pat, rep);
      var rest := SplitOn(s[1..], pat);
      assert SplitOn(s, pat) == [[s[0]] + rest[0]] + rest[1..];
      JoinPrepend(s[0], rest, rep);
    }
  }

  /** `s.split(sep)` has a second piece exactly when `sep in s`. */
  lemma {:induction false} SplitOnHasSecond(s: string, sep: string)
    requires sep != []
    ensures |SplitOn(s, sep)| > 1 <==> Contains(s, sep)
    decreases |s|
  {
    if !StartsWith(s, sep) && s != [] {
      SplitOnHasSecond(s[1..], sep);
    }
  }

  /** Pieces before the first separator: a prefix in which no separator starts joins the first piece. */
  lemma {:induction false} SplitOnSkip(a: string, rest: string, sep: string)
    requires sep != []
    requires forall i :: 0 <= i < |a| ==> !StartsWith((a + rest)[i..], sep)
    ensures SplitOn(a + rest, sep) == [a + SplitOn(rest, sep)[0]] + SplitOn(rest, sep)[1..]
    decreases |a|
  {
    var r := SplitOn(rest, sep);
    if a == [] {
      EmptyAppend(a, rest);
      EmptyAppend(a, r[0]);
      assert r == [r[0]] + r[1..];
    } else {
      var x := a + rest;
      ConsAppend(a, rest);
      assert !StartsWith(x[0..], sep);
      assert x[0..] == x;
      forall i | 0 <= i < |a| - 1
        ensures !StartsWith((a[1..] + rest)[i..], sep)
      {
        assert (a[1..] + rest)[i..] == x[i + 1..];
      }
      SplitOnSkip(a[1..], rest, sep);
      ConsAppend(a, r[0]);
    }
  }

  /** The first character of `a + b` and the rest of it, for a non-empty `a`. */
  lemma ConsAppend<T>(a: seq<T>, b: seq<T>)
    requires a != []
    ensures (a + b)[0] == a[0] && (a + b)[1..] == a[1..] + b
    ensures [a[0]] + (a[1..] + b) == a + b
  {
  }

  lemma {:induction false} SplitOnAbsent(s: string, sep: string)
    requires sep != [] && !Contains(s, sep)
    ensures SplitOn(s, sep) == [s]
    decreases |s|
  {
    if s != [] {
      SplitOnAbsent(s[1..], sep);
      assert [s[0]] + s[1..] == s;
    }
  }

  /** `xs.index(x)`: the first position holding `x`; `None` where Python raises ValueError. */
  function IndexOf<T(==)>(xs: seq<T>, x: T): (r: Option<nat>)
    ensures r.None? <==> x !in xs
    ensures r.Some? ==> r.value < |xs| && xs[r.value] == x && x !in xs[..r.value]
  {
    if xs == [] then None
    else if xs[0] == x then Some(0)
    else
      match IndexOf(xs[1..], x)
      case None => None
      case Some(i) => Some(i + 1)
  }

  function Concat(parts: seq<string>): string {
    if parts == [] then "" else parts[0] + Concat(parts[1..])
  }

  /** Length of the first line of `s`, its '\n' included. */
  function LineLen(s: string): (n: nat)
    requires s != []
    ensures 0 < n <= |s|
    ensures '\n' !in s[..n - 1]
    ensures n < |s| ==> s[n - 1] == '\n'
  {
    if s[0] == '\n' || |s| == 1 then 1 else 1 + LineLen(s[1..])
  }

  /** `f.readlines()` on the file's text: every line keeps its '\n'; only the last may lack one. */
  function ReadLines(s: string): (lines: seq<string>)
    ensures Concat(lines) == s
    decreases |s|
  {
    if s == [] then []
    else
      var n := LineLen(s);
      assert s == s[..n] + s[n..];
      [s[..n]] + ReadLines(s[n..])
  }

  /** Every line of `readlines()` is non-empty and ends at its first '\n'; only the last may lack one. */
  lemma {:induction false} ReadLinesShape(s: string)
    ensures forall k :: 0 <= k < |ReadLines(s)| ==> ReadLines(s)[k] != [] && '\n' !in ReadLines(s)[k][..|ReadLines(s)[k]| - 1]
    ensures forall k :: 0 <= k < |ReadLines(s)| - 1 ==> ReadLines(s)[k][|ReadLines(s)[k]| - 1] == '\n'
    decreases |s|
  {
    if s != [] {
      var n := LineLen(s);
      var rest := ReadLines(s[n..]);
      ReadLinesShape(s[n..]);
      assert ReadLines(s) == [s[..n]] + rest;
      if rest != [] {
        assert n < |s|;
      }
    }
  }

  /** `os.path.join(a, b)` on POSIX, for two parts. */
  function PathJoin(a: string, b: string): (r: string)
    ensures EndsWith(r, b)
  {
    if StartsWith(b, "/") then b
    else if a == [] || EndsWith(a, "/") then a + b
    else a + "/" + b
  }
}

/**
  The handful of Python `str` operations the benchmark script relies on:
  `strip()`, `replace(old, new)`, `split(sep)`, `sep.join(...)` and
  `format(...)` with automatically numbered `{}` fields.
 */
module PyStr {
  import opened Wrappers

  // ---------------------------------------------------------------------
  // Whitespace and strip()
  // ---------------------------------------------------------------------

  /** Python's `str.isspace` for a single character. */
  predicate IsSpace(c: char) {
    ('\U{9}' <= c <= '\U{D}') || ('\U{1C}' <= c <= '\U{20}') ||
    c == '\U{85}' || c == '\U{A0}' || c == '\U{1680}' ||
    ('\U{2000}' <= c <= '\U{200A}') || c == '\U{2028}' || c == '\U{2029}' ||
    c == '\U{202F}' || c == '\U{205F}' || c == '\U{3000}'
  }

  predicate AllSpace(s: string) {
    forall k :: 0 <= k < |s| ==> IsSpace(s[k])
  }

  /** A string with no whitespace at either end: what `strip()` returns. */
  predicate IsStripped(s: string) {
    s == [] || (!IsSpace(s[0]) && !IsSpace(s[|s| - 1]))
  }

  /** `s.lstrip()`: drop the longest all-whitespace prefix. */
  function StripLeft(s: string): string {
    if |s| > 0 && IsSpace(s[0]) then StripLeft(s[1..]) else s
  }

  /** `s.rstrip()`: drop the longest all-whitespace suffix. */
  function StripRight(s: string): string {
    if |s| > 0 && IsSpace(s[|s| - 1]) then StripRight(s[..|s| - 1]) else s
  }

  /** `lstrip()` keeps a suffix that starts with a non-space and drops only spaces. */
  lemma {:induction false} StripLeftSpec(s: string)
    ensures |StripLeft(s)| <= |s| && StripLeft(s) == s[|s| - |StripLeft(s)|..]
    ensures AllSpace(s[..|s| - |StripLeft(s)|])
    ensures StripLeft(s) == [] || !IsSpace(StripLeft(s)[0])
  {
    if |s| > 0 && IsSpace(s[0]) {
      StripLeftSpec(s[1..]);
      var r := StripLeft(s[1..]);
      assert s[1..][..|s| - 1 - |r|] == s[1..|s| - |r|];
      assert forall k :: 1 <= k < |s| - |r| ==> s[k] == s[1..][..|s| - 1 - |r|][k - 1];
    }
  }

  /** `rstrip()` keeps a prefix that ends with a non-space and drops only spaces. */
  lemma {:induction false} StripRightSpec(s: string)
    ensures |StripRight(s)| <= |s| && StripRight(s) == s[..|StripRight(s)|]
    ensures AllSpace(s[|StripRight(s)|..])
    ensures StripRight(s) == [] || !IsSpace(StripRight(s)[|StripRight(s)| - 1])
  {
    if |s| > 0 && IsSpace(s[|s| - 1]) {
      StripRightSpec(s[..|s| - 1]);
      var r := StripRight(s[..|s| - 1]);
      assert s[..|s| - 1][|r|..] == s[|r|..|s| - 1];
      assert forall k :: |r| <= k < |s| - 1 ==> s[k] == s[..|s| - 1][|r|..][k - |r|];
    }
  }

  /** `s.strip()`: the part of `s` between its leading and trailing whitespace. */
  function Strip(s: string): (r: string)
    ensures IsStripped(r)
  {
    var l := StripLeft(s);
    var r := StripRight(l);
    StripLeftSpec(s);
    StripRightSpec(l);
    assert r == [] || !IsSpace(r[0]) by {
      if r != [] { assert r[0] == l[0]; }
    }
    r
  }

  /** What `strip()` removes is whitespace, from the two ends only. */
  lemma StripBetween(s: string)
    ensures |Strip(s)| <= |s| && Between(s, Strip(s))
  {
    var l := StripLeft(s);
    var r := StripRight(l);
    StripLeftSpec(s);
    StripRightSpec(l);
    var i := |s| - |l|;
    assert s[i..i + |r|] == l[..|r|];
    assert s[i + |r|..] == l[|r|..];
    assert Around(s, i, r);
  }

  /** `r` is `s` with some whitespace removed from each end only. */
  predicate Between(s: string, r: string) {
    exists i :: 0 <= i <= |s| - |r| && Around(s, i, r)
  }

  predicate Around(s: string, i: int, r: string)
    requires 0 <= i <= |s| - |r|
  {
    s[i..i + |r|] == r && AllSpace(s[..i]) && AllSpace(s[i + |r|..])
  }

  /** Stripping a string padded with whitespace gives back what was padded. */
  lemma {:induction false} StripPadded(w1: string, x: string, w2: string)
    requires AllSpace(w1) && AllSpace(w2) && IsStripped(x)
    ensures Strip(w1 + x + w2) == x
  {
    var t := x + w2;
    assert t[..|x|] == x;
    assert w1 + x + w2 == w1 + t;
    StripLeftPadded(w1, t, x);
    if x != [] {
      StripRightPadded(x, w2);
    }
  }

  lemma {:induction false} StripLeftPadded(w: string, t: string, x: string)
    requires AllSpace(w) && IsStripped(x) && |t| >= |x| && t[..|x|] == x
    requires x == [] ==> AllSpace(t)
    ensures x != [] ==> StripLeft(w + t) == t
    ensures x == [] ==> StripLeft(w + t) == []
  {
    if w == [] {
      assert w + t == t;
      if x == [] {
        AllSpaceGone(t);
      } else {
        assert t[0] == x[0];
      }
    } else {
      assert (w + t)[1..] == w[1..] + t;
      StripLeftPadded(w[1..], t, x);
    }
  }

  lemma {:induction false} AllSpaceGone(s: string)
    requires AllSpace(s)
    ensures StripLeft(s) == []
  {
    if s != [] {
      AllSpaceGone(s[1..]);
    }
  }

  lemma {:induction false} StripRightPadded(x: string, w: string)
    requires AllSpace(w) && IsStripped(x)
    ensures StripRight(x + w) == x
  {
    if w == [] {
      assert x + w == x;
    } else {
      assert (x + w)[..|x + w| - 1] == x + w[..|w| - 1];
      StripRightPadded(x, w[..|w| - 1]);
    }
  }

  /** `strip()` is idempotent: the benchmark strips `obj` twice. */
  lemma StripIdempotent(s: string)
    ensures Strip(Strip(s)) == Strip(s)
  {
    StripPadded([], Strip(s), []);
    assert [] + Strip(s) + [] == Strip(s);
  }

  // ---------------------------------------------------------------------
  // replace(old, new)
  // ---------------------------------------------------------------------

  /** `pat` occurs in `s` starting at index `i`. */
  predicate MatchAt(s: string, pat: string, i: nat) {
    i + |pat| <= |s| && s[i..i + |pat|] == pat
  }

  predicate Occurs(s: string, pat: string) {
    exists i :: 0 <= i <= |s| && MatchAt(s, pat, i)
  }

  /**
    `s.replace(pat, sub)`: scan left to right, replacing every
    non-overlapping occurrence of `pat`.
   */
  function Replace(s: string, pat: string, sub: string): (r: string)
    requires pat != []
    decreases |s|
  {
    if |s| < |pat| then s
    else if s[..|pat|] == pat then sub + Replace(s[|pat|..], pat, sub)
    else [s[0]] + Replace(s[1..], pat, sub)
  }

  /** `s.replace(pats[0], "").replace(pats[1], "")...`: each pattern removed in turn. */
  function RemoveAll(s: string, pats: seq<string>): string
    requires forall k :: 0 <= k < |pats| ==> pats[k] != []
    decreases |pats|
  {
    if pats == [] then s else RemoveAll(Replace(s, pats[0], ""), pats[1..])
  }

  /** Replacing a pattern that does not occur changes nothing. */
  lemma {:induction false} ReplaceAbsent(s: string, pat: string, sub: string)
    requires pat != [] && !Occurs(s, pat)
    ensures Replace(s, pat, sub) == s
  {
    if |s| >= |pat| {
      assert !MatchAt(s, pat, 0);
      forall i: nat ensures !MatchAt(s[1..], pat, i) {
        assert !MatchAt(s, pat, i + 1);
        if i + |pat| <= |s| - 1 {
          assert s[1..][i..i + |pat|] == s[i + 1..i + 1 + |pat|];
        }
      }
      ReplaceAbsent(s[1..], pat, sub);
    }
  }

  /** A pattern holding a character that `s` lacks cannot occur in `s`. */
  lemma AbsentByChar(s: string, pat: string, c: char)
    requires c in pat && c !in s
    ensures !Occurs(s, pat)
  {
    var k :| 0 <= k < |pat| && pat[k] == c;
    forall i: nat ensures !MatchAt(s, pat, i) {
      if i + |pat| <= |s| {
        assert s[i + k] in s;
        assert s[i..i + |pat|][k] == s[i + k];
      }
    }
  }

  /** An occurrence at the front is replaced and the scan resumes after it. */
  lemma ReplaceLeading(pat: string, rest: string, sub: string)
    requires pat != []
    ensures Replace(pat + rest, pat, sub) == sub + Replace(rest, pat, sub)
  {
    assert (pat + rest)[..|pat|] == pat;
    assert (pat + rest)[|pat|..] == rest;
  }

  /** No occurrence at the front: the first character is kept. */
  lemma ReplaceKeepsHead(s: string, pat: string, sub: string)
    requires pat != [] && s != [] && s[0] != pat[0]
    ensures Replace(s, pat, sub) == [s[0]] + Replace(s[1..], pat, sub)
  {
    if |s| >= |pat| {
      assert s[..|pat|][0] == s[0];
    }
  }

  /**
    When the last character of `pat` appears nowhere else in `pat` and not
    at all in `x`, `pat` occurs in `x + pat` only at the very end.
   */
  lemma {:induction false} ReplaceTrailing(x: string, pat: string, sub: string)
    requires pat != []
    requires pat[|pat| - 1] !in pat[..|pat| - 1] && pat[|pat| - 1] !in x
    ensures Replace(x + pat, pat, sub) == x + sub
  {
    var c := pat[|pat| - 1];
    if x == [] {
      assert x + pat == pat + [];
      ReplaceLeading(pat, [], sub);
    } else {
      var s := x + pat;
      assert s[|pat| - 1] != c by {
        if |pat| - 1 < |x| {
          assert x[|pat| - 1] in x;
        } else {
          assert pat[..|pat| - 1][|pat| - 1 - |x|] in pat[..|pat| - 1];
        }
      }
      assert s[..|pat|][|pat| - 1] != pat[|pat| - 1];
      assert s[1..] == x[1..] + pat;
      ReplaceTrailing(x[1..], pat, sub);
    }
  }

  // ---------------------------------------------------------------------
  // split(sep) and sep.join(parts)
  // ---------------------------------------------------------------------

  /** `s.split(sep)` for a one-character separator. */
  function Split(s: string, sep: char): (r: seq<string>)
    ensures |r| >= 1
    ensures forall k :: 0 <= k < |r| ==> sep !in r[k]
    decreases |s|
  {
    if |s| == 0 then [""]
    else
      var rest := Split(s[1..], sep);
      if s[0] == sep then [""] + rest
      else [[s[0]] + rest[0]] + rest[1..]
  }

  /** `sep.join(parts)` */
  function Join(parts: seq<string>, sep: string): string
  {
    if |parts| == 0 then ""
    else if |parts| == 1 then parts[0]
    else parts[0] + sep + Join(parts[1..], sep)
  }

  /** Joining the pieces of a split gives back the original string. */
  lemma {:induction false} JoinSplit(s: string, sep: char)
    ensures Join(Split(s, sep), [sep]) == s
  {
    if |s| > 0 {
      JoinSplit(s[1..], sep);
      var rest := Split(s[1..], sep);
      if s[0] == sep {
        assert s == [sep] + s[1..];
      } else if |rest| == 1 {
        assert s == [s[0]] + s[1..];
      } else {
        assert Join(rest, [sep]) == rest[0] + [sep] + Join(rest[1..], [sep]);
        assert s == [s[0]] + s[1..];
      }
    }
  }

  /** Splitting a join of separator-free pieces gives back the pieces. */
  lemma {:induction false} SplitJoin(parts: seq<string>, sep: char)
    requires |parts| >= 1
    requires forall k :: 0 <= k < |parts| ==> sep !in parts[k]
    ensures Split(Join(parts, [sep]), sep) == parts
  {
    if |parts| == 1 {
      SplitPlain(parts[0], [], sep);
      assert parts[0] + [] == parts[0];
    } else {
      SplitJoin(parts[1..], sep);
      SplitPlain(parts[0], [sep] + Join(parts[1..], [sep]), sep);
      assert Join(parts, [sep]) == parts[0] + ([sep] + Join(parts[1..], [sep]));
      assert ([sep] + Join(parts[1..], [sep]))[1..] == Join(parts[1..], [sep]);
    }
  }

  /** A separator-free head is glued onto the first piece of the rest. */
  lemma {:induction false} SplitPlain(p: string, t: string, sep: char)
    requires sep !in p
    ensures t == [] ==> Split(p + t, sep) == [p]
    ensures t != [] && t[0] == sep ==> Split(p + t, sep) == [p] + Split(t[1..], sep)
  {
    if p == [] {
      assert p + t == t;
    } else {
      SplitPlain(p[1..], t, sep);
      assert (p + t)[1..] == p[1..] + t;
      assert [p[0]] + p[1..] == p;
    }
  }

  /** A character in neither the pieces nor the separator is not in their join. */
  lemma {:induction false} JoinAvoids(parts: seq<string>, sep: string, c: char)
    requires c !in sep && forall k :: 0 <= k < |parts| ==> c !in parts[k]
    ensures c !in Join(parts, sep)
  {
    if |parts| > 1 {
      JoinAvoids(parts[1..], sep, c);
    }
  }

  // ---------------------------------------------------------------------
  // format(...) with automatically numbered `{}` fields
  // ---------------------------------------------------------------------

  /** Text with no brace characters, which `format` copies unchanged. */
  predicate Plain(s: string) {
    '{' !in s && '}' !in s
  }

  function Prepend(p: string, r: Option<string>): Option<string> {
    match r
    case None => None
    case Some(v) => Some(p + v)
  }

  /**
    `t.format(*args)` for templates whose fields are all `{}`: each `{}` is
    replaced by the next argument, `{{` and `}}` stand for single braces,
    and surplus arguments are ignored. `None` stands for the exception
    Python raises: too few arguments, or a brace that opens anything else.
   */
  function Format(t: string, args: seq<string>): Option<string>
    decreases |t|
  {
    if |t| == 0 then Some("")
    else if t[0] == '{' then
      if |t| >= 2 && t[1] == '}' then
        if |args| == 0 then None else Prepend(args[0], Format(t[2..], args[1..]))
      else if |t| >= 2 && t[1] == '{' then Prepend("{", Format(t[2..], args))
      else None
    else if t[0] == '}' then
      if |t| >= 2 && t[1] == '}' then Prepend("}", Format(t[2..], args)) else None
    else Prepend([t[0]], Format(t[1..], args))
  }

  /** Brace-free text in front of a template is copied as it stands. */
  lemma {:induction false} FormatPlain(p: string, t: string, args: seq<string>)
    requires Plain(p)
    ensures Format(p + t, args) == Prepend(p, Format(t, args))
  {
    if p == [] {
      assert p + t == t;
      match Format(t, args)
      case None =>
      case Some(v) => assert p + v == v;
    } else {
      assert (p + t)[1..] == p[1..] + t;
      FormatPlain(p[1..], t, args);
      match Format(t, args)
      case None =>
      case Some(v) => assert [p[0]] + (p[1..] + v) == p + v;
    }
  }

  /** A template with one field: its text with the first argument in the field's place. */
  lemma FormatOne(l: string, r: string, x: string, more: seq<string>)
    requires Plain(l) && Plain(r)
    ensures Format(l + "{}" + r, [x] + more) == Some(l + x + r)
  {
    var t := "{}" + r;
    assert l + "{}" + r == l + t;
    assert t[0] == '{' && t[1] == '}' && t[2..] == r;
    FormatPlain(r, [], more);
    assert r + [] == r;
    assert Format(r, more) == Some(r);
    assert Format(t, [x] + more) == Some(x + r);
    FormatPlain(l, t, [x] + more);
    assert l + (x + r) == l + x + r;
  }

  /** A template with two fields: the first two arguments, in order, in their places. */
  lemma FormatTwo(l: string, m: string, r: string, x: string, y: string, more: seq<string>)
    requires Plain(l) && Plain(m) && Plain(r)
    ensures Format(l + "{}" + m + "{}" + r, [x, y] + more) == Some(l + x + m + y + r)
  {
    var t := "{}" + (m + "{}" + r);
    assert l + "{}" + m + "{}" + r == l + t;
    assert Format(t, [x, y] + more) == Some(x + (m + y + r)) by {
      assert t[0] == '{' && t[1] == '}' && t[2..] == m + "{}" + r;
      assert ([x, y] + more)[1..] == [y] + more;
      FormatOne(m, r, y, more);
    }
    assert Format(l + t, [x, y] + more) == Some(l + (x + (m + y + r))) by {
      FormatPlain(l, t, [x, y] + more);
    }
    assert l + (x + (m + y + r)) == l + x + m + y + r;
  }
}

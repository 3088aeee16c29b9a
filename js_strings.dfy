/** The JavaScript string operations the front end relies on: the white-space
    class shared by `trim()` and the regular-expression class `\s`, ASCII case
    mapping, `split` on one character, `join`, and `includes`. */
module JsStrings {

  /** ECMAScript WhiteSpace and LineTerminator code points (tab, vertical tab,
      form feed, space, no-break space, byte order mark, the Zs category,
      line feed, carriage return, line and paragraph separators). */
  predicate IsWhitespace(c: char)
  {
    || c == '\t' || c == '\n' || c == '\U{B}' || c == '\U{C}' || c == '\r'
    || c == ' ' || c == '\U{A0}' || c == '\U{1680}'
    || ('\U{2000}' <= c <= '\U{200A}')
    || c == '\U{2028}' || c == '\U{2029}' || c == '\U{202F}' || c == '\U{205F}'
    || c == '\U{3000}' || c == '\U{FEFF}'
  }

  predicate AllWhitespace(s: string)
  {
    forall i :: 0 <= i < |s| ==> IsWhitespace(s[i])
  }

  /** No white space at either end. */
  predicate Trimmed(s: string)
  {
    s == [] || (!IsWhitespace(s[0]) && !IsWhitespace(s[|s| - 1]))
  }

  function TrimStart(s: string): (r: string)
    ensures |r| <= |s| && r == s[|s| - |r|..]
    ensures AllWhitespace(s[..|s| - |r|])
    ensures r == [] || !IsWhitespace(r[0])
  {
    if s != [] && IsWhitespace(s[0]) then
      var t := s[1..];
      var r := TrimStart(t);
      assert s[|s| - |r|..] == t[|t| - |r|..];
      assert forall i :: 1 <= i < |s| - |r| ==> s[i] == t[..|t| - |r|][i - 1];
      r
    else s
  }

  function TrimEnd(s: string): (r: string)
    ensures |r| <= |s| && r == s[..|r|]
    ensures AllWhitespace(s[|r|..])
    ensures r == [] || !IsWhitespace(r[|r| - 1])
  {
    if s != [] && IsWhitespace(s[|s| - 1]) then
      var t := s[..|s| - 1];
      var r := TrimEnd(t);
      assert s[..|r|] == t[..|r|];
      assert s[|r|..] == t[|r|..] + [s[|s| - 1]];
      r
    else s
  }

  /** `s.trim()` */
  function Trim(s: string): string
  {
    TrimEnd(TrimStart(s))
  }

  /** Trimming both ends keeps a middle slice and drops white space after it. */
  lemma TrimEndTail(s: string, a: string, r: string)
    requires |a| <= |s| && a == s[|s| - |a|..]
    requires |r| <= |a| && r == a[..|r|] && AllWhitespace(a[|r|..])
    ensures r == s[|s| - |a|..|s| - |a| + |r|]
    ensures AllWhitespace(s[|s| - |a| + |r|..])
  {
    var j := |s| - |a| + |r|;
    forall k | 0 <= k < |s[j..]| ensures IsWhitespace(s[j..][k]) {
      assert s[j..][k] == a[|r|..][k];
    }
  }

  /** `trim()` leaves no white space at either end. */
  lemma TrimTrimmed(s: string)
    ensures Trimmed(Trim(s))
  {
    var a := TrimStart(s);
    var r := TrimEnd(a);
    if r != [] {
      assert r[0] == a[0];
    }
  }

  /** `trim()` removes exactly white space from both ends: what is left is a
      slice of the input with only white space before and after it. */
  lemma TrimSlice(s: string)
    ensures exists i, j :: (0 <= i <= j <= |s| && Trim(s) == s[i..j]
      && AllWhitespace(s[..i]) && AllWhitespace(s[j..]))
  {
    var a := TrimStart(s);
    var r := TrimEnd(a);
    var i, j := |s| - |a|, |s| - |a| + |r|;
    assert 0 <= i <= j <= |s|;
    assert AllWhitespace(s[..i]);
    assert Trim(s) == s[i..j] && AllWhitespace(s[j..]) by {
      TrimEndTail(s, a, r);
    }
  }

  lemma TrimOfTrimmed(s: string)
    requires Trimmed(s)
    ensures Trim(s) == s
  {
  }

  lemma TrimOfAllWhitespace(s: string)
    requires AllWhitespace(s)
    ensures Trim(s) == ""
  {
  }

  /** A leading space never survives `trim()`. */
  lemma TrimLeadingSpace(s: string)
    ensures Trim([' '] + s) == Trim(s)
  {
    assert ([' '] + s)[1..] == s;
  }

  function LowerChar(c: char): char
  {
    if 'A' <= c <= 'Z' then (c as int + 32) as char else c
  }

  function UpperChar(c: char): char
  {
    if 'a' <= c <= 'z' then (c as int - 32) as char else c
  }

  /** `toLowerCase()` on the ASCII letters: each capital becomes its small
      letter, 32 code points further on, and every other character stays. */
  function Lower(s: string): (r: string)
    ensures |r| == |s|
    ensures forall k :: 0 <= k < |s| ==>
      if 'A' <= s[k] <= 'Z' then r[k] as int == s[k] as int + 32 && 'a' <= r[k] <= 'z' else r[k] == s[k]
    ensures forall k :: 0 <= k < |r| ==> !('A' <= r[k] <= 'Z')
    ensures (forall k :: 0 <= k < |s| ==> !('A' <= s[k] <= 'Z')) ==> r == s
  {
    seq(|s|, i requires 0 <= i < |s| => LowerChar(s[i]))
  }

  /** `toUpperCase()` on the ASCII letters: each small letter becomes its
      capital, 32 code points back, and every other character stays. */
  function Upper(s: string): (r: string)
    ensures |r| == |s|
    ensures forall k :: 0 <= k < |s| ==>
      if 'a' <= s[k] <= 'z' then r[k] as int == s[k] as int - 32 && 'A' <= r[k] <= 'Z' else r[k] == s[k]
    ensures forall k :: 0 <= k < |r| ==> !('a' <= r[k] <= 'z')
    ensures (forall k :: 0 <= k < |s| ==> !('a' <= s[k] <= 'z')) ==> r == s
  {
    seq(|s|, i requires 0 <= i < |s| => UpperChar(s[i]))
  }

  lemma LowerAppend(a: string, b: string)
    ensures Lower(a + b) == Lower(a) + Lower(b)
  {
  }

  lemma UpperAppend(a: string, b: string)
    ensures Upper(a + b) == Upper(a) + Upper(b)
  {
  }

  /** `s.includes(t)` */
  predicate Contains(s: string, t: string)
  {
    exists i :: 0 <= i <= |s| && t <= s[i..]
  }

  lemma ContainsEmpty(s: string)
    ensures Contains(s, "")
  {
    assert "" <= s[0..];
  }

  /** `s.split(d)` for a one-character separator: never empty, and "" splits to [""]. */
  function Split(s: string, d: char): (r: seq<string>)
    ensures |r| >= 1
    ensures forall k :: 0 <= k < |r| ==> d !in r[k]
  {
    if s == [] then [""]
    else
      var rest := Split(s[1..], d);
      if s[0] == d then [""] + rest else [[s[0]] + rest[0]] + rest[1..]
  }

  /** `xs.join(sep)` */
  function Join(xs: seq<string>, sep: string): string
  {
    if |xs| == 0 then ""
    else if |xs| == 1 then xs[0]
    else xs[0] + sep + Join(xs[1..], sep)
  }

  lemma {:induction false} SplitNoSeparator(s: string, d: char)
    requires d !in s
    ensures Split(s, d) == [s]
  {
    if s != [] {
      SplitNoSeparator(s[1..], d);
      assert [s[0]] + s[1..] == s;
    }
  }

  /** A leading character other than the separator joins the first piece. */
  lemma SplitCons(c: char, t: string, d: char)
    requires c != d
    ensures Split([c] + t, d) == [[c] + Split(t, d)[0]] + Split(t, d)[1..]
  {
    assert ([c] + t)[1..] == t;
  }

  lemma {:induction false} SplitAtSeparator(a: string, b: string, d: char)
    requires d !in a
    ensures Split(a + [d] + b, d) == [a] + Split(b, d)
  {
    if a == [] {
      assert a + [d] + b == [d] + b;
      assert ([d] + b)[1..] == b;
    } else {
      assert (a + [d] + b)[1..] == a[1..] + [d] + b;
      SplitAtSeparator(a[1..], b, d);
      assert [a[0]] + a[1..] == a;
    }
  }

  /** Splitting a list joined with a one-character separator, on that separator,
      gives the list back when no element holds the separator. */
  lemma {:induction false} SplitJoin(xs: seq<string>, d: char)
    requires |xs| >= 1
    requires forall k :: 0 <= k < |xs| ==> d !in xs[k]
    ensures Split(Join(xs, [d]), d) == xs
  {
    if |xs| == 1 {
      SplitNoSeparator(xs[0], d);
    } else {
      assert Join(xs, [d]) == xs[0] + [d] + Join(xs[1..], [d]);
      SplitAtSeparator(xs[0], Join(xs[1..], [d]), d);
      SplitJoin(xs[1..], d);
      assert [xs[0]] + xs[1..] == xs;
    }
  }

  /** A separator at the end adds one empty piece. */
  lemma {:induction false} SplitAppendSeparator(s: string, d: char)
    ensures Split(s + [d], d) == Split(s, d) + [""]
  {
    if s == [] {
      assert s + [d] == [d] && [d][1..] == [];
    } else {
      assert (s + [d])[1..] == s[1..] + [d];
      SplitAppendSeparator(s[1..], d);
      var rest := Split(s[1..], d);
      if s[0] != d {
        assert (rest + [""])[0] == rest[0];
        assert (rest + [""])[1..] == rest[1..] + [""];
      }
    }
  }

  /** A split into a single piece leaves the text whole. */
  lemma {:induction false} SplitSingle(s: string, d: char)
    requires |Split(s, d)| == 1
    ensures Split(s, d)[0] == s && d !in s
  {
    if s != [] {
      SplitSingle(s[1..], d);
      assert [s[0]] + s[1..] == s;
    }
  }

  /** The last piece of a split is a suffix of the text; when the separator
      occurs, the piece starts right after its last occurrence. */
  lemma {:induction false} SplitLast(s: string, d: char)
    ensures var l := Split(s, d)[|Split(s, d)| - 1];
      |l| <= |s| && l == s[|s| - |l|..] &&
      (d in s ==> |l| < |s| && s[|s| - |l| - 1] == d) &&
      (d !in s ==> l == s)
  {
    if s == [] {
    } else if |Split(s, d)| == 1 {
      SplitSingle(s, d);
    } else {
      SplitLast(s[1..], d);
      var rest := Split(s[1..], d);
      var l := rest[|rest| - 1];
      assert Split(s, d)[|Split(s, d)| - 1] == l;
      assert l == s[|s| - |l|..];
      if d !in s[1..] {
        SplitNoSeparator(s[1..], d);
        assert s[0] == d;
      }
    }
  }

  /** `s.replace(/\s+/g, '')`: every run of white space removed. */
  function RemoveWhitespace(s: string): (r: string)
    ensures forall k :: 0 <= k < |r| ==> !IsWhitespace(r[k])
    ensures AllWhitespace(s) ==> r == ""
    ensures (forall k :: 0 <= k < |s| ==> !IsWhitespace(s[k])) ==> r == s
  {
    if s == [] then ""
    else if IsWhitespace(s[0]) then RemoveWhitespace(s[1..])
    else
      assert s == [s[0]] + s[1..];
      [s[0]] + RemoveWhitespace(s[1..])
  }

  lemma RemoveWhitespaceCons(c: char, t: string)
    ensures RemoveWhitespace([c] + t) == (if IsWhitespace(c) then "" else [c]) + RemoveWhitespace(t)
  {
    assert ([c] + t)[0] == c && ([c] + t)[1..] == t;
  }

  /** Concatenation regrouped, stated once so callers need not re-prove it. */
  lemma Regroup<T>(p: seq<T>, q: seq<T>, t: seq<T>)
    ensures p + (q + t) == (p + q) + t
  {
  }

  lemma {:induction false} RemoveWhitespaceAppend(a: string, b: string)
    ensures RemoveWhitespace(a + b) == RemoveWhitespace(a) + RemoveWhitespace(b)
  {
    if a != [] {
      var c, t := a[0], a[1..];
      assert a == [c] + t && a + b == [c] + (t + b);
      RemoveWhitespaceCons(c, t);
      RemoveWhitespaceCons(c, t + b);
      RemoveWhitespaceAppend(t, b);
      Regroup(if IsWhitespace(c) then "" else [c], RemoveWhitespace(t), RemoveWhitespace(b));
    } else {
      assert a + b == b;
    }
  }
}

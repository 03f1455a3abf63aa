/** The string built-ins the job board relies on, shared by the TypeScript client and the
    Python backend: lower-casing, substring search, trimming, splitting and joining on a
    separator, and the code-point order used by `sort()` and for title / company ordering. */
module Text {

  type String = seq<char>

  // ---------------------------------------------------------------- case

  predicate IsUpper(c: char) {
    'A' <= c <= 'Z'
  }

  /** ASCII lower-casing of one character: SQLite's `lower()`, and `toLowerCase` on ASCII text. */
  function LowerChar(c: char): (r: char)
    ensures !IsUpper(r)
    ensures !IsUpper(c) ==> r == c
  {
    if IsUpper(c) then (c as int + 32) as char else c
  }

  function Lower(s: String): (r: String)
    ensures |r| == |s|
    ensures forall i :: 0 <= i < |s| ==> r[i] == LowerChar(s[i])
  {
    seq(|s|, i requires 0 <= i < |s| => LowerChar(s[i]))
  }

  // ---------------------------------------------------------------- substrings

  /** `needle` occurs in `hay` as a contiguous block: `hay.includes(needle)`, `needle in hay`,
      and SQL `LIKE '%needle%'` read without wildcards. */
  predicate Contains(hay: String, needle: String) {
    exists i | 0 <= i <= |hay| :: OccursAt(hay, needle, i)
  }

  /** `needle` occurs in `hay` starting at index `i`. */
  predicate OccursAt(hay: String, needle: String, i: int) {
    0 <= i && i + |needle| <= |hay| && hay[i..i + |needle|] == needle
  }

  lemma ContainsSelf(s: String)
    ensures Contains(s, s)
  {
    assert OccursAt(s, s, 0);
  }

  // ---------------------------------------------------------------- trimming

  /** The ASCII whitespace both `String.prototype.trim` and Python's `str.strip` remove. */
  predicate IsSpace(c: char) {
    c == ' ' || c == '\t' || c == '\n' || c == '\r' || c == '\U{000B}' || c == '\U{000C}'
  }

  /** Every character is whitespace; in particular the empty string is blank. */
  predicate Blank(s: String) {
    forall i :: 0 <= i < |s| ==> IsSpace(s[i])
  }

  /** No whitespace at either end. */
  predicate Trimmed(s: String) {
    |s| == 0 || (!IsSpace(s[0]) && !IsSpace(s[|s| - 1]))
  }

  function TrimStart(s: String): (r: String)
    ensures |r| <= |s|
    ensures r == s[|s| - |r|..]
    ensures |r| == 0 || !IsSpace(r[0])
    ensures Blank(s[..|s| - |r|])
  {
    if |s| > 0 && IsSpace(s[0]) then
      var r := TrimStart(s[1..]);
      assert s[1..][..|s[1..]| - |r|] == s[1..|s| - |r|];
      r
    else s
  }

  function TrimEnd(s: String): (r: String)
    ensures |r| <= |s|
    ensures r == s[..|r|]
    ensures |r| == 0 || !IsSpace(r[|r| - 1])
    ensures Blank(s[|r|..])
  {
    if |s| > 0 && IsSpace(s[|s| - 1]) then
      var r := TrimEnd(s[..|s| - 1]);
      assert s[..|s| - 1][|r|..] == s[|r|..|s| - 1];
      r
    else s
  }

  /** `s.trim()` / `s.strip()`: what is left of `s` after removing its leading and trailing
      whitespace, so a blank prefix, then the result, then a blank suffix make up `s`. */
  function Trim(s: String): (r: String)
    ensures Trimmed(r)
    ensures r == "" <==> Blank(s)
    ensures exists k :: Stripped(s, r, k)
  {
    var a := TrimStart(s);
    var r := TrimEnd(a);
    assert Trimmed(r) && (r == "" <==> Blank(s)) && exists k :: Stripped(s, r, k) by {
      TrimPieces(s, a, r);
    }
    r
  }

  /** `s` is a blank prefix of length `k`, then `r`, then a blank suffix. */
  predicate Stripped(s: String, r: String, k: int) {
    0 <= k && k + |r| <= |s| && Blank(s[..k]) && s[k..k + |r|] == r && Blank(s[k + |r|..])
  }

  /** The trim is an infix of the original. */
  lemma TrimInfix(s: String)
    ensures Contains(s, Trim(s))
  {
    var r := Trim(s);
    var k :| Stripped(s, r, k);
    assert OccursAt(s, r, k);
  }

  /** What `Trim` needs from its two halves: the kept infix starts where the blank prefix ends,
      and it is empty exactly when nothing but blanks was removed. */
  lemma TrimPieces(s: String, a: String, r: String)
    requires |a| <= |s| && a == s[|s| - |a|..] && Blank(s[..|s| - |a|])
    requires |a| == 0 || !IsSpace(a[0])
    requires |r| <= |a| && r == a[..|r|] && Blank(a[|r|..])
    requires |r| == 0 || !IsSpace(r[|r| - 1])
    ensures Trimmed(r)
    ensures r == "" <==> Blank(s)
    ensures exists k :: Stripped(s, r, k)
  {
    var i := |s| - |a|;
    assert s[i..i + |r|] == r;
    assert s[i + |r|..] == a[|r|..];
    assert Stripped(s, r, i);
    if r == "" {
      assert a[|r|..] == a;
      assert s == s[..i] + a;
      BlankConcat(s[..i], a);
    } else {
      assert r[0] == a[0] == s[i];
    }
  }

  /** Trimming is determined: a trimmed, non-empty `t` that `s` strips to is `Trim(s)`. */
  lemma TrimDetermined(s: String, t: String, k: int)
    requires Trimmed(t) && t != "" && Stripped(s, t, k)
    ensures Trim(s) == t
  {
    var r := Trim(s);
    var j :| Stripped(s, r, j);
    SolidNotBlank(s, t, k);
    StrippedSame(s, t, k, r, j);
  }

  lemma SolidNotBlank(s: String, t: String, k: int)
    requires t != "" && !IsSpace(t[0]) && Stripped(s, t, k)
    ensures !Blank(s)
  {
    assert s[k] == t[0];
  }

  lemma StrippedSame(s: String, t: String, k: int, r: String, j: int)
    requires Trimmed(t) && t != "" && Stripped(s, t, k)
    requires Trimmed(r) && r != "" && Stripped(s, r, j)
    ensures t == r
  {
    // the first solid character of s starts both, the last one ends both
    assert s[k] == t[0] && s[j] == r[0];
    assert s[k + |t| - 1] == t[|t| - 1] && s[j + |r| - 1] == r[|r| - 1];
  }

  lemma BlankConcat(x: String, y: String)
    requires Blank(x) && Blank(y)
    ensures Blank(x + y)
  {
    forall k | 0 <= k < |x + y| ensures IsSpace((x + y)[k]) {
      if k >= |x| { assert (x + y)[k] == y[k - |x|]; }
    }
  }

  /** Trimming a trimmed string changes nothing, so trimming is idempotent. */
  lemma TrimTrimmed(s: String)
    requires Trimmed(s)
    ensures Trim(s) == s
  {
  }

  /** Characters of a trimmed string are characters of the original. */
  lemma TrimChars(s: String, c: char)
    requires c !in s
    ensures c !in Trim(s)
  {
    var r := Trim(s);
    TrimInfix(s);
    var i :| 0 <= i <= |s| && OccursAt(s, r, i);
    InfixChars(s, r, i, c);
  }

  lemma InfixChars(hay: String, needle: String, i: int, c: char)
    requires OccursAt(hay, needle, i) && c !in hay
    ensures c !in needle
  {
    forall k | 0 <= k < |needle| ensures needle[k] != c {
      assert needle[k] == hay[i + k];
    }
  }

  /** Leading whitespace does not survive trimming. */
  lemma {:induction false} TrimStartBlankPrefix(w: String, t: String)
    requires Blank(w)
    ensures TrimStart(w + t) == TrimStart(t)
  {
    if |w| > 0 {
      assert (w + t)[1..] == w[1..] + t;
      TrimStartBlankPrefix(w[1..], t);
    } else {
      assert w + t == t;
    }
  }

  // ---------------------------------------------------------------- split and join

  /** `s.split(c)` in both JavaScript and Python: the maximal separator-free pieces, in order,
      always at least one (the empty string splits to `[""]`). */
  function Split(s: String, c: char): (r: seq<String>)
    ensures |r| >= 1
    ensures forall i :: 0 <= i < |r| ==> c !in r[i]
  {
    if |s| == 0 then [""]
    else
      var rest := Split(s[1..], c);
      if s[0] == c then [""] + rest
      else [[s[0]] + rest[0]] + rest[1..]
  }

  /** `parts.join(sep)` / `sep.join(parts)`. */
  function Join(parts: seq<String>, sep: String): (r: String)
    ensures |parts| == 0 ==> r == ""
    ensures |parts| == 1 ==> r == parts[0]
    ensures |parts| >= 1 ==> |parts[0]| <= |r| && r[..|parts[0]|] == parts[0]
  {
    if |parts| == 0 then ""
    else if |parts| == 1 then parts[0]
    else parts[0] + sep + Join(parts[1..], sep)
  }

  /** Joining the pieces of a split with the same separator gives back the string. */
  lemma {:induction false} JoinSplit(s: String, c: char)
    ensures Join(Split(s, c), [c]) == s
  {
    if |s| > 0 {
      var rest := Split(s[1..], c);
      JoinSplit(s[1..], c);
      if s[0] == c {
        assert Split(s, c) == [""] + rest;
        assert ([""] + rest)[1..] == rest;
        assert s == [c] + s[1..];
      } else {
        var r := Split(s, c);
        assert r == [[s[0]] + rest[0]] + rest[1..];
        if |rest| == 1 {
          assert s == [s[0]] + s[1..];
        } else {
          assert r[1..] == rest[1..];
          assert Join(rest, [c]) == rest[0] + [c] + Join(rest[1..], [c]);
          assert s == [s[0]] + s[1..];
        }
      }
    }
  }

  /** A separator-free string is one piece. */
  lemma {:induction false} SplitNoSeparator(s: String, c: char)
    requires c !in s
    ensures Split(s, c) == [s]
  {
    if |s| > 0 {
      assert c !in s[1..] by { assert forall x :: x in s[1..] ==> x in s; }
      SplitNoSeparator(s[1..], c);
      assert [s[0]] + s[1..] == s;
    }
  }

  /** A separator-free prefix followed by a separator is split off as the first piece. */
  lemma {:induction false} SplitFirst(a: String, c: char, b: String)
    requires c !in a
    ensures Split(a + [c] + b, c) == [a] + Split(b, c)
  {
    if |a| == 0 {
      assert a + [c] + b == [c] + b;
      assert ([c] + b)[1..] == b;
    } else {
      assert (a + [c] + b)[1..] == a[1..] + [c] + b;
      assert c !in a[1..] by { assert forall x :: x in a[1..] ==> x in a; }
      SplitFirst(a[1..], c, b);
      assert [a[0]] + a[1..] == a;
    }
  }

  /** Splitting a join of separator-free pieces recovers the pieces, provided there is at
      least one piece (the empty list joins to "", which splits to `[""]`). */
  lemma {:induction false} SplitJoin(parts: seq<String>, c: char)
    requires |parts| >= 1
    requires forall i :: 0 <= i < |parts| ==> c !in parts[i]
    ensures Split(Join(parts, [c]), c) == parts
  {
    if |parts| == 1 {
      SplitNoSeparator(parts[0], c);
    } else {
      SplitJoin(parts[1..], c);
      SplitFirst(parts[0], c, Join(parts[1..], [c]));
      assert [parts[0]] + parts[1..] == parts;
    }
  }

  /** A join of two or more pieces contains the separator. */
  lemma JoinHasSeparator(parts: seq<String>, c: char)
    requires |parts| >= 2
    ensures c in Join(parts, [c])
  {
    assert Join(parts, [c])[|parts[0]|] == c;
  }

  // ---------------------------------------------------------------- ordering

  /** Lexicographic order on code points: `a` sorts no later than `b`. */
  predicate LexLe(a: String, b: String) {
    |a| == 0 || (|b| > 0 && (a[0] < b[0] || (a[0] == b[0] && LexLe(a[1..], b[1..]))))
  }

  /** Strictly before. */
  predicate LexLt(a: String, b: String) {
    LexLe(a, b) && a != b
  }

  lemma {:induction false} LexLeTotal(a: String, b: String)
    ensures LexLe(a, b) || LexLe(b, a)
  {
    if |a| > 0 && |b| > 0 && a[0] == b[0] {
      LexLeTotal(a[1..], b[1..]);
    }
  }

  lemma {:induction false} LexLeTransitive(a: String, b: String, c: String)
    requires LexLe(a, b) && LexLe(b, c)
    ensures LexLe(a, c)
  {
    if |a| > 0 && a[0] == b[0] && b[0] == c[0] {
      LexLeTransitive(a[1..], b[1..], c[1..]);
    }
  }
}

/**
 * The few Python `str` operations the processing engine relies on, stated over
 * Dafny strings (sequences of Unicode scalar values, as Python strings are
 * sequences of code points): whitespace, `strip`, `in`, `replace`, `lower`,
 * `join`, `startswith`/`endswith`, and the `stem`/`suffix` of a file name.
 */
module Text {

  datatype Option<+T> = None | Some(value: T)

  /** A value, or the message of the exception raised instead. */
  datatype Result<+T> = Ok(value: T) | Error(msg: string)

  /** The characters for which Python's `str.isspace()` holds; the same set is
      matched by `\s` in a `str` regular expression. */
  predicate IsSpace(c: char)
  {
    ('\t' <= c <= '\r') || ('\U{1c}' <= c <= ' ')
    || c == '\U{85}' || c == '\U{a0}' || c == '\U{1680}'
    || ('\U{2000}' <= c <= '\U{200a}') || c == '\U{2028}' || c == '\U{2029}'
    || c == '\U{202f}' || c == '\U{205f}' || c == '\U{3000}'
  }

  predicate AllSpace(s: string)
  {
    forall i :: 0 <= i < |s| ==> IsSpace(s[i])
  }

  function TrimLeft(s: string): string
  {
    if s != [] && IsSpace(s[0]) then TrimLeft(s[1..]) else s
  }

  function TrimRight(s: string): string
  {
    if s != [] && IsSpace(s[|s| - 1]) then TrimRight(s[..|s| - 1]) else s
  }

  /** `lstrip` removes the leading whitespace and nothing else. */
  lemma {:induction false} TrimLeftShape(s: string)
    ensures var r := TrimLeft(s);
      |r| <= |s| && r == s[|s| - |r|..] && AllSpace(s[..|s| - |r|]) && (r == [] || !IsSpace(r[0]))
  {
    if s != [] && IsSpace(s[0]) {
      TrimLeftShape(s[1..]);
      var r := TrimLeft(s);
      assert s[..|s| - |r|] == [s[0]] + s[1..][..|s[1..]| - |r|];
    }
  }

  /** `rstrip` removes the trailing whitespace and nothing else. */
  lemma {:induction false} TrimRightShape(s: string)
    ensures var r := TrimRight(s);
      |r| <= |s| && r == s[..|r|] && AllSpace(s[|r|..]) && (r == [] || !IsSpace(r[|r| - 1]))
  {
    if s != [] && IsSpace(s[|s| - 1]) {
      TrimRightShape(s[..|s| - 1]);
      var r := TrimRight(s);
      assert s[|r|..] == s[..|s| - 1][|r|..] + [s[|s| - 1]];
    }
  }

  /** Python's `s.strip()`. */
  function Strip(s: string): string
  {
    TrimRight(TrimLeft(s))
  }

  /** `strip` leaves a slice of its argument that neither starts nor ends with
      whitespace, having removed only whitespace on either side. */
  lemma StripShape(s: string)
    ensures var r := Strip(s);
      (r == [] || (!IsSpace(r[0]) && !IsSpace(r[|r| - 1])))
      && exists i :: StrippedAt(s, r, i)
  {
    var l := TrimLeft(s);
    var r := TrimRight(l);
    TrimLeftShape(s);
    TrimRightShape(l);
    var i := |s| - |l|;
    assert s[i..] == l;
    assert r == s[i..i + |r|];
    assert s[i + |r|..] == l[|r|..];
    assert StrippedAt(s, r, i);
  }

  /** `r` is `s` with the whitespace `s[..i]` and `s[i + |r|..]` removed. */
  ghost predicate StrippedAt(s: string, r: string, i: int)
  {
    0 <= i <= |s| - |r| && r == s[i..i + |r|] && AllSpace(s[..i]) && AllSpace(s[i + |r|..])
  }

  /** `strip` leaves a string without outer whitespace as it is. */
  lemma StripKeeps(s: string)
    requires s == [] || (!IsSpace(s[0]) && !IsSpace(s[|s| - 1]))
    ensures Strip(s) == s
  {
    assert TrimLeft(s) == s;
  }

  /** `s.strip()` is empty exactly when `s` is empty or only whitespace. */
  lemma StripEmptyIff(s: string)
    ensures Strip(s) == [] <==> AllSpace(s)
  {
    var l := TrimLeft(s);
    TrimLeftShape(s);
    TrimRightShape(l);
    if Strip(s) == [] {
      assert AllSpace(l);
      assert s == s[..|s| - |l|] + l;
    }
  }

  /** Python's `needle in hay` for strings; the empty string is in every string. */
  predicate Contains(hay: string, needle: string)
  {
    exists i | 0 <= i <= |hay| - |needle| :: OccursAt(hay, needle, i)
  }

  predicate OccursAt(hay: string, needle: string, i: int)
  {
    0 <= i <= |hay| - |needle| && hay[i..i + |needle|] == needle
  }

  /** A string absent from a text is absent from every prefix of it. */
  lemma AbsentPrefix(u: string, v: string, t: string)
    requires !Contains(u + v, t)
    ensures !Contains(u, t)
  {
    forall i | 0 <= i <= |u| - |t|
      ensures !OccursAt(u, t, i)
    {
      assert (u + v)[i..i + |t|] == u[i..i + |t|];
      assert !OccursAt(u + v, t, i);
    }
  }

  /** A string absent from a non-empty text is absent from its tail. */
  lemma AbsentTail(u: string, t: string)
    requires u != [] && !Contains(u, t)
    ensures !Contains(u[1..], t)
  {
    forall i | 0 <= i <= |u[1..]| - |t|
      ensures !OccursAt(u[1..], t, i)
    {
      assert !OccursAt(u, t, i + 1);
      assert u[1..][i..i + |t|] == u[i + 1..i + 1 + |t|];
    }
  }

  /** A string cannot occur in a text that lacks its last character. */
  lemma LastAbsent(u: string, t: string)
    requires t != [] && t[|t| - 1] !in u
    ensures !Contains(u, t)
  {
  }

  /** Removing a string that ends a text and occurs nowhere else in it gives
      back the rest of the text; the rest alone is left as it is. */
  lemma {:induction false} ReplaceTail(s: string, t: string)
    requires t != [] && !Contains(s + t[..|t| - 1], t)
    ensures Replace(s, t, "") == s && Replace(s + t, t, "") == s
    decreases |s|
  {
    var u := s + t[..|t| - 1];
    AbsentPrefix(s, t[..|t| - 1], t);
    ReplaceAbsent(s, t, "");
    if s == [] {
      assert s + t == t;
      assert Replace(t, t, "") == "" + Replace(t[|t|..], t, "");
    } else {
      assert u[0..0 + |t|] == (s + t)[..|t|];
      assert !OccursAt(u, t, 0);
      assert u[1..] == s[1..] + t[..|t| - 1];
      AbsentTail(u, t);
      ReplaceTail(s[1..], t);
      assert (s + t)[1..] == s[1..] + t;
      assert s == [s[0]] + s[1..];
    }
  }

  predicate StartsWith(s: string, prefix: string)
  {
    |prefix| <= |s| && s[..|prefix|] == prefix
  }

  predicate EndsWith(s: string, suffix: string)
  {
    |suffix| <= |s| && s[|s| - |suffix|..] == suffix
  }

  /** Python's `s.replace(old, new)`: every non-overlapping occurrence of `old`,
      scanned from the left, becomes `new`; an empty `old` inserts `new` before
      every character and at the end. */
  function Replace(s: string, pat: string, rep: string): string
    decreases |s|, |pat|
  {
    if pat == [] then
      if s == [] then rep else rep + [s[0]] + Replace(s[1..], pat, rep)
    else if |s| < |pat| then s
    else if s[..|pat|] == pat then rep + Replace(s[|pat|..], pat, rep)
    else [s[0]] + Replace(s[1..], pat, rep)
  }

  /** Replacing a non-empty string that does not occur changes nothing. */
  lemma {:induction false} ReplaceAbsent(s: string, pat: string, rep: string)
    requires pat != [] && !Contains(s, pat)
    ensures Replace(s, pat, rep) == s
    decreases |s|
  {
    if |s| >= |pat| {
      assert s[0..0 + |pat|] == s[..|pat|];
      assert !OccursAt(s, pat, 0);
      var t := s[1..];
      forall i | 0 <= i <= |t| - |pat|
        ensures !OccursAt(t, pat, i)
      {
        assert !OccursAt(s, pat, i + 1);
        assert s[i + 1..i + 1 + |pat|] == t[i..i + |pat|];
      }
      ReplaceAbsent(t, pat, rep);
    }
  }

  /** Replacing a string by itself changes nothing. */
  lemma {:induction false} ReplaceSame(s: string, pat: string)
    ensures Replace(s, pat, pat) == s
    decreases |s|
  {
    if pat == [] {
      if s != [] {
        ReplaceSame(s[1..], pat);
        assert s == [s[0]] + s[1..];
      }
    } else if |s| >= |pat| {
      if s[..|pat|] == pat {
        ReplaceSame(s[|pat|..], pat);
        assert s == s[..|pat|] + s[|pat|..];
      } else {
        ReplaceSame(s[1..], pat);
        assert s == [s[0]] + s[1..];
      }
    }
  }

  /** Python's `c.lower()` on the ASCII letters; other characters are kept. */
  function LowerChar(c: char): (d: char)
  {
    if 'A' <= c <= 'Z' then (c as int + 32) as char else c
  }

  /** Python's `s.lower()`, on ASCII letters. */
  function Lower(s: string): (r: string)
    ensures |r| == |s|
    ensures forall i :: 0 <= i < |s| ==> r[i] == LowerChar(s[i])
  {
    if s == [] then [] else [LowerChar(s[0])] + Lower(s[1..])
  }

  /** Python's `sep.join(xs)`. */
  function Join(sep: string, xs: seq<string>): string
  {
    if xs == [] then []
    else if |xs| == 1 then xs[0]
    else xs[0] + sep + Join(sep, xs[1..])
  }

  /** A join is empty exactly when it joins nothing or a lone empty string. */
  lemma JoinEmptyIff(sep: string, xs: seq<string>)
    requires sep != []
    ensures Join(sep, xs) == [] <==> xs == [] || xs == [[]]
  {
    if |xs| > 1 {
      assert |Join(sep, xs)| >= |sep|;
    }
  }

  /** The index of the last `c` in `s`, or -1 (Python's `rfind`). */
  function RFind(s: string, c: char): (i: int)
    ensures -1 <= i < |s|
    ensures i >= 0 ==> s[i] == c
    ensures forall j :: i < j < |s| ==> s[j] != c
  {
    if s == [] then -1
    else if s[|s| - 1] == c then |s| - 1
    else RFind(s[..|s| - 1], c)
  }

  /** `pathlib.PurePath(name).suffix`: from the last dot, unless that dot
      leads or ends the name. */
  function Suffix(name: string): string
  {
    var i := RFind(name, '.');
    if 0 < i < |name| - 1 then name[i..] else []
  }

  /** `pathlib.PurePath(name).stem`: the name without its suffix. */
  function Stem(name: string): string
  {
    var i := RFind(name, '.');
    if 0 < i < |name| - 1 then name[..i] else name
  }

  /** A name is its stem followed by its suffix; the suffix is empty or a dot
      and at least one character, with no dot after the first, and the stem
      is not empty when the name is not. */
  lemma StemSuffix(name: string)
    ensures Stem(name) + Suffix(name) == name
    ensures var x := Suffix(name);
      x == [] || (|x| >= 2 && x[0] == '.' && '.' !in x[1..] && |x| < |name|)
    ensures name != [] ==> Stem(name) != []
  {
    var i := RFind(name, '.');
    if 0 < i < |name| - 1 {
      assert name == name[..i] + name[i..];
    }
  }
}

/**
 * The string operations the application relies on, with Python's meaning:
 * `str.lower` (folded to ASCII), `str.strip` (Python's whitespace set),
 * `str.split(sep)`, `sep.join`, `in` on strings, `str.endswith`,
 * `str.replace(old, "")` and `os.path.splitext`.
 */
module Text {

  predicate IsUpperAscii(c: char) { 'A' <= c <= 'Z' }

  /** ASCII case folding of one character. */
  function LowerChar(c: char): (d: char)
    ensures !IsUpperAscii(d)
    ensures IsUpperAscii(c) ==> d as int == c as int + 32
    ensures !IsUpperAscii(c) ==> d == c
  {
    if IsUpperAscii(c) then (c as int + 32) as char else c
  }

  /** `s.lower()`, restricted to ASCII letters. */
  function Lower(s: string): (r: string)
  {
    seq(|s|, i requires 0 <= i < |s| => LowerChar(s[i]))
  }

  predicate HasUpperAscii(s: string)
  {
    exists i :: 0 <= i < |s| && IsUpperAscii(s[i])
  }

  lemma LowerHasNoUpper(s: string)
    ensures |Lower(s)| == |s|
    ensures !HasUpperAscii(Lower(s))
  {
  }

  /**
   * The characters for which Python's `str.isspace` holds: ASCII tab to
   * carriage return, the four information separators, space, and the
   * Unicode line and space separators.
   */
  predicate IsSpace(c: char)
  {
    || '\t' <= c <= '\r'
    || '\U{1C}' <= c <= '\U{1F}'
    || c == ' '
    || c == '\U{85}' || c == '\U{A0}' || c == '\U{1680}'
    || '\U{2000}' <= c <= '\U{200A}'
    || c == '\U{2028}' || c == '\U{2029}' || c == '\U{202F}'
    || c == '\U{205F}' || c == '\U{3000}'
  }

  predicate AllSpace(s: string)
  {
    forall k :: 0 <= k < |s| ==> IsSpace(s[k])
  }

  /** The number of leading whitespace characters of `s`. */
  function LeadCount(s: string): (n: nat)
    ensures n <= |s|
    ensures forall k :: 0 <= k < n ==> IsSpace(s[k])
    ensures n < |s| ==> !IsSpace(s[n])
    decreases |s|
  {
    if |s| > 0 && IsSpace(s[0]) then 1 + LeadCount(s[1..]) else 0
  }

  /** The number of trailing whitespace characters of `s`. */
  function TrailCount(s: string): (n: nat)
    ensures n <= |s|
    ensures forall k :: |s| - n <= k < |s| ==> IsSpace(s[k])
    ensures n < |s| ==> !IsSpace(s[|s| - n - 1])
    decreases |s|
  {
    if |s| > 0 && IsSpace(s[|s| - 1]) then 1 + TrailCount(s[..|s| - 1]) else 0
  }

  /**
   * `s.strip()`: the slice of `s` between its leading and its trailing
   * whitespace; empty exactly when `s` is all whitespace.
   */
  function Strip(s: string): (r: string)
    ensures |r| <= |s|
    ensures r != [] ==> !IsSpace(r[0]) && !IsSpace(r[|r| - 1])
    ensures r == [] <==> AllSpace(s)
  {
    var i := LeadCount(s);
    if i == |s| then "" else
      var j := |s| - TrailCount(s);
      s[i..j]
  }

  /** `s` is all whitespace, so `s.strip()` is empty. */
  predicate Blank(s: string)
  {
    LeadCount(s) == |s|
  }

  /** A line is blank exactly when it strips to nothing, and exactly when it is all whitespace. */
  lemma BlankIff(s: string)
    ensures Blank(s) <==> Strip(s) == ""
    ensures Blank(s) <==> AllSpace(s)
  {
  }

  /** `s.strip()` is the infix of `s` with only whitespace around it. */
  lemma StripIsSlice(s: string)
    ensures exists i :: StrippedAt(s, Strip(s), i)
  {
    var i := LeadCount(s);
    if i == |s| {
      assert StrippedAt(s, Strip(s), i);
    } else {
      var j := |s| - TrailCount(s);
      assert IsSpace(s[i]) ==> j <= i;
      assert Strip(s) == s[i..j];
      assert StrippedAt(s, Strip(s), i);
    }
  }

  /** `r` sits at `i` in `s` with nothing but whitespace around it. */
  predicate StrippedAt(s: string, r: string, i: int)
  {
    0 <= i <= |s| - |r| && r == s[i..i + |r|] && AllSpace(s[..i]) && AllSpace(s[i + |r|..])
  }

  /** `s.split(sep)` for a one-character separator. */
  function Split(s: string, sep: char): (parts: seq<string>)
    ensures |parts| >= 1
    ensures forall k :: 0 <= k < |parts| ==> sep !in parts[k]
    decreases |s|
  {
    if s == [] then [""]
    else
      var rest := Split(s[1..], sep);
      if s[0] == sep then [""] + rest
      else [[s[0]] + rest[0]] + rest[1..]
  }

  /** The strings of `pieces` concatenated in order (`"".join`, or `+=` in a loop). */
  function Concat(pieces: seq<string>): string
  {
    if pieces == [] then "" else Concat(pieces[..|pieces| - 1]) + pieces[|pieces| - 1]
  }

  /** Concatenation distributes over appending. */
  lemma {:induction false} ConcatAppend(a: seq<string>, b: seq<string>)
    ensures Concat(a + b) == Concat(a) + Concat(b)
    decreases |b|
  {
    if b == [] {
      assert a + b == a;
    } else {
      var init, last := b[..|b| - 1], b[|b| - 1];
      assert (a + b)[..|a + b| - 1] == a + init;
      assert (a + b)[|a + b| - 1] == last;
      assert Concat(a + b) == Concat(a + init) + last;
      ConcatAppend(a, init);
      assert Concat(b) == Concat(init) + last;
      assert Concat(a) + Concat(init) + last == Concat(a) + (Concat(init) + last);
    }
  }

  /** Every piece sits in the concatenation right after the pieces before it. */
  lemma ConcatHoldsPiece(pieces: seq<string>, i: nat)
    requires i < |pieces|
    ensures OccursAt(Concat(pieces), pieces[i], |Concat(pieces[..i])|)
  {
    assert pieces == pieces[..i] + ([pieces[i]] + pieces[i + 1..]);
    ConcatAppend(pieces[..i], [pieces[i]] + pieces[i + 1..]);
    ConcatAppend([pieces[i]], pieces[i + 1..]);
    assert [pieces[i]][..0] == [];
  }

  /** `sep.join(xs)`. */
  function Join(xs: seq<string>, sep: string): string
  {
    if |xs| == 0 then ""
    else if |xs| == 1 then xs[0]
    else xs[0] + sep + Join(xs[1..], sep)
  }

  /** Splitting and joining with the same separator gives back the text. */
  lemma {:induction false} JoinSplit(s: string, sep: char)
    ensures Join(Split(s, sep), [sep]) == s
    decreases |s|
  {
    if s != [] {
      var rest := Split(s[1..], sep);
      JoinSplit(s[1..], sep);
      if s[0] == sep {
        assert s == [sep] + s[1..];
      } else {
        if |rest| == 1 {
          assert s == [s[0]] + rest[0];
        } else {
          assert rest == [rest[0]] + rest[1..];
          assert Join(rest, [sep]) == rest[0] + [sep] + Join(rest[1..], [sep]);
          assert s == [s[0]] + s[1..];
        }
      }
    }
  }

  /** Joining pieces free of the separator and splitting again gives back the pieces. */
  lemma {:induction false} SplitJoin(xs: seq<string>, sep: char)
    requires |xs| >= 1
    requires forall k :: 0 <= k < |xs| ==> sep !in xs[k]
    ensures Split(Join(xs, [sep]), sep) == xs
    decreases |xs|, |xs[0]|
  {
    if |xs| == 1 {
      SplitNoSep(xs[0], sep);
    } else if xs[0] == [] {
      var tail := Join(xs[1..], [sep]);
      assert Join(xs, [sep]) == [sep] + tail;
      SplitJoin(xs[1..], sep);
      assert [sep] + tail != [] && ([sep] + tail)[1..] == tail;
      assert xs == [""] + xs[1..];
    } else {
      var s := Join(xs, [sep]);
      var ys := [xs[0][1..]] + xs[1..];
      assert Join(ys, [sep]) == xs[0][1..] + [sep] + Join(xs[1..], [sep]);
      assert s == [xs[0][0]] + Join(ys, [sep]);
      assert forall k :: 0 <= k < |ys| ==> sep !in ys[k] by {
        forall k | 0 <= k < |ys| ensures sep !in ys[k] {
          if k == 0 {
            assert forall c :: c in xs[0][1..] ==> c in xs[0];
          } else {
            assert ys[k] == xs[k];
          }
        }
      }
      SplitJoin(ys, sep);
      assert s[0] == xs[0][0] && s[1..] == Join(ys, [sep]);
      assert xs[0][0] in xs[0];
      assert xs[0] == [xs[0][0]] + xs[0][1..];
      assert xs == [xs[0]] + ys[1..];
    }
  }

  lemma {:induction false} SplitNoSep(s: string, sep: char)
    requires sep !in s
    ensures Split(s, sep) == [s]
    decreases |s|
  {
    if s != [] {
      assert s[0] in s;
      assert forall c :: c in s[1..] ==> c in s;
      SplitNoSep(s[1..], sep);
      assert s == [s[0]] + s[1..];
    }
  }

  predicate IsPrefix(p: string, s: string)
  {
    |p| <= |s| && s[..|p|] == p
  }

  /** Python's `p in s` on strings. */
  predicate Contains(s: string, p: string)
    decreases |s|
  {
    IsPrefix(p, s) || (|s| > 0 && Contains(s[1..], p))
  }

  /** `p` occurs in `s` starting at index `i`. */
  predicate OccursAt(s: string, p: string, i: int)
  {
    0 <= i && i + |p| <= |s| && s[i..i + |p|] == p
  }

  /** `p in s` holds exactly when `p` occurs in `s` at some position. */
  lemma {:induction false} ContainsAt(s: string, p: string)
    ensures Contains(s, p) <==> exists i :: OccursAt(s, p, i)
    decreases |s|
  {
    if |s| > 0 {
      ContainsAt(s[1..], p);
      if Contains(s[1..], p) {
        var i :| OccursAt(s[1..], p, i);
        assert s[i + 1..i + 1 + |p|] == s[1..][i..i + |p|];
        assert OccursAt(s, p, i + 1);
      }
      if i :| OccursAt(s, p, i) {
        if i > 0 {
          assert s[1..][i - 1..i - 1 + |p|] == s[i..i + |p|];
          assert OccursAt(s[1..], p, i - 1);
        } else {
          assert IsPrefix(p, s);
        }
      }
    } else {
      if i :| OccursAt(s, p, i) {
        assert IsPrefix(p, s);
      }
    }
    if IsPrefix(p, s) {
      assert OccursAt(s, p, 0);
    }
  }

  /** An occurrence inside an occurrence is an occurrence. */
  lemma OccursWithin(s: string, t: string, p: string, i: int, j: int)
    requires OccursAt(s, t, i) && OccursAt(t, p, j)
    ensures OccursAt(s, p, i + j)
  {
    forall k | 0 <= k < |p| ensures s[i + j..i + j + |p|][k] == p[k] {
      assert t[j + k] == p[k];
      assert s[i + j + k] == t[j + k];
    }
  }

  /** A string occurs in any text that starts with some prefix and then holds it. */
  lemma OccursAfterPrefix(s: string, u: string, t: string)
    requires |u| + |t| <= |s| && s[..|u| + |t|] == u + t
    ensures OccursAt(s, t, |u|)
  {
    assert s[|u|..|u| + |t|] == (u + t)[|u|..];
  }

  lemma AppendAssoc(a: string, b: string, c: string)
    ensures a + (b + c) == a + b + c
  {
  }

  lemma PrefixOfConcat(u: string, w: string)
    ensures IsPrefix(u, u + w)
  {
    assert (u + w)[..|u|] == u;
  }

  lemma SuffixOfConcat(u: string, w: string)
    ensures EndsWith(u + w, w)
  {
    assert (u + w)[|u|..] == w;
  }

  /** The middle part of a three-part concatenation occurs right after the first. */
  lemma OccursInMiddle(u: string, t: string, w: string)
    ensures OccursAt(u + t + w, t, |u|)
  {
    assert (u + t + w)[|u|..|u| + |t|] == t;
  }

  /** An occurrence of `p` witnesses `p in s`. */
  lemma OccurrenceContains(s: string, p: string, i: nat)
    requires OccursAt(s, p, i)
    ensures Contains(s, p)
  {
    ContainsAt(s, p);
  }

  /** `s.endswith(suf)`. */
  predicate EndsWith(s: string, suf: string)
  {
    |suf| <= |s| && s[|s| - |suf|..] == suf
  }

  /**
   * `s.replace(pat, "")`: every occurrence of `pat`, scanning left to right
   * without overlap, is deleted.
   */
  function RemoveAll(s: string, pat: string): (r: string)
    requires |pat| > 0
    ensures |r| <= |s|
    decreases |s|
  {
    if |s| < |pat| then s
    else if s[..|pat|] == pat then RemoveAll(s[|pat|..], pat)
    else [s[0]] + RemoveAll(s[1..], pat)
  }

  /** A text in which the pattern's first character does not occur is left alone. */
  lemma {:induction false} RemoveAllAbsent(s: string, pat: string)
    requires |pat| > 0 && pat[0] !in s
    ensures RemoveAll(s, pat) == s
    decreases |s|
  {
    if |s| >= |pat| {
      assert s[0] != pat[0];
      assert s[..|pat|] != pat;
      assert s == [s[0]] + s[1..];
      RemoveAllAbsent(s[1..], pat);
    }
  }

  /** A stem that cannot start an occurrence of `pat` is left alone, and the trailing `pat` goes. */
  lemma {:induction false} RemoveAllTrailing(stem: string, pat: string)
    requires |pat| > 0 && pat[0] !in stem
    ensures RemoveAll(stem + pat, pat) == stem
    decreases |stem|
  {
    var s := stem + pat;
    if stem == [] {
      assert s[..|pat|] == pat && s[|pat|..] == [];
    } else {
      assert s[0] == stem[0] != pat[0];
      assert s[..|pat|] != pat;
      assert s[1..] == stem[1..] + pat;
      assert stem == [stem[0]] + stem[1..];
      RemoveAllTrailing(stem[1..], pat);
    }
  }

  /** Index of the last `c` in `s`, or -1 (Python's `rfind`). */
  function LastIndexOf(s: string, c: char): (r: int)
    ensures -1 <= r < |s|
    ensures r == -1 <==> c !in s
    ensures r >= 0 ==> s[r] == c
    ensures forall k :: r < k < |s| ==> s[k] != c
    decreases |s|
  {
    if s == [] then -1
    else if s[|s| - 1] == c then |s| - 1
    else
      var r := LastIndexOf(s[..|s| - 1], c);
      assert forall d :: d in s[..|s| - 1] ==> d in s;
      assert c in s ==> c in s[..|s| - 1] by {
        if c in s {
          var k :| 0 <= k < |s| && s[k] == c;
          assert s[..|s| - 1][k] == c;
        }
      }
      r
  }

  predicate AllDots(s: string)
  {
    forall k :: 0 <= k < |s| ==> s[k] == '.'
  }

  /**
   * `os.path.splitext(p)[0]` on POSIX: the text before the last dot of the
   * last path component, unless that component has nothing but dots before
   * that dot (a leading-dot name has no extension).
   */
  function SplitExtRoot(p: string): string
  {
    var sepIndex := LastIndexOf(p, '/');
    var dotIndex := LastIndexOf(p, '.');
    if dotIndex > sepIndex && !AllDots(p[sepIndex + 1..dotIndex]) then p[..dotIndex] else p
  }

  /**
   * The root is a prefix of the path, and what it drops has no `/`: only an
   * extension of the last path component goes. A last component without a
   * dot keeps the whole path.
   */
  lemma SplitExtRootShape(p: string)
    ensures IsPrefix(SplitExtRoot(p), p) && '/' !in p[|SplitExtRoot(p)|..]
    ensures LastIndexOf(p, '.') <= LastIndexOf(p, '/') ==> SplitExtRoot(p) == p
  {
    var sepIndex := LastIndexOf(p, '/');
    var dotIndex := LastIndexOf(p, '.');
    if dotIndex > sepIndex && !AllDots(p[sepIndex + 1..dotIndex]) {
      assert SplitExtRoot(p) == p[..dotIndex];
      AbsentAfterLast(p, '/', dotIndex);
    } else {
      assert SplitExtRoot(p) == p;
      assert p[|p|..] == [];
    }
  }

  /** Past the last occurrence of `c` there is none. */
  lemma AbsentAfterLast(s: string, c: char, from: nat)
    requires LastIndexOf(s, c) < from <= |s|
    ensures c !in s[from..]
  {
    forall d | d in s[from..] ensures d != c {
      var k :| 0 <= k < |s[from..]| && s[from..][k] == d;
      assert s[from + k] == d;
    }
  }

  /** The root of `stem.ext` is `stem` when the stem is a plain file name with a non-dot character. */
  lemma SplitExtRootOfName(stem: string, ext: string)
    requires '/' !in stem && |ext| > 0 && ext[0] == '.' && '.' !in ext[1..] && '/' !in ext
    requires !AllDots(stem)
    ensures SplitExtRoot(stem + ext) == stem
  {
    var p := stem + ext;
    assert p[|stem|] == '.';
    forall k | |stem| < k < |p| ensures p[k] != '.' && p[k] != '/' {
      assert p[k] == ext[k - |stem|];
      assert ext[1..][k - |stem| - 1] == ext[k - |stem|];
    }
    assert LastIndexOf(p, '.') == |stem|;
    forall k | 0 <= k < |p| ensures p[k] != '/' {
      if k < |stem| { assert p[k] == stem[k]; } else { assert p[k] == ext[k - |stem|]; }
    }
    assert LastIndexOf(p, '/') == -1;
    assert p[0..|stem|] == stem;
  }
}

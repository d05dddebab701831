/** The JavaScript string operations the application relies on, written out:
    `trim`, `split` on a one-character separator, `toLowerCase`, global
    removal of a literal pattern (`replace(/pat\n?/g, '')`), and the decimal
    rendering of a whole number inside a template literal. */
module Strings {

  /** A value that may be undefined. */
  datatype Maybe<+T> = None | Some(value: T)

  function Min(a: int, b: int): int { if a <= b then a else b }

  // ---------------------------------------------------------------- trim

  /** The WhiteSpace and LineTerminator code points of ECMAScript: exactly
      what `String.prototype.trim` strips from both ends. */
  predicate IsSpace(c: char) {
    var n := c as int;
    n == 0x09 || n == 0x0A || n == 0x0B || n == 0x0C || n == 0x0D || n == 0x20
    || n == 0xA0 || n == 0x1680 || (0x2000 <= n <= 0x200A) || n == 0x2028
    || n == 0x2029 || n == 0x202F || n == 0x205F || n == 0x3000 || n == 0xFEFF
  }

  function TrimStart(s: string): (r: string)
    ensures |r| <= |s| && r == s[|s| - |r|..]
    ensures forall i :: 0 <= i < |s| - |r| ==> IsSpace(s[i])
    ensures r == [] || !IsSpace(r[0])
  {
    if |s| > 0 && IsSpace(s[0]) then
      var r := TrimStart(s[1..]);
      LeadingSpaces(s, |s| - |r|);
      r
    else s
  }

  /** White space at the front of `s[1..]`, after white space at `s[0]`, is
      white space at the front of `s`. */
  lemma LeadingSpaces(s: string, n: nat)
    requires 1 <= n <= |s| && IsSpace(s[0])
    requires forall i :: 0 <= i < n - 1 ==> IsSpace(s[1..][i])
    ensures s[1..][n - 1..] == s[n..]
    ensures forall i :: 0 <= i < n ==> IsSpace(s[i])
  {
    forall i | 1 <= i < n ensures IsSpace(s[i]) {
      assert s[i] == s[1..][i - 1];
    }
  }

  function TrimEnd(s: string): (r: string)
    ensures |r| <= |s| && r == s[..|r|]
    ensures forall i :: |r| <= i < |s| ==> IsSpace(s[i])
    ensures r == [] || !IsSpace(r[|r| - 1])
  {
    if |s| > 0 && IsSpace(s[|s| - 1]) then TrimEnd(s[..|s| - 1]) else s
  }

  /** `s.trim()`: the result neither starts nor ends with white space. */
  function Trim(s: string): (r: string)
    ensures r == [] || (!IsSpace(r[0]) && !IsSpace(r[|r| - 1]))
  {
    TrimEnd(TrimStart(s))
  }

  /** A prefix of a suffix is a slice. */
  lemma PrefixOfSuffix(s: string, k: nat, n: nat)
    requires k + n <= |s|
    ensures s[k..][..n] == s[k..k + n]
  {
  }

  /** The white space `TrimEnd` drops from a suffix of `s` lies at the end of `s`. */
  lemma TrailingSpaces(s: string, k: nat, t: string, n: nat)
    requires k <= |s| && t == s[k..] && n <= |t|
    requires forall i :: n <= i < |t| ==> IsSpace(t[i])
    ensures forall i :: k + n <= i < |s| ==> IsSpace(s[i])
  {
    forall i | k + n <= i < |s| ensures IsSpace(s[i]) {
      assert s[i] == t[i - k];
    }
  }

  /** `s` is the trim with a run of white space before it and one after it. */
  lemma TrimSlice(s: string)
    ensures var k := |s| - |TrimStart(s)|;
      && k + |Trim(s)| <= |s| && Trim(s) == s[k..k + |Trim(s)|]
      && (forall i :: 0 <= i < k ==> IsSpace(s[i]))
      && (forall i :: k + |Trim(s)| <= i < |s| ==> IsSpace(s[i]))
  {
    var k, m := TrimBounds(s);
    TrimLeading(s);
    TrimTrailing(s);
  }

  /** The white space before the trim runs from the start of the text. */
  lemma TrimLeading(s: string)
    ensures forall i :: 0 <= i < |s| - |TrimStart(s)| ==> IsSpace(s[i])
  {
  }

  /** The white space after the trim runs to the end of the text. */
  lemma TrimTrailing(s: string)
    ensures forall i :: |s| - |TrimStart(s)| + |Trim(s)| <= i < |s| ==> IsSpace(s[i])
  {
    var t := TrimStart(s);
    TrailingSpaces(s, |s| - |t|, t, |TrimEnd(t)|);
  }

  /** A string that does not start or end with white space is its own trim. */
  lemma TrimUntouched(s: string)
    requires s == [] || (!IsSpace(s[0]) && !IsSpace(s[|s| - 1]))
    ensures Trim(s) == s
  {
  }

  /** Trimming is idempotent. */
  lemma TrimIdempotent(s: string)
    ensures Trim(Trim(s)) == Trim(s)
  {
    TrimUntouched(Trim(s));
  }

  /** The trim is empty exactly when every character is white space. */
  lemma {:induction false} TrimEmpty(s: string)
    ensures Trim(s) == [] <==> forall i :: 0 <= i < |s| ==> IsSpace(s[i])
  {
    var k := |s| - |TrimStart(s)|;
    TrimSlice(s);
    if Trim(s) == [] {
      forall i | 0 <= i < |s| ensures IsSpace(s[i]) {
        assert i < k || k + |Trim(s)| <= i;
      }
    } else {
      assert Trim(s)[0] == s[k] && !IsSpace(s[k]);
    }
  }

  // ---------------------------------------------------------------- split

  /** `s.split(sep)` for a one-character separator: the pieces between
      separators, from left to right. */
  function Split(s: string, sep: char): (parts: seq<string>)
    ensures |parts| >= 1
    ensures sep in s ==> |parts| >= 2
    ensures forall p :: p in parts ==> sep !in p
  {
    if s == [] then [""]
    else
      var rest := Split(s[1..], sep);
      if s[0] == sep then [""] + rest else [[s[0]] + rest[0]] + rest[1..]
  }

  /** `parts.join(sep)`, the inverse of `Split`. */
  function Join(parts: seq<string>, sep: char): string
  {
    if parts == [] then ""
    else if |parts| == 1 then parts[0]
    else parts[0] + [sep] + Join(parts[1..], sep)
  }

  /** Text in front of the first piece joins in front of the whole. */
  lemma JoinPrepend(a: string, parts: seq<string>, sep: char)
    requires |parts| >= 1
    ensures Join([a + parts[0]] + parts[1..], sep) == a + Join(parts, sep)
  {
    var ps := [a + parts[0]] + parts[1..];
    if |parts| > 1 {
      assert ps[1..] == parts[1..];
    }
  }

  /** Splitting and joining again gives back the string. */
  lemma {:induction false} JoinSplit(s: string, sep: char)
    ensures Join(Split(s, sep), sep) == s
  {
    if s != [] {
      var rest := Split(s[1..], sep);
      JoinSplit(s[1..], sep);
      if s[0] == sep {
        assert ([""] + rest)[1..] == rest;
      } else {
        JoinPrepend([s[0]], rest, sep);
      }
      assert s == [s[0]] + s[1..];
    }
  }

  /** A string without the separator is a single piece. */
  lemma {:induction false} SplitNoSeparator(a: string, sep: char)
    requires sep !in a
    ensures Split(a, sep) == [a]
  {
    if a != [] {
      SplitNoSeparator(a[1..], sep);
      assert [a[0]] + a[1..] == a;
    }
  }

  /** A piece without the separator, then the separator, splits off as the first piece. */
  lemma {:induction false} SplitAfterPiece(a: string, sep: char, t: string)
    requires sep !in a
    ensures Split(a + [sep] + t, sep) == [a] + Split(t, sep)
  {
    var s := a + [sep] + t;
    if a == [] {
      assert s[1..] == t;
    } else {
      assert s[1..] == a[1..] + [sep] + t;
      SplitAfterPiece(a[1..], sep, t);
      assert [a[0]] + a[1..] == a;
    }
  }

  /** Joining pieces that do not contain the separator and splitting again
      gives back the pieces. */
  lemma {:induction false} SplitJoin(parts: seq<string>, sep: char)
    requires |parts| >= 1
    requires forall p :: p in parts ==> sep !in p
    ensures Split(Join(parts, sep), sep) == parts
  {
    if |parts| == 1 {
      SplitNoSeparator(parts[0], sep);
    } else {
      SplitJoin(parts[1..], sep);
      SplitAfterPiece(parts[0], sep, Join(parts[1..], sep));
    }
  }

  /** Joining two runs of pieces puts the separator between their joins. */
  lemma {:induction false} JoinAppend(ps: seq<string>, qs: seq<string>, sep: char)
    requires |ps| >= 1 && |qs| >= 1
    ensures Join(ps + qs, sep) == Join(ps, sep) + [sep] + Join(qs, sep)
  {
    if |ps| > 1 {
      JoinAppend(ps[1..], qs, sep);
      assert (ps + qs)[1..] == ps[1..] + qs;
    } else {
      assert (ps + qs)[1..] == qs;
    }
  }

  /** Splitting at one separator splits the two sides on their own. */
  lemma SplitAppend(a: string, sep: char, t: string)
    ensures Split(a + [sep] + t, sep) == Split(a, sep) + Split(t, sep)
  {
    var ps := Split(a, sep);
    var qs := Split(t, sep);
    JoinSplit(a, sep);
    JoinSplit(t, sep);
    JoinAppend(ps, qs, sep);
    SplitJoin(ps + qs, sep);
  }

  /** The first piece is the text before the first separator, or the whole
      string when there is none. */
  lemma {:induction false} SplitHead(s: string, sep: char)
    ensures var h := Split(s, sep)[0];
      && h <= s && sep !in h
      && (|h| == |s| || s[|h|] == sep)
  {
    if s != [] {
      SplitHead(s[1..], sep);
      if s[0] != sep {
        var h := Split(s[1..], sep)[0];
        assert Split(s, sep)[0] == [s[0]] + h;
        assert s == [s[0]] + s[1..];
      }
    }
  }

  // ---------------------------------------------------------------- case

  /** `toLowerCase` on one character; only the ASCII capitals are mapped. */
  function LowerChar(c: char): char
  {
    if 'A' <= c <= 'Z' then (c as int + 32) as char else c
  }

  /** `s.toLowerCase()`, character by character. */
  function ToLower(s: string): (r: string)
    ensures |r| == |s|
    ensures forall i :: 0 <= i < |s| ==> r[i] == LowerChar(s[i])
  {
    if s == [] then [] else [LowerChar(s[0])] + ToLower(s[1..])
  }

  // ---------------------------------------------------------------- replace

  /** `s.replace(/pat\n?/g, '')` for a literal `pat`: scanning from the left,
      every occurrence of `pat`, together with the newline right after it if
      there is one, is deleted, and the scan resumes after the deleted text. */
  function RemoveAll(s: string, pat: string): (r: string)
    requires pat != []
    ensures |r| <= |s|
    decreases |s|
  {
    if s == [] then []
    else if pat <= s then
      var rest := s[|pat|..];
      if rest != [] && rest[0] == '\n' then RemoveAll(rest[1..], pat) else RemoveAll(rest, pat)
    else
      [s[0]] + RemoveAll(s[1..], pat)
  }

  /** A string that does not contain the pattern's first character is left as it is. */
  lemma {:induction false} RemoveAllAbsent(s: string, pat: string)
    requires pat != [] && pat[0] !in s
    ensures RemoveAll(s, pat) == s
  {
    if s != [] {
      assert !(pat <= s) by { assert s[0] != pat[0]; }
      RemoveAllAbsent(s[1..], pat);
    }
  }

  /** Removal passes over text that cannot start a match. */
  lemma {:induction false} RemoveAllSkips(a: string, t: string, pat: string)
    requires pat != [] && pat[0] !in a
    ensures RemoveAll(a + t, pat) == a + RemoveAll(t, pat)
    decreases |a|
  {
    if a != [] {
      var s := a + t;
      assert s[0] == a[0];
      assert !(pat <= s) by { assert s[0] != pat[0]; }
      assert RemoveAll(s, pat) == [a[0]] + RemoveAll(s[1..], pat);
      assert s[1..] == a[1..] + t;
      RemoveAllSkips(a[1..], t, pat);
      assert [a[0]] + (a[1..] + RemoveAll(t, pat)) == a + RemoveAll(t, pat);
    } else {
      assert a + t == t;
    }
  }

  /** A match of `pat` starts at position `i` of `s`. */
  predicate MatchAt(s: string, pat: string, i: nat)
    requires i <= |s|
  {
    pat <= s[i..]
  }

  /** No match of `pat` starts in the first `n` positions of `s`. */
  predicate NoMatchBefore(s: string, pat: string, n: nat)
    requires n <= |s|
  {
    forall i :: 0 <= i < n ==> !MatchAt(s, pat, i)
  }

  /** Removal keeps a first character that starts no match. */
  lemma RemoveAllStep(s: string, pat: string)
    requires pat != [] && s != [] && !MatchAt(s, pat, 0)
    ensures RemoveAll(s, pat) == [s[0]] + RemoveAll(s[1..], pat)
  {
    assert s[0..] == s;
  }

  /** Dropping the first character shifts the positions of matches by one. */
  lemma NoMatchTail(s: string, pat: string, n: nat)
    requires 1 <= n <= |s| && NoMatchBefore(s, pat, n)
    ensures NoMatchBefore(s[1..], pat, n - 1)
  {
    forall i | 0 <= i < n - 1
      ensures !MatchAt(s[1..], pat, i)
    {
      assert !MatchAt(s, pat, i + 1);
      assert s[1..][i..] == s[i + 1..];
    }
  }

  /** Removal passes over a prefix none of whose positions starts a match. */
  lemma {:induction false} RemoveAllSkipsNoMatch(a: string, t: string, pat: string)
    requires pat != []
    requires NoMatchBefore(a + t, pat, |a|)
    ensures RemoveAll(a + t, pat) == a + RemoveAll(t, pat)
    decreases |a|
  {
    if a == [] {
      assert a + t == t;
    } else {
      var s := a + t;
      RemoveAllStep(s, pat);
      NoMatchTail(s, pat, |a|);
      assert s[1..] == a[1..] + t;
      RemoveAllSkipsNoMatch(a[1..], t, pat);
      assert [a[0]] + (a[1..] + RemoveAll(t, pat)) == a + RemoveAll(t, pat);
    }
  }

  /** Text shorter than the pattern holds no occurrence of it. */
  lemma {:induction false} RemoveAllShort(s: string, pat: string)
    requires pat != [] && |s| < |pat|
    ensures RemoveAll(s, pat) == s
    decreases |s|
  {
    if s != [] {
      assert !(pat <= s);
      RemoveAllShort(s[1..], pat);
    }
  }

  /** An occurrence at the front is deleted together with the newline after it. */
  lemma RemoveAllDropsMatch(pat: string, u: string)
    requires pat != []
    ensures RemoveAll(pat + "\n" + u, pat) == RemoveAll(u, pat)
    ensures u == [] || u[0] != '\n' ==> RemoveAll(pat + u, pat) == RemoveAll(u, pat)
  {
    var s := pat + "\n" + u;
    assert pat <= s;
    assert s[|pat|..] == "\n" + u;
    assert ("\n" + u)[1..] == u;
    assert pat <= pat + u;
    assert (pat + u)[|pat|..] == u;
  }

  /** Three backticks start at position `i` of `s`. */
  predicate FenceAt(s: string, i: int)
  {
    0 <= i && i + 3 <= |s| && s[i] == '`' && s[i + 1] == '`' && s[i + 2] == '`'
  }

  /** No three backticks in a row anywhere in `s`. */
  ghost predicate FenceFree(s: string)
  {
    forall i :: !FenceAt(s, i)
  }

  /** A string starting with a character other than a backtick keeps it in front. */
  lemma KeepsPlainHead(s: string)
    requires s != [] && s[0] != '`'
    ensures RemoveAll(s, "```") == [s[0]] + RemoveAll(s[1..], "```")
  {
    assert !("```" <= s) by { assert s[0] != "```"[0]; }
  }

  /** After removing every "```", no three backticks are left in a row. */
  lemma {:induction false} RemoveFencesLeavesNone(s: string)
    ensures FenceFree(RemoveAll(s, "```"))
    decreases |s|
  {
    var fence := "```";
    if s == [] {
    } else if fence <= s {
      var rest := s[3..];
      if rest != [] && rest[0] == '\n' {
        RemoveFencesLeavesNone(rest[1..]);
      } else {
        RemoveFencesLeavesNone(rest);
      }
    } else {
      var tail := RemoveAll(s[1..], fence);
      var r := RemoveAll(s, fence);
      assert r == [s[0]] + tail;
      RemoveFencesLeavesNone(s[1..]);
      forall i ensures !FenceAt(r, i) {
        if i >= 1 {
          assert FenceAt(r, i) ==> FenceAt(tail, i - 1);
        } else if i == 0 {
          // s does not start with three backticks, so its first two kept
          // characters cannot both be followed by a third backtick
          if s[0] != '`' {
          } else if |s| == 1 {
            assert tail == [];
          } else if s[1] != '`' {
            KeepsPlainHead(s[1..]);
            assert r[1] == s[1];
          } else {
            assert |s| == 2 || s[2] != '`' by {
              assert |s| >= 3 ==> s[..3] != fence;
            }
            KeepsPlainHead2(s[1..]);
          }
        }
      }
    }
  }

  /** A backtick followed by the end or by another character keeps both in front. */
  lemma KeepsPlainHead2(s: string)
    requires |s| >= 1 && s[0] == '`' && (|s| == 1 || s[1] != '`')
    ensures |RemoveAll(s, "```")| >= 1 && RemoveAll(s, "```")[0] == '`'
    ensures |RemoveAll(s, "```")| == 1 || RemoveAll(s, "```")[1] != '`'
  {
    assert !("```" <= s) by { if |s| >= 2 { assert s[1] != "```"[1]; } }
    assert RemoveAll(s, "```") == [s[0]] + RemoveAll(s[1..], "```");
    if |s| >= 2 {
      KeepsPlainHead(s[1..]);
    }
  }

  /** The characters of a trim form a slice, so no fence appears in it either. */
  lemma TrimKeepsFenceFree(s: string)
    requires FenceFree(s)
    ensures FenceFree(Trim(s))
  {
    var k, m := TrimBounds(s);
    SliceKeepsFenceFree(s, k, m);
  }

  /** The trim is a slice of the text. */
  lemma TrimBounds(s: string) returns (k: nat, m: nat)
    ensures k <= m <= |s| && Trim(s) == s[k..m]
    ensures k == |s| - |TrimStart(s)| && m - k == |TrimEnd(TrimStart(s))|
  {
    var t := TrimStart(s);
    k, m := |s| - |t|, |s| - |t| + |TrimEnd(t)|;
    PrefixOfSuffix(s, k, m - k);
  }

  /** A slice of fence-free text is fence-free. */
  lemma SliceKeepsFenceFree(s: string, k: nat, m: nat)
    requires FenceFree(s) && k <= m <= |s|
    ensures FenceFree(s[k..m])
  {
    forall i ensures !FenceAt(s[k..m], i) {
      assert FenceAt(s[k..m], i) ==> FenceAt(s, k + i);
    }
  }

  // ---------------------------------------------------------------- numbers

  /** The decimal digit for `d`. */
  function Digit(d: nat): char
    requires d < 10
  {
    ('0' as int + d) as char
  }

  /** The value of a decimal digit. */
  function DigitValue(c: char): nat
  {
    if '0' <= c <= '9' then c as int - '0' as int else 0
  }

  /** The number a string of decimal digits denotes, most significant digit first. */
  function DecimalValue(s: string): nat
  {
    if s == [] then 0 else DecimalValue(s[..|s| - 1]) * 10 + DigitValue(s[|s| - 1])
  }

  /** The decimal text of `n`, as a template literal renders a whole number. */
  function NatToString(n: nat): (r: string)
    ensures r != []
    ensures forall i :: 0 <= i < |r| ==> '0' <= r[i] <= '9'
  {
    if n < 10 then [Digit(n)] else NatToString(n / 10) + [Digit(n % 10)]
  }

  /** The decimal text denotes `n` and has no leading zero, unless `n` is zero. */
  lemma {:induction false} NatToStringValue(n: nat)
    ensures DecimalValue(NatToString(n)) == n
    ensures NatToString(n)[0] == '0' <==> n == 0
  {
    var r := NatToString(n);
    if n < 10 {
      assert r[..0] == [];
      assert DigitValue(Digit(n)) == n;
    } else {
      NatToStringValue(n / 10);
      var h := NatToString(n / 10);
      assert r[..|r| - 1] == h;
      assert DigitValue(Digit(n % 10)) == n % 10;
      assert r[0] == h[0];
    }
  }

  // ---------------------------------------------------------------- search

  /** `t` occurs in `s` starting at position `i`. */
  predicate OccursAt(s: string, t: string, i: int)
  {
    0 <= i && i + |t| <= |s| && s[i..i + |t|] == t
  }

  /** `s.includes(t)`. */
  ghost predicate Contains(s: string, t: string)
  {
    exists i :: OccursAt(s, t, i)
  }

  /** A piece of a concatenation occurs in it. */
  lemma ContainsPiece(a: string, t: string, b: string)
    ensures Contains(a + t + b, t)
  {
    assert (a + t + b)[|a|..|a| + |t|] == t;
    assert OccursAt(a + t + b, t, |a|);
  }

  /** Two adjacent pieces at the end of a string occur in it. */
  lemma ContainsPair(a: string, t1: string, t2: string)
    ensures Contains(a + t1 + t2, t1 + t2)
  {
    assert (a + t1 + t2)[|a|..|a| + |t1 + t2|] == t1 + t2;
    assert OccursAt(a + t1 + t2, t1 + t2, |a|);
  }

  /** What occurs in a string still occurs once more text follows it. */
  lemma ContainsExtend(s: string, t: string, u: string)
    requires Contains(s, t)
    ensures Contains(s + u, t)
  {
    var i :| OccursAt(s, t, i);
    assert (s + u)[i..i + |t|] == s[i..i + |t|];
    assert OccursAt(s + u, t, i);
  }

  /** Three adjacent pieces at the end of a string occur in it. */
  lemma ContainsTriple(a: string, t1: string, t2: string, t3: string)
    ensures Contains(a + t1 + t2 + t3, t1 + t2 + t3)
  {
    assert (a + t1 + t2 + t3)[|a|..|a| + |t1 + t2 + t3|] == t1 + t2 + t3;
    assert OccursAt(a + t1 + t2 + t3, t1 + t2 + t3, |a|);
  }

  /** A prefix stays a prefix once more text follows. */
  lemma PrefixExtend(p: string, s: string, u: string)
    requires p <= s
    ensures p <= s + u
  {
    assert (s + u)[..|p|] == s[..|p|];
  }
}

/**
 * The Python built-ins on strings and lists that the plugin relies on, with
 * Python's own semantics: slicing with negative and out-of-range bounds,
 * str.join, str.split with a one-character separator, str.rstrip,
 * str.replace and str.count (leftmost, non-overlapping), str(int),
 * substring membership, repr of a list of strings, max and min.
 */
module PyStr {

  /** max(a, b) */
  function Max(a: int, b: int): int
  {
    if a < b then b else a
  }

  /** min(a, b) */
  function Min(a: int, b: int): int
  {
    if a < b then a else b
  }

  /** One bound of a slice s[i:j]: a negative bound counts from the end, then
      the bound is clamped to 0..n. */
  function SliceBound(i: int, n: nat): (r: nat)
    ensures r <= n
    ensures 0 <= i <= n ==> r == i
  {
    if i < 0 then (if n + i < 0 then 0 else n + i)
    else if n < i then n
    else i
  }

  /** s[start:stop]. */
  function Slice<T>(s: seq<T>, start: int, stop: int): (r: seq<T>)
    ensures |r| <= |s|
    ensures 0 <= start <= stop <= |s| ==> r == s[start..stop]
  {
    var a := SliceBound(start, |s|);
    var b := SliceBound(stop, |s|);
    if a < b then s[a..b] else []
  }

  /** s[start:] */
  function SliceFrom<T>(s: seq<T>, start: int): seq<T>
  {
    Slice(s, start, |s|)
  }

  /** s[:stop] */
  function SliceTo<T>(s: seq<T>, stop: int): seq<T>
  {
    Slice(s, 0, stop)
  }

  /** sep.join(parts) */
  function Join(sep: string, parts: seq<string>): string
    decreases |parts|
  {
    if |parts| == 0 then ""
    else if |parts| == 1 then parts[0]
    else parts[0] + sep + Join(sep, parts[1..])
  }

  /** s.split(sep) for a one-character separator: always at least one piece. */
  function Split(s: string, sep: char): (r: seq<string>)
    ensures |r| >= 1
    decreases |s|
  {
    if |s| == 0 then [""]
    else
      var rest := Split(s[1..], sep);
      if s[0] == sep then [""] + rest
      else [[s[0]] + rest[0]] + rest[1..]
  }

  /** Joining the pieces of a split with the separator gives the string back. */
  lemma {:induction false} JoinSplit(s: string, sep: char)
    ensures Join([sep], Split(s, sep)) == s
    decreases |s|
  {
    if |s| > 0 {
      var rest := Split(s[1..], sep);
      JoinSplit(s[1..], sep);
      if s[0] == sep {
        assert Split(s, sep) == [""] + rest;
        assert ([""] + rest)[1..] == rest;
        assert [sep] + s[1..] == s;
      } else {
        var parts := Split(s, sep);
        assert parts == [[s[0]] + rest[0]] + rest[1..];
        if |rest| == 1 {
          assert [s[0]] + s[1..] == s;
        } else {
          assert parts[1..] == rest[1..];
          assert Join([sep], rest) == rest[0] + [sep] + Join([sep], rest[1..]);
          assert [s[0]] + s[1..] == s;
        }
      }
    }
  }

  /** Splitting a string that starts with the character `c`. */
  lemma SplitCons(c: char, t: string, sep: char)
    ensures var rest := Split(t, sep);
            Split([c] + t, sep) == if c == sep then [""] + rest else [[c] + rest[0]] + rest[1..]
  {
    assert ([c] + t)[0] == c && ([c] + t)[1..] == t;
  }

  /** The step of SplitAtSep once the rest of the first part has been split. */
  lemma ConsSplits(c: char, a: string, ra: seq<string>, b: string, sep: char)
    requires ra == Split(a, sep) && Split(a + [sep] + b, sep) == ra + Split(b, sep)
    ensures Split([c] + (a + [sep] + b), sep) == Split([c] + a, sep) + Split(b, sep)
  {
    SplitCons(c, a + [sep] + b, sep);
    SplitCons(c, a, sep);
    var rb := Split(b, sep);
    if c == sep {
      AppendAssoc([""], ra, rb);
    } else {
      AppendFirst(ra, rb);
      AppendAssoc([[c] + ra[0]], ra[1..], rb);
    }
  }

  lemma AppendAssoc<T>(x: seq<T>, y: seq<T>, z: seq<T>)
    ensures x + (y + z) == (x + y) + z
  {
  }

  lemma AppendFirst<T>(x: seq<T>, y: seq<T>)
    requires |x| >= 1
    ensures (x + y)[0] == x[0] && (x + y)[1..] == x[1..] + y
  {
    assert (x + y)[1..] == x[1..] + y;
  }

  /** A separator splits the string into the pieces on either side of it. */
  lemma {:induction false} SplitAtSep(a: string, b: string, sep: char)
    ensures Split(a + [sep] + b, sep) == Split(a, sep) + Split(b, sep)
    decreases |a|
  {
    if |a| == 0 {
      assert a + [sep] + b == [sep] + b;
      SplitCons(sep, b, sep);
    } else {
      var t := a[1..] + [sep] + b;
      assert a + [sep] + b == [a[0]] + t;
      SplitAtSep(a[1..], b, sep);
      ConsSplits(a[0], a[1..], Split(a[1..], sep), b, sep);
    }
  }

  /** A string without the separator is a single piece. */
  lemma {:induction false} SplitNoSep(a: string, sep: char)
    requires forall i :: 0 <= i < |a| ==> a[i] != sep
    ensures Split(a, sep) == [a]
    decreases |a|
  {
    if |a| > 0 {
      SplitNoSep(a[1..], sep);
      assert [a[0]] + a[1..] == a;
    }
  }

  /** No piece of a split contains the separator. */
  lemma {:induction false} SplitPiecesFree(s: string, sep: char)
    ensures forall k, i :: 0 <= k < |Split(s, sep)| && 0 <= i < |Split(s, sep)[k]| ==> Split(s, sep)[k][i] != sep
    decreases |s|
  {
    if |s| > 0 {
      SplitPiecesFree(s[1..], sep);
    }
  }

  /** A character absent from the string is absent from every piece of its split. */
  lemma {:induction false} SplitPiecesAvoid(s: string, sep: char, c: char)
    requires forall i :: 0 <= i < |s| ==> s[i] != c
    ensures forall k, i :: 0 <= k < |Split(s, sep)| && 0 <= i < |Split(s, sep)[k]| ==> Split(s, sep)[k][i] != c
    decreases |s|
  {
    if |s| > 0 {
      SplitPiecesAvoid(s[1..], sep, c);
    }
  }

  /** Splitting a join of separator-free pieces gives the pieces back. */
  lemma {:induction false} SplitJoin(parts: seq<string>, sep: char)
    requires |parts| >= 1
    requires forall k, i :: 0 <= k < |parts| && 0 <= i < |parts[k]| ==> parts[k][i] != sep
    ensures Split(Join([sep], parts), sep) == parts
    decreases |parts|
  {
    SplitNoSep(parts[0], sep);
    if |parts| > 1 {
      SplitJoin(parts[1..], sep);
      SplitAtSep(parts[0], Join([sep], parts[1..]), sep);
      assert [parts[0]] + parts[1..] == parts;
    }
  }

  /** The characters str.isspace() accepts. */
  predicate IsSpace(c: char)
  {
    c == ' ' || ('\t' <= c <= '\r') || ('\U{1C}' <= c <= '\U{1F}') || c == '\U{85}' || c == '\U{A0}'
    || c == '\U{1680}' || ('\U{2000}' <= c <= '\U{200A}') || c == '\U{2028}' || c == '\U{2029}'
    || c == '\U{202F}' || c == '\U{205F}' || c == '\U{3000}'
  }

  /** s.rstrip(): the longest prefix of s that does not end in whitespace,
      such that everything removed was whitespace. */
  function RStrip(s: string): (r: string)
    ensures r <= s
    ensures |r| == 0 || !IsSpace(r[|r| - 1])
    ensures forall i :: |r| <= i < |s| ==> IsSpace(s[i])
    decreases |s|
  {
    if |s| > 0 && IsSpace(s[|s| - 1]) then RStrip(s[..|s| - 1]) else s
  }

  /** s.replace(pat, rep): every leftmost, non-overlapping occurrence. */
  function Replace(s: string, pat: string, rep: string): string
    requires |pat| > 0
    decreases |s|
  {
    if |s| == 0 then ""
    else if pat <= s then rep + Replace(s[|pat|..], pat, rep)
    else [s[0]] + Replace(s[1..], pat, rep)
  }

  /** s.count(pat): the occurrences Replace would replace. */
  function Count(s: string, pat: string): nat
    requires |pat| > 0
    decreases |s|
  {
    if |s| == 0 then 0
    else if pat <= s then 1 + Count(s[|pat|..], pat)
    else Count(s[1..], pat)
  }

  /** Each replacement changes the length by the difference of the lengths. */
  lemma {:induction false} ReplaceLength(s: string, pat: string, rep: string)
    requires |pat| > 0
    ensures |Replace(s, pat, rep)| == |s| + Count(s, pat) * (|rep| - |pat|)
    decreases |s|
  {
    if |s| > 0 {
      if pat <= s {
        ReplaceLength(s[|pat|..], pat, rep);
        var c := Count(s[|pat|..], pat);
        assert (c + 1) * (|rep| - |pat|) == c * (|rep| - |pat|) + (|rep| - |pat|);
      } else {
        ReplaceLength(s[1..], pat, rep);
      }
    }
  }

  /** A one-character pattern is counted separately in the two halves of a concatenation. */
  lemma {:induction false} CountConcatChar(a: string, b: string, c: char)
    ensures Count(a + b, [c]) == Count(a, [c]) + Count(b, [c])
    decreases |a|
  {
    if |a| == 0 {
      assert a + b == b;
    } else {
      CountConcatChar(a[1..], b, c);
      assert (a + b)[1..] == a[1..] + b;
      assert ([c] <= a + b) <==> ([c] <= a);
    }
  }

  /** A string without an occurrence of the pattern is left alone. */
  lemma {:induction false} ReplaceAbsent(s: string, pat: string, rep: string)
    requires |pat| > 0
    requires !IsSubstring(pat, s)
    ensures Replace(s, pat, rep) == s && Count(s, pat) == 0
    decreases |s|
  {
    if |s| > 0 {
      ReplaceAbsent(s[1..], pat, rep);
      assert [s[0]] + s[1..] == s;
    }
  }

  /** Replacing every c by a string without c leaves no c. */
  lemma {:induction false} ReplaceRemoves(s: string, c: char, rep: string)
    requires forall i :: 0 <= i < |rep| ==> rep[i] != c
    ensures forall i :: 0 <= i < |Replace(s, [c], rep)| ==> Replace(s, [c], rep)[i] != c
    decreases |s|
  {
    if |s| > 0 {
      ReplaceRemoves(s[1..], c, rep);
      if !([c] <= s) {
        assert s[..1] == [s[0]];
      }
    }
  }

  /** Replacing a one-character pattern, one character at a time. */
  lemma ReplaceCharStep(c: char, t: string, pat: char, rep: string)
    ensures Replace([c] + t, [pat], rep) == (if c == pat then rep else [c]) + Replace(t, [pat], rep)
  {
    var s := [c] + t;
    assert s[1..] == t;
    assert ([pat] <= s) <==> c == pat by {
      if [pat] <= s { assert s[0] == [pat][0]; }
    }
  }

  /** pat in s, for strings. */
  predicate IsSubstring(pat: string, s: string)
    decreases |s|
  {
    pat <= s || (|s| > 0 && IsSubstring(pat, s[1..]))
  }

  /** A one-character pattern occurs exactly when that character does. */
  lemma {:induction false} IsSubstringChar(c: char, s: string)
    ensures IsSubstring([c], s) <==> exists i :: 0 <= i < |s| && s[i] == c
    decreases |s|
  {
    if |s| > 0 {
      IsSubstringChar(c, s[1..]);
      if [c] <= s {
        assert s[0] == c;
      } else if IsSubstring([c], s[1..]) {
        var i :| 0 <= i < |s[1..]| && s[1..][i] == c;
        assert s[i + 1] == c;
      }
      if exists i :: 0 <= i < |s| && s[i] == c {
        var i :| 0 <= i < |s| && s[i] == c;
        if i > 0 {
          assert s[1..][i - 1] == c;
        } else {
          assert s[..1] == [c];
        }
      }
    }
  }

  function DigitChar(d: nat): char
    requires d < 10
  {
    "0123456789"[d]
  }

  function NatToString(n: nat): (r: string)
    ensures |r| >= 1
    decreases n
  {
    if n < 10 then [DigitChar(n)] else NatToString(n / 10) + [DigitChar(n % 10)]
  }

  /** str(i) for an int. */
  function IntToString(i: int): string
  {
    if i < 0 then "-" + NatToString(-i) else NatToString(i)
  }

  /** The escape character, "\033". */
  const ESC: char := '\U{1B}'

  /** c * n */
  function Repeat(c: char, n: nat): (r: string)
    ensures |r| == n && forall i :: 0 <= i < n ==> r[i] == c
  {
    seq(n, _ => c)
  }

  /** repr() of a string; escaping of quotes and control characters is not modelled. */
  function ReprStr(s: string): string
  {
    "'" + s + "'"
  }

  /** The repr() of each string. */
  function ReprStrs(xs: seq<string>): seq<string>
  {
    if |xs| == 0 then [] else [ReprStr(xs[0])] + ReprStrs(xs[1..])
  }

  /** repr() of a list of strings. */
  function ReprList(xs: seq<string>): string
  {
    "[" + Join(", ", ReprStrs(xs)) + "]"
  }
}

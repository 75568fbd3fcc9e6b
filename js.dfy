/** The JavaScript built-ins the screens rely on, with the semantics the
    language gives them: `Array.prototype.slice`, `filter`, `map`,
    `String.prototype.split` on a one-character separator, `includes` on
    strings and the emptiness test `!s.trim()`.
    A string is a `seq<char>` whose every element is one Unicode scalar
    value; JavaScript counts a character outside the Basic Multilingual
    Plane as two code units, so lengths differ on such text. */
module Js {

  datatype Option<T> = None | Some(value: T) {
    function GetOr(default: T): T {
      match this
      case Some(v) => v
      case None => default
    }
  }

  // ---------------------------------------------------------------------
  // Array.prototype.slice

  /** How `slice` turns a relative index into a position: a negative index
      counts from the end, and the result is clipped to `[0, len]`. */
  function SliceIndex(i: int, len: nat): (r: nat)
    ensures r <= len
    ensures 0 <= i <= len ==> r == i
    ensures i < 0 ==> r == if len + i < 0 then 0 else len + i
    ensures i > len ==> r == len
  {
    if i < 0 then (if len + i < 0 then 0 else len + i)
    else if i > len then len
    else i
  }

  /** `s.slice(start, end)`. */
  function Slice<T>(s: seq<T>, start: int, end: int): (r: seq<T>)
    ensures |r| <= |s|
  {
    var a, b := SliceIndex(start, |s|), SliceIndex(end, |s|);
    if a < b then s[a..b] else []
  }

  /** A slice of a window `width` wide never holds more than `width`
      elements, whatever the sign of `start`. */
  lemma SliceWindowBound<T>(s: seq<T>, start: int, width: nat)
    ensures |Slice(s, start, start + width)| <= width
  {
    var a, b := SliceIndex(start, |s|), SliceIndex(start + width, |s|);
    if a < b {
      assert |s[a..b]| == b - a;
    }
  }

  /** For a non-negative start the slice is the ordinary sub-sequence,
      clipped to the end of the list. */
  lemma SliceFromNonNegative<T>(s: seq<T>, start: nat, width: nat)
    ensures start >= |s| ==> Slice(s, start, start + width) == []
    ensures start < |s| ==>
      Slice(s, start, start + width) ==
        s[start..if start + width <= |s| then start + width else |s|]
  {
  }

  /** A non-empty window from a non-negative start is empty exactly when it
      starts at or past the end. */
  lemma SliceWindowEmpty<T>(s: seq<T>, start: nat, width: nat)
    requires width > 0
    ensures Slice(s, start, start + width) == [] <==> start >= |s|
  {
    SliceFromNonNegative(s, start, width);
    if start < |s| {
      var e := if start + width <= |s| then start + width else |s|;
      assert |s[start..e]| == e - start > 0;
    }
  }

  // ---------------------------------------------------------------------
  // Array.prototype.filter and Array.prototype.map

  /** `s.filter(p)`. */
  function Filter<T(==)>(s: seq<T>, p: T -> bool): (r: seq<T>)
    ensures |r| <= |s|
    ensures forall i :: 0 <= i < |r| ==> r[i] in s && p(r[i])
    ensures forall i :: 0 <= i < |s| && p(s[i]) ==> s[i] in r
    decreases |s|
  {
    if s == [] then []
    else (if p(s[0]) then [s[0]] else []) + Filter(s[1..], p)
  }

  /** `a` is `b` with some elements dropped and the order of the others
      kept. */
  predicate IsSubsequence<T(==)>(a: seq<T>, b: seq<T>)
    decreases |b|
  {
    if a == [] then true
    else if b == [] then false
    else if a[0] == b[0] then IsSubsequence(a[1..], b[1..])
    else IsSubsequence(a, b[1..])
  }

  lemma {:induction false} FilterIsSubsequence<T>(s: seq<T>, p: T -> bool)
    ensures IsSubsequence(Filter(s, p), s)
    decreases |s|
  {
    if s != [] {
      FilterIsSubsequence(s[1..], p);
      if p(s[0]) {
        assert Filter(s, p) == [s[0]] + Filter(s[1..], p);
        assert Filter(s, p)[1..] == Filter(s[1..], p);
      } else {
        assert Filter(s, p) == Filter(s[1..], p);
      }
    }
  }

  lemma {:induction false} FilterAppend<T>(a: seq<T>, b: seq<T>, p: T -> bool)
    ensures Filter(a + b, p) == Filter(a, p) + Filter(b, p)
    decreases |a|
  {
    if a == [] {
      assert a + b == b;
    } else {
      assert (a + b)[1..] == a[1..] + b;
      FilterAppend(a[1..], b, p);
    }
  }

  /** Filtering keeps every copy of what passes and no copy of the rest. */
  lemma {:induction false} FilterCount<T>(s: seq<T>, p: T -> bool)
    ensures forall x :: multiset(Filter(s, p))[x] == if p(x) then multiset(s)[x] else 0
    decreases |s|
  {
    if s != [] {
      FilterCount(s[1..], p);
      assert s == [s[0]] + s[1..];
      assert Filter(s, p) == (if p(s[0]) then [s[0]] else []) + Filter(s[1..], p);
    }
  }

  /** Filtering keeps everything exactly when every element passes. */
  lemma {:induction false} FilterKeepsAll<T>(s: seq<T>, p: T -> bool)
    requires forall i :: 0 <= i < |s| ==> p(s[i])
    ensures Filter(s, p) == s
    decreases |s|
  {
    if s != [] {
      FilterKeepsAll(s[1..], p);
    }
  }

  /** Filtering twice with the same test is filtering once. */
  lemma FilterIdempotent<T>(s: seq<T>, p: T -> bool)
    ensures Filter(Filter(s, p), p) == Filter(s, p)
  {
    var f := Filter(s, p);
    FilterKeepsAll(f, p);
  }

  /** `s.includes(x) ? s.filter(y => y !== x) : [...s, x]`: every
      occurrence of `x` goes, or `x` is appended. */
  function ToggleMember<T(==)>(s: seq<T>, x: T): (r: seq<T>)
    ensures x in r <==> x !in s
    ensures forall i :: 0 <= i < |s| && s[i] != x ==> s[i] in r
    ensures forall i :: 0 <= i < |r| ==> r[i] in s || r[i] == x
    ensures x in s ==> IsSubsequence(r, s)
    ensures x !in s ==> r == s + [x]
  {
    if x in s then
      FilterIsSubsequence(s, (y: T) => y != x);
      Filter(s, (y: T) => y != x)
    else s + [x]
  }

  /** Toggling off removes every copy of `x` and only those. */
  lemma ToggleMemberRemovalCounts<T>(s: seq<T>, x: T)
    requires x in s
    ensures multiset(ToggleMember(s, x))[x] == 0
    ensures forall y :: y != x ==> multiset(ToggleMember(s, x))[y] == multiset(s)[y]
  {
    FilterCount(s, (y: T) => y != x);
  }

  /** Toggling twice restores membership of every element; an `x` that was
      there comes back at the end. */
  lemma ToggleMemberTwice<T>(s: seq<T>, x: T)
    ensures var twice := ToggleMember(ToggleMember(s, x), x);
      && (x in twice <==> x in s)
      && (forall i :: 0 <= i < |s| ==> s[i] in twice)
      && (forall i :: 0 <= i < |twice| ==> twice[i] in s)
      && (x in s ==> twice[|twice| - 1] == x)
  {
    var once := ToggleMember(s, x);
    var twice := ToggleMember(once, x);
    if x in s {
      assert twice == once + [x];
      forall i | 0 <= i < |twice| ensures twice[i] in s {
        if i < |once| {
          assert twice[i] == once[i];
        }
      }
    } else {
      assert once == s + [x];
      forall i | 0 <= i < |s| ensures s[i] in twice {
        assert once[i] == s[i];
      }
    }
  }

  /** `s.map(f)`. */
  function Map<T, U>(s: seq<T>, f: T -> U): (r: seq<U>)
    ensures |r| == |s|
    ensures forall i :: 0 <= i < |s| ==> r[i] == f(s[i])
  {
    seq(|s|, i requires 0 <= i < |s| => f(s[i]))
  }

  /** A subsequence of `z` is one of `[c] + z` too. */
  lemma {:induction false} SubsequenceCons<T>(x: seq<T>, z: seq<T>, c: T)
    requires IsSubsequence(x, z)
    ensures IsSubsequence(x, [c] + z)
    decreases |x| + |z|, 1
  {
    var y := [c] + z;
    assert y[1..] == z;
    if x != [] && x[0] == c {
      SubsequenceDropHead(x, z);
    }
  }

  /** Dropping the first element of a subsequence keeps it one. */
  lemma {:induction false} SubsequenceDropHead<T>(x: seq<T>, z: seq<T>)
    requires x != [] && IsSubsequence(x, z)
    ensures IsSubsequence(x[1..], z)
    decreases |x| + |z|, 0
  {
    assert z == [z[0]] + z[1..];
    if x[0] == z[0] {
      SubsequenceCons(x[1..], z[1..], z[0]);
    } else {
      SubsequenceDropHead(x, z[1..]);
      SubsequenceCons(x[1..], z[1..], z[0]);
    }
  }

  /** Mapping both sides keeps a subsequence one. */
  lemma {:induction false} MapSubsequence<T, U>(a: seq<T>, b: seq<T>, f: T -> U)
    requires IsSubsequence(a, b)
    ensures IsSubsequence(Map(a, f), Map(b, f))
    decreases |b|
  {
    if a != [] {
      assert Map(b, f) == [f(b[0])] + Map(b[1..], f);
      if a[0] == b[0] {
        MapSubsequence(a[1..], b[1..], f);
        assert Map(a, f)[1..] == Map(a[1..], f);
      } else {
        MapSubsequence(a, b[1..], f);
        SubsequenceCons(Map(a, f), Map(b[1..], f), f(b[0]));
      }
    }
  }

  /** `s.findIndex(p)`: the first index that passes, `-1` when none
      does. */
  function FindIndex<T>(s: seq<T>, p: T -> bool): (r: int)
    ensures -1 <= r < |s|
    ensures r == -1 <==> forall i :: 0 <= i < |s| ==> !p(s[i])
    ensures r >= 0 ==> p(s[r]) && forall i :: 0 <= i < r ==> !p(s[i])
    decreases |s|
  {
    if s == [] then -1
    else if p(s[0]) then 0
    else
      var k := FindIndex(s[1..], p);
      if k == -1 then -1 else k + 1
  }

  /** `s.find(p)`: the first element that passes, `None` for
      `undefined`. */
  function Find<T>(s: seq<T>, p: T -> bool): (r: Option<T>)
    ensures r.None? <==> forall i :: 0 <= i < |s| ==> !p(s[i])
    ensures r.Some? ==> exists k :: 0 <= k < |s| && s[k] == r.value && p(s[k])
                                   && forall j :: 0 <= j < k ==> !p(s[j])
  {
    var k := FindIndex(s, p);
    if k == -1 then None else Some(s[k])
  }

  // ---------------------------------------------------------------------
  // Strings

  /** The characters `String.prototype.trim` removes: WhiteSpace and
      LineTerminator of ECMA-262. */
  predicate IsWhitespace(c: char) {
    c == '\U{0009}' || c == '\U{000A}' || c == '\U{000B}' || c == '\U{000C}' ||
    c == '\U{000D}' || c == '\U{0020}' || c == '\U{00A0}' || c == '\U{1680}' ||
    ('\U{2000}' <= c <= '\U{200A}') || c == '\U{2028}' || c == '\U{2029}' ||
    c == '\U{202F}' || c == '\U{205F}' || c == '\U{3000}' || c == '\U{FEFF}'
  }

  /** `!s.trim()`: trimming leaves the empty string exactly when every
      character is whitespace. */
  predicate Blank(s: string) {
    forall i :: 0 <= i < |s| ==> IsWhitespace(s[i])
  }

  /** `s.includes(t)` on strings. */
  predicate Includes(s: string, t: string)
    decreases |s|
  {
    t <= s || (s != [] && Includes(s[1..], t))
  }

  /** Every string includes the empty string, and `includes` means "is a
      contiguous piece of". */
  lemma {:induction false} IncludesMeansInfix(s: string, t: string)
    ensures Includes(s, "")
    ensures Includes(s, t) <==> exists i {:trigger s[i..]} :: 0 <= i <= |s| && t <= s[i..]
    decreases |s|
  {
    assert s[0..] == s;
    if s != [] {
      IncludesMeansInfix(s[1..], t);
      if Includes(s[1..], t) {
        var i :| 0 <= i <= |s[1..]| && t <= s[1..][i..];
        assert s[1..][i..] == s[i + 1..];
        assert 0 <= i + 1 <= |s| && t <= s[i + 1..];
      }
      if exists i {:trigger s[i..]} :: 0 <= i <= |s| && t <= s[i..] {
        var i :| 0 <= i <= |s| && t <= s[i..];
        if i > 0 {
          assert s[1..][i - 1..] == s[i..];
          assert Includes(s[1..], t);
        }
      }
    }
  }

  /** `s.split(sep)` for a one-character separator: the pieces between the
      separators, empty ones included; never an empty array. */
  function Split(s: string, sep: char): (r: seq<string>)
    ensures |r| >= 1
    ensures forall i :: 0 <= i < |r| ==> sep !in r[i]
    decreases |s|
  {
    if s == [] then [""]
    else
      var rest := Split(s[1..], sep);
      if s[0] == sep then [""] + rest
      else [[s[0]] + rest[0]] + rest[1..]
  }

  /** `parts.join(sep)`. */
  function Join(parts: seq<string>, sep: char): string
    decreases |parts|
  {
    if parts == [] then ""
    else if |parts| == 1 then parts[0]
    else parts[0] + [sep] + Join(parts[1..], sep)
  }

  /** Joining the pieces of a split gives back the string. */
  lemma {:induction false} JoinSplit(s: string, sep: char)
    ensures Join(Split(s, sep), sep) == s
    decreases |s|
  {
    if s != [] {
      var rest := Split(s[1..], sep);
      JoinSplit(s[1..], sep);
      if s[0] == sep {
        assert Split(s, sep) == [""] + rest;
        assert ([""] + rest)[1..] == rest;
        assert s == [sep] + s[1..];
      } else {
        var r := Split(s, sep);
        assert r == [[s[0]] + rest[0]] + rest[1..];
        if |rest| == 1 {
          assert s == [s[0]] + rest[0];
        } else {
          assert r[1..] == rest[1..];
          assert Join(rest, sep) == rest[0] + [sep] + Join(rest[1..], sep);
          assert s == [s[0]] + s[1..];
        }
      }
    }
  }

  /** A string without the separator is a single piece. */
  lemma {:induction false} SplitNoSeparator(s: string, sep: char)
    requires sep !in s
    ensures Split(s, sep) == [s]
    decreases |s|
  {
    if s != [] {
      assert sep !in s[1..] by {
        forall k | 0 <= k < |s[1..]| ensures s[1..][k] != sep {
          assert s[1..][k] == s[k + 1];
        }
      }
      SplitNoSeparator(s[1..], sep);
      assert [s[0]] + s[1..] == s;
    }
  }

  /** Splitting `a + sep + b`, with no separator in `a`, peels `a` off as
      the first piece. */
  lemma {:induction false} SplitPrefix(a: string, sep: char, b: string)
    requires sep !in a
    ensures Split(a + [sep] + b, sep) == [a] + Split(b, sep)
    decreases |a|
  {
    var s := a + [sep] + b;
    if a == [] {
      assert s == [sep] + b;
      assert s[1..] == b;
    } else {
      assert s[1..] == a[1..] + [sep] + b;
      assert sep !in a[1..] by {
        forall k | 0 <= k < |a[1..]| ensures a[1..][k] != sep {
          assert a[1..][k] == a[k + 1];
        }
      }
      SplitPrefix(a[1..], sep, b);
      assert [a[0]] + a[1..] == a;
    }
  }

  // ---------------------------------------------------------------------
  // Numbers in template literals

  function DigitChar(d: nat): (c: char)
    requires d < 10
    ensures '0' <= c <= '9'
  {
    ['0', '1', '2', '3', '4', '5', '6', '7', '8', '9'][d]
  }

  /** The decimal text of a whole number, as `${n}` writes it. */
  function IntToString(n: int): (r: string)
    ensures |r| >= 1
    decreases if n < 0 then -n + 1 else n
  {
    if n < 0 then "-" + IntToString(-n)
    else if n < 10 then [DigitChar(n)]
    else IntToString(n / 10) + [DigitChar(n % 10)]
  }
}

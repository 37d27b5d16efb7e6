/** The Python string and list primitives the scraper relies on, stated over
    sequences: slicing with negative bounds, substring search from the right,
    `rsplit(sep, 1)`, `split(c)`, `replace(a, b)` and `str(n)`. */
module PyStrings {
  import opened Outcomes

  /** A Python slice bound `i` resolved against a sequence of length `n`:
      negative bounds count from the end, and the result is clamped to `0..n`. */
  function Clamp(i: int, n: nat): (k: nat)
    ensures k <= n
    ensures 0 <= i <= n ==> k == i
    ensures i < 0 && 0 <= i + n ==> k == i + n
    ensures i + n < 0 ==> k == 0
    ensures n < i ==> k == n
  {
    if i < 0 then (if i + n < 0 then 0 else i + n)
    else if i > n then n
    else i
  }

  /** Python's `s[start:stop]` with step 1. */
  function Slice<T>(s: seq<T>, start: int, stop: int): (r: seq<T>)
    ensures |r| <= |s|
    ensures Clamp(start, |s|) <= Clamp(stop, |s|) ==> |r| == Clamp(stop, |s|) - Clamp(start, |s|)
    ensures Clamp(stop, |s|) < Clamp(start, |s|) ==> r == []
    ensures forall k :: 0 <= k < |r| ==> r[k] == s[Clamp(start, |s|) + k]
  {
    var a := Clamp(start, |s|);
    var b := Clamp(stop, |s|);
    if a <= b then s[a..b] else []
  }

  /** `s[:-k]` for a positive `k`: all but the last `k` elements, or nothing
      when the sequence is shorter than `k`. */
  lemma DropLastSlice<T>(s: seq<T>, k: int)
    requires k > 0
    ensures Slice(s, 0, -k) == if |s| >= k then s[..|s| - k] else []
  {
  }

  // ---------------------------------------------------------------------------
  // Substring search

  /** `sub` occurs in `s` starting at index `i`. */
  predicate OccursAt<T(==)>(s: seq<T>, sub: seq<T>, i: int) {
    0 <= i && i + |sub| <= |s| && s[i..i + |sub|] == sub
  }

  /** Python's `sub in s`. */
  predicate Contains<T(==)>(s: seq<T>, sub: seq<T>) {
    exists i | 0 <= i <= |s| - |sub| :: OccursAt(s, sub, i)
  }

  /** `i` is the index of the rightmost occurrence of `sub` in `s`. */
  predicate LastOccurrence<T(==)>(s: seq<T>, sub: seq<T>, i: int) {
    OccursAt(s, sub, i) && forall j | i < j <= |s| :: !OccursAt(s, sub, j)
  }

  /** The rightmost occurrence of `sub` starting at or before `k`. */
  function RFindUpTo<T(==)>(s: seq<T>, sub: seq<T>, k: nat): (r: Option<nat>)
    requires k <= |s|
    ensures r.Some? ==> r.value <= k && OccursAt(s, sub, r.value)
    ensures r.Some? ==> forall j :: r.value < j <= k ==> !OccursAt(s, sub, j)
    ensures r.None? ==> forall j :: 0 <= j <= k ==> !OccursAt(s, sub, j)
    decreases k
  {
    if OccursAt(s, sub, k) then Some(k)
    else if k == 0 then None
    else RFindUpTo(s, sub, k - 1)
  }

  /** Python's `s.rfind(sub)`, with `None` for -1. */
  function RFind<T(==)>(s: seq<T>, sub: seq<T>): (r: Option<nat>)
    ensures r.Some? <==> Contains(s, sub)
    ensures r.Some? ==> LastOccurrence(s, sub, r.value)
  {
    RFindUpTo(s, sub, |s|)
  }

  /** Python's `s.rsplit(sep, 1)`: the text before and after the rightmost
      separator, or the whole text alone when there is no separator. */
  function RSplitOnce<T(==)>(s: seq<T>, sep: seq<T>): (parts: seq<seq<T>>)
    requires |sep| > 0
    ensures |parts| == 1 || |parts| == 2
    ensures |parts| == 1 <==> !Contains(s, sep)
    ensures |parts| == 1 ==> parts[0] == s
    ensures |parts| == 2 ==> parts[0] + sep + parts[1] == s
    ensures |parts| == 2 ==> LastOccurrence(s, sep, |parts[0]|)
    ensures |parts| == 2 ==> !Contains(parts[1], sep)
  {
    match RFind(s, sep)
    case None => [s]
    case Some(i) =>
      var before, after := s[..i], s[i + |sep|..];
      assert before + sep + after == s by {
        assert s[i..i + |sep|] == sep;
        assert s == s[..i] + s[i..i + |sep|] + s[i + |sep|..];
      }
      assert !Contains(after, sep) by {
        if Contains(after, sep) {
          var k :| 0 <= k <= |after| - |sep| && OccursAt(after, sep, k);
          assert s[i + |sep| + k..i + |sep| + k + |sep|] == after[k..k + |sep|];
          assert OccursAt(s, sep, i + |sep| + k);
          assert false;
        }
      }
      [before, after]
  }

  /** Splitting at a separator that is known to be the last one gives back the
      two pieces it was glued from. */
  lemma RSplitOnceAt<T>(x: seq<T>, sep: seq<T>, y: seq<T>)
    requires |sep| > 0
    requires forall j :: |x| < j ==> !OccursAt(x + sep + y, sep, j)
    ensures RSplitOnce(x + sep + y, sep) == [x, y]
  {
    var s := x + sep + y;
    assert s[|x|..|x| + |sep|] == sep;
    assert OccursAt(s, sep, |x|);
    var parts := RSplitOnce(s, sep);
    assert |parts| == 2;
    assert |parts[0]| == |x|;
    assert parts[0] == s[..|x|] == x;
    assert parts[1] == s[|x| + |sep|..] == y;
  }

  lemma ContainsSingle<T>(s: seq<T>, c: T)
    ensures Contains(s, [c]) <==> c in s
  {
    if c in s {
      var i :| 0 <= i < |s| && s[i] == c;
      assert OccursAt(s, [c], i);
    }
    if Contains(s, [c]) {
      var i :| 0 <= i <= |s| - 1 && OccursAt(s, [c], i);
      assert s[i] == s[i..i + 1][0] == c;
    }
  }

  // ---------------------------------------------------------------------------
  // Splitting at a single character

  /** Index of the first `c` in `s`, or `|s|` when there is none. */
  function IndexOf<T(==)>(s: seq<T>, c: T): (i: nat)
    ensures i <= |s|
    ensures c !in s[..i]
    ensures i < |s| ==> s[i] == c
    ensures i == |s| <==> c !in s
  {
    if |s| == 0 then 0
    else if s[0] == c then 0
    else
      assert s[1..][..IndexOf(s[1..], c)] == s[1..1 + IndexOf(s[1..], c)];
      1 + IndexOf(s[1..], c)
  }

  /** Python's `s.split(c)` for a one-character separator: every maximal
      separator-free run, in order. */
  function Split<T(==)>(s: seq<T>, c: T): (parts: seq<seq<T>>)
    ensures |parts| >= 1
    ensures forall k :: 0 <= k < |parts| ==> c !in parts[k]
  {
    if |s| == 0 then [[]]
    else
      var rest := Split(s[1..], c);
      if s[0] == c then [[]] + rest
      else [[s[0]] + rest[0]] + rest[1..]
  }

  /** Python's `c.join(parts)` for a one-character glue. */
  function Join<T>(parts: seq<seq<T>>, c: T): seq<T>
    requires |parts| >= 1
  {
    if |parts| == 1 then parts[0]
    else parts[0] + [c] + Join(parts[1..], c)
  }

  /** Joining the pieces of a split restores the text. */
  lemma {:induction false} JoinSplit<T>(s: seq<T>, c: T)
    ensures Join(Split(s, c), c) == s
    decreases |s|
  {
    if |s| > 0 {
      var rest := Split(s[1..], c);
      JoinSplit(s[1..], c);
      if s[0] == c {
        assert Split(s, c)[1..] == rest;
      } else {
        var parts := Split(s, c);
        assert parts[0] == [s[0]] + rest[0];
        if |rest| == 1 {
          assert parts == [[s[0]] + rest[0]];
        } else {
          assert parts[1..] == rest[1..];
          assert Join(rest, c) == rest[0] + [c] + Join(rest[1..], c);
        }
      }
    }
  }

  /** Splitting a join of separator-free pieces gives back the pieces. */
  lemma {:induction false} SplitJoin<T>(parts: seq<seq<T>>, c: T)
    requires |parts| >= 1
    requires forall k :: 0 <= k < |parts| ==> c !in parts[k]
    ensures Split(Join(parts, c), c) == parts
    decreases |parts|, |parts[0]|
  {
    var p := parts[0];
    if |parts| == 1 {
      SplitFree(p, c);
    } else if |p| == 0 {
      var tail := Join(parts[1..], c);
      assert Join(parts, c) == [c] + tail;
      assert ([c] + tail)[1..] == tail;
      SplitJoin(parts[1..], c);
      assert parts == [[]] + parts[1..];
    } else {
      var shorter := [p[1..]] + parts[1..];
      assert Join(shorter, c) == p[1..] + [c] + Join(parts[1..], c);
      assert Join(parts, c) == [p[0]] + Join(shorter, c);
      assert ([p[0]] + Join(shorter, c))[1..] == Join(shorter, c);
      assert c !in p[1..];
      SplitJoin(shorter, c);
      assert [p[0]] + p[1..] == p;
      assert parts == [[p[0]] + shorter[0]] + shorter[1..];
    }
  }

  lemma {:induction false} SplitFree<T>(s: seq<T>, c: T)
    requires c !in s
    ensures Split(s, c) == [s]
    decreases |s|
  {
    if |s| > 0 {
      SplitFree(s[1..], c);
      assert [s[0]] + s[1..] == s;
    }
  }

  /** The first piece of a split is the text before the first separator, and
      the remaining pieces are the split of the text after it. */
  lemma {:induction false} SplitFirst<T>(s: seq<T>, c: T)
    ensures Split(s, c)[0] == s[..IndexOf(s, c)]
    ensures |Split(s, c)| > 1 <==> c in s
    ensures c in s ==> Split(s, c)[1..] == Split(s[IndexOf(s, c) + 1..], c)
    decreases |s|
  {
    if |s| > 0 {
      SplitFirst(s[1..], c);
      if s[0] != c && c in s {
        assert s[1..][IndexOf(s[1..], c) + 1..] == s[IndexOf(s, c) + 1..];
      }
      if s[0] != c {
        assert [s[0]] + s[1..][..IndexOf(s[1..], c)] == s[..IndexOf(s, c)];
        assert c in s <==> c in s[1..];
      }
    }
  }

  // ---------------------------------------------------------------------------
  // Replacing

  /** Python's `s.replace(a, b)` for one-character `a` and `b`. */
  function ReplaceAll<T(==)>(s: seq<T>, a: T, b: T): (r: seq<T>)
    ensures |r| == |s|
    ensures forall k :: 0 <= k < |s| && s[k] != a ==> r[k] == s[k]
    ensures forall k :: 0 <= k < |s| && s[k] == a ==> r[k] == b
  {
    if |s| == 0 then []
    else [if s[0] == a then b else s[0]] + ReplaceAll(s[1..], a, b)
  }

  /** After replacing, no `a` is left, and replacing again changes nothing. */
  lemma ReplaceAllClears<T>(s: seq<T>, a: T, b: T)
    requires a != b
    ensures a !in ReplaceAll(s, a, b)
    ensures ReplaceAll(ReplaceAll(s, a, b), a, b) == ReplaceAll(s, a, b)
  {
    var r := ReplaceAll(s, a, b);
    assert forall k :: 0 <= k < |r| ==> r[k] != a;
    var rr := ReplaceAll(r, a, b);
    assert forall k :: 0 <= k < |r| ==> rr[k] == r[k];
  }

  // ---------------------------------------------------------------------------
  // Decimal numerals

  function DigitChar(d: nat): (ch: char)
    requires d < 10
    ensures '0' <= ch <= '9'
  {
    ['0', '1', '2', '3', '4', '5', '6', '7', '8', '9'][d]
  }

  /** Python's `str(n)` for a natural number. */
  function DecimalString(n: nat): (r: string)
    ensures |r| >= 1
    ensures forall k :: 0 <= k < |r| ==> '0' <= r[k] <= '9'
    ensures n < 10 <==> |r| == 1
  {
    if n < 10 then [DigitChar(n)]
    else DecimalString(n / 10) + [DigitChar(n % 10)]
  }

  lemma DigitCharInjective(a: nat, b: nat)
    requires a < 10 && b < 10
    requires DigitChar(a) == DigitChar(b)
    ensures a == b
  {
  }

  /** Different numbers have different numerals. */
  lemma {:induction false} DecimalStringInjective(n: nat, m: nat)
    requires DecimalString(n) == DecimalString(m)
    ensures n == m
    decreases n
  {
    var s := DecimalString(n);
    if n < 10 {
      assert m < 10;
      DigitCharInjective(n, m);
    } else {
      assert m >= 10;
      assert s[|s| - 1] == DigitChar(n % 10) == DigitChar(m % 10);
      DigitCharInjective(n % 10, m % 10);
      assert DecimalString(n / 10) == s[..|s| - 1] == DecimalString(m / 10);
      DecimalStringInjective(n / 10, m / 10);
    }
  }
}

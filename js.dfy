/**
 * JavaScript values and built-ins that the ordering core relies on:
 * nullable values, truthiness, `??` and `||` defaults, numeric coercion
 * of `null`, `String.prototype.trim`, `Array.prototype.filter`, the stable
 * `Array.prototype.sort` with a two-class comparator, and
 * `[...new Set(xs)]`.
 */
module Js {

  /** A value that may be `null` or `undefined` (the two are not told apart). */
  datatype Option<T> = None | Some(value: T)

  /** `x ?? d`: only a missing value is replaced. */
  function Coalesce<T>(x: Option<T>, d: T): T
  {
    if x.Some? then x.value else d
  }

  /** `s || ""` for a nullable string: `null`, `undefined` and `""` give `""`. */
  function OrEmpty(s: Option<string>): string
  {
    if s.Some? then s.value else ""
  }

  /** `xs || []` for a possibly missing array. */
  function OrNil<T>(xs: Option<seq<T>>): seq<T>
  {
    if xs.Some? then xs.value else []
  }

  /** Truthiness of a nullable string: only a non-empty string is truthy. */
  predicate TruthyString(s: Option<string>)
  {
    s.Some? && s.value != ""
  }

  /** Truthiness of a nullable number (`NaN` is folded into `null`). */
  predicate TruthyNumber(x: Option<int>)
  {
    x.Some? && x.value != 0
  }

  /** `Number(x)` as `*` applies it: `null * q` is `0 * q`. A missing price or
      quantity is a database NULL here, never `undefined` (which would give NaN). */
  function ToNumber(x: Option<int>): int
  {
    if x.Some? then x.value else 0
  }

  // ---------------------------------------------------------------------
  // String.prototype.trim

  /** The white-space and line-terminator characters `trim` removes: tab,
      the line and form feeds, space, no-break space, the byte-order mark,
      the other Unicode space separators and the two Unicode line separators. */
  predicate IsSpace(c: char)
  {
    c == ' ' || c == '\t' || c == '\n' || c == '\r' || c == '\U{B}' || c == '\U{C}'
    || c == '\U{A0}' || c == '\U{FEFF}' || c == '\U{1680}' || ('\U{2000}' <= c <= '\U{200A}')
    || c == '\U{2028}' || c == '\U{2029}' || c == '\U{202F}' || c == '\U{205F}' || c == '\U{3000}'
  }

  /** `s` without its leading white space. */
  function TrimStart(s: string): string
  {
    if s != [] && IsSpace(s[0]) then TrimStart(s[1..]) else s
  }

  /** `s` without its trailing white space. */
  function TrimEnd(s: string): string
  {
    if s != [] && IsSpace(s[|s| - 1]) then TrimEnd(s[..|s| - 1]) else s
  }

  /** Dropping the leading white space leaves a suffix that starts with
      something else, and everything dropped is white space. */
  lemma {:induction false} TrimStartSpec(s: string)
    ensures |TrimStart(s)| <= |s| && TrimStart(s) == s[|s| - |TrimStart(s)|..]
    ensures TrimStart(s) != [] ==> !IsSpace(TrimStart(s)[0])
    ensures forall i :: 0 <= i < |s| - |TrimStart(s)| ==> IsSpace(s[i])
  {
    if s != [] && IsSpace(s[0]) {
      TrimStartSpec(s[1..]);
      forall i | 0 < i < |s| - |TrimStart(s)| ensures IsSpace(s[i]) {
        assert s[i] == s[1..][i - 1];
      }
    }
  }

  /** Dropping the trailing white space leaves a prefix that ends with
      something else, and everything dropped is white space. */
  lemma {:induction false} TrimEndSpec(s: string)
    ensures |TrimEnd(s)| <= |s| && TrimEnd(s) == s[..|TrimEnd(s)|]
    ensures TrimEnd(s) != [] ==> !IsSpace(TrimEnd(s)[|TrimEnd(s)| - 1])
    ensures forall i :: |TrimEnd(s)| <= i < |s| ==> IsSpace(s[i])
  {
    if s != [] && IsSpace(s[|s| - 1]) {
      TrimEndSpec(s[..|s| - 1]);
      forall i | |TrimEnd(s)| <= i < |s| - 1 ensures IsSpace(s[i]) {
        assert s[i] == s[..|s| - 1][i];
      }
    }
  }

  /** Number of characters `trim` drops at the front of `s`. */
  function TrimOffset(s: string): nat
  {
    TrimStartSpec(s);
    |s| - |TrimStart(s)|
  }

  /** `s.trim()`. */
  function Trim(s: string): string
  {
    TrimEnd(TrimStart(s))
  }

  /** What `trim` keeps is the slice of `s` between the white space it drops
      at the front and the white space it drops at the back, and it neither
      starts nor ends with white space. */
  lemma TrimSpec(s: string)
    ensures TrimOffset(s) + |Trim(s)| <= |s| && Trim(s) == s[TrimOffset(s)..TrimOffset(s) + |Trim(s)|]
    ensures forall i :: 0 <= i < TrimOffset(s) ==> IsSpace(s[i])
    ensures forall i :: TrimOffset(s) + |Trim(s)| <= i < |s| ==> IsSpace(s[i])
    ensures Trim(s) != [] ==> !IsSpace(Trim(s)[0]) && !IsSpace(Trim(s)[|Trim(s)| - 1])
  {
    var t := TrimStart(s);
    TrimStartSpec(s);
    TrimEndSpec(t);
    var r := TrimEnd(t);
    var o := |s| - |t|;
    assert t == s[o..] && r == t[..|r|];
    forall i | o + |r| <= i < |s| ensures IsSpace(s[i]) {
      assert s[i] == t[i - o];
    }
    if r != [] {
      assert r[0] == t[0];
    }
  }

  /** A string with no white space at either end is its own trim. */
  lemma TrimUnchanged(s: string)
    requires s != [] ==> !IsSpace(s[0]) && !IsSpace(s[|s| - 1])
    ensures Trim(s) == s
  {
    assert TrimStart(s) == s;
    assert TrimEnd(s) == s;
  }

  /** Trimming a trimmed string changes nothing. */
  lemma TrimIdempotent(s: string)
    ensures Trim(Trim(s)) == Trim(s)
  {
    TrimSpec(s);
    TrimUnchanged(Trim(s));
  }

  // ---------------------------------------------------------------------
  // Array.prototype.filter

  /** `s.filter(p)`. */
  function Filter<T>(s: seq<T>, p: T -> bool): (r: seq<T>)
    ensures |r| <= |s|
    ensures forall i :: 0 <= i < |r| ==> r[i] in s && p(r[i])
    ensures forall i :: 0 <= i < |s| && p(s[i]) ==> s[i] in r
  {
    if s == [] then [] else (if p(s[0]) then [s[0]] else []) + Filter(s[1..], p)
  }

  /** The negation of a predicate, `x => !p(x)`. */
  function Not<T>(p: T -> bool): T -> bool
  {
    x => !p(x)
  }

  lemma {:induction false} FilterConcat<T>(a: seq<T>, b: seq<T>, p: T -> bool)
    ensures Filter(a + b, p) == Filter(a, p) + Filter(b, p)
  {
    if a == [] {
      assert a + b == b;
    } else {
      assert (a + b)[1..] == a[1..] + b;
      FilterConcat(a[1..], b, p);
    }
  }

  /** Filtering keeps exactly the occurrences that satisfy `p`. */
  lemma {:induction false} FilterCount<T>(s: seq<T>, p: T -> bool, x: T)
    ensures multiset(Filter(s, p))[x] == if p(x) then multiset(s)[x] else 0
  {
    if s != [] {
      FilterCount(s[1..], p, x);
      assert s == [s[0]] + s[1..];
    }
  }

  /** `FilterCount` for every value at once. */
  lemma FilterCounts<T>(s: seq<T>, p: T -> bool)
    ensures forall x :: multiset(Filter(s, p))[x] == if p(x) then multiset(s)[x] else 0
  {
    forall x ensures multiset(Filter(s, p))[x] == if p(x) then multiset(s)[x] else 0 {
      FilterCount(s, p, x);
    }
  }

  /** Splitting by `p` and by its negation loses and invents nothing. */
  lemma {:induction false} FilterSplit<T>(s: seq<T>, p: T -> bool)
    ensures multiset(Filter(s, p)) + multiset(Filter(s, Not(p))) == multiset(s)
  {
    if s != [] {
      var t := s[1..];
      FilterSplit(t, p);
      assert s == [s[0]] + t;
      assert multiset(s) == multiset{s[0]} + multiset(t);
      if p(s[0]) {
        assert Filter(s, p) == [s[0]] + Filter(t, p);
        assert Filter(s, Not(p)) == Filter(t, Not(p));
      } else {
        assert Filter(s, p) == Filter(t, p);
        assert Filter(s, Not(p)) == [s[0]] + Filter(t, Not(p));
      }
    }
  }

  lemma {:induction false} FilterAll<T>(s: seq<T>, p: T -> bool)
    requires forall i :: 0 <= i < |s| ==> p(s[i])
    ensures Filter(s, p) == s
  {
    if s != [] {
      FilterAll(s[1..], p);
    }
  }

  lemma {:induction false} FilterNone<T>(s: seq<T>, p: T -> bool)
    requires forall i :: 0 <= i < |s| ==> !p(s[i])
    ensures Filter(s, p) == []
  {
    if s != [] {
      FilterNone(s[1..], p);
    }
  }

  // ---------------------------------------------------------------------
  // list.slice().sort((a, b) => p(a) && !p(b) ? -1 : !p(a) && p(b) ? 1 : 0)
  // Array.prototype.sort is stable, so this comparator puts the elements
  // satisfying p first and keeps the relative order inside each class.

  function SortTrueFirst<T>(s: seq<T>, p: T -> bool): (r: seq<T>)
    ensures |r| == |s|
  {
    FilterSplit(s, p);
    assert |multiset(Filter(s, p) + Filter(s, Not(p)))| == |multiset(s)|;
    Filter(s, p) + Filter(s, Not(p))
  }

  /** The sorted list is a permutation of the input. */
  lemma SortTrueFirstPermutes<T>(s: seq<T>, p: T -> bool)
    ensures multiset(SortTrueFirst(s, p)) == multiset(s)
  {
    FilterSplit(s, p);
  }

  /** Every element satisfying `p` comes before every element that does not. */
  lemma SortTrueFirstGroups<T>(s: seq<T>, p: T -> bool)
    ensures forall i, j :: 0 <= i < j < |SortTrueFirst(s, p)| && !p(SortTrueFirst(s, p)[i])
              ==> !p(SortTrueFirst(s, p)[j])
  {
    var r := SortTrueFirst(s, p);
    var a, b := Filter(s, p), Filter(s, Not(p));
    assert r == a + b;
    forall k | 0 <= k < |r| ensures p(r[k]) <==> k < |a| {
      if k < |a| {
        assert r[k] == a[k] && a[k] in a;
      } else {
        assert r[k] == b[k - |a|] && b[k - |a|] in b;
        assert Not(p)(r[k]);
      }
    }
  }

  /** Inside each class the sort keeps the input order. */
  lemma SortTrueFirstStable<T>(s: seq<T>, p: T -> bool)
    ensures Filter(SortTrueFirst(s, p), p) == Filter(s, p)
    ensures Filter(SortTrueFirst(s, p), Not(p)) == Filter(s, Not(p))
  {
    var a, b := Filter(s, p), Filter(s, Not(p));
    FilterConcat(a, b, p);
    FilterConcat(a, b, Not(p));
    forall i | 0 <= i < |a| ensures p(a[i]) {
      assert a[i] in a;
    }
    forall i | 0 <= i < |b| ensures !p(b[i]) {
      assert b[i] in b;
    }
    FilterAll(a, p);
    FilterNone(b, p);
    FilterNone(a, Not(p));
    FilterAll(b, Not(p));
  }

  // ---------------------------------------------------------------------
  // [...new Set(xs)]: a Set keeps the first insertion of each value and
  // enumerates in insertion order.

  predicate NoDuplicates<T(==)>(s: seq<T>)
  {
    forall i, j :: 0 <= i < j < |s| ==> s[i] != s[j]
  }

  function Distinct<T(==)>(s: seq<T>): (r: seq<T>)
    ensures |r| <= |s|
  {
    if s == [] then []
    else
      var d := Distinct(s[..|s| - 1]);
      if s[|s| - 1] in d then d else d + [s[|s| - 1]]
  }

  /** The distinct values are exactly the values of `s`, each once. */
  lemma {:induction false} DistinctSpec<T>(s: seq<T>)
    ensures forall i :: 0 <= i < |Distinct(s)| ==> Distinct(s)[i] in s
    ensures forall i :: 0 <= i < |s| ==> s[i] in Distinct(s)
    ensures NoDuplicates(Distinct(s))
  {
    if s != [] {
      var init, last := s[..|s| - 1], s[|s| - 1];
      DistinctSpec(init);
      assert s == init + [last];
      var d, r := Distinct(init), Distinct(s);
      forall i | 0 <= i < |s| ensures s[i] in r {
        if i < |init| {
          assert s[i] == init[i];
        }
      }
    }
  }

  /** A non-empty sequence of one repeated value has that value as its only
      distinct value. */
  lemma {:induction false} DistinctConstant<T>(s: seq<T>, x: T)
    requires s != [] && forall i :: 0 <= i < |s| ==> s[i] == x
    ensures Distinct(s) == [x]
  {
    var init := s[..|s| - 1];
    if init != [] {
      DistinctConstant(init, x);
    }
  }

  /** Position of the first occurrence of `x` in `s`. */
  function IndexOf<T(==)>(s: seq<T>, x: T): (i: nat)
    requires x in s
    ensures i < |s| && s[i] == x
  {
    if s[0] == x then 0 else 1 + IndexOf(s[1..], x)
  }

  /** No earlier position holds `x`. */
  lemma {:induction false} IndexOfFirst<T>(s: seq<T>, x: T)
    requires x in s
    ensures forall k :: 0 <= k < IndexOf(s, x) ==> s[k] != x
  {
    if s[0] != x {
      IndexOfFirst(s[1..], x);
      forall k | 0 < k < IndexOf(s, x) ensures s[k] != x {
        assert s[k] == s[1..][k - 1];
      }
    }
  }

  lemma {:induction false} IndexOfPrefix<T>(a: seq<T>, b: seq<T>, x: T)
    requires x in a
    ensures IndexOf(a + b, x) == IndexOf(a, x)
  {
    if a[0] != x {
      assert (a + b)[1..] == a[1..] + b;
      IndexOfPrefix(a[1..], b, x);
    }
  }

  /** The values come out in the order of their first occurrence. */
  lemma {:induction false} DistinctFirstSeenOrder<T>(s: seq<T>, i: nat, j: nat)
    requires i < j < |Distinct(s)|
    ensures Distinct(s)[i] in s && Distinct(s)[j] in s
    ensures IndexOf(s, Distinct(s)[i]) < IndexOf(s, Distinct(s)[j])
  {
    var init, last := s[..|s| - 1], s[|s| - 1];
    assert s == init + [last];
    var d := Distinct(init);
    var r := Distinct(s);
    DistinctSpec(init);
    DistinctSpec(s);
    assert r[i] in r && r[j] in r;
    if j < |d| {
      assert r[i] == d[i] && r[j] == d[j];
      assert d[i] in d && d[j] in d;
      DistinctFirstSeenOrder(init, i, j);
      IndexOfPrefix(init, [last], d[i]);
      IndexOfPrefix(init, [last], d[j]);
    } else {
      assert last !in d && r == d + [last] && r[j] == last;
      assert r[i] == d[i] && d[i] in d && d[i] in init;
      IndexOfPrefix(init, [last], d[i]);
      assert last !in init;
      assert forall k :: 0 <= k < |init| ==> s[k] == init[k];
      assert IndexOf(s, last) == |init|;
    }
  }
}

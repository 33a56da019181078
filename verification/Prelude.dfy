/** What every module shares: unsigned 64-bit times with the source's checked and
    saturating operations, and sorting by a total order. */
module Prelude {

  const U64_MAX: int := 0xFFFF_FFFF_FFFF_FFFF

  type u64 = x: int | 0 <= x <= 0xFFFF_FFFF_FFFF_FFFF

  datatype Option<+T> = None | Some(value: T)

  /** The last element of one listing, taken out of another. */
  lemma {:induction false} TakeOut<T>(t: seq<T>, front: seq<T>, x: T, s: seq<T>) returns (rest: seq<T>, i: nat)
    requires multiset(s) == multiset(t) && s == front + [x]
    ensures i < |t| && t[i] == x && rest == t[..i] + t[i + 1..]
    ensures multiset(front) == multiset(rest)
  {
    assert x in multiset(t);
    i :| 0 <= i < |t| && t[i] == x;
    rest := t[..i] + t[i + 1..];
    assert t == t[..i] + [x] + t[i + 1..];
    assert multiset(rest) == multiset(t) - multiset{x} == multiset(front);
  }

  ghost predicate Distinct<T>(xs: seq<T>) {
    forall i, j :: 0 <= i < j < |xs| ==> xs[i] != xs[j]
  }

  /** `a.saturating_sub(b)`. */
  function SatSub(a: u64, b: u64): u64 {
    if a < b then 0 else a - b
  }

  /** `a.saturating_add(b)`. */
  function SatAdd(a: u64, b: u64): u64 {
    if a + b > U64_MAX then U64_MAX else a + b
  }

  /** `a.saturating_mul(k)` for a literal `k`. */
  function SatMul(a: u64, k: u64): u64 {
    var r := a * k;
    if 0 <= r <= U64_MAX then r else U64_MAX
  }

  function Min(a: int, b: int): int {
    if a <= b then a else b
  }

  function Max(a: int, b: int): int {
    if a <= b then b else a
  }

  function MinReal(a: real, b: real): real {
    if a <= b then a else b
  }

  function MaxReal(a: real, b: real): real {
    if a <= b then b else a
  }
}

/** Products and quotients of naturals, one fact a lemma. */
module Arithmetic {

  lemma {:induction false} MulSum(a: int, b: int, c: int)
    ensures (a + b) * c == a * c + b * c
  {
  }

  lemma {:induction false} MulGrows(a: nat, c: nat)
    ensures 0 <= a * c
    ensures a >= 1 ==> c <= a * c
  {
    if a >= 1 {
      MulSum(1, a - 1, c);
      MulGrows(a - 1, c);
    }
  }

  lemma {:induction false} MulMonotone(a: nat, b: nat, c: nat)
    requires a <= b
    ensures a * c <= b * c
    ensures a < b ==> a * c + c <= b * c
  {
    MulSum(a, b - a, c);
    MulGrows(b - a, c);
  }

  lemma {:induction false} DivIs(x: nat, c: nat, q: nat)
    requires c > 0 && q * c <= x < (q + 1) * c
    ensures x / c == q
  {
    DivBounds(x, c);
    var p := x / c;
    if p < q {
      MulMonotone(p + 1, q, c);
    } else if q < p {
      MulMonotone(q + 1, p, c);
    }
  }

  lemma {:induction false} DivBounds(x: nat, c: nat)
    requires c > 0
    ensures 0 <= x / c
    ensures (x / c) * c <= x < (x / c + 1) * c
  {
    MulSum(x / c, 1, c);
    assert x == (x / c) * c + x % c;
  }
}

/** `sort_unstable` and `sort_by` under a total order: which permutation an
    unstable sort gives is then determined by the elements. */
module Sorting {
  import Prelude

  ghost predicate TotalOrder<T(!new)>(le: (T, T) -> bool) {
    && (forall x :: le(x, x))
    && (forall x, y :: le(x, y) || le(y, x))
    && (forall x, y :: le(x, y) && le(y, x) ==> x == y)
    && (forall x, y, z :: le(x, y) && le(y, z) ==> le(x, z))
  }

  ghost predicate Sorted<T>(s: seq<T>, le: (T, T) -> bool) {
    forall i, j :: 0 <= i < j < |s| ==> le(s[i], s[j])
  }

  function Insert<T>(x: T, s: seq<T>, le: (T, T) -> bool): (r: seq<T>)
    ensures |r| == |s| + 1
    ensures multiset(r) == multiset(s) + multiset{x}
  {
    if s == [] then [x]
    else if le(x, s[0]) then [x] + s
    else
      assert s == [s[0]] + s[1..];
      [s[0]] + Insert(x, s[1..], le)
  }

  function Sort<T>(s: seq<T>, le: (T, T) -> bool): (r: seq<T>)
    ensures |r| == |s|
    ensures multiset(r) == multiset(s)
  {
    if s == [] then []
    else
      assert s == [s[0]] + s[1..];
      Insert(s[0], Sort(s[1..], le), le)
  }

  lemma {:induction false} InsertKeepsOrder<T(!new)>(x: T, s: seq<T>, le: (T, T) -> bool)
    requires TotalOrder(le) && Sorted(s, le)
    ensures Sorted(Insert(x, s, le), le)
  {
    if s == [] {
    } else if le(x, s[0]) {
      forall i, j | 0 <= i < j < |s| + 1 ensures le(([x] + s)[i], ([x] + s)[j]) {
        assert le(s[0], s[j - 1]);
      }
    } else {
      InsertKeepsOrder(x, s[1..], le);
      var rest := Insert(x, s[1..], le);
      forall k | 0 <= k < |rest| ensures le(s[0], rest[k]) {
        assert rest[k] in multiset(rest);
        if rest[k] != x {
          assert rest[k] in multiset(s[1..]);
        }
      }
    }
  }

  lemma {:induction false} SortSorts<T(!new)>(s: seq<T>, le: (T, T) -> bool)
    requires TotalOrder(le)
    ensures Sorted(Sort(s, le), le)
  {
    if s != [] {
      SortSorts(s[1..], le);
      InsertKeepsOrder(s[0], Sort(s[1..], le), le);
    }
  }

  /** A sorted sequence is determined by its elements. */
  lemma {:induction false} SortedIsUnique<T(!new)>(a: seq<T>, b: seq<T>, le: (T, T) -> bool)
    requires TotalOrder(le) && Sorted(a, le) && Sorted(b, le)
    requires multiset(a) == multiset(b)
    ensures a == b
  {
    assert |a| == |multiset(a)| == |multiset(b)| == |b|;
    if a != [] {
      assert a == [a[0]] + a[1..] && b == [b[0]] + b[1..];
      assert a[0] in multiset(b) && b[0] in multiset(a);
      assert a[0] == b[0];
      assert multiset(a[1..]) == multiset(a) - multiset{a[0]};
      assert multiset(b[1..]) == multiset(b) - multiset{b[0]};
      SortedIsUnique(a[1..], b[1..], le);
    }
  }

  /** Sorting forgets the order the elements came in. */
  lemma {:induction false} SortIgnoresOrder<T(!new)>(a: seq<T>, b: seq<T>, le: (T, T) -> bool)
    requires TotalOrder(le)
    requires multiset(a) == multiset(b)
    ensures Sort(a, le) == Sort(b, le)
  {
    SortSorts(a, le);
    SortSorts(b, le);
    SortedIsUnique(Sort(a, le), Sort(b, le), le);
  }

  // ----- How many elements there are of a kind

  function HowMany<T>(s: seq<T>, of: T -> bool): (n: nat)
    ensures n <= |s|
  {
    if s == [] then 0 else HowMany(s[..|s| - 1], of) + (if of(s[|s| - 1]) then 1 else 0)
  }

  lemma {:induction false} CountJoin<T>(a: seq<T>, b: seq<T>, of: T -> bool)
    ensures HowMany(a + b, of) == HowMany(a, of) + HowMany(b, of)
  {
    if b == [] {
      assert a + b == a;
    } else {
      var n := |b| - 1;
      CountJoin(a, b[..n], of);
      assert (a + b)[..|a + b| - 1] == a + b[..n];
    }
  }

  lemma {:induction false} CountFirst<T>(x: T, s: seq<T>, of: T -> bool)
    ensures HowMany([x] + s, of) == HowMany(s, of) + (if of(x) then 1 else 0)
  {
    CountJoin([x], s, of);
    assert [x][..0] == [];
  }

  lemma {:induction false} CountInsert<T>(x: T, s: seq<T>, le: (T, T) -> bool, of: T -> bool)
    ensures HowMany(Insert(x, s, le), of) == HowMany(s, of) + (if of(x) then 1 else 0)
  {
    if s == [] || le(x, s[0]) {
      CountFirst(x, s, of);
      assert [x] + [] == [x];
    } else {
      CountInsert(x, s[1..], le, of);
      CountFirst(s[0], Insert(x, s[1..], le), of);
      CountFirst(s[0], s[1..], of);
      assert s == [s[0]] + s[1..];
    }
  }

  /** Sorting changes no count. */
  lemma {:induction false} CountSort<T>(s: seq<T>, le: (T, T) -> bool, of: T -> bool)
    ensures HowMany(Sort(s, le), of) == HowMany(s, of)
  {
    if s != [] {
      CountSort(s[1..], le, of);
      CountInsert(s[0], Sort(s[1..], le), le, of);
      CountFirst(s[0], s[1..], of);
      assert s == [s[0]] + s[1..];
    }
  }

  /** When the elements that are of the kind are the first `n`, there are `n`. */
  lemma {:induction false} CountPrefix<T>(s: seq<T>, of: T -> bool, n: nat)
    requires n <= |s|
    requires forall i :: 0 <= i < |s| ==> (of(s[i]) <==> i < n)
    ensures HowMany(s, of) == n
  {
    if s != [] {
      var k := |s| - 1;
      forall i | 0 <= i < k ensures of(s[..k][i]) <==> i < Prelude.Min(n, k) {
        assert s[..k][i] == s[i];
      }
      CountPrefix(s[..k], of, Prelude.Min(n, k));
    }
  }

  /** At least the elements of a prefix all of the kind. */
  lemma {:induction false} CountAtLeast<T>(s: seq<T>, of: T -> bool, from: nat, to: nat)
    requires from <= to <= |s| && forall i :: from <= i < to ==> of(s[i])
    ensures HowMany(s, of) >= to - from
  {
    if from < to {
      CountAtLeast(s[..to - 1], of, from, to - 1);
      assert s[..to][..to - 1] == s[..to - 1];
      CountJoin(s[..to], s[to..], of);
      assert s == s[..to] + s[to..];
    }
  }
}

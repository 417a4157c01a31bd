/** The small types every other module shares. */
module Wrappers {
  datatype Option<+T> = None | Some(value: T)

  /** The source's `anyhow::Result`; the error carries no payload in this model. */
  datatype Result<+T> = Ok(value: T) | Err

  /** One byte of a document, a pattern or an encoded blob. */
  type Byte = b: int | 0 <= b < 256

  const NEWLINE: Byte := 10
}

module Slices {
  lemma Associative<T>(x: seq<T>, y: seq<T>, z: seq<T>)
    ensures x + y + z == x + (y + z)
  {
  }

  lemma TakeNext<T>(x: seq<T>, n: nat)
    requires n < |x|
    ensures x[..n + 1] == x[..n] + [x[n]]
  {
  }

  lemma SplitLast<T>(x: seq<T>)
    requires x != []
    ensures x == x[..|x| - 1] + [x[|x| - 1]]
  {
  }

  lemma SliceOfSlice<T>(t: seq<T>, i: nat, j: nat, a: nat, b: nat)
    requires i <= j <= |t| && a <= b <= j - i
    ensures t[i..j][a..b] == t[i + a..i + b]
  {
    forall k | 0 <= k < b - a ensures t[i..j][a..b][k] == t[i + a..i + b][k] {
      assert t[i..j][a + k] == t[i + a + k];
    }
  }
}

/** `sort_unstable` followed by `dedup`, over any strict total order. */
module Sorting {
  ghost predicate TotalOrder<T(!new)>(less: (T, T) -> bool) {
    && (forall x :: !less(x, x))
    && (forall x, y :: x == y || less(x, y) || less(y, x))
    && (forall x, y, z :: less(x, y) && less(y, z) ==> less(x, z))
  }

  predicate StrictlySorted<T>(less: (T, T) -> bool, xs: seq<T>) {
    forall i, j :: 0 <= i < j < |xs| ==> less(xs[i], xs[j])
  }

  function Insert<T(==)>(less: (T, T) -> bool, x: T, xs: seq<T>): seq<T> {
    if xs == [] then [x]
    else if x == xs[0] then xs
    else if less(x, xs[0]) then [x] + xs
    else [xs[0]] + Insert(less, x, xs[1..])
  }

  function SortDedup<T(==)>(less: (T, T) -> bool, xs: seq<T>): seq<T> {
    if xs == [] then [] else Insert(less, xs[0], SortDedup(less, xs[1..]))
  }

  lemma {:induction false} InsertKeepsElements<T>(less: (T, T) -> bool, x: T, xs: seq<T>)
    ensures forall y :: y in Insert(less, x, xs) <==> y == x || y in xs
  {
    if xs != [] && x != xs[0] && !less(x, xs[0]) {
      InsertKeepsElements(less, x, xs[1..]);
      assert xs == [xs[0]] + xs[1..];
    }
  }

  lemma {:induction false} InsertSorts<T(!new)>(less: (T, T) -> bool, x: T, xs: seq<T>)
    requires TotalOrder(less) && StrictlySorted(less, xs)
    ensures StrictlySorted(less, Insert(less, x, xs))
  {
    if xs == [] || x == xs[0] {
    } else if less(x, xs[0]) {
      var ys := [x] + xs;
      forall i, j | 0 <= i < j < |ys| ensures less(ys[i], ys[j]) {
        if i == 0 && j > 1 {
          assert less(xs[0], xs[j - 1]);
        }
      }
    } else {
      InsertSorts(less, x, xs[1..]);
      InsertKeepsElements(less, x, xs[1..]);
      var tail := Insert(less, x, xs[1..]);
      forall j | 0 <= j < |tail| ensures less(xs[0], tail[j]) {
        assert tail[j] in tail;
      }
    }
  }

  /** The result is strictly ascending and holds exactly the input's elements. */
  lemma {:induction false} SortDedupCorrect<T(!new)>(less: (T, T) -> bool, xs: seq<T>)
    requires TotalOrder(less)
    ensures StrictlySorted(less, SortDedup(less, xs))
    ensures forall y :: y in SortDedup(less, xs) <==> y in xs
  {
    if xs != [] {
      SortDedupCorrect(less, xs[1..]);
      InsertSorts(less, xs[0], SortDedup(less, xs[1..]));
      InsertKeepsElements(less, xs[0], SortDedup(less, xs[1..]));
      assert xs == [xs[0]] + xs[1..];
    }
  }

  /** A strictly ascending sequence is determined by the set of its elements. */
  lemma {:induction false} SortedUnique<T(!new)>(less: (T, T) -> bool, xs: seq<T>, ys: seq<T>)
    requires TotalOrder(less) && StrictlySorted(less, xs) && StrictlySorted(less, ys)
    requires forall z :: z in xs <==> z in ys
    ensures xs == ys
  {
    assert ys != [] ==> ys[0] in ys;
    if xs == [] {
    } else {
      assert xs[0] in ys && ys[0] in xs;
      var i :| 0 <= i < |ys| && ys[i] == xs[0];
      var j :| 0 <= j < |xs| && xs[j] == ys[0];
      assert i == 0 && j == 0;
      forall z ensures z in xs[1..] <==> z in ys[1..] {
        assert xs == [xs[0]] + xs[1..] && ys == [ys[0]] + ys[1..];
        assert z in xs <==> z in ys;
        if z == xs[0] {
          assert z !in xs[1..] && z !in ys[1..];
        }
      }
      SortedUnique(less, xs[1..], ys[1..]);
      assert xs == [xs[0]] + xs[1..] && ys == [ys[0]] + ys[1..];
    }
  }

  predicate IdLess(a: nat, b: nat) { a < b }

  lemma IdLessTotal()
    ensures TotalOrder(IdLess)
  {
  }
}

/** Fixed-size blocks of byte positions. */
module BlockSpace {
  /** The block holding position `p`. */
  function BlockAt(p: nat, B: nat): nat
    requires B >= 1
  {
    p / B
  }

  lemma BlockBounds(p: nat, B: nat)
    requires B >= 1
    ensures BlockAt(p, B) * B <= p < BlockAt(p, B) * B + B
  {
  }

  lemma MulMonotone(a: nat, b: nat, B: nat)
    requires a <= b
    ensures a * B <= b * B
  {
  }

  lemma BlockIs(p: nat, B: nat, b: nat)
    requires B >= 1 && b * B <= p < b * B + B
    ensures BlockAt(p, B) == b
  {
    BlockBounds(p, B);
    var k := BlockAt(p, B) - b;
    assert k * B == BlockAt(p, B) * B - b * B;
    assert k >= 1 ==> k * B >= B;
    assert k <= -1 ==> k * B + B <= 0;
  }
}

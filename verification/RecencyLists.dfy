/** Duplicate-free lists ordered by last use, oldest first: what an OrderedDict's key order is
    when every use moves its key to the end. */
module RecencyLists {

  function Drop<K(==)>(xs: seq<K>, x: K): seq<K> {
    if xs == [] then []
    else (if xs[0] == x then [] else [xs[0]]) + Drop(xs[1..], x)
  }

  function Touch<K(==)>(xs: seq<K>, x: K): seq<K> {
    Drop(xs, x) + [x]
  }

  /** The `limit` most recent elements. */
  function Latest<K>(xs: seq<K>, limit: nat): seq<K> {
    if |xs| > limit then xs[|xs| - limit..] else xs
  }

  function Keep<K(==)>(xs: seq<K>, those: set<K>): seq<K> {
    if xs == [] then []
    else (if xs[0] in those then [xs[0]] else []) + Keep(xs[1..], those)
  }

  ghost predicate Distinct<K>(xs: seq<K>) {
    forall i, j :: 0 <= i < j < |xs| ==> xs[i] != xs[j]
  }

  /** Every entry of m is an entry of n. */
  ghost predicate Submap<K, V>(m: map<K, V>, n: map<K, V>) {
    forall k <- m :: k in n && m[k] == n[k]
  }

  lemma RestrictedTo<K, V>(before: map<K, V>, those: seq<K>, after: map<K, V>)
    requires forall k <- before :: k in those <==> k in after
    requires Submap(after, before)
    ensures after == map k | k in before && k in those :: before[k]
  {
  }

  lemma {:induction false} DropMember<K>(xs: seq<K>, x: K, y: K)
    ensures y in Drop(xs, x) <==> y in xs && y != x
  {
    if xs != [] {
      assert xs == [xs[0]] + xs[1..];
      DropMember(xs[1..], x, y);
    }
  }

  lemma {:induction false} DropDistinct<K>(xs: seq<K>, x: K)
    requires Distinct(xs)
    ensures Distinct(Drop(xs, x))
    ensures x !in xs ==> Drop(xs, x) == xs
    ensures x in xs ==> |Drop(xs, x)| == |xs| - 1
  {
    if xs != [] {
      var rest := Drop(xs[1..], x);
      DropDistinct(xs[1..], x);
      assert xs == [xs[0]] + xs[1..];
      forall j | 0 <= j < |rest| ensures xs[0] != rest[j] {
        DropMember(xs[1..], x, rest[j]);
        var k :| 0 <= k < |xs[1..]| && xs[1..][k] == rest[j];
        assert xs[k + 1] == rest[j];
      }
      if xs[0] == x { assert x !in xs[1..]; }
    }
  }

  lemma DistinctTail<K(!new)>(xs: seq<K>)
    requires Distinct(xs) && xs != []
    ensures Distinct(xs[1..]) && forall x :: x in xs[1..] <==> x in xs && x != xs[0]
  {
    assert xs == [xs[0]] + xs[1..];
  }

  lemma TouchDistinct<K(!new)>(xs: seq<K>, x: K)
    requires Distinct(xs)
    ensures Distinct(Touch(xs, x)) && forall y :: y in Touch(xs, x) <==> y in xs || y == x
  {
    DropDistinct(xs, x);
    var dropped := Drop(xs, x);
    forall y ensures y in dropped <==> y in xs && y != x { DropMember(xs, x, y); }
    assert forall i :: 0 <= i < |dropped| ==> dropped[i] in dropped;
    assert Touch(xs, x) == dropped + [x];
  }

  lemma {:induction false} KeepMember<K>(xs: seq<K>, those: set<K>, y: K)
    ensures y in Keep(xs, those) <==> y in xs && y in those
  {
    if xs != [] {
      assert xs == [xs[0]] + xs[1..];
      KeepMember(xs[1..], those, y);
    }
  }

  lemma {:induction false} KeepAppend<K>(xs: seq<K>, x: K, those: set<K>)
    ensures Keep(xs + [x], those) == Keep(xs, those) + (if x in those then [x] else [])
  {
    if xs != [] {
      assert (xs + [x])[1..] == xs[1..] + [x];
      KeepAppend(xs[1..], x, those);
    }
  }

  lemma KeepCons<K>(x: K, xs: seq<K>, those: set<K>)
    ensures Keep([x] + xs, those) == (if x in those then [x] else []) + Keep(xs, those)
  {
    assert ([x] + xs)[1..] == xs;
  }

  lemma {:induction false} DropOfKeep<K>(xs: seq<K>, x: K, those: set<K>)
    ensures Drop(Keep(xs, those), x) == Keep(xs, those - {x}) == Keep(Drop(xs, x), those)
        == Keep(Drop(xs, x), those + {x})
  {
    if xs != [] {
      var head, rest := xs[0], Keep(xs[1..], those);
      DropOfKeep(xs[1..], x, those);
      if head in those {
        assert Keep(xs, those) == [head] + rest;
        assert Drop([head] + rest, x) == (if head == x then [] else [head]) + Drop(rest, x);
      } else {
        assert Keep(xs, those) == rest;
      }
      if head != x {
        assert Drop(xs, x) == [head] + Drop(xs[1..], x);
        KeepCons(head, Drop(xs[1..], x), those);
        KeepCons(head, Drop(xs[1..], x), those + {x});
      } else {
        assert Drop(xs, x) == Drop(xs[1..], x);
      }
    }
  }

  /** Touching commutes with restricting: a bounded list follows the unbounded one. */
  lemma TouchOfKeep<K>(xs: seq<K>, x: K, those: set<K>)
    ensures Touch(Keep(xs, those), x) == Keep(Touch(xs, x), those + {x})
  {
    DropOfKeep(xs, x, those);
    KeepAppend(Drop(xs, x), x, those + {x});
  }

  /** How many elements come after the last use of x. */
  function Behind<K(==)>(xs: seq<K>, x: K): nat {
    if xs == [] then 0
    else if xs[0] == x then |xs| - 1
    else Behind(xs[1..], x)
  }

  lemma {:induction false} BehindKeep<K>(xs: seq<K>, x: K, those: set<K>)
    requires x in those && x in xs
    ensures Behind(Keep(xs, those), x) <= Behind(xs, x)
  {
    assert xs == [xs[0]] + xs[1..];
    KeepShorter(xs[1..], those);
    if xs[0] != x {
      BehindKeep(xs[1..], x, those);
      if xs[0] in those {
        assert Keep(xs, those)[1..] == Keep(xs[1..], those);
      } else {
        assert Keep(xs, those) == Keep(xs[1..], those);
      }
    }
  }

  lemma {:induction false} KeepShorter<K>(xs: seq<K>, those: set<K>)
    ensures |Keep(xs, those)| <= |xs|
  {
    if xs != [] { KeepShorter(xs[1..], those); }
  }

  lemma BehindCons<K>(h: K, rest: seq<K>, x: K)
    ensures Behind([h] + rest, x) == if h == x then |rest| else Behind(rest, x)
  {
    assert ([h] + rest)[1..] == rest;
  }

  lemma TouchCons<K>(h: K, rest: seq<K>, y: K)
    ensures Touch([h] + rest, y) == if h == y then Touch(rest, y) else [h] + Touch(rest, y)
  {
    assert ([h] + rest)[1..] == rest;
  }

  /** Using another key never brings x closer to the recent end. */
  lemma {:induction false} BehindTouch<K>(xs: seq<K>, x: K, y: K)
    requires Distinct(xs) && x in xs && x != y
    ensures Behind(Touch(xs, y), x) >= Behind(xs, x)
    ensures x in Touch(xs, y)
  {
    DropMember(xs, y, x);
    var h, rest := xs[0], xs[1..];
    assert xs == [h] + rest;
    BehindCons(h, rest, x);
    TouchCons(h, rest, y);
    DropDistinct(rest, y);
    if h == y {
      BehindAppend(rest, x, y);
    } else {
      BehindCons(h, Touch(rest, y), x);
      if h != x { BehindTouch(rest, x, y); }
    }
  }

  lemma {:induction false} BehindAppend<K>(xs: seq<K>, x: K, y: K)
    requires x in xs
    ensures Behind(xs + [y], x) == Behind(xs, x) + 1
  {
    assert xs == [xs[0]] + xs[1..];
    if xs[0] != x {
      assert (xs + [y])[1..] == xs[1..] + [y];
      BehindAppend(xs[1..], x, y);
    }
  }
}

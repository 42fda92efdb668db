/**
 * Query parameter maps (`url.Values`), Go's unordered map iteration, key
 * whitelists, and the comma normalisation the list, get-text and delete
 * operations apply before validating.
 */
module Params {
  import opened Text

  /** `url.Values`: each key with its raw values in arrival order. */
  type Query = map<string, seq<string>>

  /** What `url.ParseQuery` produces: every present key carries at least one value. */
  predicate WellFormed(q: Query)
  {
    forall k | k in q :: |q[k]| >= 1
  }

  /** No element listed twice. */
  predicate Distinct<T(==)>(order: seq<T>)
  {
    forall i, j | 0 <= i < j < |order| :: order[i] != order[j]
  }

  /**
   * `order` is one possible order of a Go `for k := range m` loop over a map
   * with key set `keys`: every key exactly once, in no promised order.
   */
  predicate Enumerates(order: seq<string>, keys: set<string>)
  {
    Distinct(order) && (forall k | k in order :: k in keys) && (forall k | k in keys :: k in order)
  }

  /** The keys of `order` outside `allowed`, in the order met. */
  function Unexpected(order: seq<string>, allowed: set<string>): (r: seq<string>)
    ensures forall k :: k in r <==> k in order && k !in allowed
    ensures Distinct(order) ==> Distinct(r)
  {
    if |order| == 0 then []
    else (if order[0] in allowed then [] else [order[0]]) + Unexpected(order[1..], allowed)
  }

  /** In a duplicate-free sequence every element occurs once. */
  lemma {:induction false} DistinctMultiplicity<T>(s: seq<T>, k: T)
    requires Distinct(s)
    ensures multiset(s)[k] == if k in s then 1 else 0
    decreases |s|
  {
    if |s| > 0 {
      assert s == [s[0]] + s[1..];
      DistinctMultiplicity(s[1..], k);
      if k == s[0] {
        assert k !in s[1..] by {
          forall i | 1 <= i < |s|
            ensures s[i] != k
          {
          }
        }
      }
    }
  }

  /** Appending an element not yet present keeps a sequence duplicate-free. */
  lemma DistinctSnoc<T>(s: seq<T>, x: T)
    requires Distinct(s) && x !in s
    ensures Distinct(s + [x])
  {
  }

  /** Two duplicate-free sequences with the same elements are permutations of each other. */
  lemma DistinctPermutation<T>(a: seq<T>, b: seq<T>)
    requires Distinct(a) && Distinct(b)
    requires forall k :: k in a <==> k in b
    ensures multiset(a) == multiset(b)
  {
    forall k
      ensures multiset(a)[k] == multiset(b)[k]
    {
      DistinctMultiplicity(a, k);
      DistinctMultiplicity(b, k);
    }
  }

  /** `f` applied to every element. */
  function Mapped<A, B>(f: A -> B, s: seq<A>): (r: seq<B>)
    ensures |r| == |s|
    decreases |s|
  {
    if |s| == 0 then [] else Mapped(f, s[..|s| - 1]) + [f(s[|s| - 1])]
  }

  /** Mapping distributes over concatenation. */
  lemma {:induction false} MappedAppend<A, B>(f: A -> B, a: seq<A>, b: seq<A>)
    ensures Mapped(f, a + b) == Mapped(f, a) + Mapped(f, b)
    decreases |b|
  {
    if |b| == 0 {
      assert a + b == a;
    } else {
      var n := |b| - 1;
      assert (a + b)[..|a + b| - 1] == a + b[..n];
      MappedAppend(f, a, b[..n]);
    }
  }

  /** Taking one occurrence of `c` out of a sequence that holds it. */
  lemma TakeOut<A>(x: seq<A>, y: seq<A>, c: A) returns (front: seq<A>, back: seq<A>)
    requires multiset(x + [c]) == multiset(y)
    ensures y == front + [c] + back
    ensures multiset(x) == multiset(front + back)
  {
    assert c in multiset(y);
    var j :| 0 <= j < |y| && y[j] == c;
    front, back := y[..j], y[j + 1..];
    assert y == front + [c] + back;
    assert multiset(y) == multiset(front) + multiset{c} + multiset(back);
    assert multiset(x + [c]) == multiset(x) + multiset{c};
    assert multiset(front + back) == multiset(front) + multiset(back);
    assert multiset(x) == multiset(x + [c]) - multiset{c};
    assert multiset(front + back) == multiset(y) - multiset{c};
  }

  /** Mapping a permutation gives a permutation. */
  lemma {:induction false} MappedPermutation<A, B>(f: A -> B, x: seq<A>, y: seq<A>)
    requires multiset(x) == multiset(y)
    ensures multiset(Mapped(f, x)) == multiset(Mapped(f, y))
    decreases |x|
  {
    if |x| == 0 {
      assert |multiset(y)| == 0;
    } else {
      var n := |x| - 1;
      var c := x[n];
      assert x == x[..n] + [c];
      var front, back := TakeOut(x[..n], y, c);
      MappedPermutation(f, x[..n], front + back);
      MappedAppend(f, front, [c]);
      MappedAppend(f, front + [c], back);
      MappedAppend(f, front, back);
      assert Mapped(f, [c]) == [f(c)] by {
        assert [c][..0] == [];
      }
      var mf, mb := Mapped(f, front), Mapped(f, back);
      assert multiset(Mapped(f, y)) == multiset(mf) + multiset{f(c)} + multiset(mb);
      assert multiset(Mapped(f, front + back)) == multiset(mf) + multiset(mb);
      assert multiset(Mapped(f, x)) == multiset(Mapped(f, x[..n])) + multiset{f(c)};
    }
  }

  /**
   * Over a map's iteration order, the reported keys are exactly the map's
   * keys outside `allowed`, each once; the report is empty exactly when
   * every key is allowed.
   */
  lemma UnexpectedExactly(order: seq<string>, keys: set<string>, allowed: set<string>)
    requires Enumerates(order, keys)
    ensures forall k :: k in Unexpected(order, allowed) <==> k in keys && k !in allowed
    ensures Distinct(Unexpected(order, allowed))
    ensures |Unexpected(order, allowed)| == 0 <==> keys <= allowed
  {
    var r := Unexpected(order, allowed);
    if |r| == 0 {
      forall k | k in keys
        ensures k in allowed
      {
        assert k !in r;
      }
    } else {
      assert r[0] in r;
    }
  }

  /**
   * Two iteration orders of one map report the same unexpected keys, up to
   * permutation: only the order of the report depends on the iteration.
   */
  lemma UnexpectedPermutation(a: seq<string>, b: seq<string>, keys: set<string>, allowed: set<string>)
    requires Enumerates(a, keys) && Enumerates(b, keys)
    ensures multiset(Unexpected(a, allowed)) == multiset(Unexpected(b, allowed))
  {
    DistinctPermutation(Unexpected(a, allowed), Unexpected(b, allowed));
  }

  /**
   * The comma normalisation (services.go:41-43, 122-124, 204-206): each
   * key's first raw value is replaced by its split on ","; the key set is
   * kept, every key keeps at least one value, further raw values are dropped,
   * and re-joining a key's values gives its first raw value back.
   */
  function Normalize(q: Query): (p: Query)
    requires WellFormed(q)
    ensures p.Keys == q.Keys
    ensures WellFormed(p)
    ensures forall k | k in p :: Join(p[k], ",") == q[k][0]
  {
    map k | k in q :: Split(q[k][0], ",")
  }

  /** A normalised key has more than one value exactly when its first raw value has a comma. */
  lemma NormalizeSingle(q: Query, k: string)
    requires WellFormed(q) && k in q
    ensures |Normalize(q)[k]| > 1 <==> ',' in q[k][0]
  {
    SplitSingle(q[k][0], ",");
    ContainsChar(q[k][0], ',');
  }

  /** A first value without a comma normalises to itself alone; with one, to several values. */
  lemma NormalizeNoComma(q: Query, k: string)
    requires WellFormed(q) && k in q
    ensures ',' !in q[k][0] ==> Normalize(q)[k] == [q[k][0]]
    ensures ',' in q[k][0] ==> |Normalize(q)[k]| > 1
  {
    NormalizeSingle(q, k);
  }

  /** A comma-joined first value comes back as the list it was joined from. */
  lemma NormalizeOfJoined(q: Query, k: string, values: seq<string>)
    requires WellFormed(q) && k in q && |values| >= 1
    requires forall i | 0 <= i < |values| :: ',' !in values[i]
    requires q[k][0] == Join(values, ",")
    ensures Normalize(q)[k] == values
  {
    SplitOfJoinChar(values, ',');
  }
}

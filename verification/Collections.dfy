/** Containers the models share: an option and result type, a map that keeps
    insertion order the way a JavaScript `Map` does, and a few sequence functions. */
module Collections {

  datatype Option<+T> = None | Some(value: T)

  datatype Result<+T, +E> = Ok(value: T) | Err(error: E)

  /** No element occurs twice. */
  predicate Distinct<T(==)>(s: seq<T>)
  {
    s == [] || (s[0] !in s[1..] && Distinct(s[1..]))
  }

  lemma {:induction false} DistinctSnoc<T(!new)>(s: seq<T>, k: T)
    requires Distinct(s) && k !in s
    ensures Distinct(s + [k])
  {
    if s != [] {
      DistinctSnoc(s[1..], k);
      assert (s + [k])[1..] == s[1..] + [k];
    }
  }

  lemma {:induction false} DistinctAt<T>(s: seq<T>, i: nat, j: nat)
    requires Distinct(s) && i < j < |s|
    ensures s[i] != s[j]
  {
    if i > 0 {
      DistinctAt(s[1..], i - 1, j - 1);
    } else {
      assert s[1..][j - 1] == s[j];
    }
  }

  /** `s` with every occurrence of `k` taken out, the rest in order. */
  function Without<T(==,!new)>(s: seq<T>, k: T): (r: seq<T>)
    ensures forall x :: x in r <==> x in s && x != k
    ensures Distinct(s) ==> Distinct(r)
  {
    if s == [] then []
    else if s[0] == k then Without(s[1..], k)
    else
      var rest := Without(s[1..], k);
      assert forall x :: x in [s[0]] + rest <==> x in s && x != k by {
        assert s == [s[0]] + s[1..];
      }
      assert ([s[0]] + rest)[1..] == rest;
      [s[0]] + rest
  }

  /** A JavaScript `Map`: `order` lists the keys by first insertion; overwriting
      a key keeps its place, deleting and setting it again moves it to the end. */
  datatype OrderedMap<K(==,!new), V> = OrderedMap(entries: map<K, V>, order: seq<K>)
  {
    ghost predicate Valid() {
      && Distinct(order)
      && (forall k :: k in order <==> k in entries)
    }

    predicate Has(k: K) { k in entries }

    function Get(k: K): Option<V> {
      if k in entries then Some(entries[k]) else None
    }

    function Set(k: K, v: V): (m: OrderedMap<K, V>)
      ensures Valid() ==> m.Valid()
      ensures m.entries == entries[k := v]
    {
      assert Valid() && k !in entries ==> Distinct(order + [k]) by {
        if Valid() && k !in entries { DistinctSnoc(order, k); }
      }
      OrderedMap(entries[k := v], if k in entries then order else order + [k])
    }

    function Delete(k: K): (m: OrderedMap<K, V>)
      ensures Valid() ==> m.Valid()
      ensures m.entries == entries - {k}
    {
      OrderedMap(entries - {k}, Without(order, k))
    }

    function Size(): (n: nat)
      ensures Valid() ==> (n == 0 <==> entries == map[])
    {
      assert Valid() && entries != map[] ==> order != [] by {
        if Valid() && entries != map[] {
          var k :| k in entries;
          assert k in order;
        }
      }
      assert Valid() && order != [] ==> order[0] in entries;
      |order|
    }
  }

  function EmptyMap<K(==,!new), V>(): (m: OrderedMap<K, V>)
    ensures m.Valid()
  {
    OrderedMap(map[], [])
  }

  /** The size JavaScript reports is the number of bindings. */
  lemma SizeIsCardinality<K(!new), V>(m: OrderedMap<K, V>)
    requires m.Valid()
    ensures m.Size() == |m.entries|
  {
    DistinctCardinality(m.order);
    assert (set k | k in m.order) == m.entries.Keys;
  }

  lemma {:induction false} DistinctCardinality<T(!new)>(s: seq<T>)
    requires Distinct(s)
    ensures |set x | x in s| == |s|
  {
    if s == [] {
      assert (set x | x in s) == {};
    } else {
      DistinctCardinality(s[1..]);
      assert (set x | x in s) == (set x | x in s[1..]) + {s[0]} by {
        assert s == [s[0]] + s[1..];
      }
    }
  }

  // ----- sequences put together and taken apart -----

  lemma Regroup<T>(a: seq<T>, b: seq<T>, c: seq<T>)
    ensures (a + b) + c == a + (b + c)
  {
  }

  lemma NothingAdded<T>(a: seq<T>)
    ensures a + [] == a && [] + a == a
  {
  }

  lemma TakeApart<T>(a: seq<T>, b: seq<T>)
    ensures (a + b)[..|a|] == a && (a + b)[|a|..] == b
  {
  }

  lemma PutTogether<T>(s: seq<T>, i: nat)
    requires i <= |s|
    ensures s[..i] + s[i..] == s
  {
  }

  lemma BehindFront<T>(front: seq<T>, a: seq<T>, b: seq<T>)
    ensures (front + a + b)[|front|..] == a + b && (front + a + b)[..|front|] == front
  {
    Regroup(front, a, b);
    TakeApart(front, a + b);
  }

  /** All the pieces one after the other, as `[].concat(...)` and `join("")` do. */
  function Flatten<T>(pieces: seq<seq<T>>): (r: seq<T>)
  {
    if pieces == [] then [] else pieces[0] + Flatten(pieces[1..])
  }

  lemma {:induction false} FlattenAppend<T>(a: seq<seq<T>>, b: seq<seq<T>>)
    ensures Flatten(a + b) == Flatten(a) + Flatten(b)
  {
    if a == [] {
      assert a + b == b;
    } else {
      FlattenAppend(a[1..], b);
      assert (a + b)[1..] == a[1..] + b;
      Regroup(a[0], Flatten(a[1..]), Flatten(b));
    }
  }

  lemma FlattenSingle<T>(s: seq<T>)
    ensures Flatten([s]) == s
  {
    assert Flatten([s]) == s + Flatten([s][1..]);
  }

  lemma FlattenSnoc<T>(a: seq<seq<T>>, s: seq<T>)
    ensures Flatten(a + [s]) == Flatten(a) + s
  {
    FlattenAppend(a, [s]);
    FlattenSingle(s);
  }

  /** `a` is what is left of `b` when some elements are taken out. */
  predicate Subsequence<T(==)>(a: seq<T>, b: seq<T>)
    decreases |b|
  {
    a == [] || (b != [] && ((a[0] == b[0] && Subsequence(a[1..], b[1..])) || Subsequence(a, b[1..])))
  }

  lemma {:induction false} SubsequenceTransitive<T>(a: seq<T>, b: seq<T>, c: seq<T>)
    requires Subsequence(a, b) && Subsequence(b, c)
    ensures Subsequence(a, c)
    decreases |c|
  {
    if a != [] {
      if Subsequence(b, c[1..]) {
        SubsequenceTransitive(a, b, c[1..]);
      } else if a[0] == b[0] && Subsequence(a[1..], b[1..]) {
        SubsequenceTransitive(a[1..], b[1..], c[1..]);
      } else {
        SubsequenceTransitive(a, b[1..], c[1..]);
      }
    }
  }

  /** Taking elements out of the back part takes them out of the whole. */
  lemma {:induction false} SubsequenceBehind<T>(front: seq<T>, a: seq<T>, b: seq<T>)
    requires Subsequence(a, b)
    ensures Subsequence(front + a, front + b)
    decreases |front|
  {
    if front == [] {
      assert front + a == a && front + b == b;
    } else {
      assert (front + a)[1..] == front[1..] + a && (front + b)[1..] == front[1..] + b;
      SubsequenceBehind(front[1..], a, b);
    }
  }

  lemma {:induction false} SubsequenceSelf<T>(a: seq<T>)
    ensures Subsequence(a, a)
  {
    if a != [] {
      SubsequenceSelf(a[1..]);
    }
  }
}

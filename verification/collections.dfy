/**
 * Abstract models of the two collections the queue is built on.
 *
 * Guava's LinkedListMultimap becomes a map from a key to the sequence of its
 * values in insertion order; a key whose values have all been removed has no
 * entry at all, which is how the multimap behaves once `get(key)` is empty.
 * The java.util.LinkedList of keys becomes a sequence.
 */
module Collections {

  /** Multimap `get`: the values stored under `k`, oldest first; none if `k` has no entry. */
  function Get<K, E>(store: map<K, seq<E>>, k: K): seq<E> {
    if k in store then store[k] else []
  }

  /** No key is listed twice. */
  predicate NoDups<K(==)>(ks: seq<K>) {
    forall i, j :: 0 <= i < j < |ks| ==> ks[i] != ks[j]
  }

  /** The number of values stored under the keys listed in `ks`, one term per listed key. */
  function Total<K, E>(store: map<K, seq<E>>, ks: seq<K>): nat {
    if ks == [] then 0 else |Get(store, ks[0])| + Total(store, ks[1..])
  }

  /** LinkedList `remove(Object)`: drops the first occurrence of `k`, if there is one. */
  function RemoveFirst<K(==)>(ks: seq<K>, k: K): (r: seq<K>)
    ensures k in ks ==> |r| == |ks| - 1
    ensures k !in ks ==> r == ks
  {
    if ks == [] then []
    else if ks[0] == k then ks[1..]
    else
      assert k in ks ==> k in ks[1..];
      [ks[0]] + RemoveFirst(ks[1..], k)
  }

  /** What is removed is one occurrence of `k` and nothing else. */
  lemma {:induction false} RemoveFirstCount<K>(ks: seq<K>, k: K)
    ensures multiset(RemoveFirst(ks, k)) == multiset(ks) - multiset{k}
  {
    if ks != [] {
      assert ks == [ks[0]] + ks[1..];
      if ks[0] != k {
        RemoveFirstCount(ks[1..], k);
      }
    }
  }

  /** Removing by value removes the first index that holds the value. */
  lemma {:induction false} RemoveFirstAt<K>(ks: seq<K>, i: nat)
    requires i < |ks| && ks[i] !in ks[..i]
    ensures RemoveFirst(ks, ks[i]) == ks[..i] + ks[i + 1..]
  {
    if i == 0 {
      assert ks[..0] + ks[1..] == ks[1..];
    } else {
      var tail := ks[1..];
      assert ks[0] != ks[i] by {
        assert ks[..i][0] == ks[0];
      }
      assert RemoveFirst(ks, ks[i]) == [ks[0]] + RemoveFirst(tail, ks[i]);
      assert tail[i - 1] == ks[i];
      assert ks[i] !in tail[..i - 1] by {
        assert tail[..i - 1] == ks[..i][1..];
      }
      RemoveFirstAt(tail, i - 1);
      assert ks[..i] == [ks[0]] + tail[..i - 1];
      assert tail[i..] == ks[i + 1..];
    }
  }

  /** Removing the entry at index `i` from a duplicate-free list keeps it duplicate-free
      and takes out exactly the key that was there. */
  lemma RemoveAtNoDups<K>(ks: seq<K>, i: nat)
    requires NoDups(ks) && i < |ks|
    ensures NoDups(ks[..i] + ks[i + 1..])
    ensures ks[i] !in ks[..i] + ks[i + 1..]
    ensures forall x :: x in ks[..i] + ks[i + 1..] <==> x in ks && x != ks[i]
  {
  }

  /** The total of a concatenation is the sum of the totals. */
  lemma {:induction false} TotalConcat<K, E>(store: map<K, seq<E>>, a: seq<K>, b: seq<K>)
    ensures Total(store, a + b) == Total(store, a) + Total(store, b)
  {
    if a == [] {
      assert a + b == b;
    } else {
      assert (a + b)[1..] == a[1..] + b;
      TotalConcat(store, a[1..], b);
    }
  }

  /** Listing one more key adds what that key holds. */
  lemma TotalAppend<K, E>(store: map<K, seq<E>>, ks: seq<K>, k: K)
    ensures Total(store, ks + [k]) == Total(store, ks) + |Get(store, k)|
  {
    TotalConcat(store, ks, [k]);
  }

  /** Unlisting the key at index `i` subtracts what that key holds. */
  lemma TotalRemoveAt<K, E>(store: map<K, seq<E>>, ks: seq<K>, i: nat)
    requires i < |ks|
    ensures Total(store, ks[..i] + ks[i + 1..]) == Total(store, ks) - |Get(store, ks[i])|
  {
    assert ks == ks[..i] + ks[i..];
    assert ks[i..][1..] == ks[i + 1..];
    TotalConcat(store, ks[..i], ks[i..]);
    TotalConcat(store, ks[..i], ks[i + 1..]);
  }

  /** Changing the values of one key `k` changes the total by the change in
      `k`'s length when `k` is listed (once), and not at all otherwise. */
  lemma {:induction false} TotalChange<K, E>(before: map<K, seq<E>>, after: map<K, seq<E>>, ks: seq<K>, k: K)
    requires NoDups(ks)
    requires forall x :: x != k ==> Get(before, x) == Get(after, x)
    ensures Total(after, ks) == Total(before, ks) + (if k in ks then |Get(after, k)| - |Get(before, k)| else 0)
  {
    if ks != [] {
      var tail := ks[1..];
      assert NoDups(tail) by {
        forall a, b | 0 <= a < b < |tail| ensures tail[a] != tail[b] {
          assert tail[a] == ks[a + 1] && tail[b] == ks[b + 1];
        }
      }
      TotalChange(before, after, tail, k);
      assert ks == [ks[0]] + tail;
      if ks[0] == k {
        assert k !in tail by {
          forall p | 0 <= p < |tail| ensures tail[p] != k {
            assert tail[p] == ks[p + 1];
          }
        }
      }
    }
  }
}

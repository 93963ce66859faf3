/**
 * The store, the list of active keys and the rotation cursor of the
 * alternating multiqueue, taken together as one value, and the two
 * transitions the queue makes on it: storing an element under a key and
 * serving one turn of the rotation.
 */
module RoundRobin {
  import opened Collections

  /** Per-key values, the keys that currently hold values (in order of
      arrival), and the index of the key to serve next. */
  datatype Rotation<K, E> = Rotation(store: map<K, seq<E>>, keys: seq<K>, cursor: int) {

    /** The store's invariants: a key is listed exactly when it holds values,
        no key is listed twice, and the cursor points at a listed key (or is 0
        when none is listed). */
    ghost predicate Consistent() {
      NoDups(keys)
      && (forall k | k in store :: k in keys && store[k] != [])
      && (forall i | 0 <= i < |keys| :: keys[i] in store)
      && (if keys == [] then cursor == 0 else 0 <= cursor < |keys|)
    }

    /** The number of stored elements. */
    function Size(): nat {
      Total(store, keys)
    }

    /** The order in which the listed keys come up from the cursor on: the key
        under the cursor first, then the rest of the list, then its start. */
    function Order(): seq<K>
      requires 0 <= cursor <= |keys|
    {
      keys[cursor..] + keys[..cursor]
    }

    /** Storing `e` under `k`: it joins the tail of `k`'s values, and `k` joins
        the end of the list unless it is already listed; the cursor stays. */
    function Put(k: K, e: E): Rotation<K, E> {
      Rotation(store[k := Get(store, k) + [e]], if k in keys then keys else keys + [k], cursor)
    }

    /** One turn of the rotation: the head of the key under the cursor is
        served. If the key has nothing left it leaves the list and the cursor
        stays on the key that followed it, or goes to 0 if it was last;
        otherwise the cursor moves on by one modulo the number of keys. */
    function Serve(): Turn<K, E>
      requires Consistent() && keys != []
    {
      var k := keys[cursor];
      var q := store[k];
      if |q| == 1 then
        var rest := keys[..cursor] + keys[cursor + 1..];
        Turn(q[0], Rotation(store - {k}, rest, if cursor < |rest| then cursor else 0))
      else
        Turn(q[0], Rotation(store[k := q[1..]], keys, (cursor + 1) % |keys|))
    }
  }

  /** The element served in one turn and the state the turn leaves behind. */
  datatype Turn<K, E> = Turn(head: E, next: Rotation<K, E>)

  /** With the invariants, the store is empty exactly when no key is listed. */
  lemma SizeZeroIffNoKeys<K, E>(r: Rotation<K, E>)
    requires r.Consistent()
    ensures r.Size() == 0 <==> r.keys == []
  {
  }

  /** Storing an element keeps the invariants and adds one to the size. */
  lemma PutKeepsInvariant<K, E>(r: Rotation<K, E>, k: K, e: E)
    requires r.Consistent()
    ensures r.Put(k, e).Consistent()
    ensures r.Put(k, e).Size() == r.Size() + 1
  {
    var after := r.Put(k, e).store;
    TotalChange(r.store, after, r.keys, k);
    if k !in r.keys {
      TotalAppend(after, r.keys, k);
      var ks := r.keys + [k];
      forall a, b | 0 <= a < b < |ks| ensures ks[a] != ks[b] {
        if b == |r.keys| {
          assert ks[a] in r.keys;
        }
      }
    }
  }

  /** Storing an element under `k` touches no other key and puts the element
      behind everything already stored under `k`. */
  lemma PutAppendsToKey<K, E>(r: Rotation<K, E>, k: K, e: E)
    ensures Get(r.Put(k, e).store, k) == Get(r.store, k) + [e]
    ensures forall j :: j != k ==> Get(r.Put(k, e).store, j) == Get(r.store, j)
  {
  }

  /** A key that was not listed comes up after every key from the cursor to
      the end of the list and before the keys in front of the cursor;
      a listed key leaves the order as it was. */
  lemma PutOrder<K, E>(r: Rotation<K, E>, k: K, e: E)
    requires r.Consistent()
    ensures k in r.keys ==> r.Put(k, e).Order() == r.Order()
    ensures k !in r.keys ==> r.Put(k, e).Order() == r.keys[r.cursor..] + [k] + r.keys[..r.cursor]
  {
  }

  /** A turn keeps the invariants and removes exactly one element. */
  lemma ServeKeepsInvariant<K, E>(r: Rotation<K, E>)
    requires r.Consistent() && r.keys != []
    ensures r.Serve().next.Consistent()
    ensures r.Serve().next.Size() == r.Size() - 1
  {
    if |r.store[r.keys[r.cursor]]| == 1 {
      LastElementServed(r);
    } else {
      OtherElementServed(r);
    }
  }

  /** The turn that serves a key's last element. */
  lemma LastElementServed<K, E>(r: Rotation<K, E>)
    requires r.Consistent() && r.keys != [] && |r.store[r.keys[r.cursor]]| == 1
    ensures r.Serve().next.Consistent()
    ensures r.Serve().next.Size() == r.Size() - 1
    ensures r.keys[r.cursor] !in r.Serve().next.keys && r.keys[r.cursor] !in r.Serve().next.store
  {
    var c := r.cursor;
    var k := r.keys[c];
    var n := r.Serve().next;
    var rest := r.keys[..c] + r.keys[c + 1..];
    assert n.store == r.store - {k} && n.keys == rest;
    RemoveAtNoDups(r.keys, c);
    forall x | x in n.store ensures x in rest && n.store[x] != [] {
      assert x in r.store && x != k;
    }
    forall p | 0 <= p < |rest| ensures rest[p] in n.store {
      assert rest[p] in rest;
      assert rest[p] in r.keys;
    }
    TotalChange(r.store, n.store, rest, k);
    TotalRemoveAt(r.store, r.keys, c);
  }

  /** The turn that serves a key which still holds values afterwards. */
  lemma OtherElementServed<K, E>(r: Rotation<K, E>)
    requires r.Consistent() && r.keys != [] && |r.store[r.keys[r.cursor]]| != 1
    ensures r.Serve().next.Consistent()
    ensures r.Serve().next.Size() == r.Size() - 1
    ensures r.Serve().next.keys == r.keys && r.Serve().next.store[r.keys[r.cursor]] == r.store[r.keys[r.cursor]][1..]
  {
    var c := r.cursor;
    var k := r.keys[c];
    var n := r.Serve().next;
    assert n.store == r.store[k := r.store[k][1..]] && n.keys == r.keys;
    StepWraps(c, |r.keys|);
    TotalChange(r.store, n.store, r.keys, k);
  }

  /** A turn serves the oldest element of the key under the cursor, removes
      it from that key and leaves every other key's values alone. */
  lemma ServeTakesHead<K, E>(r: Rotation<K, E>)
    requires r.Consistent() && r.keys != []
    ensures var k := r.keys[r.cursor];
      r.Serve().head == Get(r.store, k)[0]
      && Get(r.Serve().next.store, k) == Get(r.store, k)[1..]
      && forall j :: j != k ==> Get(r.Serve().next.store, j) == Get(r.store, j)
  {
  }

  /** One step modulo `n` from an index below `n` is the next index, or 0 past the end. */
  lemma StepWraps(c: int, n: int)
    requires 0 <= c < n
    ensures (c + 1) % n == if c + 1 < n then c + 1 else 0
  {
  }

  /** Rotating a list so that it starts at `c + 1` (wrapping to 0) is the
      rotation at `c` with its first key moved to the back. */
  lemma RotateStep<K>(ks: seq<K>, c: nat)
    requires c < |ks|
    ensures var c' := (c + 1) % |ks|; ks[c'..] + ks[..c'] == ks[c + 1..] + ks[..c] + [ks[c]]
  {
    StepWraps(c, |ks|);
    if c + 1 < |ks| {
      assert ks[..c + 1] == ks[..c] + [ks[c]];
    } else {
      assert ks == ks[..c] + [ks[c]];
    }
  }

  /** Taking out the key at `c` and leaving the index at `c` (or at 0 past
      the end) rotates the rest of the list as before, without that key. */
  lemma RotateRemoved<K>(ks: seq<K>, c: nat)
    requires c < |ks|
    ensures var rest := ks[..c] + ks[c + 1..]; var c' := if c < |rest| then c else 0;
      rest[c'..] + rest[..c'] == ks[c + 1..] + ks[..c]
  {
  }

  /** The fairness of the rotation: a turn moves the served key from the
      front of the order to its back if it still holds values, and drops it
      otherwise; every other key keeps its place in line. */
  lemma ServeOrder<K, E>(r: Rotation<K, E>)
    requires r.Consistent() && r.keys != []
    ensures var k := r.keys[r.cursor]; var n := r.Serve().next;
      0 <= n.cursor <= |n.keys|
      && n.Order() == r.Order()[1..] + (if k in n.keys then [k] else [])
  {
    if |r.store[r.keys[r.cursor]]| == 1 {
      LastElementOrder(r);
    } else {
      OtherElementOrder(r);
    }
  }

  /** The turn that serves a key's last element drops the key from the order. */
  lemma LastElementOrder<K, E>(r: Rotation<K, E>)
    requires r.Consistent() && r.keys != [] && |r.store[r.keys[r.cursor]]| == 1
    ensures var n := r.Serve().next;
      0 <= n.cursor <= |n.keys|
      && r.keys[r.cursor] !in n.keys
      && n.Order() == r.Order()[1..]
  {
    var c := r.cursor;
    var ks := r.keys;
    var k := ks[c];
    var rest := ks[..c] + ks[c + 1..];
    var c' := if c < |rest| then c else 0;
    assert r.Serve() == Turn(r.store[k][0], Rotation(r.store - {k}, rest, c'));
    assert k !in rest by {
      RemoveAtNoDups(ks, c);
    }
    RotateRemoved(ks, c);
    assert r.Order()[1..] == ks[c + 1..] + ks[..c];
  }

  /** The turn that serves a key which keeps values moves the key to the back of the order. */
  lemma OtherElementOrder<K, E>(r: Rotation<K, E>)
    requires r.Consistent() && r.keys != [] && |r.store[r.keys[r.cursor]]| != 1
    ensures var n := r.Serve().next;
      0 <= n.cursor <= |n.keys|
      && r.keys[r.cursor] in n.keys
      && n.Order() == r.Order()[1..] + [r.keys[r.cursor]]
  {
    var c := r.cursor;
    var ks := r.keys;
    var n := r.Serve().next;
    assert n.keys == ks && n.cursor == (c + 1) % |ks|;
    assert r.Order()[1..] == ks[c + 1..] + ks[..c];
    RotateStep(ks, c);
  }
}

/**
 * The alternating multiqueue: a bounded queue with one FIFO sub-queue per key.
 * Successive dequeues take one element from each key that holds elements,
 * in turn. The model is sequential: the fields are updated one operation
 * at a time.
 */
module Javautils {
  import opened Collections
  import opened RoundRobin

  /** The exceptions the queue throws. */
  datatype Exception = IllegalArgument | NullPointer | IllegalState

  /** A possibly absent value. As a parameter, `None` stands for a null
      element; as a result, it stands for the null that `poll` returns. */
  datatype Option<T> = None | Some(value: T)

  /** A value, or the exception thrown instead of returning one. */
  datatype Result<T> = Ok(value: T) | Err(error: Exception)

  /** Normal completion, or the exception thrown. */
  datatype Outcome = Pass | Fail(error: Exception)

  class AlternatingMultiqueue<K(==), E> {
    /** The largest number of elements the queue holds. */
    const capacity: int
    /** The number of elements held. */
    var count: int
    /** The values of each key, oldest first; only keys with values have an entry. */
    var store: map<K, seq<E>>
    /** The keys that hold values, in the order they arrived. */
    var keys: seq<K>
    /** The index in `keys` of the key to serve next. */
    var currentKey: int

    /** The store, the key list and the cursor, as one value. */
    function Snapshot(): Rotation<K, E>
      reads this
    {
      Rotation(store, keys, currentKey)
    }

    /** The queue's invariant: the store is consistent, the capacity is
        positive, and `count` is the number of stored elements, at most
        `capacity`. */
    ghost predicate Valid()
      reads this
    {
      Snapshot().Consistent()
      && 0 < capacity
      && 0 <= count <= capacity
      && count == Snapshot().Size()
    }

    /** An empty queue of the given capacity; `Create` checks the capacity. */
    constructor (capacity: int)
      requires 0 < capacity
      ensures Valid()
      ensures this.capacity == capacity && count == 0
      ensures store == map[] && keys == [] && currentKey == 0
    {
      this.capacity := capacity;
      count := 0;
      store := map[];
      keys := [];
      currentKey := 0;
    }

    /** Moves the cursor one step on, back to 0 when it passes the last key. */
    method IncrementCurrentKey()
      modifies this`currentKey
      ensures currentKey == if old(currentKey) + 1 >= |keys| then 0 else old(currentKey) + 1
      ensures -1 <= old(currentKey) ==> (if keys == [] then currentKey == 0 else 0 <= currentKey < |keys|)
    {
      currentKey := currentKey + 1;
      if currentKey >= |keys| {
        currentKey := 0;
      }
    }

    /** Appends `e` to the values of `key` and lists `key` at the end if it
        is not listed yet. */
    method Insert(key: K, e: E)
      modifies this`store, this`keys
      ensures Snapshot() == old(Snapshot()).Put(key, e)
    {
      store := store[key := Get(store, key) + [e]];
      if key !in keys {
        keys := keys + [key];
      }
    }

    /** Removes and returns the oldest element of the key under the cursor;
        unlists the key if that was its last element (stepping the cursor back
        to make up for the shift), then moves the cursor on. */
    method Extract() returns (x: E)
      requires Snapshot().Consistent() && keys != []
      modifies this`store, this`keys, this`currentKey
      ensures Turn(x, Snapshot()) == old(Snapshot()).Serve()
    {
      ghost var turn := Snapshot().Serve();
      var key := keys[currentKey];
      x := store[key][0];
      var rest := store[key][1..];
      store := if rest == [] then store - {key} else store[key := rest];
      if Get(store, key) == [] {
        assert key !in keys[..currentKey] by {
          RemoveAtNoDups(keys, currentKey);
        }
        RemoveFirstAt(keys, currentKey);
        keys := RemoveFirst(keys, key);
        currentKey := currentKey - 1;
        IncrementCurrentKey();
        assert keys == turn.next.keys && currentKey == turn.next.cursor;
      } else {
        IncrementCurrentKey();
        StepWraps(old(currentKey), |keys|);
      }
    }

    /** Removes and returns the next element in the rotation; throws
        IllegalState, changing nothing, when the queue is empty. */
    method Dequeue() returns (r: Result<E>)
      requires Valid()
      modifies this
      ensures Valid()
      ensures old(count) == 0 ==> r == Err(IllegalState) && unchanged(this)
      ensures old(count) != 0 ==>
        old(keys) != []
        && r.Ok?
        && Turn(r.value, Snapshot()) == old(Snapshot()).Serve()
        && count == old(count) - 1
    {
      if count == 0 {
        return Err(IllegalState);
      }
      SizeZeroIffNoKeys(Snapshot());
      ServeKeepsInvariant(Snapshot());
      var x := Extract();
      count := count - 1;
      r := Ok(x);
    }

    /** Adds `e` under `key`; throws NullPointer for a null element and
        IllegalState when the queue is full, changing nothing in either case. */
    method Enqueue(key: K, e: Option<E>) returns (r: Outcome)
      requires Valid()
      modifies this
      ensures Valid()
      ensures r == if e.None? then Fail(NullPointer)
                   else if old(count) == capacity then Fail(IllegalState)
                   else Pass
      ensures r.Fail? ==> unchanged(this)
      ensures r.Pass? ==> Snapshot() == old(Snapshot()).Put(key, e.value) && count == old(count) + 1
    {
      if e.None? {
        return Fail(NullPointer);
      }
      if count == capacity {
        return Fail(IllegalState);
      }
      PutKeepsInvariant(Snapshot(), key, e.value);
      Insert(key, e.value);
      count := count + 1;
      r := Pass;
    }

    /** Like `Dequeue`, but returns null (`None`) instead of throwing when the
        queue is empty. */
    method Poll() returns (r: Option<E>)
      requires Valid()
      modifies this
      ensures Valid()
      ensures old(count) == 0 ==> r == None && unchanged(this)
      ensures old(count) != 0 ==>
        old(keys) != []
        && r.Some?
        && Turn(r.value, Snapshot()) == old(Snapshot()).Serve()
        && count == old(count) - 1
    {
      var d := Dequeue();
      match d
      case Ok(x) => r := Some(x);
      case Err(_) => r := None;
    }
    /** Removes and returns the next element in the rotation, as `Dequeue`
        does. The source waits while the queue is empty; sequentially, it is
        called only once an element is present. */
    method Take() returns (x: E)
      requires Valid() && count != 0
      modifies this
      ensures Valid()
      ensures old(keys) != []
        && Turn(x, Snapshot()) == old(Snapshot()).Serve()
        && count == old(count) - 1
    {
      var d := Dequeue();
      x := d.value;
    }
  }

  /** Builds a queue; throws IllegalArgument for a capacity that is not positive. */
  method Create<K(==), E>(capacity: int) returns (r: Result<AlternatingMultiqueue<K, E>>)
    ensures r.Err? <==> capacity <= 0
    ensures r.Err? ==> r.error == IllegalArgument
    ensures r.Ok? ==>
      fresh(r.value) && r.value.Valid()
      && r.value.capacity == capacity && r.value.count == 0
      && r.value.Snapshot() == Rotation(map[], [], 0)
  {
    if capacity <= 0 {
      return Err(IllegalArgument);
    }
    var q := new AlternatingMultiqueue(capacity);
    r := Ok(q);
  }
}

# Alternating multiqueue, modelled in Dafny

`AlternatingMultiqueue<K,E>` is a bounded queue that keeps one FIFO
sub-queue per key. Successive dequeues serve keys in turn rather than in
strict global FIFO order: each call takes one element from the next key
that holds elements.

Its state is:

- a fixed capacity and a count of the elements held;
- a multimap from each key to its values, oldest first;
- a linked list of the keys that hold values, in order of arrival;
- a rotation cursor `currentKey` that indexes that list.

`enqueue` appends to the key's values and lists a new key at the end.
`dequeue` takes the head of the key under the cursor. If that was the key's
last value, the key leaves the list and the cursor steps back one. The
cursor then moves on by one, wrapping to 0.
`poll` returns null instead of throwing on an empty queue, and `take` waits until an element is present and then dequeues it.

The model has four files:

- `collections.dfy`, module `Collections`: the multimap and key list the queue uses.
  - Guava's `LinkedListMultimap` becomes `map<K, seq<E>>`. A key with no values has no entry, which is how the multimap behaves once a key's last value is removed. `Get` returns `[]` for such a key.
  - `LinkedList.remove(Object)` becomes `RemoveFirst`, which removes the first occurrence by value.
  - `Total` sums the lengths of the values over the listed keys.
- `round_robin.dfy`, module `RoundRobin`: the store, key list and cursor as one value, `Rotation`, with three pieces around it.
  - Its invariant `Consistent`: a key is listed exactly when it holds values, no key is listed twice, and the cursor is in range (0 when no key is listed).
  - The two transitions, stated directly. `Put` stores one element. `Serve` takes one turn: it removes the served key by index and moves the cursor by the rule "stay on the key that followed, or wrap".
  - Lemmas about those transitions, chief among them `ServeOrder`. It states the fairness of the rotation: one turn moves the served key from the front of the serving order to the back, or drops it if it is exhausted. Every other key keeps its place.
- `alternating_multiqueue.dfy`, module `Javautils`: the class `AlternatingMultiqueue`.
  - Its fields are those of the Java class (`capacity`, `count`, `store`, `keys`, `currentKey`), and `Valid()` is its invariant. `Valid()` requires a consistent store, `0 < capacity`, `0 <= count <= capacity`, and `count` equal to the number of stored elements.
  - Each method follows the Java code step by step. `Extract` removes the key by value, decrements the cursor and then calls `IncrementCurrentKey`.
  - Each method's `ensures` ties the new state to `Put` or `Serve` applied to the old state. Exceptions are values of `Exception`, returned in `Result`/`Outcome`. A null element is `None`, and `poll`'s null result is `None`.
- `alternating_multiqueue_test.dfy`, module `JavautilsTest`: the scenarios of the unit tests, each proved as a client of the class that uses only the class's contracts. The dequeue scenario is also proved turn by turn on `Rotation` values.

## Model

| member | source | states |
|---|---|---|
| `Collections.RemoveFirst` | src/main/java/com/jaydonnell/javautils/AlternatingMultiqueue.java:54 | `keys.remove(key)` removes one entry when the key is listed (the length drops by one) and leaves a list without the key unchanged |
| `Collections.RemoveFirstCount` | src/main/java/com/jaydonnell/javautils/AlternatingMultiqueue.java:54 | what `keys.remove(key)` removes is exactly one occurrence of `key` (multiset difference) |
| `Collections.RemoveFirstAt` | src/main/java/com/jaydonnell/javautils/AlternatingMultiqueue.java:48-55 | removing by value equals removing at index `i` when `i` is the first occurrence; with no duplicates, `keys.remove(key)` for `key == keys.get(currentKey)` removes index `currentKey` |
| `RoundRobin.SizeZeroIffNoKeys` | src/main/java/com/jaydonnell/javautils/AlternatingMultiqueue.java:65-67 | under the invariants, the element count is zero exactly when no key is listed, so `count != 0` guarantees that `keys.get(currentKey)` exists |
| `RoundRobin.PutKeepsInvariant` | src/main/java/com/jaydonnell/javautils/AlternatingMultiqueue.java:41-45 | `insert` keeps every store invariant (no duplicate keys, listed iff non-empty, cursor in range) and adds exactly one element |
| `RoundRobin.PutAppendsToKey` | src/main/java/com/jaydonnell/javautils/AlternatingMultiqueue.java:42 | `insert` puts the element at the tail of its key's values and leaves every other key's values unchanged |
| `RoundRobin.PutOrder` | src/main/java/com/jaydonnell/javautils/AlternatingMultiqueue.java:43-44 | a listed key leaves the serving order unchanged; a new key comes up after the keys from the cursor to the end of the list and before the keys in front of the cursor |
| `RoundRobin.ServeKeepsInvariant` | src/main/java/com/jaydonnell/javautils/AlternatingMultiqueue.java:47-60 | one turn keeps every store invariant and removes exactly one element |
| `RoundRobin.LastElementServed` | src/main/java/com/jaydonnell/javautils/AlternatingMultiqueue.java:53-58 | the turn that empties a key unlists it, leaves no entry for it in the store and keeps the invariants, with one element fewer |
| `RoundRobin.OtherElementServed` | src/main/java/com/jaydonnell/javautils/AlternatingMultiqueue.java:47-49 | a turn that leaves the key non-empty keeps the key list, leaves the key its values minus the head, and keeps the invariants (so the cursor stays in range), with one element fewer |
| `RoundRobin.ServeTakesHead` | src/main/java/com/jaydonnell/javautils/AlternatingMultiqueue.java:48-49 | a turn returns the oldest element of the key under the cursor and removes only that element (FIFO within a key) |
| `RoundRobin.StepWraps` | src/main/java/com/jaydonnell/javautils/AlternatingMultiqueue.java:35-39 | moving on from an index below `n` and wrapping at `n` is a step modulo `n` |
| `RoundRobin.RotateStep` | src/main/java/com/jaydonnell/javautils/AlternatingMultiqueue.java:57-58 | advancing the cursor by one moves the served key from the front of the serving order to its back |
| `RoundRobin.RotateRemoved` | src/main/java/com/jaydonnell/javautils/AlternatingMultiqueue.java:53-58 | after the served key is unlisted, decrementing and then incrementing the cursor leaves the serving order as before, minus that key |
| `RoundRobin.ServeOrder` | src/main/java/com/jaydonnell/javautils/AlternatingMultiqueue.java:47-60 | the fairness of the rotation: after a turn, the serving order is the old order without its head, followed by the served key only if it still holds values |
| `RoundRobin.LastElementOrder` | src/main/java/com/jaydonnell/javautils/AlternatingMultiqueue.java:53-58 | the turn that empties a key takes it out of the serving order; the other keys keep their order, starting with the key that followed it |
| `RoundRobin.OtherElementOrder` | src/main/java/com/jaydonnell/javautils/AlternatingMultiqueue.java:47-58 | the turn that leaves a key non-empty moves that key from the front of the serving order to its back |
| `Javautils.AlternatingMultiqueue.constructor` | src/main/java/com/jaydonnell/javautils/AlternatingMultiqueue.java:14-20 | a new queue is valid and empty: no values, no keys, `count == 0`, `currentKey == 0` |
| `Javautils.Create` | src/main/java/com/jaydonnell/javautils/AlternatingMultiqueue.java:28-33 | a capacity `<= 0` yields IllegalArgument; otherwise the result is a fresh, valid, empty queue with that capacity |
| `Javautils.AlternatingMultiqueue.IncrementCurrentKey` | src/main/java/com/jaydonnell/javautils/AlternatingMultiqueue.java:35-39 | the cursor becomes the next index, or 0 when that passes the end of the key list; starting from `-1` or more, it lands in range |
| `Javautils.AlternatingMultiqueue.Insert` | src/main/java/com/jaydonnell/javautils/AlternatingMultiqueue.java:41-45 | the new store, key list and cursor are `Put(key, e)` of the old ones |
| `Javautils.AlternatingMultiqueue.Extract` | src/main/java/com/jaydonnell/javautils/AlternatingMultiqueue.java:47-60 | the source's steps (remove the head, remove the key by value, decrement, `incrementCurrentKey`) return `Serve()`'s element and leave `Serve()`'s state |
| `Javautils.AlternatingMultiqueue.Dequeue` | src/main/java/com/jaydonnell/javautils/AlternatingMultiqueue.java:62-71 | on an empty queue, IllegalState with nothing changed; otherwise the element and new state of one `Serve()` turn, with `count` one lower; `Valid()` is kept |
| `Javautils.AlternatingMultiqueue.Enqueue` | src/main/java/com/jaydonnell/javautils/AlternatingMultiqueue.java:73-85 | a null element gives NullPointer, checked first; a full queue gives IllegalState; neither changes anything; otherwise the state becomes `Put(key, e)` and `count` rises by one; `Valid()`, and so `count <= capacity`, is kept |
| `Javautils.AlternatingMultiqueue.Poll` | src/main/java/com/jaydonnell/javautils/AlternatingMultiqueue.java:87-96 | on an empty queue, null (`None`) with nothing changed; otherwise exactly what `Dequeue` does, with the element returned |
| `Javautils.AlternatingMultiqueue.Take` | src/main/java/com/jaydonnell/javautils/AlternatingMultiqueue.java:103-120 | once an element is present, `take` is `dequeue`: it returns the element of one `Serve()` turn, leaves its state, lowers `count` by one and keeps `Valid()` |
| `JavautilsTest.FourStoredIsFirst` | src/test/java/com/jaydonnell/javautils/AlternatingMultiqueueTest.java:14-18 | the test's four enqueues leave k1 with `["first", "fourth"]`, k2 with `["second"]`, k3 with `["third"]`, keys `[k1, k2, k3]` and the cursor at 0 |
| `JavautilsTest.FirstTurn` | src/test/java/com/jaydonnell/javautils/AlternatingMultiqueueTest.java:20-21 | the first turn serves "first"; k1 stays listed and the cursor moves to k2 |
| `JavautilsTest.SecondTurn` | src/test/java/com/jaydonnell/javautils/AlternatingMultiqueueTest.java:22-23 | the second turn serves "second"; k2 is unlisted and the cursor lands on k3 |
| `JavautilsTest.ThirdTurn` | src/test/java/com/jaydonnell/javautils/AlternatingMultiqueueTest.java:24-25 | the third turn serves "third"; k3 is unlisted and the cursor wraps to k1 |
| `JavautilsTest.FourthTurn` | src/test/java/com/jaydonnell/javautils/AlternatingMultiqueueTest.java:26-27 | the fourth turn serves "fourth" and leaves no key listed |
| `JavautilsTest.AlternatingDequeue` | src/test/java/com/jaydonnell/javautils/AlternatingMultiqueueTest.java:11-28 | on a queue of capacity 10, the enqueues (k1,"first"), (k1,"fourth"), (k2,"second"), (k3,"third") followed by four dequeues return "first", "second", "third", "fourth" |
| `JavautilsTest.AlternatingPoll` | src/test/java/com/jaydonnell/javautils/AlternatingMultiqueueTest.java:30-40 | after one enqueue of "first", the first poll returns it and the second returns null |
| `JavautilsTest.AlternatingTake` | src/test/java/com/jaydonnell/javautils/AlternatingMultiqueueTest.java:42-67 | on a queue of capacity 10, enqueue (k1,"first"), take, enqueue (k2,"second"), take return "first" then "second" |

## Left out

- `Javautils.AlternatingMultiqueue.Take` requires `count != 0`. On an empty queue `take()` waits on a `Condition` until another thread enqueues, which is concurrency and is not modelled. `signalNotEmpty()` and the locks are not modelled either. The `testAlternatingTake` test calls its `EnqThread`'s `run()` directly, so no second thread starts and it is modelled as `AlternatingTake`.
- The class is modelled sequentially. `synchronized`, the atomicity of the `AtomicInteger` count, and the `InterruptedException` that the signatures declare but the sequential code never throws are not modelled.
- Java's 32-bit `int` is modelled as an unbounded `int`. Nothing can wrap: `count` stays within `0..capacity` and `currentKey` within `-1..|keys|`.
- The internals of `LinkedListMultimap` and `LinkedList` are left out. The model keeps only what the queue uses: `put`, `get(k).remove(0)`, `get(k).isEmpty()`, `contains`, `add`, `get(i)` and `remove(Object)`.
- `Javautils.AlternatingMultiqueue.constructor` requires `0 < capacity`. The Java constructor's `IllegalArgumentException` check is modelled by `Create`, the only caller.
- `Javautils.AlternatingMultiqueue.Insert` and `Javautils.AlternatingMultiqueue.Extract` are private helpers. Their contracts say what they do to the store. `count` is maintained by their callers `Enqueue` and `Dequeue`, as in the source.
- The class's public operations are `enqueue`, `dequeue`, `poll` and `take`; each is modelled, `take` as described above.
- A full queue makes `enqueue` throw IllegalStateException, and a null element makes it throw NullPointerException, checked first.
- The cursor wraps to 0 when it reaches the list's length. On every reachable state this is a step modulo `|keys|`, as `StepWraps` shows; `Serve` states it in the modulo form.

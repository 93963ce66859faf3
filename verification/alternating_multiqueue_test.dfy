/**
 * The sequential scenarios of the queue's unit tests: first on the store's
 * value, then as clients of the queue that get the outcome from the queue's
 * contracts alone.
 */
module JavautilsTest {
  import opened Collections
  import opened RoundRobin
  import opened Javautils

  /** The store after storing "first" and "fourth" under k1, "second" under k2
      and "third" under k3, in that order. */
  function FourStored(): Rotation<string, string> {
    Rotation(map[], [], 0).Put("k1", "first").Put("k1", "fourth").Put("k2", "second").Put("k3", "third")
  }

  /** The states the four turns pass through. */
  function Before(turn: nat): Rotation<string, string> {
    if turn == 0 then
      Rotation(map["k1" := ["first", "fourth"], "k2" := ["second"], "k3" := ["third"]], ["k1", "k2", "k3"], 0)
    else if turn == 1 then
      Rotation(map["k1" := ["fourth"], "k2" := ["second"], "k3" := ["third"]], ["k1", "k2", "k3"], 1)
    else if turn == 2 then
      Rotation(map["k1" := ["fourth"], "k3" := ["third"]], ["k1", "k3"], 1)
    else if turn == 3 then
      Rotation(map["k1" := ["fourth"]], ["k1"], 0)
    else
      Rotation(map[], [], 0)
  }

  /** The three keys are distinct strings. */
  lemma KeysDiffer()
    ensures "k1" != "k2" && "k1" != "k3" && "k2" != "k3"
  {
    assert "k1"[1] != "k2"[1] && "k1"[1] != "k3"[1] && "k2"[1] != "k3"[1];
  }

  /** Storing under a key that holds nothing starts its values and lists it last. */
  lemma PutNewKey(r: Rotation<string, string>, k: string, e: string)
    requires k !in r.store && k !in r.keys
    ensures r.Put(k, e) == Rotation(r.store[k := [e]], r.keys + [k], r.cursor)
  {
    assert Get(r.store, k) + [e] == [e];
  }

  /** Storing under a listed key extends its values and keeps the list. */
  lemma PutListedKey(r: Rotation<string, string>, k: string, e: string)
    requires k in r.store && k in r.keys
    ensures r.Put(k, e) == Rotation(r.store[k := r.store[k] + [e]], r.keys, r.cursor)
  {
  }

  /** The four stores leave the queue in the first of those states. */
  lemma FourStoredIsFirst()
    ensures FourStored() == Before(0)
  {
    KeysDiffer();
    var r0: Rotation<string, string> := Rotation(map[], [], 0);
    PutNewKey(r0, "k1", "first");
    var r1 := r0.Put("k1", "first");
    assert r1 == Rotation(map["k1" := ["first"]], ["k1"], 0);
    PutListedKey(r1, "k1", "fourth");
    var r2 := r1.Put("k1", "fourth");
    assert ["first"] + ["fourth"] == ["first", "fourth"];
    assert r2 == Rotation(map["k1" := ["first", "fourth"]], ["k1"], 0);
    PutNewKey(r2, "k2", "second");
    var r3 := r2.Put("k2", "second");
    assert r3 == Rotation(map["k1" := ["first", "fourth"], "k2" := ["second"]], ["k1", "k2"], 0);
    PutNewKey(r3, "k3", "third");
  }

  /** "first" is served; k1 keeps a value and the cursor moves to k2. */
  lemma FirstTurn()
    ensures Before(0).Consistent() && Before(0).keys != []
    ensures Before(0).Serve() == Turn("first", Before(1))
  {
    KeysDiffer();
  }

  /** "second" is served; k2 runs out and the cursor stays on k3, which followed it. */
  lemma SecondTurn()
    ensures Before(1).Consistent() && Before(1).keys != []
    ensures Before(1).Serve() == Turn("second", Before(2))
  {
    KeysDiffer();
    assert ["k1", "k2", "k3"][..1] + ["k1", "k2", "k3"][2..] == ["k1", "k3"];
  }

  /** "third" is served; k3, the last key, runs out and the cursor wraps to k1. */
  lemma ThirdTurn()
    ensures Before(2).Consistent() && Before(2).keys != []
    ensures Before(2).Serve() == Turn("third", Before(3))
  {
    KeysDiffer();
    assert ["k1", "k3"][..1] + ["k1", "k3"][2..] == ["k1"];
  }

  /** "fourth" is served and no key is left. */
  lemma FourthTurn()
    ensures Before(3).Consistent() && Before(3).keys != []
    ensures Before(3).Serve() == Turn("fourth", Before(4))
  {
    assert ["k1"][..0] + ["k1"][1..] == [];
  }

  /** The element each of the four turns serves. */
  function Served(turn: nat): string
    requires turn < 4
  {
    ["first", "second", "third", "fourth"][turn]
  }

  /** Each of the four turns serves `Served(turn)` and leads to the next state. */
  lemma TurnServes(turn: nat)
    requires turn < 4
    ensures Before(turn).Consistent() && Before(turn).keys != []
    ensures Before(turn).Serve() == Turn(Served(turn), Before(turn + 1))
  {
    if turn == 0 {
      FirstTurn();
    } else if turn == 1 {
      SecondTurn();
    } else if turn == 2 {
      ThirdTurn();
    } else {
      FourthTurn();
    }
  }

  /** One dequeue on a queue in state `Before(turn)` serves `Served(turn)`
      and leaves the queue in state `Before(turn + 1)`. */
  method DequeueTurn(queue: AlternatingMultiqueue<string, string>, turn: nat) returns (x: string)
    requires turn < 4
    requires queue.Valid() && queue.Snapshot() == Before(turn) && queue.count == 4 - turn
    modifies queue
    ensures queue.Valid() && queue.Snapshot() == Before(turn + 1) && queue.count == 3 - turn
    ensures x == Served(turn)
  {
    TurnServes(turn);
    var r := queue.Dequeue();
    x := r.value;
  }

  /** A queue of capacity 10 after the test's four enqueues. */
  method FourEnqueued() returns (queue: AlternatingMultiqueue<string, string>)
    ensures fresh(queue) && queue.Valid()
    ensures queue.Snapshot() == Before(0) && queue.count == 4
  {
    var created := Create<string, string>(10);
    queue := created.value;
    ghost var s := Rotation(map[], [], 0);
    var e1 := queue.Enqueue("k1", Some("first"));
    assert queue.Snapshot() == s.Put("k1", "first") && queue.count == 1;
    var e2 := queue.Enqueue("k1", Some("fourth"));
    assert queue.Snapshot() == s.Put("k1", "first").Put("k1", "fourth") && queue.count == 2;
    var e3 := queue.Enqueue("k2", Some("second"));
    assert queue.Snapshot() == s.Put("k1", "first").Put("k1", "fourth").Put("k2", "second") && queue.count == 3;
    var e4 := queue.Enqueue("k3", Some("third"));
    assert queue.Snapshot() == FourStored();
    FourStoredIsFirst();
  }

  /** Two elements under k1, then one each under k2 and k3: the dequeues
      alternate between the keys, so the second element of k1 comes last. */
  method AlternatingDequeue() returns (out: seq<string>)
    ensures out == ["first", "second", "third", "fourth"]
  {
    var queue := FourEnqueued();
    var o1 := DequeueTurn(queue, 0);
    var o2 := DequeueTurn(queue, 1);
    var o3 := DequeueTurn(queue, 2);
    var o4 := DequeueTurn(queue, 3);
    out := [o1, o2, o3, o4];
  }

  /** One element under k1: the first poll returns it, the second finds the
      queue empty and returns null. */
  method AlternatingPoll() returns (first: Option<string>, second: Option<string>)
    ensures first == Some("first") && second == None
  {
    var created := Create<string, string>(10);
    var queue := created.value;
    var e := queue.Enqueue("k1", Some("first"));
    assert queue.Snapshot() == Rotation(map[], [], 0).Put("k1", "first");
    first := queue.Poll();
    second := queue.Poll();
  }

  /** One element under k1 is taken; then one under k2 arrives and is taken.
      The second enqueue runs on the test's own thread, so the scenario is
      sequential and each take finds an element present. */
  method AlternatingTake() returns (first: string, second: string)
    ensures first == "first" && second == "second"
  {
    var created := Create<string, string>(10);
    var queue := created.value;
    var empty := Rotation(map[], [], 0);
    var e1 := queue.Enqueue("k1", Some("first"));
    assert queue.Snapshot() == empty.Put("k1", "first");
    first := queue.Take();
    assert queue.Snapshot() == empty;
    var e2 := queue.Enqueue("k2", Some("second"));
    assert queue.Snapshot() == empty.Put("k2", "second");
    second := queue.Take();
  }
}

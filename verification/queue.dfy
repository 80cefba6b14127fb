/** The FIFO staging queue (`Fila`): a sequence whose head is the next item out. */
module Queue {
  import opened Wrappers

  datatype Queue<T> = Queue(items: seq<T>)

  /** A queue with nothing in it, as built by the constructor. */
  function Empty<T>(): (q: Queue<T>)
    ensures Length(q) == 0
  {
    Queue([])
  }

  /** Number of queued items. */
  function Length<T>(q: Queue<T>): nat {
    |q.items|
  }

  /** True when nothing is queued. */
  predicate IsEmpty<T>(q: Queue<T>)
    ensures IsEmpty(q) <==> Length(q) == 0
  {
    q.items == []
  }

  /** Adds `x` at the tail. */
  function Enqueue<T>(q: Queue<T>, x: T): (r: Queue<T>)
    ensures Length(r) == Length(q) + 1
    ensures r.items[..Length(q)] == q.items
    ensures r.items[Length(q)] == x
  {
    Queue(q.items + [x])
  }

  /** Removes the head. On an empty queue the source raises an error, modelled as None. */
  function Dequeue<T>(q: Queue<T>): (r: Option<(T, Queue<T>)>)
    ensures r.None? <==> IsEmpty(q)
    ensures r.Some? ==> Length(r.value.1) == Length(q) - 1
    ensures r.Some? ==> [r.value.0] + r.value.1.items == q.items
  {
    if IsEmpty(q) then None else Some((q.items[0], Queue(q.items[1..])))
  }

  /** Enqueues every element of `xs`, front to back. */
  function EnqueueAll<T>(q: Queue<T>, xs: seq<T>): Queue<T>
    decreases |xs|
  {
    if |xs| == 0 then q else EnqueueAll(Enqueue(q, xs[0]), xs[1..])
  }

  /** Dequeues until empty, collecting the items in the order they came out. */
  function DrainAll<T>(q: Queue<T>): seq<T>
    decreases Length(q)
  {
    match Dequeue(q)
    case None => []
    case Some((x, rest)) => [x] + DrainAll(rest)
  }

  lemma {:induction false} EnqueueAllAppends<T>(q: Queue<T>, xs: seq<T>)
    ensures EnqueueAll(q, xs).items == q.items + xs
    decreases |xs|
  {
    if |xs| > 0 {
      EnqueueAllAppends(Enqueue(q, xs[0]), xs[1..]);
      assert Enqueue(q, xs[0]).items == q.items + [xs[0]];
      assert [xs[0]] + xs[1..] == xs;
    }
  }

  lemma {:induction false} DrainAllYieldsItems<T>(q: Queue<T>)
    ensures DrainAll(q) == q.items
    decreases Length(q)
  {
    match Dequeue(q)
    case None =>
    case Some((x, rest)) => DrainAllYieldsItems(rest);
  }

  /** `len` counts exactly the items a full drain hands out. */
  lemma LengthIsDrainCount<T>(q: Queue<T>)
    ensures Length(q) == |DrainAll(q)|
  {
    DrainAllYieldsItems(q);
  }

  /** FIFO: whatever is enqueued into an empty queue comes back out in the same order. */
  lemma {:induction false} Fifo<T>(xs: seq<T>)
    ensures DrainAll(EnqueueAll(Empty<T>(), xs)) == xs
  {
    EnqueueAllAppends(Empty<T>(), xs);
    DrainAllYieldsItems(EnqueueAll(Empty<T>(), xs));
  }
}

/**
  The bounded ring buffer of thread_pool: the fields work_queue, queue_size_, curr_, tail_ and
  work_count, the two critical sections that move them, and their refinement to a FIFO sequence.
 */
module TaskRing {
  import opened Basics

  datatype Ring = Ring(slots: seq<Task>, size: int, curr: int, tail: int, count: int)

  /** The fields as the constructor leaves them, before create. */
  const NO_RING := Ring([], 0, 0, 0, 0)

  /** The fields as create leaves them. */
  function NewRing(queueSize: int): Ring {
    var n := CoerceIn(queueSize, MIN_QUEUE, MAX_QUEUE);
    Ring(seq(n, _ => NULL_TASK), n, 0, 0, 0)
  }

  /** The indices that submit and thread_routine use are in bounds and the divisor is not zero. */
  predicate Addressable(r: Ring) {
    r.size != 0 && 0 <= r.curr < |r.slots| && 0 <= r.tail < |r.slots|
  }

  /** What submit does to the ring once its tests have passed. */
  function Enqueue(r: Ring, task: Task): Ring
    requires Addressable(r)
  {
    var next := (r.tail + 1) % r.size;
    r.(slots := r.slots[r.tail := task], tail := next, count := r.count + 1)
  }

  /** The task that thread_routine copies out. */
  function Head(r: Ring): Task
    requires Addressable(r)
  {
    r.slots[r.curr]
  }

  /** What thread_routine does to the ring when it takes a task. */
  function Dequeue(r: Ring): Ring
    requires Addressable(r)
  {
    r.(slots := r.slots[r.curr := NULL_TASK], curr := (r.curr + 1) % r.size, count := r.count - 1)
  }

  /** The result code of submit, in the order of its tests. */
  function SubmitVerdict(r: Ring, shutdown: bool): int {
    if r.count == r.size then THREADPOOL_QUEUE_FULL
    else if shutdown then THREADPOOL_SHUTDOWN
    else THREADPOOL_OK
  }

  /** The index of the slot that is i places after curr_, going round at the end of the buffer. */
  function Place(r: Ring, i: int): int {
    if r.curr + i < r.size then r.curr + i else r.curr + i - r.size
  }

  /**
    The invariant of the ring. Before create every field is zero; afterwards the indices are in
    range, tail_ is determined by curr_ and work_count, and every slot outside the live window has
    been cleared.
   */
  ghost predicate Valid(r: Ring) {
    || r == NO_RING
    || (&& MIN_QUEUE <= r.size <= MAX_QUEUE
        && |r.slots| == r.size
        && 0 <= r.curr < r.size
        && 0 <= r.count <= r.size
        && r.tail == Place(r, r.count)
        && forall i :: r.count <= i < r.size ==> r.slots[Place(r, i)] == NULL_TASK)
  }

  /** The queued tasks, oldest first. */
  ghost function Contents(r: Ring): (c: seq<Task>)
    requires Valid(r)
    ensures |c| == r.count
  {
    seq(r.count, i requires 0 <= i < r.count => r.slots[Place(r, i)])
  }

  /** Places are what the remainder by queue_size_ gives: in particular tail_ is (curr_ + work_count) % queue_size_. */
  lemma PlaceIsRemainder(r: Ring, i: int)
    requires 0 <= r.curr < r.size && 0 <= i <= r.size
    ensures Place(r, i) == (r.curr + i) % r.size
  {
    Wraps(r.curr + i, r.size);
  }

  lemma Wraps(x: int, n: int)
    requires n > 0 && 0 <= x < 2 * n
    ensures x % n == if x < n then x else x - n
  {
    if x < n {
      DivisionUnique(x, n, 0, x);
    } else {
      DivisionUnique(x, n, 1, x - n);
    }
  }

  lemma DivisionUnique(x: int, n: int, q: int, r: int)
    requires n > 0 && 0 <= r < n && x == q * n + r
    ensures x % n == r
  {
    var k := x / n - q;
    assert k * n + (x % n - r) == 0;
  }

  /** A created ring is valid and empty, and has as many slots as requested, as far as the bounds allow. */
  lemma NewRingIsEmpty(queueSize: int)
    ensures Valid(NewRing(queueSize)) && Contents(NewRing(queueSize)) == []
    ensures Nearest(NewRing(queueSize).size, queueSize, 1024, 65535)
    ensures |NewRing(queueSize).slots| == NewRing(queueSize).size
  {
    CoerceInIsClamp(queueSize, MIN_QUEUE, MAX_QUEUE);
  }

  /**
    Totality: whenever submit's full test lets it pass, the indices and the divisor it goes on to
    use are good. This includes the state before create, where the test reads 0 == 0. The same goes
    for thread_routine once it has seen a task.
   */
  lemma NotFullIsAddressable(r: Ring)
    requires Valid(r) && (r.count != r.size || r.count > 0)
    ensures Addressable(r)
  {
  }

  /** submit appends at the end of the queue, wherever the window lies in the buffer. */
  lemma EnqueueAppends(r: Ring, task: Task)
    requires Valid(r) && r.count != r.size
    ensures Addressable(r)
    ensures Valid(Enqueue(r, task))
    ensures Contents(Enqueue(r, task)) == Contents(r) + [task]
  {
    Wraps(r.tail + 1, r.size);
    var q := Enqueue(r, task);
    assert Place(q, r.count) == r.tail;
    forall i | 0 <= i < r.size && i != r.count ensures q.slots[Place(q, i)] == r.slots[Place(r, i)] {
      assert Place(q, i) != r.tail;
    }
  }

  /** Taking a task removes the head of the queue and clears its slot. */
  lemma DequeueRemovesHead(r: Ring)
    requires Valid(r) && r.count > 0
    ensures Addressable(r)
    ensures Valid(Dequeue(r))
    ensures Contents(r) == [Head(r)] + Contents(Dequeue(r))
  {
    Wraps(r.curr + 1, r.size);
    var q := Dequeue(r);
    assert Place(r, 0) == r.curr && Place(q, r.size - 1) == r.curr;
    forall i | 0 <= i < r.size - 1 ensures q.slots[Place(q, i)] == r.slots[Place(r, i + 1)] {
      assert Place(q, i) == Place(r, i + 1) != r.curr;
    }
  }
}

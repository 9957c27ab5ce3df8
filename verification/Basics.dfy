/**
  Constants, the coercion macro and the small datatypes that every component shares.
 */
module Basics {

  datatype Option<+T> = None | Some(value: T)

  // Result codes of the thread pool (thread_pool.h); 0 is success.
  const THREADPOOL_OK := 0
  const THREADPOOL_QUEUE_FULL := -3
  const THREADPOOL_SHUTDOWN := -4

  const MAX_THREADS := 1024
  const MAX_QUEUE := 65535
  const MIN_QUEUE := 1024
  const DEFAULT_QUEUE := 2048
  const SERVER_MAX_CONNECTION := 2048

  /** The macro COERCE_IN, branch by branch: note that nothing makes the low bound the smaller one. */
  function CoerceIn(a: int, l: int, r: int): int {
    if a < l then l else if a > r then r else a
  }

  /** The point of [l, r] nearest to a. */
  ghost predicate Nearest(p: int, a: int, l: int, r: int) {
    l <= p <= r && forall x :: l <= x <= r && x != p ==> Distance(a, p) < Distance(a, x)
  }

  /** With ordered bounds the macro is a clamp. */
  lemma CoerceInIsClamp(a: int, l: int, r: int)
    requires l <= r
    ensures Nearest(CoerceIn(a, l, r), a, l, r)
  {
  }

  function Distance(x: int, y: int): nat {
    if x < y then y - x else x - y
  }

  /** A connection as it travels through the server: its descriptor and the peer's port. */
  datatype ClientInfo = ClientInfo(fd: int, port: int)

  /** A function object: the hand-off closure of tcp_worker_pool::submit, or any other routine. */
  datatype Fun = HandOff(info: ClientInfo) | Routine(id: int)

  /** A slot of the work queue; a missing function or argument is a null one. */
  datatype Task = Task(fun: Option<Fun>, args: Option<int>)

  const NULL_TASK := Task(None, None)

  datatype ShutdownMode = Immediate | Graceful
}

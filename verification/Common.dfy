/** Vocabulary shared by the models: optional values, exceptions as values, and
    a few facts about maps and sequences. */
module Common {

  datatype Option<+T> = None | Some(value: T)

  /** The exception classes the services tell apart. `Cancelled` is the task
      cancellation of the event loop; `Other` is every remaining exception. */
  datatype ErrorKind = Recoverable | Fatal | AmbiguousDelivery | Cancelled | Other

  datatype Error = Error(kind: ErrorKind, message: string)

  /** A call that either returned or raised. */
  datatype Result<+T> = Ok(value: T) | Raised(error: Error) {
    predicate IsFailure() {
      Raised?
    }

    function PropagateFailure<U>(): Result<U>
      requires Raised?
    {
      Raised(error)
    }

    function Extract(): T
      requires Ok?
    {
      value
    }
  }

  /** What can end an awaited repository call besides its own return. */
  predicate IsInterruption(e: Error) {
    e.kind == Cancelled || e.kind == Other
  }

  /** One suspension point: the event loop resumes the task, cancels it, or the
      backend fails. Nothing is known about which. */
  method Suspend() returns (interruption: Option<Error>)
    ensures interruption.Some? ==> IsInterruption(interruption.value)
  {
    var e: Error := *;
    interruption := if IsInterruption(e) then Some(e) else None;
  }

  /** The same, for an awaited call that returns nothing of interest. */
  method Pause() returns (r: Result<()>)
    ensures r.Raised? ==> IsInterruption(r.error)
  {
    var interruption := Suspend();
    r := if interruption.Some? then Raised(interruption.value) else Ok(());
  }

  /** What was appended to the log `before` to reach `after`. */
  function Since<T(==)>(before: seq<T>, after: seq<T>): seq<T> {
    if |before| <= |after| then after[|before|..] else []
  }

  lemma SinceSplits<T>(a: seq<T>, b: seq<T>, c: seq<T>)
    requires a <= b <= c
    ensures a <= c && Since(a, c) == Since(a, b) + Since(b, c)
  {
  }

  function Find<K, V>(m: map<K, V>, k: K): Option<V> {
    if k in m then Some(m[k]) else None
  }

  /** `after` differs from `before` at most at key `k`. */
  ghost predicate OnlyAt<K(!new), V>(before: map<K, V>, after: map<K, V>, k: K) {
    forall j :: j != k ==> Find(after, j) == Find(before, j)
  }
}

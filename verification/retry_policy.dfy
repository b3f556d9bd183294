/** The driver retry policy installed for every statement the storage layer
    issues (RetryPolicyImpl). The class is duplicated verbatim in
    CassandraStorage.java and CassandraStorageFacade.java; it is modelled once.
    Each callback is a pure decision; the 100 ms pause on read timeouts is
    returned as a value instead of being slept. */
module RetryPolicy {
  import opened Types

  datatype ConsistencyLevel =
    | Any | One | Two | Three | Quorum | All
    | LocalQuorum | EachQuorum | Serial | LocalSerial | LocalOne

  datatype WriteType = Simple | Batch | UnloggedBatch | Counter | BatchLog | Cas | View | Cdc

  /** A driver statement; `idempotent` is the nullable Boolean `isIdempotent()`. */
  datatype Statement = Statement(idempotent: Option<bool>)

  datatype DriverException = DriverException(message: string)

  /** RetryPolicy.RetryDecision: retry (at a consistency level), rethrow, ignore,
      or try the next host. */
  datatype RetryDecision =
    | Retry(cl: ConsistencyLevel)
    | Rethrow
    | Ignore
    | TryNextHost(cl: ConsistencyLevel)

  /** DefaultRetryPolicy.INSTANCE: a foreign policy, known only through its
      four callbacks. */
  datatype DefaultRetryPolicy = DefaultRetryPolicy(
    onReadTimeout: (Option<Statement>, ConsistencyLevel, int, int, bool, int) -> RetryDecision,
    onWriteTimeout: (Option<Statement>, ConsistencyLevel, WriteType, int, int, int) -> RetryDecision,
    onUnavailable: (Option<Statement>, ConsistencyLevel, int, int, int) -> RetryDecision,
    onRequestError: (Option<Statement>, ConsistencyLevel, DriverException, int) -> RetryDecision)

  /** The decision taken on a read timeout together with the pause taken first. */
  datatype ReadTimeoutOutcome = ReadTimeoutOutcome(sleptMillis: nat, decision: RetryDecision)

  /** The statement is present and not explicitly marked non-idempotent
      (a null idempotence flag counts as idempotent). */
  predicate Retryable(stmt: Option<Statement>)
  {
    stmt.Some? && stmt.value.idempotent != Some(false)
  }

  const MaxReadRetries: int := 10
  const ReadRetryPauseMillis: nat := 100

  function OnReadTimeout(
    dflt: DefaultRetryPolicy, stmt: Option<Statement>, cl: ConsistencyLevel,
    required: int, received: int, retrieved: bool, retry: int): (r: ReadTimeoutOutcome)
    ensures r.sleptMillis > 0 <==> retry > 1
    ensures Retryable(stmt) ==> (r.decision == Retry(cl) <==> retry < MaxReadRetries)
    ensures Retryable(stmt) ==> (r.decision == Rethrow <==> retry >= MaxReadRetries)
    ensures !Retryable(stmt) ==>
      r.decision == dflt.onReadTimeout(stmt, cl, required, received, retrieved, retry)
  {
    var slept := if retry > 1 then ReadRetryPauseMillis else 0;
    ReadTimeoutOutcome(
      slept,
      if Retryable(stmt) then
        (if retry < MaxReadRetries then Retry(cl) else Rethrow)
      else dflt.onReadTimeout(stmt, cl, required, received, retrieved, retry))
  }

  function OnWriteTimeout(
    dflt: DefaultRetryPolicy, stmt: Option<Statement>, cl: ConsistencyLevel, writeType: WriteType,
    required: int, received: int, retry: int): (r: Result<RetryDecision>)
    ensures r.Failure? <==> writeType == Cas && cl != Serial
    ensures r.Failure? ==> r.error == IllegalState
    ensures r.Success? && Retryable(stmt) ==> r.value == Retry(cl)
    ensures r.Success? && !Retryable(stmt) ==>
      r.value == dflt.onWriteTimeout(stmt, cl, writeType, required, received, retry)
  {
    if !(writeType != Cas || cl == Serial) then Failure(IllegalState)
    else if Retryable(stmt) then Success(Retry(cl))
    else Success(dflt.onWriteTimeout(stmt, cl, writeType, required, received, retry))
  }

  function OnUnavailable(
    dflt: DefaultRetryPolicy, stmt: Option<Statement>, cl: ConsistencyLevel,
    required: int, aliveReplica: int, retry: int): (r: RetryDecision)
    ensures retry != 1 ==> r == dflt.onUnavailable(stmt, cl, required, aliveReplica, retry)
    ensures retry == 1 ==> r == dflt.onUnavailable(stmt, cl, required, aliveReplica, 0)
  {
    dflt.onUnavailable(stmt, cl, required, aliveReplica, if retry == 1 then 0 else retry)
  }

  function OnRequestError(
    dflt: DefaultRetryPolicy, stmt: Option<Statement>, cl: ConsistencyLevel,
    ex: DriverException, nbRetry: int): (r: RetryDecision)
    ensures r == dflt.onRequestError(stmt, cl, ex, nbRetry)
  {
    dflt.onRequestError(stmt, cl, ex, nbRetry)
  }

  /** How many further read retries the policy grants to a retryable statement
      whose timeouts keep coming, starting from retry count `retry`. */
  function ReadRetriesLeft(
    dflt: DefaultRetryPolicy, stmt: Option<Statement>, cl: ConsistencyLevel, retry: int): (n: nat)
    requires Retryable(stmt)
    ensures n == if retry < MaxReadRetries then MaxReadRetries - retry else 0
    decreases MaxReadRetries - retry
  {
    if OnReadTimeout(dflt, stmt, cl, 0, 0, false, retry).decision.Retry? then
      1 + ReadRetriesLeft(dflt, stmt, cl, retry + 1)
    else 0
  }

  /** The total pause, in milliseconds, spent by the read-timeout callback from
      retry count `retry` until the policy gives up. */
  function ReadPauseUntilRethrow(
    dflt: DefaultRetryPolicy, stmt: Option<Statement>, cl: ConsistencyLevel, retry: int): (ms: nat)
    requires Retryable(stmt)
    decreases MaxReadRetries - retry
  {
    var o := OnReadTimeout(dflt, stmt, cl, 0, 0, false, retry);
    if o.decision.Retry? then o.sleptMillis + ReadPauseUntilRethrow(dflt, stmt, cl, retry + 1)
    else o.sleptMillis
  }

  /** A fresh retryable read is retried exactly ten times and then rethrown.
      The callback pauses 100 ms at each retry count from 2 to 10, the last
      pause coming before the rethrow: 900 ms in all. */
  lemma {:induction false} ReadRetriesFromZero(
    dflt: DefaultRetryPolicy, stmt: Option<Statement>, cl: ConsistencyLevel)
    requires Retryable(stmt)
    ensures ReadRetriesLeft(dflt, stmt, cl, 0) == 10
    ensures ReadPauseUntilRethrow(dflt, stmt, cl, 0) == 900
  {
    ReadPauseFrom(dflt, stmt, cl, 0);
  }

  lemma {:induction false} ReadPauseFrom(
    dflt: DefaultRetryPolicy, stmt: Option<Statement>, cl: ConsistencyLevel, retry: int)
    requires Retryable(stmt)
    requires 0 <= retry <= MaxReadRetries
    ensures ReadPauseUntilRethrow(dflt, stmt, cl, retry)
      == ReadRetryPauseMillis * (MaxReadRetries + 1 - (if retry < 2 then 2 else retry))
    decreases MaxReadRetries - retry
  {
    if retry < MaxReadRetries {
      ReadPauseFrom(dflt, stmt, cl, retry + 1);
    }
  }

  /** Write timeouts on retryable statements are never given up on: every
      retry count yields another retry at the same consistency level, unless a
      CAS write arrives at a non-serial level, which fails fast. */
  lemma WritesRetryForever(
    dflt: DefaultRetryPolicy, stmt: Option<Statement>, cl: ConsistencyLevel, writeType: WriteType,
    required: int, received: int)
    requires Retryable(stmt)
    requires writeType != Cas || cl == Serial
    ensures forall retry: int ::
      OnWriteTimeout(dflt, stmt, cl, writeType, required, received, retry) == Success(Retry(cl))
  {
  }

  /** The first two unavailable events get the same decision from the default
      policy: the counter is normalised so that retry 1 counts as attempt zero. */
  lemma UnavailableFirstRetryIsAttemptZero(
    dflt: DefaultRetryPolicy, stmt: Option<Statement>, cl: ConsistencyLevel,
    required: int, aliveReplica: int)
    ensures OnUnavailable(dflt, stmt, cl, required, aliveReplica, 1)
         == OnUnavailable(dflt, stmt, cl, required, aliveReplica, 0)
  {
  }
}

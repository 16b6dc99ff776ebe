/** The job worker: it consumes job deliveries, hands each to the message
    bus, and on failure either republishes the message for a later retry or
    reports it as a failed job; it acknowledges every delivery whose job it
    can resolve. */
module JobWorker {
  import opened Values
  import opened Messaging

  /** A job definition's retry strategy, consulted with the delivered envelope. */
  datatype Strategy = Strategy(canRetry: Envelope -> bool, retryInterval: Envelope -> int)

  /** The job definitions, by the name a delivery's `job` metadata carries. */
  type JobDefinitions = map<string, Strategy>

  /** The message of the exception `execute` throws before dispatching. */
  const TestError := "test"

  /** The channel failed jobs are reported on. */
  const FailureChannel := "logging"

  /** `run`: consume the queue named by the `queue` parameter. */
  function Run(parameters: Metadata): (r: Result<Consumer, AssertionFailure>)
    ensures r.Ok? <==> !IsBlank(Lookup(parameters, "queue"))
    ensures r.Ok? ==> r.value.queue == parameters["queue"]
  {
    StartConsuming(Lookup(parameters, "queue"))
  }

  /** The definition of the job a delivery names; an unknown job raises. */
  function JobOf(jobs: JobDefinitions, md: Metadata): (r: Result<Strategy, Failure>)
    ensures r.Ok? <==> Lookup(md, "job").Str? && Lookup(md, "job").s in jobs
    ensures r.Ok? ==> r.value == jobs[Lookup(md, "job").s]
    ensures r.Err? ==> r.error == UnknownJob(Lookup(md, "job"))
  {
    var job := Lookup(md, "job");
    if job.Str? && job.s in jobs then Ok(jobs[job.s]) else Err(UnknownJob(job))
  }

  /** PHP's `++` on the values modelled here: null becomes 1, an integer
      grows by one, anything else is left as it is. */
  function Increment(v: Value): (r: Value)
    ensures v.Int? ==> r == Int(v.i + 1)
    ensures v.Null? ==> r == Int(1)
    ensures !v.Int? && !v.Null? ==> r == v
  {
    match v
    case Null => Int(1)
    case Int(n) => Int(n + 1)
    case _ => v
  }

  /** `after` agrees with `before` on every key outside `keys`. */
  ghost predicate KeepsAllBut(before: Metadata, after: Metadata, keys: set<string>) {
    forall k :: k !in keys ==> (k in after <==> k in before) && (k in before ==> after[k] == before[k])
  }

  /** `retry`: republish the bare message on the channel the metadata names,
      counting the attempt and asking for the strategy's delay. */
  function Retry(s: Strategy, env: Envelope): Publish {
    var md := env.metadata
      ["_retries" := Increment(Get(env.metadata, "_retries", Int(0)))]
      ["_expiration" := Int(s.retryInterval(env))];
    Publish(env.message, Get(md, "_channel", Null), md)
  }

  /** `fail`: report the message as a failed job on the logging channel,
      with the error's message in the metadata. */
  function Fail(env: Envelope, error: string): Publish {
    Publish(JobFailed(env.message), Str(FailureChannel), env.metadata["_error_message" := Str(error)])
  }

  /** The catch block of `execute`: exactly one publish, a retry when the
      strategy allows one and a failure report otherwise. */
  function Recover(s: Strategy, env: Envelope, error: string): (p: Publish)
    ensures s.canRetry(env) ==>
      && p.message == env.message
      && p.channel == Lookup(env.metadata, "_channel")
      && "_retries" in p.metadata
      && (Get(env.metadata, "_retries", Int(0)).Int? ==>
            p.metadata["_retries"] == Int(Get(env.metadata, "_retries", Int(0)).i + 1))
      && (Get(env.metadata, "_retries", Int(0)).Null? ==> p.metadata["_retries"] == Int(1))
      && "_expiration" in p.metadata && p.metadata["_expiration"] == Int(s.retryInterval(env))
      && KeepsAllBut(env.metadata, p.metadata, {"_retries", "_expiration"})
    ensures !s.canRetry(env) ==>
      && p.message == JobFailed(env.message)
      && p.channel == Str(FailureChannel)
      && "_error_message" in p.metadata && p.metadata["_error_message"] == Str(error)
      && KeepsAllBut(env.metadata, p.metadata, {"_error_message"})
  {
    if s.canRetry(env) then Retry(s, env) else Fail(env, error)
  }

  /** `execute` with the message bus's `receive` as a parameter: `None` when
      it returns, the exception's message when it throws. This is `execute`
      without the unconditional throw in front of the dispatch. */
  function Execute(jobs: JobDefinitions, d: Delivery, receive: Envelope -> Option<string>): (o: Outcome)
    ensures JobOf(jobs, d.envelope.metadata).Err? ==> o == Unacked(JobOf(jobs, d.envelope.metadata).error)
    ensures JobOf(jobs, d.envelope.metadata).Ok? ==> o.Acked? && o.tag == d.tag
    ensures JobOf(jobs, d.envelope.metadata).Ok? && receive(d.envelope).None? ==> o.published.None?
    ensures JobOf(jobs, d.envelope.metadata).Ok? && receive(d.envelope).Some? ==>
      o.published == Some(Recover(JobOf(jobs, d.envelope.metadata).value, d.envelope, receive(d.envelope).value))
  {
    match JobOf(jobs, d.envelope.metadata)
    case Err(f) => Unacked(f)
    case Ok(s) =>
      match receive(d.envelope)
      case None => Acked(d.tag, None)
      case Some(error) => Acked(d.tag, Some(Recover(s, d.envelope, error)))
  }

  /** `execute` as written: the exception thrown in front of the dispatch
      sends every delivery of a known job through the catch block. */
  function ExecuteAsWritten(jobs: JobDefinitions, d: Delivery): (o: Outcome)
    ensures JobOf(jobs, d.envelope.metadata).Err? ==> o == Unacked(JobOf(jobs, d.envelope.metadata).error)
    ensures JobOf(jobs, d.envelope.metadata).Ok? ==>
      o == Acked(d.tag, Some(Recover(JobOf(jobs, d.envelope.metadata).value, d.envelope, TestError)))
  {
    match JobOf(jobs, d.envelope.metadata)
    case Err(f) => Unacked(f)
    case Ok(s) => Acked(d.tag, Some(Recover(s, d.envelope, TestError)))
  }

  /** As written, the message bus is never consulted: the outcome is the one
      of a bus that always throws "test", and a delivery the bus would have
      handled is still republished or reported as failed. */
  lemma AsWrittenNeverDispatches(jobs: JobDefinitions, d: Delivery, receive: Envelope -> Option<string>)
    ensures ExecuteAsWritten(jobs, d) == Execute(jobs, d, _ => Some(TestError))
    ensures JobOf(jobs, d.envelope.metadata).Ok? && receive(d.envelope).None? ==>
      ExecuteAsWritten(jobs, d).published.Some? && Execute(jobs, d, receive).published.None?
  {
  }

  /** Exactly one of retry and fail happens, told apart by the published
      message: the original one for a retry, a `JobFailed` around it otherwise. */
  lemma RetryOrFail(s: Strategy, env: Envelope, error: string)
    ensures var p := Recover(s, env, error);
      && (p.message == env.message <==> s.canRetry(env))
      && (p.message == JobFailed(env.message) <==> !s.canRetry(env))
      && (!s.canRetry(env) ==> Lookup(p.metadata, "_retries") == Lookup(env.metadata, "_retries"))
  {
    var p := Recover(s, env, error);
    if s.canRetry(env) {
      assert JobFailed(env.message) != env.message by {
        assert env.message < JobFailed(env.message);
      }
    } else {
      assert p.message != env.message by {
        assert env.message < JobFailed(env.message);
      }
    }
  }

  // ---------------------------------------------------------------------
  // The retry loop over redeliveries
  // ---------------------------------------------------------------------

  /** The retry count a strategy reads: `_retries`, 0 when absent. */
  function RetryCount(md: Metadata): int {
    match Get(md, "_retries", Int(0))
    case Int(n) => n
    case _ => 0
  }

  /** A retry counts one more attempt: from no count at all, a null count or
      an integer count, the count read back from the republished metadata is
      one higher. */
  lemma RetryCountAdvances(s: Strategy, env: Envelope, error: string)
    requires s.canRetry(env)
    requires Get(env.metadata, "_retries", Int(0)).Null? || Get(env.metadata, "_retries", Int(0)).Int?
    ensures RetryCount(Recover(s, env, error).metadata) == RetryCount(env.metadata) + 1
  {
  }

  /** The envelope of the `k`-th redelivery when every attempt fails and
      every failure is retried. */
  function Redelivered(s: Strategy, env: Envelope, k: nat): Envelope {
    if k == 0 then env
    else
      var p := Recover(s, Redelivered(s, env, k - 1), TestError);
      Envelope(p.message, p.metadata)
  }

  /** Under a strategy that retries while fewer than `limit` retries were
      counted, the `k`-th redelivery (up to `limit`) carries the original
      message, the job and channel it started with, and a count of `k`. */
  lemma {:induction false} RedeliveredCounts(s: Strategy, env: Envelope, limit: nat, k: nat)
    requires forall e :: s.canRetry(e) == (RetryCount(e.metadata) < limit)
    requires "_retries" !in env.metadata
    requires k <= limit
    ensures var e := Redelivered(s, env, k);
      && e.message == env.message
      && RetryCount(e.metadata) == k
      && (k > 0 ==> "_retries" in e.metadata && e.metadata["_retries"] == Int(k))
      && Lookup(e.metadata, "job") == Lookup(env.metadata, "job")
      && Lookup(e.metadata, "_channel") == Lookup(env.metadata, "_channel")
  {
    if k > 0 {
      RedeliveredCounts(s, env, limit, k - 1);
      var prev := Redelivered(s, env, k - 1);
      assert s.canRetry(prev);
      RetryKeeps(s, prev, TestError);
    }
  }

  /** A retried envelope counts one more retry and keeps its message, job
      and channel. */
  lemma RetryKeeps(s: Strategy, env: Envelope, error: string)
    requires s.canRetry(env)
    ensures var p := Recover(s, env, error);
      && p.message == env.message
      && "_retries" in p.metadata
      && p.metadata["_retries"] == Increment(Get(env.metadata, "_retries", Int(0)))
      && Lookup(p.metadata, "job") == Lookup(env.metadata, "job")
      && Lookup(p.metadata, "_channel") == Lookup(env.metadata, "_channel")
  {
  }

  /** With a known job, such a strategy and a message bus that throws on
      every attempt, the worker republishes the message to its original
      channel `limit` times and then reports it on the logging channel with
      `_retries` at `limit`; every attempt is acknowledged. */
  lemma RetriesThenFails(jobs: JobDefinitions, env: Envelope, limit: nat, k: nat, tag: int,
                         receive: Envelope -> Option<string>)
    requires Lookup(env.metadata, "job").Str? && Lookup(env.metadata, "job").s in jobs
    requires forall e :: jobs[Lookup(env.metadata, "job").s].canRetry(e) == (RetryCount(e.metadata) < limit)
    requires forall e :: receive(e).Some?
    requires "_retries" !in env.metadata
    requires k <= limit
    ensures var s := jobs[Lookup(env.metadata, "job").s];
      var o := Execute(jobs, Delivery(tag, Redelivered(s, env, k)), receive);
      && o.Acked? && o.tag == tag && o.published.Some?
      && (k < limit ==> o.published.value.message == env.message
                        && o.published.value.channel == Lookup(env.metadata, "_channel"))
      && (k == limit ==> o.published.value.message == JobFailed(env.message)
                         && o.published.value.channel == Str(FailureChannel)
                         && RetryCount(o.published.value.metadata) == limit)
  {
    var s := jobs[Lookup(env.metadata, "job").s];
    RedeliveredCounts(s, env, limit, k);
    var e := Redelivered(s, env, k);
    if k == limit {
      var p := Recover(s, e, receive(e).value);
      assert Get(p.metadata, "_retries", Int(0)) == Get(e.metadata, "_retries", Int(0));
    }
  }
}

/** The plain bus worker: it hands each delivery to the message bus and
    acknowledges it only when the bus returns; an exception from the bus
    propagates and leaves the delivery unacknowledged. */
module BusWorker {
  import opened Values
  import opened Messaging
  import JobWorker

  /** `run`: consume the queue named by the `queue` setting. */
  function Run(settings: Metadata): (r: Result<Consumer, AssertionFailure>)
    ensures r.Ok? <==> !IsBlank(Lookup(settings, "queue"))
    ensures r.Ok? ==> r.value.queue == settings["queue"]
  {
    StartConsuming(Lookup(settings, "queue"))
  }

  /** `execute`, with the message bus's `receive` as a parameter (`None` when
      it returns, the exception's message when it throws). The job named by
      the delivery is looked up before dispatch, although nothing uses it;
      an unknown job raises. */
  function Execute(jobs: set<string>, d: Delivery, receive: Envelope -> Option<string>): (o: Outcome)
    ensures o.Acked? <==> KnownJob(jobs, d.envelope.metadata) && receive(d.envelope).None?
    ensures o.Acked? ==> o == Acked(d.tag, None)
    ensures KnownJob(jobs, d.envelope.metadata) && receive(d.envelope).Some? ==>
      o == Unacked(Raised(receive(d.envelope).value))
    ensures !KnownJob(jobs, d.envelope.metadata) ==> o == Unacked(UnknownJob(Lookup(d.envelope.metadata, "job")))
  {
    var job := Lookup(d.envelope.metadata, "job");
    if !(job.Str? && job.s in jobs) then Unacked(UnknownJob(job))
    else
      match receive(d.envelope)
      case None => Acked(d.tag, None)
      case Some(error) => Unacked(Raised(error))
  }

  predicate KnownJob(jobs: set<string>, md: Metadata) {
    Lookup(md, "job").Str? && Lookup(md, "job").s in jobs
  }

  /** No path republishes: the worker either acknowledges without publishing
      or leaves the delivery to the exception. */
  lemma NeverPublishes(jobs: set<string>, d: Delivery, receive: Envelope -> Option<string>)
    ensures match Execute(jobs, d, receive)
      case Acked(tag, published) => tag == d.tag && published == None
      case Unacked(_) => true
  {
  }

  /** When the bus handles a delivery, the bus worker and a job worker (with
      its dispatch restored) do the same thing: acknowledge the delivery's
      own tag and publish nothing. When the bus throws, the job worker
      acknowledges after one publish while the bus worker does not. */
  lemma AgreesWithJobWorker(defs: JobWorker.JobDefinitions, d: Delivery, receive: Envelope -> Option<string>)
    ensures var bus, job := Execute(defs.Keys, d, receive), JobWorker.Execute(defs, d, receive);
      && (receive(d.envelope).None? ==> bus == job)
      && (KnownJob(defs.Keys, d.envelope.metadata) && receive(d.envelope).Some? ==>
            bus.Unacked? && job.Acked? && job.published.Some?)
  {
  }
}

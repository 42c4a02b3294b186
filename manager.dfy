/**
 * The manager: the single entry point for job intake (Push) and job dispatch
 * (Fetch). Push validates a job and routes it either to the scheduled set or to
 * its queue, stamping the enqueue time; Fetch sweeps the named queues in order.
 * Both are given first as functions over the store's contents (PushSpec,
 * FetchSpec), and then as methods on the store's objects proved against them.
 */
module Manager {
  import opened Wrappers
  import opened Storage

  /** A job argument: the tests only use integers; text stands for any other JSON value. */
  datatype Arg = Num(n: int) | Text(s: string)

  /** A job's `at` field: empty (run now), or a timestamp text that parses to an instant or does not. */
  datatype Schedule = Immediate | At(instant: Option<int>)

  /** A job record; `args` is None when the job was built without an argument list. */
  datatype JobData = JobData(
    jid: string,
    jobtype: string,
    args: Option<seq<Arg>>,
    queue: string,
    priority: int,
    at: Schedule,
    enqueuedAt: Option<int>)

  /** The priority a new job gets (every job in the tests uses it). */
  const DefaultPriority: int := 5

  datatype PushError =
    | InvalidJid(jid: string)
    | MissingJobType
    | MissingArgs
    | InvalidQueue(queue: string)
    | InvalidAt

  /** Push-time failures say "push:"; a bad queue name says "enqueue:" and names the queue. */
  function Message(e: PushError): string {
    match e
    case InvalidQueue(queue) => "enqueue: invalid queue name: " + queue
    case _ => "push: " + Reason(e)
  }

  function Reason(e: PushError): string {
    match e
    case InvalidJid(_) => "jobs must have a reasonable jid parameter"
    case MissingJobType => "jobs must have a jobtype parameter"
    case MissingArgs => "jobs must have an args parameter"
    case InvalidQueue(_) => "invalid queue name"
    case InvalidAt => "invalid timestamp for 'at'"
  }

  predicate Contains(s: string, part: string) {
    exists i :: 0 <= i <= |s| && part <= s[i..]
  }

  lemma ContainsAt(s: string, part: string, i: nat)
    requires i <= |s| && part <= s[i..]
    ensures Contains(s, part)
  {
  }

  /** Every rejection made while checking the job itself names the push step. */
  lemma PushMessagesSayPush(e: PushError)
    requires !e.InvalidQueue?
    ensures Contains(Message(e), "push:")
  {
    var m := Message(e);
    assert m[..5] == "push:";
    ContainsAt(m, "push:", 0);
  }

  /** A bad queue name is reported by the enqueue step, and the message names the queue. */
  lemma QueueMessageNamesQueue(queue: string)
    ensures Contains(Message(InvalidQueue(queue)), "enqueue:")
    ensures Contains(Message(InvalidQueue(queue)), queue)
  {
    var m := Message(InvalidQueue(queue));
    assert m[..8] == "enqueue:";
    ContainsAt(m, "enqueue:", 0);
    assert m[|m| - |queue|..] == queue;
    ContainsAt(m, queue, |m| - |queue|);
  }

  /** The first rule a job breaks, checked in order: jid, type, args, queue name. */
  function Validate(job: JobData, minJidLength: nat): (r: Option<PushError>)
    ensures r.None? <==>
      |job.jid| >= minJidLength && job.jobtype != "" && job.args.Some? && ValidName(job.queue)
    ensures |job.jid| < minJidLength ==> r == Some(InvalidJid(job.jid))
    ensures r == Some(MissingJobType) ==> job.jobtype == ""
    ensures r == Some(MissingArgs) ==> job.args.None?
    ensures r.Some? && r.value.InvalidQueue? ==> r.value.queue == job.queue && !ValidName(job.queue)
  {
    if |job.jid| < minJidLength then Some(InvalidJid(job.jid))
    else if job.jobtype == "" then Some(MissingJobType)
    else if job.args.None? then Some(MissingArgs)
    else if !ValidName(job.queue) then Some(InvalidQueue(job.queue))
    else None
  }

  /** The job asks to run strictly after now. */
  predicate IsFuture(job: JobData, now: int) {
    job.at.At? && job.at.instant.Some? && job.at.instant.value > now
  }

  datatype PushResult = PushResult(err: Option<PushError>, store: StoreState<JobData>, job: JobData)

  function Last<T>(s: seq<T>): T requires s != [] { s[|s| - 1] }

  function ButLast<T>(s: seq<T>): seq<T> requires s != [] { s[..|s| - 1] }

  /**
   * Push as a function of the store's contents, the job, and the clock. A
   * rejected job changes nothing. An accepted job with a future `at` joins the
   * scheduled set untouched; any other accepted job is stamped with the enqueue
   * time and becomes the last to be popped from its queue.
   */
  function PushSpec(s: StoreState<JobData>, job: JobData, now: int, minJidLength: nat): (r: PushResult)
    ensures r.err.Some? ==> r.store == s && r.job == job
    ensures r.err.None? <==> Validate(job, minJidLength).None? && job.at != At(None)
    ensures Validate(job, minJidLength).Some? ==> r.err == Validate(job, minJidLength)
    ensures Validate(job, minJidLength).None? && job.at == At(None) ==> r.err == Some(InvalidAt)
    ensures r.err.None? && IsFuture(job, now) ==>
      && r.job == job
      && r.store.queues == s.queues
      && r.store.scheduled == s.scheduled + [(job.at.instant.value, job)]
    ensures r.err.None? && !IsFuture(job, now) ==>
      && r.job == job.(enqueuedAt := Some(now))
      && Drain(QueueOf(r.store.queues, job.queue)) == Drain(QueueOf(s.queues, job.queue)) + [r.job]
      && |QueueOf(r.store.queues, job.queue)| == |QueueOf(s.queues, job.queue)| + 1
      && (forall n :: n != job.queue ==> QueueOf(r.store.queues, n) == QueueOf(s.queues, n))
      && r.store.scheduled == s.scheduled
  {
    match Validate(job, minJidLength)
    case Some(e) => PushResult(Some(e), s, job)
    case None =>
      if job.at == At(None) then PushResult(Some(InvalidAt), s, job)
      else if IsFuture(job, now) then
        PushResult(None, s.(scheduled := s.scheduled + [(job.at.instant.value, job)]), job)
      else
        var stamped := job.(enqueuedAt := Some(now));
        DrainPushed(stamped, QueueOf(s.queues, job.queue));
        PushResult(None, s.(queues := s.queues[job.queue := [stamped] + QueueOf(s.queues, job.queue)]), stamped)
  }

  datatype FetchError = EmptyQueueList | BadQueueName(name: string) | Cancelled(cause: ContextError)

  datatype FetchResult = FetchResult(job: Option<JobData>, err: Option<FetchError>, store: StoreState<JobData>)

  /** The index of the first name that is not a valid queue name. */
  function FirstInvalid(names: seq<string>): (r: Option<nat>)
    ensures r.Some? ==> r.value < |names| && !ValidName(names[r.value])
    ensures r.Some? ==> forall j :: 0 <= j < r.value ==> ValidName(names[j])
    ensures r.None? ==> forall j :: 0 <= j < |names| ==> ValidName(names[j])
  {
    if names == [] then None
    else if !ValidName(names[0]) then Some(0)
    else match FirstInvalid(names[1..])
      case None => None
      case Some(i) => Some(i + 1)
  }

  /** The index of the first listed queue that holds a job. */
  function FirstReady<T>(queues: map<string, seq<T>>, names: seq<string>): (r: Option<nat>)
    ensures r.Some? ==> r.value < |names| && QueueOf(queues, names[r.value]) != []
    ensures r.Some? ==> forall j :: 0 <= j < r.value ==> QueueOf(queues, names[j]) == []
    ensures r.None? ==> forall j :: 0 <= j < |names| ==> QueueOf(queues, names[j]) == []
  {
    if names == [] then None
    else if QueueOf(queues, names[0]) != [] then Some(0)
    else match FirstReady(queues, names[1..])
      case None => None
      case Some(i) => Some(i + 1)
  }

  /**
   * Fetch as a function of the store's contents: an empty name list or a bad
   * name is an error; otherwise the oldest job of the first listed queue that
   * has one is taken; when all are empty a cancelled context is an error and a
   * live one finds nothing.
   */
  function FetchSpec(s: StoreState<JobData>, cancelled: bool, names: seq<string>): (r: FetchResult)
    ensures names == [] ==> r == FetchResult(None, Some(EmptyQueueList), s)
    ensures r.err.Some? ==> r.job == None && r.store == s
    ensures r.job.Some? ==>
      && FirstInvalid(names).None?
      && FirstReady(s.queues, names).Some?
      && var name := names[FirstReady(s.queues, names).value];
      && r.job.value == Drain(QueueOf(s.queues, name))[0]
      && Drain(QueueOf(r.store.queues, name)) == Drain(QueueOf(s.queues, name))[1..]
      && |QueueOf(r.store.queues, name)| == |QueueOf(s.queues, name)| - 1
      && (forall n :: n != name ==> QueueOf(r.store.queues, n) == QueueOf(s.queues, n))
      && r.store.scheduled == s.scheduled
    ensures names != [] && FirstInvalid(names).Some? ==>
      r == FetchResult(None, Some(BadQueueName(names[FirstInvalid(names).value])), s)
    ensures names != [] && FirstInvalid(names).None? && FirstReady(s.queues, names).Some? ==> r.job.Some?
    ensures names != [] && FirstInvalid(names).None? && FirstReady(s.queues, names).None? ==>
      r == FetchResult(None, if cancelled then Some(Cancelled(Canceled)) else None, s)
  {
    if names == [] then FetchResult(None, Some(EmptyQueueList), s)
    else match FirstInvalid(names)
      case Some(i) => FetchResult(None, Some(BadQueueName(names[i])), s)
      case None =>
        match FirstReady(s.queues, names)
        case Some(i) =>
          var q := QueueOf(s.queues, names[i]);
          assert q == ButLast(q) + [Last(q)];
          DrainPushed(Last(q), []);
          FetchResult(Some(Last(q)), None, s.(queues := s.queues[names[i] := ButLast(q)]))
        case None =>
          FetchResult(None, if cancelled then Some(Cancelled(Canceled)) else None, s)
  }

  /** A new job for the default queue; called with no arguments it has no argument list at all. */
  function NewJob(jid: string, jobtype: string, args: seq<Arg>): (job: JobData)
    ensures job.queue == "default" && job.priority == DefaultPriority
    ensures job.at == Immediate && job.enqueuedAt == None
    ensures job.args.None? <==> args == []
  {
    JobData(jid, jobtype, if args == [] then None else Some(args), "default", DefaultPriority, Immediate, None)
  }

  /** A job record held by the caller; Push stamps its enqueue time in place. */
  class Job {
    var jid: string
    var jobtype: string
    var args: Option<seq<Arg>>
    var queue: string
    var priority: int
    var at: Schedule
    var enqueuedAt: Option<int>

    constructor (jid: string, jobtype: string, args: seq<Arg>)
      ensures Data() == NewJob(jid, jobtype, args)
    {
      this.jid := jid;
      this.jobtype := jobtype;
      this.args := if args == [] then None else Some(args);
      queue := "default";
      priority := DefaultPriority;
      at := Immediate;
      enqueuedAt := None;
    }

    function Data(): JobData
      reads this
    {
      JobData(jid, jobtype, args, queue, priority, at, enqueuedAt)
    }
  }

  class Manager {
    const store: Store<JobData>
    const minJidLength: nat

    constructor (store: Store<JobData>, minJidLength: nat)
      requires minJidLength >= 8
      ensures this.store == store && this.minJidLength == minJidLength
    {
      this.store := store;
      this.minJidLength := minJidLength;
    }

    method Push(job: Job, now: int) returns (err: Option<PushError>)
      requires store.Valid()
      modifies store, store.queues.Values, job
      ensures store.Valid()
      ensures var r := PushSpec(old(store.State()), old(job.Data()), now, minJidLength);
        err == r.err && store.Holds(r.store) && job.Data() == r.job
    {
      ghost var s0 := store.State();
      var data := job.Data();
      var invalid := Validate(data, minJidLength);
      if invalid.Some? {
        return invalid;
      }
      if data.at == At(None) {
        return Some(InvalidAt);
      }
      if IsFuture(data, now) {
        store.Schedule(data.at.instant.value, data);
        return None;
      }
      var r := store.GetQueue(data.queue);
      var q := r.value;
      job.enqueuedAt := Some(now);
      q.Push(data.priority, job.Data());
      forall n ensures store.Items(n) == QueueOf(PushSpec(s0, data, now, minJidLength).store.queues, n) {
        if n != data.queue && n in store.queues {
          assert store.queues[n] != q;
        }
      }
      err := None;
    }

    /**
     * Looks up each listed queue in turn (creating the ones never referenced)
     * until one holds a job; the contents of every queue are left as they were.
     */
    method Sweep(names: seq<string>) returns (found: Option<nat>, q: Queue?<JobData>)
      requires store.Valid()
      requires forall j :: 0 <= j < |names| ==> ValidName(names[j])
      modifies store
      ensures store.Valid() && store.Holds(old(store.State()))
      ensures found == FirstReady(old(store.State()).queues, names)
      ensures found.Some? ==> q != null && names[found.value] in store.queues && q == store.queues[names[found.value]]
      ensures forall n :: n in store.queues ==> store.queues[n] in old(store.queues.Values) || fresh(store.queues[n])
    {
      ghost var s0 := store.State();
      var i := 0;
      while i < |names|
        invariant 0 <= i <= |names|
        invariant store.Valid() && store.Holds(s0)
        invariant forall j :: 0 <= j < i ==> QueueOf(s0.queues, names[j]) == []
        invariant forall n :: n in store.queues ==> store.queues[n] in old(store.queues.Values) || fresh(store.queues[n])
      {
        var r := store.GetQueue(names[i]);
        var candidate := r.value;
        assert candidate.items == QueueOf(s0.queues, names[i]);
        if candidate.Size() > 0 {
          return Some(i), candidate;
        }
        i := i + 1;
      }
      return None, null;
    }

    /**
     * Validates every name, then takes the oldest job of the first listed
     * queue that holds one; with nothing to take, a cancelled context reports
     * its error and a live one returns no job and no error.
     */
    method Fetch(cancelled: bool, wid: string, names: seq<string>) returns (job: Option<JobData>, err: Option<FetchError>)
      requires store.Valid()
      modifies store, store.queues.Values
      ensures store.Valid()
      ensures var r := FetchSpec(old(store.State()), cancelled, names);
        job == r.job && err == r.err && store.Holds(r.store)
    {
      ghost var s0 := store.State();
      if |names| == 0 {
        return None, Some(EmptyQueueList);
      }
      var i := 0;
      while i < |names|
        invariant 0 <= i <= |names|
        invariant forall j :: 0 <= j < i ==> ValidName(names[j])
      {
        if !ValidName(names[i]) {
          return None, Some(BadQueueName(names[i]));
        }
        i := i + 1;
      }
      var found, q := Sweep(names);
      if found.Some? {
        ghost var name := names[found.value];
        ghost var r := FetchSpec(s0, cancelled, names);
        job := q.Pop();
        forall n ensures store.Items(n) == QueueOf(r.store.queues, n) {
          if n != name && n in store.queues {
            assert store.queues[n] != q;
          }
        }
        return job, None;
      }
      if cancelled {
        return None, Some(Cancelled(Canceled));
      }
      return None, None;
    }
  }
}

/**
 * The manager's documented scenarios, stated over PushSpec and FetchSpec for
 * every store and clock that match each scenario's setup.
 */
module ManagerScenarios {
  import opened Wrappers
  import opened Storage
  import opened Manager

  /** A job that passes every check of Push. */
  predicate Acceptable(job: JobData, minJidLength: nat) {
    Validate(job, minJidLength).None?
  }

  /** Pushing a job to an empty queue and fetching from that queue returns the same job, stamped, and empties the queue. */
  lemma PushThenFetch(s: StoreState<JobData>, job: JobData, now: int, minJidLength: nat)
    requires Acceptable(job, minJidLength) && job.at == Immediate
    requires QueueOf(s.queues, job.queue) == []
    ensures var p := PushSpec(s, job, now, minJidLength);
      && p.err == None
      && p.job.enqueuedAt == Some(now)
      && |QueueOf(p.store.queues, job.queue)| == 1
      && var f := FetchSpec(p.store, false, [job.queue]);
      && f.err == None && f.job == Some(p.job) && f.job.value.jid == job.jid
      && QueueOf(f.store.queues, job.queue) == []
  {
  }

  /**
   * Two jobs pushed to two empty queues are fetched one per call, in the order
   * the queues are listed, and the second fetch leaves both queues empty.
   */
  lemma FetchFromMultipleQueues(s: StoreState<JobData>, job: JobData, email: JobData, now: int, minJidLength: nat)
    requires Acceptable(job, minJidLength) && job.at == Immediate
    requires Acceptable(email, minJidLength) && email.at == Immediate
    requires job.queue != email.queue
    requires QueueOf(s.queues, job.queue) == [] && QueueOf(s.queues, email.queue) == []
    ensures var p1 := PushSpec(s, job, now, minJidLength);
      var p2 := PushSpec(p1.store, email, now, minJidLength);
      var f1 := FetchSpec(p2.store, false, [job.queue, email.queue]);
      var f2 := FetchSpec(f1.store, false, [job.queue, email.queue]);
      && p1.err == None && p2.err == None
      && f1.err == None && f1.job.Some? && f1.job.value.jid == job.jid
      && QueueOf(f1.store.queues, job.queue) == [] && |QueueOf(f1.store.queues, email.queue)| == 1
      && f2.err == None && f2.job.Some? && f2.job.value.jid == email.jid
      && QueueOf(f2.store.queues, job.queue) == [] && QueueOf(f2.store.queues, email.queue) == []
  {
    var names := [job.queue, email.queue];
    var p1 := PushSpec(s, job, now, minJidLength);
    assert QueueOf(p1.store.queues, job.queue) == [p1.job] by {
      assert Drain(QueueOf(p1.store.queues, job.queue)) == [p1.job];
    }
    var p2 := PushSpec(p1.store, email, now, minJidLength);
    assert QueueOf(p2.store.queues, email.queue) == [p2.job] by {
      assert Drain(QueueOf(p2.store.queues, email.queue)) == [p2.job];
    }
    assert FirstInvalid(names) == None by {
      assert forall j :: 0 <= j < |names| ==> ValidName(names[j]);
    }
    assert FirstReady(p2.store.queues, names) == Some(0);
    var f1 := FetchSpec(p2.store, false, names);
    assert FirstReady(f1.store.queues, names) == Some(1);
  }

  /** Ids shorter than the minimum (at least 8) are refused, and nothing changes. */
  lemma ShortJidsRejected(s: StoreState<JobData>, job: JobData, now: int, minJidLength: nat)
    requires minJidLength >= 8
    requires job.jid in ["", "id", "shortid"]
    ensures var p := PushSpec(s, job, now, minJidLength);
      p.err == Some(InvalidJid(job.jid)) && p.store == s && p.job.enqueuedAt == job.enqueuedAt
  {
  }

  /** A job without a type, or built with no arguments, is refused, and nothing changes. */
  lemma IncompleteJobsRejected(s: StoreState<JobData>, jid: string, jobtype: string, args: seq<Arg>, now: int, minJidLength: nat)
    requires |jid| >= minJidLength
    requires jobtype == "" || args == []
    ensures var p := PushSpec(s, NewJob(jid, jobtype, args), now, minJidLength);
      && p.err.Some? && Contains(Message(p.err.value), "push:")
      && p.store == s && p.job.enqueuedAt == None
  {
    var p := PushSpec(s, NewJob(jid, jobtype, args), now, minJidLength);
    PushMessagesSayPush(p.err.value);
  }

  /** A job due in the future goes to the scheduled set, not to its queue, and is not stamped. */
  lemma FutureJobScheduled(s: StoreState<JobData>, job: JobData, now: int, minJidLength: nat)
    requires Acceptable(job, minJidLength)
    requires job.at.At? && job.at.instant.Some? && job.at.instant.value > now
    ensures var p := PushSpec(s, job, now, minJidLength);
      && p.err == None
      && QueueOf(p.store.queues, job.queue) == QueueOf(s.queues, job.queue)
      && |p.store.scheduled| == |s.scheduled| + 1
      && p.job.enqueuedAt == job.enqueuedAt
  {
  }

  /** A job whose time has already come (or is now) is enqueued at once and stamped. */
  lemma PastJobEnqueued(s: StoreState<JobData>, job: JobData, now: int, minJidLength: nat)
    requires Acceptable(job, minJidLength)
    requires job.at.At? && job.at.instant.Some? && job.at.instant.value <= now
    ensures var p := PushSpec(s, job, now, minJidLength);
      && p.err == None
      && |QueueOf(p.store.queues, job.queue)| == |QueueOf(s.queues, job.queue)| + 1
      && p.store.scheduled == s.scheduled
      && p.job.enqueuedAt == Some(now)
  {
  }

  /** An `at` that does not parse is refused with a push error, and nothing changes. */
  lemma InvalidTimeRejected(s: StoreState<JobData>, job: JobData, now: int, minJidLength: nat)
    requires Acceptable(job, minJidLength)
    requires job.at == At(None)
    ensures var p := PushSpec(s, job, now, minJidLength);
      && p.err == Some(InvalidAt) && Contains(Message(p.err.value), "push:")
      && p.store == s && p.job.enqueuedAt == job.enqueuedAt
  {
    PushMessagesSayPush(InvalidAt);
  }

  /** An otherwise valid job for a badly named queue is refused by the enqueue step, naming the queue. */
  lemma InvalidQueueRejected(s: StoreState<JobData>, job: JobData, now: int, minJidLength: nat)
    requires |job.jid| >= minJidLength && job.jobtype != "" && job.args.Some?
    requires !ValidName(job.queue)
    ensures var p := PushSpec(s, job, now, minJidLength);
      && p.err == Some(InvalidQueue(job.queue))
      && Contains(Message(p.err.value), "enqueue:") && Contains(Message(p.err.value), job.queue)
      && p.store == s
  {
    QueueMessageNamesQueue(job.queue);
  }

  /** Fetching from no queues at all is an error and changes nothing. */
  lemma FetchWithoutQueues(s: StoreState<JobData>, cancelled: bool)
    ensures FetchSpec(s, cancelled, []) == FetchResult(None, Some(EmptyQueueList), s)
  {
  }

  /** Fetching from an empty queue with a live context finds nothing, and that is not an error. */
  lemma EmptyFetch(s: StoreState<JobData>)
    requires QueueOf(s.queues, "default") == []
    ensures FetchSpec(s, false, ["default"]) == FetchResult(None, None, s)
  {
  }

  /** Fetching from an empty queue with a cancelled context reports the cancellation. */
  lemma CancelledFetch(s: StoreState<JobData>)
    requires QueueOf(s.queues, "default") == []
    ensures FetchSpec(s, true, ["default"]) == FetchResult(None, Some(Cancelled(Canceled)), s)
  {
  }
}

/**
 * The worker side of the job queue: a frontend that claims jobs from the
 * coordinator, keeps their leases alive with a heartbeat, runs them on the
 * Pedersen, Pippenger or FFT backend and reports the outcome.
 *
 * The coordinator and the backends are not modelled; what they answer is an
 * input. Time is abstract: one loop iteration's worth of coordinator answers,
 * heartbeat ticks and concurrent `stop`/notification events is a `Round`.
 * A ghost trace records every coordinator call the frontend makes, and each
 * sleep with whether an interrupt cut it short.
 */
module JobQueueFrontend {
  import opened Wrappers

  type JobId = int

  /** `JobQueueTarget`; `OtherTarget` is a value matching none of the dispatch cases. */
  datatype Target = Pedersen | Pippenger | Fft | OtherTarget(code: int)

  /** Opaque argument and result payloads; `Undefined` is JavaScript's `undefined`. */
  datatype Value = Undefined | Num(n: int) | Bytes(data: seq<int>)

  datatype Job = Job(id: JobId, target: Target, query: string, args: seq<Value>)

  /**
   * What a failing call throws, as far as `processJob` can tell: an object with a
   * `message` (an `Error`), a value without one (a string, say), or `undefined`
   * or `null`, on which reading `message` itself throws a `TypeError`.
   */
  datatype Thrown = ErrorObject(message: string) | NoMessage | Nullish

  /** A backend call either returns a value or throws. */
  datatype Outcome = Returned(value: Value) | Threw(thrown: Thrown)

  /**
   * The three computation clients. `adapter[query](...args)` becomes a function of
   * the query name and the arguments; an unknown query name is a call that throws.
   * `getFft(circuitSize)` yields an FFT instance (a handle) or fails.
   */
  datatype Backends = Backends(
    pedersen: (string, seq<Value>) -> Outcome,
    pippenger: (string, seq<Value>) -> Outcome,
    getFft: Value -> Result<nat, Thrown>,
    fft: (nat, string, seq<Value>) -> Outcome)

  /** The circuit size an FFT job names: its first argument, `undefined` if it has none. */
  function FftSize(args: seq<Value>): Value {
    if args == [] then Undefined else args[0]
  }

  /**
   * `process`: route a job to the backend its target names. The `switch` has no
   * default, so a target matching no case returns `undefined`; an FFT job whose
   * factory fails throws what the factory threw.
   */
  function Process(b: Backends, job: Job): (r: Outcome)
    ensures job.target.OtherTarget? ==> r == Returned(Undefined)
    ensures job.target == Fft && b.getFft(FftSize(job.args)).Err? ==> r == Threw(b.getFft(FftSize(job.args)).error)
  {
    match job.target
    case Pedersen => b.pedersen(job.query, job.args)
    case Pippenger => b.pippenger(job.query, job.args)
    case Fft =>
      // `const [circuitSize, ...fftArgs] = args`
      var fftArgs := if job.args == [] then [] else job.args[1..];
      (match b.getFft(FftSize(job.args))
       case Err(thrown) => Threw(thrown)
       case Ok(fft) => b.fft(fft, job.query, fftArgs))
    case OtherTarget(_) => Returned(Undefined)
  }

  /** What `processJob` hands to `completeJob`; an `error` of `None` is `undefined`. */
  datatype Completion = Completion(data: Value, error: Option<string>)

  /**
   * The report `processJob` makes of an outcome, or `None` when it makes none:
   * reading `message` off a thrown `undefined` or `null` throws inside the catch
   * block, so `processJob` rejects before it reaches `completeJob`.
   */
  function CompletionOf(o: Outcome): (r: Option<Completion>)
    ensures r.None? <==> o == Threw(Nullish)
    ensures o.Returned? ==> r == Some(Completion(o.value, Some("")))
    ensures r.Some? && o.Threw? ==> r.value.data == Undefined
    ensures r.Some? && o.Threw? ==> (r.value.error.Some? <==> o.thrown.ErrorObject?)
    ensures o.Threw? && o.thrown.ErrorObject? ==> r.value.error == Some(o.thrown.message)
  {
    match o
    case Returned(v) => Some(Completion(v, Some("")))
    case Threw(ErrorObject(message)) => Some(Completion(Undefined, Some(message)))
    case Threw(NoMessage) => Some(Completion(Undefined, None))
    case Threw(Nullish) => None
  }

  /**
   * Dispatch: Pedersen and Pippenger jobs call their adapter with the arguments
   * unchanged; an FFT job takes its first argument as the circuit size, and calls
   * the query on that size's FFT instance with the remaining arguments; any other
   * target yields `undefined`.
   */
  lemma ProcessRouting(b: Backends, job: Job, size: Value, rest: seq<Value>)
    ensures job.target == Pedersen ==> Process(b, job) == b.pedersen(job.query, job.args)
    ensures job.target == Pippenger ==> Process(b, job) == b.pippenger(job.query, job.args)
    ensures job.target == Fft && job.args == [size] + rest ==>
      Process(b, job) == match b.getFft(size) case Ok(h) => b.fft(h, job.query, rest) case Err(t) => Threw(t)
    ensures job.target == Fft && job.args == [] ==>
      Process(b, job) == match b.getFft(Undefined) case Ok(h) => b.fft(h, job.query, []) case Err(t) => Threw(t)
    ensures job.target.OtherTarget? ==> Process(b, job) == Returned(Undefined)
  {
    if job.target == Fft && job.args == [size] + rest {
      assert job.args[0] == size && job.args[1..] == rest;
    }
  }

  /** A job's outcome depends only on the backend its target selects. */
  lemma ProcessUsesOnlyItsBackend(b1: Backends, b2: Backends, job: Job)
    requires job.target == Pedersen ==> b1.pedersen == b2.pedersen
    requires job.target == Pippenger ==> b1.pippenger == b2.pippenger
    requires job.target == Fft ==> b1.getFft == b2.getFft && b1.fft == b2.fft
    ensures Process(b1, job) == Process(b2, job)
  {
  }

  /**
   * The report `processJob` makes of a job: an unknown target is reported with no
   * data AND an empty error; Pedersen and Pippenger jobs are reported unless their
   * adapter throws `undefined` or `null`; an FFT job whose factory throws an error
   * is reported with no data and that error's message.
   */
  lemma CompletionOfProcess(b: Backends, job: Job)
    ensures job.target.OtherTarget? ==> CompletionOf(Process(b, job)) == Some(Completion(Undefined, Some("")))
    ensures job.target == Pedersen ==>
      (CompletionOf(Process(b, job)).None? <==> b.pedersen(job.query, job.args) == Threw(Nullish))
    ensures job.target == Pippenger ==>
      (CompletionOf(Process(b, job)).None? <==> b.pippenger(job.query, job.args) == Threw(Nullish))
    ensures var f := b.getFft(FftSize(job.args)); job.target == Fft && f.Err? && f.error.ErrorObject? ==>
      CompletionOf(Process(b, job)) == Some(Completion(Undefined, Some(f.error.message)))
  {
  }

  // ---- the events of a run ----

  /** Calls the frontend makes on the coordinator, and its sleeps. */
  datatype Event =
    | GetJob
    | Ping(jobId: JobId)
    | Complete(jobId: JobId, data: Value, error: Option<string>)
    | Slept(cutShort: bool)

  /** A coordinator call either answers or fails (the coordinator is unreachable). */
  datatype Reply<T> = Answered(answer: T) | TransportError

  /** Where, if anywhere, a concurrent `stop()` lands during a loop iteration. */
  datatype StopPoint = NoStop | WhileClaiming | WhileProcessing | WhileSleeping

  /**
   * One loop iteration's environment: the answer to `getJob`; the answers to the
   * heartbeat pings whose timers fire while the job runs, in order; the answer to
   * `completeJob`; whether a `new_job` notification arrives while the loop sleeps;
   * and where a concurrent `stop()` lands. A stop whose point the iteration does not
   * reach (sleeping in an iteration that got a job, processing in one that did
   * not) lands at the end of the iteration.
   */
  datatype Round = Round(
    claim: Reply<Option<Job>>,
    heartbeats: seq<Reply<JobId>>,
    completion: Reply<()>,
    notified: bool,
    stop: StopPoint)

  /**
   * The heartbeat chain for a job: each tick pings, and the next tick is armed only
   * if the coordinator answered with the same job id.
   */
  function Heartbeats(id: JobId, replies: seq<Reply<JobId>>): seq<Event> {
    if replies == [] then []
    else [Ping(id)] + (if replies[0] == Answered(id) then Heartbeats(id, replies[1..]) else [])
  }

  /** `getJob` handed out a job in this round. */
  predicate Claimed(r: Round) {
    r.claim.Answered? && r.claim.answer.Some?
  }

  /**
   * An interrupt reaches the sleep when `stop()` lands during it, or when a
   * notification arrives and the listener is still registered. A stop that landed
   * before the sleep began (while claiming, or while processing a job whose
   * `processJob` then rejected) has already unsubscribed it, and its own interrupt
   * was forgotten when the sleep installed a fresh interrupt promise.
   */
  predicate SleepCutShort(r: Round) {
    r.stop == WhileSleeping ||
    (r.notified && r.stop != WhileClaiming && !(Claimed(r) && r.stop == WhileProcessing))
  }

  /** A job was claimed, and `processJob` rejected instead of reporting it. */
  predicate LosesReport(b: Backends, r: Round) {
    Claimed(r) && CompletionOf(Process(b, r.claim.answer.value)).None?
  }

  /**
   * The events of one loop iteration: `getJob`, then either the job's heartbeats
   * and its report, or (no job, a failed `getJob`, or a rejected `processJob`) a
   * sleep.
   */
  function IterationTrace(b: Backends, r: Round): seq<Event> {
    [GetJob] +
    match r.claim
    case Answered(Some(job)) =>
      Heartbeats(job.id, r.heartbeats) +
      (match CompletionOf(Process(b, job))
       case Some(c) => [Complete(job.id, c.data, c.error)]
       case None => [Slept(SleepCutShort(r))])
    case _ => [Slept(SleepCutShort(r))]
  }

  /** The rounds the loop runs: up to and including the first one in which `stop()` lands. */
  function Processed(rounds: seq<Round>): seq<Round> {
    if rounds == [] then []
    else [rounds[0]] + (if rounds[0].stop != NoStop then [] else Processed(rounds[1..]))
  }

  /** The events of the whole loop. */
  function LoopTrace(b: Backends, rounds: seq<Round>): seq<Event> {
    if rounds == [] then []
    else IterationTrace(b, rounds[0]) + (if rounds[0].stop != NoStop then [] else LoopTrace(b, rounds[1..]))
  }

  function CountGetJobs(t: seq<Event>): nat {
    if t == [] then 0 else (if t[0] == GetJob then 1 else 0) + CountGetJobs(t[1..])
  }

  /** The job ids of the `completeJob` calls, in order. */
  function CompletedIds(t: seq<Event>): seq<JobId> {
    if t == [] then [] else (if t[0].Complete? then [t[0].jobId] else []) + CompletedIds(t[1..])
  }

  /** The ids of the jobs `getJob` handed out, in order. */
  function ClaimedIds(rounds: seq<Round>): seq<JobId> {
    if rounds == [] then []
    else (match rounds[0].claim case Answered(Some(job)) => [job.id] case _ => []) + ClaimedIds(rounds[1..])
  }

  /** The ids of the claimed jobs that `processJob` reports, in order. */
  function ReportedIds(b: Backends, rounds: seq<Round>): seq<JobId> {
    if rounds == [] then []
    else
      (if Claimed(rounds[0]) && !LosesReport(b, rounds[0]) then [rounds[0].claim.answer.value.id] else []) +
      ReportedIds(b, rounds[1..])
  }

  /** No claimed job of these rounds loses its report. */
  predicate NoLostReports(b: Backends, rounds: seq<Round>) {
    forall j :: 0 <= j < |rounds| ==> !LosesReport(b, rounds[j])
  }

  /** The ids of the jobs pinged, in order. */
  function PingedIds(t: seq<Event>): seq<JobId> {
    if t == [] then [] else (if t[0].Ping? then [t[0].jobId] else []) + PingedIds(t[1..])
  }

  lemma CountsAppend(s: seq<Event>, t: seq<Event>)
    ensures CountGetJobs(s + t) == CountGetJobs(s) + CountGetJobs(t)
    ensures CompletedIds(s + t) == CompletedIds(s) + CompletedIds(t)
    ensures PingedIds(s + t) == PingedIds(s) + PingedIds(t)
  {
    CountGetJobsAppend(s, t);
    CompletedIdsAppend(s, t);
    PingedIdsAppend(s, t);
  }

  lemma {:induction false} CountGetJobsAppend(s: seq<Event>, t: seq<Event>)
    ensures CountGetJobs(s + t) == CountGetJobs(s) + CountGetJobs(t)
  {
    if s == [] {
      assert s + t == t;
    } else {
      var u := s + t;
      assert u[0] == s[0] && u[1..] == s[1..] + t;
      CountGetJobsAppend(s[1..], t);
    }
  }

  lemma {:induction false} CompletedIdsAppend(s: seq<Event>, t: seq<Event>)
    ensures CompletedIds(s + t) == CompletedIds(s) + CompletedIds(t)
  {
    if s == [] {
      assert s + t == t;
    } else {
      var u := s + t;
      assert u[0] == s[0] && u[1..] == s[1..] + t;
      CompletedIdsAppend(s[1..], t);
    }
  }

  lemma {:induction false} PingedIdsAppend(s: seq<Event>, t: seq<Event>)
    ensures PingedIds(s + t) == PingedIds(s) + PingedIds(t)
  {
    if s == [] {
      assert s + t == t;
    } else {
      var u := s + t;
      assert u[0] == s[0] && u[1..] == s[1..] + t;
      PingedIdsAppend(s[1..], t);
    }
  }

  /**
   * Tick `k` of the heartbeat chain is sent exactly when every earlier tick was
   * answered with the job's own id; every tick pings that job and nothing else is
   * called.
   */
  lemma {:induction false} HeartbeatChain(id: JobId, replies: seq<Reply<JobId>>, k: nat)
    requires k < |replies|
    ensures k < |Heartbeats(id, replies)| <==> forall j :: 0 <= j < k ==> replies[j] == Answered(id)
    ensures |Heartbeats(id, replies)| <= |replies|
    ensures forall e :: e in Heartbeats(id, replies) ==> e == Ping(id)
  {
    if replies[0] == Answered(id) && k > 0 {
      HeartbeatChain(id, replies[1..], k - 1);
      assert forall j :: 1 <= j < k ==> replies[j] == replies[1..][j - 1];
    } else if replies[0] == Answered(id) && |replies| > 1 {
      HeartbeatChain(id, replies[1..], 0);
    } else if replies[0] == Answered(id) {
      assert Heartbeats(id, replies) == [Ping(id)];
    }
  }

  lemma {:induction false} HeartbeatsOnlyPing(id: JobId, replies: seq<Reply<JobId>>)
    ensures CountGetJobs(Heartbeats(id, replies)) == 0 && CompletedIds(Heartbeats(id, replies)) == []
    ensures forall i :: 0 <= i < |PingedIds(Heartbeats(id, replies))| ==> PingedIds(Heartbeats(id, replies))[i] == id
  {
    if replies != [] {
      var rest := if replies[0] == Answered(id) then Heartbeats(id, replies[1..]) else [];
      if replies[0] == Answered(id) {
        HeartbeatsOnlyPing(id, replies[1..]);
      }
      CountsAppend([Ping(id)], rest);
    }
  }

  /**
   * One iteration calls `getJob` once; it completes the job it claimed, if any,
   * once, after heartbeats for that job alone, unless `processJob` rejects, in
   * which case it completes nothing and sleeps; without a job it sleeps.
   */
  lemma IterationShape(b: Backends, r: Round)
    ensures CountGetJobs(IterationTrace(b, r)) == 1
    ensures CompletedIds(IterationTrace(b, r)) == ReportedIds(b, [r])
    ensures !LosesReport(b, r) ==> CompletedIds(IterationTrace(b, r)) == ClaimedIds([r])
    ensures LosesReport(b, r) ==> CompletedIds(IterationTrace(b, r)) == [] && ClaimedIds([r]) != []
    ensures forall i :: 0 <= i < |PingedIds(IterationTrace(b, r))| ==>
      Claimed(r) && PingedIds(IterationTrace(b, r))[i] == r.claim.answer.value.id
    ensures !Claimed(r) ==> IterationTrace(b, r) == [GetJob, Slept(SleepCutShort(r))]
    ensures (!Claimed(r) || LosesReport(b, r)) ==>
      IterationTrace(b, r)[|IterationTrace(b, r)| - 1] == Slept(SleepCutShort(r))
  {
    assert ClaimedIds([r])
      == (match r.claim case Answered(Some(job)) => [job.id] case _ => []) + ClaimedIds([]);
    assert ReportedIds(b, [r])
      == (if Claimed(r) && !LosesReport(b, r) then [r.claim.answer.value.id] else []) + ReportedIds(b, []);
    match r.claim
    case Answered(Some(job)) =>
      var last := match CompletionOf(Process(b, job))
        case Some(c) => [Complete(job.id, c.data, c.error)]
        case None => [Slept(SleepCutShort(r))];
      var hb := Heartbeats(job.id, r.heartbeats);
      HeartbeatsOnlyPing(job.id, r.heartbeats);
      CountsAppend(hb, last);
      CountsAppend([GetJob], hb + last);
    case _ =>
      CountsAppend([GetJob], [Slept(SleepCutShort(r))]);
  }

  /**
   * Over the whole loop: one `getJob` per iteration run, and the completed job ids
   * are the reported ones, in order, each once; when no claimed job loses its
   * report, they are exactly the claimed ones.
   */
  lemma {:induction false} LoopCompletesEachClaimOnce(b: Backends, rounds: seq<Round>)
    ensures CountGetJobs(LoopTrace(b, rounds)) == |Processed(rounds)|
    ensures CompletedIds(LoopTrace(b, rounds)) == ReportedIds(b, Processed(rounds))
    ensures NoLostReports(b, rounds) ==> CompletedIds(LoopTrace(b, rounds)) == ClaimedIds(Processed(rounds))
  {
    if rounds != [] {
      var r := rounds[0];
      var rest := if r.stop != NoStop then [] else LoopTrace(b, rounds[1..]);
      var prest := if r.stop != NoStop then [] else Processed(rounds[1..]);
      if r.stop == NoStop {
        LoopCompletesEachClaimOnce(b, rounds[1..]);
        if NoLostReports(b, rounds) {
          assert forall j :: 0 <= j < |rounds[1..]| ==> rounds[1..][j] == rounds[j + 1];
          assert NoLostReports(b, rounds[1..]);
        }
      }
      assert NoLostReports(b, rounds) ==> !LosesReport(b, rounds[0]);
      IterationShape(b, r);
      CountsAppend(IterationTrace(b, r), rest);
      ClaimedIdsAppend([r], prest);
      ReportedIdsAppend(b, [r], prest);
    }
  }

  lemma {:induction false} ReportedIdsAppend(b: Backends, s: seq<Round>, t: seq<Round>)
    ensures ReportedIds(b, s + t) == ReportedIds(b, s) + ReportedIds(b, t)
  {
    if s == [] {
      assert s + t == t;
    } else {
      assert (s + t)[1..] == s[1..] + t;
      ReportedIdsAppend(b, s[1..], t);
    }
  }

  lemma {:induction false} ClaimedIdsAppend(s: seq<Round>, t: seq<Round>)
    ensures ClaimedIds(s + t) == ClaimedIds(s) + ClaimedIds(t)
  {
    if s == [] {
      assert s + t == t;
    } else {
      assert (s + t)[1..] == s[1..] + t;
      ClaimedIdsAppend(s[1..], t);
    }
  }

  /**
   * Once `stop()` has landed in round k, the loop runs no further iteration: what
   * follows round k changes nothing, and `getJob` is called at most k + 1 times.
   */
  lemma {:induction false} NoClaimAfterStop(b: Backends, rounds: seq<Round>, k: nat)
    requires k < |rounds| && rounds[k].stop != NoStop
    ensures LoopTrace(b, rounds) == LoopTrace(b, rounds[..k + 1])
    ensures Processed(rounds) == Processed(rounds[..k + 1])
    ensures CountGetJobs(LoopTrace(b, rounds)) <= k + 1
  {
    if rounds[0].stop == NoStop {
      NoClaimAfterStop(b, rounds[1..], k - 1);
      assert rounds[1..][..k] == rounds[..k + 1][1..];
    }
    LoopCompletesEachClaimOnce(b, rounds[..k + 1]);
    ProcessedLength(rounds[..k + 1]);
  }

  /** The loop runs a prefix of the rounds, every one but the last without a stop. */
  lemma {:induction false} ProcessedLength(rounds: seq<Round>)
    ensures |Processed(rounds)| <= |rounds| && Processed(rounds) == rounds[..|Processed(rounds)|]
    ensures forall j :: 0 <= j < |Processed(rounds)| - 1 ==> rounds[j].stop == NoStop
    ensures |Processed(rounds)| < |rounds| ==> rounds[|Processed(rounds)| - 1].stop != NoStop
    ensures (forall j :: 0 <= j < |rounds| ==> rounds[j].stop == NoStop) ==> Processed(rounds) == rounds
  {
    if rounds != [] && rounds[0].stop == NoStop {
      ProcessedLength(rounds[1..]);
      assert forall j :: 1 <= j < |rounds| ==> rounds[j] == rounds[1..][j - 1];
    }
  }

  /** No `stop()` lands in any of the rounds. */
  predicate NoStops(rounds: seq<Round>) {
    forall j :: 0 <= j < |rounds| ==> rounds[j].stop == NoStop
  }

  /**
   * What one iteration contributes to the loop's specification: the events of
   * round n, after which the loop goes on exactly when `stop()` did not land in it.
   */
  lemma LoopInvariantStep(b: Backends, rounds: seq<Round>, n: nat, t0: seq<Event>, before: seq<Event>, after: seq<Event>)
    requires n < |rounds| && NoStops(rounds[..n])
    requires t0 + LoopTrace(b, rounds) == before + LoopTrace(b, rounds[n..])
    requires |Processed(rounds)| == n + |Processed(rounds[n..])|
    requires after == before + IterationTrace(b, rounds[n])
    ensures rounds[n].stop == NoStop <==> NoStops(rounds[..n + 1])
    ensures t0 + LoopTrace(b, rounds)
      == after + (if rounds[n].stop == NoStop then LoopTrace(b, rounds[n + 1..]) else [])
    ensures |Processed(rounds)| == n + 1 + (if rounds[n].stop == NoStop then |Processed(rounds[n + 1..])| else 0)
  {
    UnfoldAt(b, rounds, n);
    NoStopsExtend(rounds, n);
    var rest := if rounds[n].stop == NoStop then LoopTrace(b, rounds[n + 1..]) else [];
    Shift(t0 + LoopTrace(b, rounds), before, IterationTrace(b, rounds[n]), rest, after);
  }

  lemma Shift(whole: seq<Event>, before: seq<Event>, it: seq<Event>, rest: seq<Event>, after: seq<Event>)
    requires whole == before + (it + rest) && after == before + it
    ensures whole == after + rest
  {
  }

  lemma UnfoldAt(b: Backends, rounds: seq<Round>, n: nat)
    requires n < |rounds|
    ensures LoopTrace(b, rounds[n..])
      == IterationTrace(b, rounds[n]) + (if rounds[n].stop != NoStop then [] else LoopTrace(b, rounds[n + 1..]))
    ensures |Processed(rounds[n..])| == 1 + (if rounds[n].stop != NoStop then 0 else |Processed(rounds[n + 1..])|)
  {
    var rest := rounds[n..];
    assert rest[0] == rounds[n] && rest[1..] == rounds[n + 1..];
  }

  lemma NoStopsExtend(rounds: seq<Round>, n: nat)
    requires n < |rounds|
    ensures NoStops(rounds[..n + 1]) <==> NoStops(rounds[..n]) && rounds[n].stop == NoStop
  {
    assert rounds[..n + 1] == rounds[..n] + [rounds[n]];
  }

  lemma LoopEnd(b: Backends, rounds: seq<Round>)
    ensures LoopTrace(b, rounds[|rounds|..]) == [] && |Processed(rounds[|rounds|..])| == 0
    ensures rounds[..|rounds|] == rounds && NoStops(rounds[..0])
  {
    assert rounds[|rounds|..] == [];
  }

  /** Every reply answered with the job's own id. */
  predicate AllAnswered(id: JobId, replies: seq<Reply<JobId>>) {
    forall j :: 0 <= j < |replies| ==> replies[j] == Answered(id)
  }

  lemma AllAnsweredExtend(id: JobId, replies: seq<Reply<JobId>>, k: nat)
    requires k < |replies|
    ensures AllAnswered(id, replies[..k + 1]) <==> AllAnswered(id, replies[..k]) && replies[k] == Answered(id)
  {
    assert replies[..k + 1] == replies[..k] + [replies[k]];
  }

  // ---- the imperative frontend ----

  /**
   * `InterruptableSleep`. Each sleep installs a fresh, unresolved interrupt
   * promise and races it against the timer; `interrupt` resolves the current one.
   */
  class InterruptableSleep {
    /** A `sleep` call is awaiting its race. */
    var sleeping: bool
    /** The current interrupt promise has been resolved. */
    var interruptResolved: bool

    /** The initial interrupt promise is `Promise.resolve()`. */
    constructor ()
      ensures !sleeping && interruptResolved
    {
      sleeping := false;
      interruptResolved := true;
    }

    /** Start of `sleep`: a fresh interrupt promise, so no earlier interrupt counts. */
    method BeginSleep()
      modifies this
      ensures sleeping && !interruptResolved
    {
      interruptResolved := false;
      sleeping := true;
    }

    /** `interrupt`: resolve the current interrupt promise. */
    method Interrupt()
      modifies this
      ensures interruptResolved && sleeping == old(sleeping)
    {
      interruptResolved := true;
    }

    /**
     * End of `sleep`: the race settles on the interrupt promise if it was resolved
     * during the sleep, and on the timer otherwise.
     */
    method EndSleep() returns (cutShort: bool)
      requires sleeping
      modifies this
      ensures !sleeping && interruptResolved == old(interruptResolved)
      ensures cutShort == interruptResolved
    {
      sleeping := false;
      cutShort := interruptResolved;
    }
  }

  /** An interrupt sent while nothing sleeps is not remembered: the next sleep runs to its timer. */
  method InterruptIsNotRemembered() returns (cutShort: bool)
    ensures !cutShort
  {
    var s := new InterruptableSleep();
    s.Interrupt();
    s.BeginSleep();
    cutShort := s.EndSleep();
  }

  /** An interrupt sent during a sleep ends it before its timer. */
  method InterruptEndsSleep() returns (cutShort: bool)
    ensures cutShort
  {
    var s := new InterruptableSleep();
    s.BeginSleep();
    s.Interrupt();
    cutShort := s.EndSleep();
  }

  /** `JobQueueFrontend`. */
  class Frontend {
    var running: bool
    /** The `new_job` listener is registered with the coordinator. */
    var subscribed: bool
    /** The job the pending heartbeat timer will ping, if a timer is pending. */
    var pingArmed: Option<JobId>
    const sleeper: InterruptableSleep
    const backends: Backends
    ghost var trace: seq<Event>

    /** Between iterations no heartbeat is pending and nothing sleeps. */
    ghost predicate Idle()
      reads this, sleeper
    {
      pingArmed == None && !sleeper.sleeping
    }

    constructor (backends: Backends)
      ensures !running && !subscribed && trace == [] && this.backends == backends
      ensures Idle() && fresh(sleeper)
    {
      running := false;
      subscribed := false;
      pingArmed := None;
      this.backends := backends;
      sleeper := new InterruptableSleep();
      trace := [];
    }

    /** `start`: register the listener and mark the loop running (RunLoop is the loop). */
    method Start()
      modifies this
      ensures running && subscribed
      ensures pingArmed == old(pingArmed) && trace == old(trace)
    {
      subscribed := true;
      running := true;
    }

    /** `stop`: unregister the listener, clear `running` and interrupt the sleep. */
    method Stop()
      modifies this, sleeper
      ensures !running && !subscribed && sleeper.interruptResolved
      ensures sleeper.sleeping == old(sleeper.sleeping) && pingArmed == old(pingArmed) && trace == old(trace)
    {
      subscribed := false;
      running := false;
      sleeper.Interrupt();
    }

    /** `notifyNewJob`, delivered only while the listener is registered. */
    method NotifyNewJob()
      modifies sleeper
      ensures sleeper.interruptResolved == (old(sleeper.interruptResolved) || subscribed)
      ensures sleeper.sleeping == old(sleeper.sleeping)
    {
      if subscribed {
        sleeper.Interrupt();
      }
    }

    /**
     * `ping`, run when the heartbeat timer for `jobId` fires: the next timer is
     * armed exactly when the coordinator answers with the same id; another id or a
     * failure ends the chain.
     */
    method Ping(jobId: JobId, reply: Reply<JobId>)
      requires pingArmed == Some(jobId)
      modifies this
      ensures trace == old(trace) + [Event.Ping(jobId)]
      ensures pingArmed == Some(jobId) <==> reply == Answered(jobId)
      ensures pingArmed == Some(jobId) || pingArmed == None
      ensures running == old(running) && subscribed == old(subscribed)
    {
      trace := trace + [Event.Ping(jobId)];
      match reply
      case Answered(currentJobId) =>
        if currentJobId == jobId {
          pingArmed := Some(jobId);
        } else {
          pingArmed := None;
        }
      case TransportError =>
        pingArmed := None;
    }

    /** The heartbeat timers that fire while a job runs, one per answer, while the chain lasts. */
    method Heartbeat(jobId: JobId, replies: seq<Reply<JobId>>)
      requires pingArmed == Some(jobId)
      modifies this
      ensures trace == old(trace) + Heartbeats(jobId, replies)
      ensures pingArmed == Some(jobId) || pingArmed == None
      ensures pingArmed == Some(jobId) <==> forall j :: 0 <= j < |replies| ==> replies[j] == Answered(jobId)
      ensures running == old(running) && subscribed == old(subscribed)
    {
      var k := 0;
      while k < |replies| && pingArmed == Some(jobId)
        invariant 0 <= k <= |replies|
        invariant pingArmed == Some(jobId) || pingArmed == None
        invariant pingArmed == Some(jobId) <==> AllAnswered(jobId, replies[..k])
        invariant old(trace) + Heartbeats(jobId, replies)
          == trace + (if pingArmed == Some(jobId) then Heartbeats(jobId, replies[k..]) else [])
        invariant running == old(running) && subscribed == old(subscribed)
      {
        assert replies[k..][1..] == replies[k + 1..];
        Ping(jobId, replies[k]);
        AllAnsweredExtend(jobId, replies, k);
        k := k + 1;
      }
      assert replies[..|replies|] == replies;
    }

    /**
     * `processJob`: run the job and report it to `completeJob` exactly once, with
     * the result and an empty error or with no data and the thrown message. A
     * failing `completeJob` is swallowed. It rejects, calling nothing, only when
     * the job threw `undefined` or `null`.
     */
    method ProcessJob(job: Job, completion: Reply<()>) returns (rejected: bool)
      modifies this
      ensures rejected <==> CompletionOf(Process(backends, job)).None?
      ensures rejected ==> trace == old(trace)
      ensures !rejected ==> var c := CompletionOf(Process(backends, job)).value;
        trace == old(trace) + [Complete(job.id, c.data, c.error)]
      ensures running == old(running) && subscribed == old(subscribed) && pingArmed == old(pingArmed)
    {
      match CompletionOf(Process(backends, job))
      case None =>
        rejected := true;
      case Some(c) =>
        trace := trace + [Complete(job.id, c.data, c.error)];
        rejected := false;
    }

    /**
     * Sleep for the fetch interval, or less if an interrupt arrives meanwhile: a
     * `stop()` landing during the sleep, or a notification while subscribed.
     */
    method SleepRound(r: Round)
      requires !sleeper.sleeping && pingArmed == None
      modifies this, sleeper
      ensures trace == old(trace) + [Slept(r.stop == WhileSleeping || (r.notified && old(subscribed)))]
      ensures Idle()
      ensures running == (old(running) && r.stop != WhileSleeping)
      ensures subscribed == (old(subscribed) && r.stop != WhileSleeping)
    {
      sleeper.BeginSleep();
      if r.stop == WhileSleeping {
        Stop();
      } else if r.notified {
        NotifyNewJob();
      }
      var cutShort := sleeper.EndSleep();
      trace := trace + [Slept(cutShort)];
    }

    /** One pass of the body of `runLoop`'s `while (this.running)`. */
    method RunIteration(r: Round)
      requires running && subscribed && Idle()
      modifies this, sleeper
      ensures Idle()
      ensures trace == old(trace) + IterationTrace(backends, r)
      ensures running == (r.stop == NoStop) && subscribed == (r.stop == NoStop)
    {
      trace := trace + [GetJob];
      if r.stop == WhileClaiming {
        Stop();
      }
      match r.claim {
        case Answered(Some(job)) =>
          pingArmed := Some(job.id);
          if r.stop == WhileProcessing {
            Stop();
          }
          Heartbeat(job.id, r.heartbeats);
          var rejected := ProcessJob(job, r.completion);
          pingArmed := None;
          if rejected {
            // runLoop's catch: clear the heartbeat timer and sleep
            SleepRound(r);
          } else if r.stop == WhileSleeping {
            Stop();
          }
        case Answered(None) =>
          SleepRound(r);
          if r.stop == WhileProcessing {
            Stop();
          }
        case TransportError =>
          pingArmed := None;
          SleepRound(r);
          if r.stop == WhileProcessing {
            Stop();
          }
      }
    }

    /** What holds of the frontend after n iterations of RunLoop over `rounds`, begun with trace t0. */
    ghost predicate LoopInvariant(rounds: seq<Round>, n: nat, t0: seq<Event>)
      reads this, sleeper
    {
      n <= |rounds| && Idle() && subscribed == running &&
      (running <==> NoStops(rounds[..n])) &&
      t0 + LoopTrace(backends, rounds) == trace + (if running then LoopTrace(backends, rounds[n..]) else []) &&
      |Processed(rounds)| == n + (if running then |Processed(rounds[n..])| else 0)
    }

    /** One turn of `runLoop`'s `while`, keeping the loop invariant. */
    method LoopTurn(rounds: seq<Round>, n: nat, ghost t0: seq<Event>)
      requires LoopInvariant(rounds, n, t0) && running && n < |rounds|
      modifies this, sleeper
      ensures LoopInvariant(rounds, n + 1, t0)
    {
      ghost var before := trace;
      RunIteration(rounds[n]);
      LoopInvariantStep(backends, rounds, n, t0, before, trace);
    }

    /**
     * `runLoop`: iterate while `running`. It runs exactly the rounds up to the one
     * in which `stop()` lands, so no `getJob` is issued once `stop` has returned;
     * it keeps running through empty queues and coordinator failures.
     */
    method RunLoop(rounds: seq<Round>) returns (n: nat)
      requires running && subscribed && Idle()
      modifies this, sleeper
      ensures Idle()
      ensures trace == old(trace) + LoopTrace(backends, rounds)
      ensures n == |Processed(rounds)|
      ensures running <==> NoStops(rounds)
      ensures subscribed == running
    {
      n := 0;
      LoopEnd(backends, rounds);
      assert rounds[0..] == rounds;
      while running && n < |rounds|
        invariant LoopInvariant(rounds, n, old(trace))
      {
        LoopTurn(rounds, n, old(trace));
        n := n + 1;
      }
      if running {
        assert rounds[..n] == rounds;
      } else {
        assert !NoStops(rounds) by {
          assert !NoStops(rounds[..n]);
          assert forall j :: 0 <= j < n ==> rounds[..n][j] == rounds[j];
        }
      }
    }
  }
}

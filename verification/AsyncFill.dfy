/** Filling a buffer from an asynchronous stream (source/async_stream.c).

The job reads in a loop; when a read is not done yet it leaves a callback on the read's future and the loop resumes
from that callback, on whatever thread completed the read. How the stream answers its reads is a list of results:
every finite run uses finitely many, and a read past the end of the list never completes.
*/
module AsyncFill {
  import opened Basics
  import opened Traces

  type Byte = int

  /** A read appends what fits of `bytes` and then completes with an error, or with whether this was the end. */
  datatype ReadResult = ReadResult(bytes: seq<Byte>, eof: bool, error: int)

  datatype Outcome = ShortBuffer | Failed(error: int) | Filled(eof: bool)

  // ----- The plain loop -----

  /** Where a synchronous loop stands after some reads. */
  datatype Progress = Progress(dest: seq<Byte>, outcome: Option<Outcome>)

  function Appended(dest: seq<Byte>, capacity: nat, r: ReadResult): (d: seq<Byte>)
    requires |dest| <= capacity
    ensures |d| <= capacity && dest <= d
  {
    dest + r.bytes[..Min(|r.bytes|, capacity - |dest|)]
  }

  function Judge(dest: seq<Byte>, capacity: nat, r: ReadResult): Option<Outcome> {
    if r.error != 0 then Some(Failed(r.error))
    else if r.eof then Some(Filled(true))
    else if |dest| == capacity then Some(Filled(false))
    else None
  }

  /** The first `k` rounds of: read; stop on an error, at the end, or when the buffer is full. */
  function AfterReads(stream: seq<ReadResult>, start: seq<Byte>, capacity: nat, k: nat): (p: Progress)
    requires k <= |stream| && |start| <= capacity
    ensures |p.dest| <= capacity
  {
    if k == 0 then Progress(start, None)
    else
      var p := AfterReads(stream, start, capacity, k - 1);
      if p.outcome.Some? then p
      else
        var dest := Appended(p.dest, capacity, stream[k - 1]);
        Progress(dest, Judge(dest, capacity, stream[k - 1]))
  }

  // ----- The job -----

  /** The future of the read under way. */
  datatype Read = Pending | Complete(result: ReadResult)

  /** Looping: on some thread, in the loop. Suspended: a callback is on the read's future. Resuming: the read has
      completed and its callback is about to run. Freed: the job is over. */
  datatype Phase = Looping | Suspended | Resuming | Freed

  datatype Job = Job(
    stream: seq<ReadResult>,
    capacity: nat,
    start: seq<Byte>,
    dest: seq<Byte>,
    issued: nat,                  // reads asked of the stream
    finished: nat,                // reads that completed
    step: Option<Read>,
    phase: Phase,
    fullReads: nat,               // reads started on a full buffer
    completions: seq<Outcome>,    // settings of the completion future
    freed: nat)

  datatype Action = StartRead | Poll | CompleteRead | Resume

  predicate Init(j: Job) {
    && |j.start| < j.capacity
    && j == Job(j.stream, j.capacity, j.start, j.start, 0, 0, None, Looping, 0, [], 0)
  }

  predicate Enabled(j: Job, x: Action) {
    match x
    case StartRead => j.phase.Looping? && j.step.None?
    case Poll => j.phase.Looping? && j.step.Some?
    case CompleteRead => j.step == Some(Pending) && j.finished < |j.stream| && |j.dest| <= j.capacity
    case Resume => j.phase.Resuming?
  }

  /** register_callback_if_not_done on the read's future, and what the loop does with a read that is done. */
  function AfterPoll(j: Job): Job
    requires j.step.Some?
  {
    match j.step.value
    case Pending => j.(phase := Suspended)
    case Complete(r) =>
      var outcome := Judge(j.dest, j.capacity, r);
      if outcome.Some? then
        j.(step := None, phase := Freed, completions := j.completions + [outcome.value], freed := j.freed + 1)
      else j.(step := None)
  }

  function Next(j: Job, x: Action): Job
    requires Enabled(j, x)
  {
    match x
    case StartRead =>
      j.(issued := j.issued + 1,
         step := Some(Pending),
         fullReads := if |j.dest| == j.capacity then j.fullReads + 1 else j.fullReads)
    case Poll => AfterPoll(j)
    case CompleteRead =>
      var r := j.stream[j.finished];
      j.(dest := Appended(j.dest, j.capacity, r),
         finished := j.finished + 1,
         step := Some(Complete(r)),
         phase := if j.phase.Suspended? then Resuming else j.phase)
    case Resume => j.(phase := Looping)
  }

  ghost predicate Step(j: Job, i: Job) {
    exists x :: Enabled(j, x) && i == Next(j, x)
  }

  // ----- Invariant -----

  function Reference(j: Job): Progress
    requires j.finished <= |j.stream| && |j.start| <= j.capacity
  {
    AfterReads(j.stream, j.start, j.capacity, j.finished)
  }

  predicate Shape(j: Job) {
    && j.finished <= |j.stream| && |j.start| < j.capacity && |j.dest| <= j.capacity
    && j.issued == j.finished + (if j.step == Some(Pending) then 1 else 0)
    && j.fullReads == 0
    && (j.phase.Suspended? ==> j.step == Some(Pending))
    && (j.phase.Resuming? ==> j.step.Some? && j.step.value.Complete?)
    && (j.phase.Freed? ==> j.step.None?)
    && j.freed == (if j.phase.Freed? then 1 else 0)
    && |j.completions| == j.freed
  }

  /** The job is where the plain loop is after as many reads. */
  predicate Agrees(j: Job)
    requires Shape(j)
  {
    && j.dest == Reference(j).dest
    && (j.phase.Freed? ==> Reference(j).outcome == Some(j.completions[0]))
    && (!j.phase.Freed? && (j.step.None? || j.step == Some(Pending)) ==>
          Reference(j).outcome.None? && |j.dest| < j.capacity)
    && (j.step.Some? && j.step.value.Complete? ==>
          Reference(j).outcome == Judge(j.dest, j.capacity, j.step.value.result))
    && (j.finished > 0 ==> AfterReads(j.stream, j.start, j.capacity, j.finished - 1).outcome.None?)
    && (j.phase.Freed? || (j.step.Some? && j.step.value.Complete?) ==> j.finished > 0)
  }

  predicate Inv(j: Job) {
    Shape(j) && Agrees(j)
  }

  lemma {:induction false} StepKeepsInv(j: Job, i: Job)
    requires Inv(j) && Step(j, i)
    ensures Inv(i)
  {
    var x :| Enabled(j, x) && i == Next(j, x);
  }

  lemma {:induction false} ReachableInv(j: Job)
    requires Reachable(Init, Step, j)
    ensures Inv(j)
  {
    forall i, k | Inv(i) && Step(i, k) ensures Inv(k) {
      StepKeepsInv(i, k);
    }
    ReachableInvariant(Init, Step, Inv, j);
  }

  // ----- Main results -----

  /** Whichever reads complete at once or later, the buffer and the outcome are those of the plain loop after as many
      reads; the completion future is set once and the job freed once, both at the end. */
  lemma {:induction false} FillMatchesPlainLoop(j: Job)
    requires Reachable(Init, Step, j)
    ensures j.finished <= |j.stream| && |j.start| <= j.capacity
    ensures j.dest == AfterReads(j.stream, j.start, j.capacity, j.finished).dest
    ensures j.phase.Freed? <==> j.completions != []
    ensures j.phase.Freed? ==> AfterReads(j.stream, j.start, j.capacity, j.finished).outcome == Some(j.completions[0])
    ensures j.freed == |j.completions| <= 1
  {
    ReachableInv(j);
  }

  /** All the bytes of the first `k` reads, whether or not they fit. */
  function Brought(stream: seq<ReadResult>, k: nat): seq<Byte>
    requires k <= |stream|
  {
    if k == 0 then [] else Brought(stream, k - 1) + stream[k - 1].bytes
  }

  /** Nothing about the `i`th read is a reason to stop. */
  predicate GoesOn(stream: seq<ReadResult>, start: seq<Byte>, capacity: nat, i: nat)
    requires i < |stream|
  {
    stream[i].error == 0 && !stream[i].eof && |start| + |Brought(stream, i + 1)| < capacity
  }

  lemma {:induction false} PlainLoopStopsWhen(stream: seq<ReadResult>, start: seq<Byte>, capacity: nat, k: nat)
    requires k <= |stream| && |start| < capacity && AfterReads(stream, start, capacity, k).outcome.None?
    ensures forall i :: 0 <= i < k ==> GoesOn(stream, start, capacity, i)
    ensures AfterReads(stream, start, capacity, k).dest == start + Brought(stream, k)
    ensures |start| + |Brought(stream, k)| < capacity
  {
    if k > 0 {
      PlainLoopStopsWhen(stream, start, capacity, k - 1);
      var dest := AfterReads(stream, start, capacity, k - 1).dest;
      assert Appended(dest, capacity, stream[k - 1]) == dest + stream[k - 1].bytes;
      assert dest + stream[k - 1].bytes == start + (Brought(stream, k - 1) + stream[k - 1].bytes);
    }
  }

  lemma {:induction false} LastReadFills(start: seq<Byte>, before: seq<Byte>, bytes: seq<Byte>, room: nat)
    requires |before| < room
    ensures start + before + bytes[..Min(|bytes|, room - |before|)] ==
            start + (before + bytes)[..Min(|before + bytes|, room)]
  {
  }

  /** What a job does, from the stream and the buffer alone: the buffer gets the bytes of the reads in order, cut off
      where it is full. The job goes on to another read only after one without an error that was not the end and left
      room. A job that is over failed exactly when its last read did, with that error; it reports the end exactly when
      its last read did, and otherwise that the buffer is full. */
  lemma {:induction false} FillEndsExactlyWhen(j: Job)
    requires Reachable(Init, Step, j)
    ensures j.finished <= |j.stream| && |j.start| < j.capacity
    ensures var all := Brought(j.stream, j.finished);
            j.dest == j.start + all[..Min(|all|, j.capacity - |j.start|)]
    ensures forall i :: 0 <= i < j.finished - 1 ==> GoesOn(j.stream, j.start, j.capacity, i)
    ensures j.phase.Freed? ==> j.finished > 0
    ensures j.phase.Freed? ==>
              var last := j.stream[j.finished - 1];
              && (forall e :: j.completions == [Failed(e)] <==> last.error == e != 0)
              && (j.completions == [Filled(true)] <==> last.error == 0 && last.eof)
              && (j.completions == [Filled(false)] <==>
                    && last.error == 0 && !last.eof
                    && |j.start| + |Brought(j.stream, j.finished)| >= j.capacity)
              && !GoesOn(j.stream, j.start, j.capacity, j.finished - 1)
    ensures j.issued > j.finished && j.finished > 0 ==> GoesOn(j.stream, j.start, j.capacity, j.finished - 1)
  {
    ReachableInv(j);
    if j.finished > 0 {
      var k := j.finished - 1;
      PlainLoopStopsWhen(j.stream, j.start, j.capacity, k);
      LastReadFills(j.start, Brought(j.stream, k), j.stream[k].bytes, j.capacity - |j.start|);
    }
  }

  /** At most one read is outstanding, none once the job is over, and none is started on a full buffer. */
  lemma {:induction false} OneReadAtATime(j: Job)
    requires Reachable(Init, Step, j)
    ensures j.finished <= j.issued <= j.finished + 1
    ensures j.phase.Freed? ==> j.issued == j.finished
    ensures j.fullReads == 0 && (Enabled(j, StartRead) ==> |j.dest| < j.capacity)
  {
    ReachableInv(j);
  }

  /** The plain loop stays where it stopped, so a finished job has the outcome of the loop run to its end. */
  lemma {:induction false} StoppedLoopStays(stream: seq<ReadResult>, start: seq<Byte>, capacity: nat, k: nat, n: nat)
    requires k <= n <= |stream| && |start| <= capacity
    requires AfterReads(stream, start, capacity, k).outcome.Some?
    ensures AfterReads(stream, start, capacity, n) == AfterReads(stream, start, capacity, k)
  {
    if k < n {
      StoppedLoopStays(stream, start, capacity, k, n - 1);
    }
  }

  /** Two runs of the job over the same stream, however scheduled, end the same. */
  lemma {:induction false} ScheduleDoesNotMatter(i: Job, j: Job)
    requires Reachable(Init, Step, i) && Reachable(Init, Step, j) && i.phase.Freed? && j.phase.Freed?
    requires i.stream == j.stream && i.start == j.start && i.capacity == j.capacity
    ensures i.dest == j.dest && i.completions == j.completions
  {
    ReachableInv(i);
    ReachableInv(j);
    if i.finished <= j.finished {
      StoppedLoopStays(i.stream, i.start, i.capacity, i.finished, j.finished);
    } else {
      StoppedLoopStays(i.stream, i.start, i.capacity, j.finished, i.finished);
    }
  }

  /** The job is never stuck: unless it is over, or waits for a read the stream never answers, it can go on. */
  lemma {:induction false} JobIsNeverStuck(j: Job)
    requires Reachable(Init, Step, j) && !j.phase.Freed?
    ensures (exists x :: Enabled(j, x)) || (j.phase.Suspended? && j.issued == |j.stream| + 1)
  {
    ReachableInv(j);
    match j.phase
    case Looping => assert if j.step.None? then Enabled(j, StartRead) else Enabled(j, Poll);
    case Resuming => assert Enabled(j, Resume);
    case Suspended => assert j.finished < |j.stream| ==> Enabled(j, CompleteRead);
  }

  /** Every read brings at least a byte, the end, or an error. */
  predicate MakesProgress(stream: seq<ReadResult>) {
    forall i :: 0 <= i < |stream| ==> stream[i].bytes != [] || stream[i].eof || stream[i].error != 0
  }

  predicate WillEnd(j: Job) {
    j.step.Some? && j.step.value.Complete? && Judge(j.dest, j.capacity, j.step.value.result).Some?
  }

  /** Steps left, at most. */
  function Remaining(j: Job): int {
    if j.phase.Freed? then 0
    else
      6 * (j.capacity - |j.dest|) +
      match j.phase {
        case Looping => if j.step.None? then 5 else if j.step == Some(Pending) then 4 else if WillEnd(j) then 1 else 6
        case Suspended => 3
        case Resuming => if WillEnd(j) then 2 else 7
        case Freed => 0
      }
  }

  /** With a stream that makes progress every step brings the job closer to its end, so it ends after at most six
      steps for each byte of room, and a few. */
  lemma {:induction false} FillTerminates(j: Job, i: Job)
    requires Reachable(Init, Step, j) && Step(j, i) && MakesProgress(j.stream)
    ensures 0 <= Remaining(i) < Remaining(j)
    ensures Init(j) ==> Remaining(j) == 6 * (j.capacity - |j.start|) + 5
  {
    ReachableInv(j);
    StepKeepsInv(j, i);
    var x :| Enabled(j, x) && i == Next(j, x);
    if x.CompleteRead? {
      var r := j.stream[j.finished];
      assert |j.dest| < j.capacity;
      assert r.bytes != [] ==> |i.dest| > |j.dest|;
    }
  }

  /** One more step of a run. */
  lemma {:induction false} StepReaches(j: Job, i: Job, x: Action)
    requires Reaches(Step, j, i) && Inv(i) && Enabled(i, x)
    ensures Reaches(Step, j, Next(i, x)) && Inv(Next(i, x))
  {
    assert Step(i, Next(i, x));
    ReachesStep(Step, j, i, Next(i, x));
    StepKeepsInv(i, Next(i, x));
  }

  // ----- The loop of the code -----

  class FillJob {
    const stream: seq<ReadResult>
    const capacity: nat
    var dest: seq<Byte>
    var readStepFuture: Option<Read>
    var finished: nat                     // how far the stream has got
    var completions: seq<Outcome>         // what the completion future was set to
    ghost const start: seq<Byte>
    ghost var issued: nat
    ghost var phase: Phase
    ghost var fullReads: nat
    ghost var freed: nat

    ghost function View(): Job
      reads this
    {
      Job(stream, capacity, start, dest, issued, finished, readStepFuture, phase, fullReads, completions, freed)
    }

    constructor (stream: seq<ReadResult>, dest: seq<Byte>, capacity: nat)
      requires |dest| < capacity
      ensures Init(View()) && this.stream == stream && start == dest && this.capacity == capacity
    {
      this.stream, this.capacity, this.dest, start := stream, capacity, dest, dest;
      readStepFuture, finished, completions := None, 0, [];
      issued, phase, fullReads, freed := 0, Looping, 0, 0;
    }

    /** The stream finishes the read under way. */
    method CompleteRead()
      requires Enabled(View(), Action.CompleteRead)
      modifies this
      ensures View() == Next(old(View()), Action.CompleteRead)
    {
      var r := stream[finished];
      dest := dest + r.bytes[..Min(|r.bytes|, capacity - |dest|)];
      finished := finished + 1;
      readStepFuture := Some(Complete(r));
      phase := if phase.Suspended? then Resuming else phase;
    }

    /** Another thread, or the stream itself, may complete the read under way. */
    method MaybeComplete()
      requires Inv(View())
      modifies this
      ensures Inv(View()) && Reaches(Step, old(View()), View())
      ensures || View() == old(View())
              || (Enabled(old(View()), Action.CompleteRead) && View() == Next(old(View()), Action.CompleteRead))
    {
      ReachesRefl(Step, View());
      var now: bool := *;
      if now && readStepFuture == Some(Pending) && finished < |stream| {
        StepReaches(View(), View(), Action.CompleteRead);
        CompleteRead();
      }
    }

    /** aws_async_input_stream_read */
    method StartRead()
      requires Enabled(View(), Action.StartRead)
      modifies this
      ensures View() == Next(old(View()), Action.StartRead)
    {
      fullReads := if |dest| == capacity then fullReads + 1 else fullReads;
      readStepFuture := Some(Pending);
      issued := issued + 1;
    }

    /** The first half of a round: register on a read that is not done, or see what a finished one means. */
    method ProcessRead() returns (goOn: bool)
      requires Enabled(View(), Poll)
      modifies this
      ensures View() == Next(old(View()), Poll) && (goOn <==> phase.Looping?)
    {
      if readStepFuture.value.Pending? {
        phase := Suspended;
        return false;
      }
      var r := readStepFuture.value.result;
      var reachedCapacity := |dest| == capacity;
      readStepFuture := None;
      if r.error != 0 || r.eof || reachedCapacity {
        completions := completions + [if r.error != 0 then Failed(r.error) else Filled(r.eof)];
        phase, freed := Freed, freed + 1;
        return false;
      }
      return true;
    }

    /** s_async_stream_fill_job_loop: returns when the job is over or waits for a callback. */
    method Loop()
      requires Inv(View()) && phase.Looping?
      modifies this
      ensures Inv(View()) && Reaches(Step, old(View()), View())
      ensures phase.Freed? || phase.Suspended?
    {
      ReachesRefl(Step, View());
      while true
        invariant Inv(View()) && phase.Looping? && Reaches(Step, old(View()), View())
        decreases |stream| - finished, if readStepFuture == Some(Pending) then 0 else 1
      {
        ghost var before := View();
        MaybeComplete();
        ReachesTrans(Step, old(View()), before, View());
        if readStepFuture.Some? {
          StepReaches(old(View()), View(), Poll);
          var goOn := ProcessRead();
          if !goOn {
            return;
          }
        }
        StepReaches(old(View()), View(), Action.StartRead);
        StartRead();
      }
    }

    /** The stream completes a read whose callback is registered: the loop resumes on this thread. */
    method CompletePending()
      requires Inv(View()) && phase.Suspended? && finished < |stream|
      modifies this
      ensures Inv(View()) && Reaches(Step, old(View()), View())
      ensures phase.Freed? || phase.Suspended?
      ensures finished > old(finished)
    {
      ReachesRefl(Step, View());
      StepReaches(View(), View(), Action.CompleteRead);
      CompleteRead();
      StepReaches(old(View()), View(), Resume);
      phase := Looping;
      ghost var before := View();
      Loop();
      ReachesTrans(Step, old(View()), before, View());
      SetupStays(before, View());
    }
  }

  /** aws_async_input_stream_read_to_fill: a full buffer is an error at once, without a job. */
  method ReadToFill(stream: seq<ReadResult>, dest: seq<Byte>, capacity: nat)
    returns (job: FillJob?, atOnce: Option<Outcome>)
    requires |dest| <= capacity
    ensures |dest| == capacity ==> job == null && atOnce == Some(ShortBuffer)
    ensures |dest| < capacity ==> job != null && fresh(job) && atOnce.None?
    ensures |dest| < capacity ==>
              && Reachable(Init, Step, job.View()) && job.stream == stream && job.start == dest
              && (job.phase.Freed? || job.phase.Suspended?)
  {
    if |dest| == capacity {
      return null, Some(ShortBuffer);
    }
    job := new FillJob(stream, dest, capacity);
    assert Inv(job.View());
    job.Loop();
    atOnce := None;
  }

  predicate LaterThan(j: Job, i: Job) {
    j.finished <= i.finished && j.stream == i.stream && j.start == i.start && j.capacity == i.capacity
  }

  lemma {:induction false} SetupStays(j: Job, i: Job)
    requires Reaches(Step, j, i)
    ensures LaterThan(j, i)
  {
    forall k, m | Step(k, m) ensures LaterThan(k, m) {
      var x :| Enabled(k, x) && m == Next(k, x);
    }
    ReachesBound(Step, _ => true, LaterThan, j, i);
  }
}

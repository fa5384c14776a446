/** The write queue of a socket (source/posix/socket.c).

Requests wait in `unsent` until the kernel has taken all their bytes, then in `written` until a task on the event
loop calls their completion. Completions may write again or close the socket; a close delivers everything that is
still queued before it returns. Sending never calls back, so a write and a writable event are single steps; the
kernel's answers are parameters, and running out of them stands for a send that would block.

A close takes the event loop out of the socket before it calls the first completion, and a write asks that loop for
its thread before it looks at anything else. A write to a closed socket therefore follows a null pointer: it is a
step to a state in which the program has crashed and nothing more happens.
*/
module SocketWrite {
  import opened Basics
  import opened Traces

  const SOCKET_CLOSED: Error := 1051

  type Byte = int

  type Error = x: int | x != 0 witness 1

  datatype Request = Request(id: nat, data: seq<Byte>, sent: nat, error: int)

  /** What a call of send() comes back with. */
  datatype Kernel = Sent(n: nat) | Again | Pipe | Failed(error: Error)

  datatype Queues = Queues(unsent: seq<Request>, written: seq<Request>, wire: seq<Byte>)

  datatype Outcome = Outcome(q: Queues, fatal: Option<Error>)

  datatype State = State(
    q: Queues,
    open: bool,
    connected: bool,              // the write direction has not been shut down
    scheduled: bool,              // the completion task is scheduled
    covered: nat,                 // requests at the front of `written` that a running task or close will complete
    broken: bool,                 // a send failed for good
    nextId: nat,
    accepted: seq<nat>,           // writes that returned success
    refused: seq<nat>,            // writes that returned an error
    completed: seq<Request>,      // completion calls
    crashed: bool)                // the missing event loop of a closed socket was used

  datatype Action =
    | Write(data: seq<Byte>, kernel: seq<Kernel>)
    | Writable(kernel: seq<Kernel>)
    | ShutdownWrite
    | StartTask
    | CompleteWritten
    | StartClose
    | CompleteUnsent

  predicate Init(s: State) {
    s == State(Queues([], [], []), true, true, false, 0, false, 0, [], [], [], false)
  }

  // ----- Sending -----

  /** The kernel took `n` bytes of the front request. */
  function SendSome(q: Queues, n: nat): (r: Queues)
    requires q.unsent != [] && q.unsent[0].sent <= |q.unsent[0].data|
  {
    var front := q.unsent[0];
    var k := Min(n, |front.data| - front.sent);
    var after := front.(sent := front.sent + k);
    var wire := q.wire + front.data[front.sent..front.sent + k];
    if after.sent == |front.data| then
      Queues(q.unsent[1..], q.written + [after.(error := 0)], wire)
    else
      Queues([after] + q.unsent[1..], q.written, wire)
  }

  predicate Started(rs: seq<Request>) {
    forall i :: 0 <= i < |rs| ==> rs[i].sent <= |rs[i].data|
  }

  /** Keep sending until the queue is empty, the kernel would block, or a send fails for good. */
  function SendAll(q: Queues, kernel: seq<Kernel>): (r: Outcome)
    requires Started(q.unsent)
    ensures r.fatal.Some? ==> r.q.unsent != []
    decreases |kernel|
  {
    if q.unsent == [] || kernel == [] then Outcome(q, None)
    else
      match kernel[0]
      case Again => Outcome(q, None)
      case Pipe => Outcome(q, Some(SOCKET_CLOSED))
      case Failed(error) => Outcome(q, Some(error))
      case Sent(n) => SendAll(SendSome(q, n), kernel[1..])
  }

  /** Of the first `n` unsent requests, those that are failed when a send fails for good: all but the one whose
      caller is told right away. */
  function PurgedTo(unsent: seq<Request>, n: nat, parent: Option<nat>, error: Error): (r: seq<Request>)
    requires n <= |unsent|
    ensures |r| <= n
  {
    if n == 0 then []
    else if parent == Some(unsent[n - 1].id) then PurgedTo(unsent, n - 1, parent, error)
    else PurgedTo(unsent, n - 1, parent, error) + [unsent[n - 1].(error := error)]
  }

  function Purged(unsent: seq<Request>, parent: Option<nat>, error: Error): seq<Request> {
    PurgedTo(unsent, |unsent|, parent, error)
  }

  predicate Contains(rs: seq<Request>, id: nat) {
    exists i :: 0 <= i < |rs| && rs[i].id == id
  }

  /** s_process_socket_write_requests */
  function Processed(s: State, kernel: seq<Kernel>, parent: Option<nat>): State
    requires Started(s.q.unsent)
  {
    var o := SendAll(s.q, kernel);
    var q :=
      if o.fatal.Some? then Queues([], o.q.written + Purged(o.q.unsent, parent, o.fatal.value), o.q.wire) else o.q;
    s.(q := q,
       broken := s.broken || o.fatal.Some?,
       scheduled := s.scheduled || |q.written| > |s.q.written|)
  }

  predicate ParentFailed(s: State, kernel: seq<Kernel>, parent: nat)
    requires Started(s.q.unsent)
  {
    var o := SendAll(s.q, kernel);
    o.fatal.Some? && Contains(o.q.unsent, parent)
  }

  /** aws_socket_write */
  function AfterWrite(s: State, data: seq<Byte>, kernel: seq<Kernel>): State
    requires Started(s.q.unsent)
  {
    var id := s.nextId;
    if !s.open then s.(crashed := true)
    else if !s.connected then s.(nextId := id + 1, refused := s.refused + [id])
    else
      var pushed := s.(q := s.q.(unsent := s.q.unsent + [Request(id, data, 0, 0)]), nextId := id + 1);
      var after := Processed(pushed, kernel, Some(id));
      if ParentFailed(pushed, kernel, id) then after.(refused := s.refused + [id])
      else after.(accepted := s.accepted + [id])
  }

  predicate Enabled(s: State, x: Action) {
    !s.crashed &&
    match x
    case Write(_, _) => Started(s.q.unsent)
    case Writable(_) => s.open && Started(s.q.unsent)
    case ShutdownWrite => s.open
    case StartTask => s.scheduled
    case CompleteWritten => s.covered > 0 && s.q.written != []
    case StartClose => s.open
    case CompleteUnsent => !s.open && s.q.written == [] && s.q.unsent != []
  }

  function Next(s: State, x: Action): State
    requires Enabled(s, x)
  {
    match x
    case Write(data, kernel) => AfterWrite(s, data, kernel)
    case Writable(kernel) => Processed(s, kernel, None)
    case ShutdownWrite => s.(connected := false)
    case StartTask => s.(scheduled := false, covered := |s.q.written|)
    case CompleteWritten =>
      s.(q := s.q.(written := s.q.written[1..]),
         covered := s.covered - 1,
         completed := s.completed + [s.q.written[0]])
    case StartClose => s.(open := false, connected := false, scheduled := false, covered := |s.q.written|)
    case CompleteUnsent =>
      s.(q := s.q.(unsent := s.q.unsent[1..]),
         completed := s.completed + [s.q.unsent[0].(error := SOCKET_CLOSED)])
  }

  ghost predicate Step(s: State, t: State) {
    exists x :: Enabled(s, x) && t == Next(s, x)
  }

  // ----- Order -----

  /** The two queues as one line: what waits for its completion comes before what waits to be sent. */
  function QueueLine(q: Queues): seq<Request> {
    q.written + q.unsent
  }

  function Line(s: State): seq<Request> {
    s.completed + QueueLine(s.q)
  }

  predicate HaveIds(rs: seq<Request>, ids: seq<nat>) {
    |rs| == |ids| && forall i :: 0 <= i < |rs| ==> rs[i].id == ids[i]
  }

  predicate SameIds(a: seq<Request>, b: seq<Request>) {
    |a| == |b| && forall i :: 0 <= i < |a| ==> a[i].id == b[i].id
  }

  /** Accepted writes are completed, then waiting for completion, then unsent, in the order they were made. */
  predicate InOrder(s: State) {
    HaveIds(Line(s), s.accepted)
  }

  ghost predicate Increasing(ids: seq<nat>, bound: nat) {
    && (forall i, j :: 0 <= i < j < |ids| ==> ids[i] < ids[j])
    && (forall i :: 0 <= i < |ids| ==> ids[i] < bound)
  }

  ghost predicate Disjoint(a: seq<nat>, b: seq<nat>) {
    forall i, j :: 0 <= i < |a| && 0 <= j < |b| ==> a[i] != b[j]
  }

  ghost predicate NumbersFit(accepted: seq<nat>, refused: seq<nat>, next: nat) {
    && Increasing(accepted, next) && Disjoint(accepted, refused)
    && forall i :: 0 <= i < |refused| ==> refused[i] < next
  }

  ghost predicate Numbered(s: State) {
    NumbersFit(s.accepted, s.refused, s.nextId)
  }

  /** Nothing waits for completion without a task that is scheduled or running. */
  predicate Awake(s: State) {
    && s.covered <= |s.q.written|
    && (|s.q.written| > s.covered ==> s.scheduled)
    && (!s.open ==> s.covered == |s.q.written| && !s.scheduled && !s.connected)
    && (s.crashed ==> !s.open)
  }

  // ----- Bytes -----

  /** What was sent of the first `n` requests. */
  function Bytes(rs: seq<Request>, n: nat): seq<Byte>
    requires n <= |rs| && Started(rs)
  {
    if n == 0 then [] else Bytes(rs, n - 1) + rs[n - 1].data[..rs[n - 1].sent]
  }

  /** Something is left to be sent, if it is only the sending of nothing at all. */
  predicate Unfinished(rs: seq<Request>) {
    forall i :: 0 <= i < |rs| ==> rs[i].sent < |rs[i].data| || rs[i].data == []
  }

  predicate FrontOnly(unsent: seq<Request>) {
    && Started(unsent) && Unfinished(unsent)
    && (forall i :: 0 < i < |unsent| ==> unsent[i].sent == 0)
  }

  /** A request is reported as a success when it was sent in full, and only then; one without any bytes may be reported
      either way. */
  predicate Honest(rs: seq<Request>) {
    && Started(rs)
    && (forall i :: 0 <= i < |rs| && rs[i].error == 0 ==> rs[i].sent == |rs[i].data|)
    && (forall i :: 0 <= i < |rs| && rs[i].error != 0 ==> rs[i].sent < |rs[i].data| || rs[i].data == [])
  }

  predicate OnlyClosed(rs: seq<Request>) {
    forall i :: 0 <= i < |rs| ==> rs[i].error == 0 || rs[i].error == SOCKET_CLOSED
  }

  predicate NoErrors(rs: seq<Request>) {
    forall i :: 0 <= i < |rs| ==> rs[i].error == 0
  }

  predicate OnTheWire(wire: seq<Byte>, line: seq<Request>) {
    Started(line) && wire == Bytes(line, |line|)
  }

  predicate SendingOk(s: State) {
    && FrontOnly(s.q.unsent) && Honest(s.completed) && Honest(s.q.written)
    && (!s.broken ==> OnTheWire(s.q.wire, Line(s)) && NoErrors(s.q.written) && OnlyClosed(s.completed))
    && (!s.broken && s.open ==> NoErrors(s.completed))
  }

  ghost predicate Inv(s: State) {
    InOrder(s) && Numbered(s) && Awake(s) && SendingOk(s)
  }

  // ----- Lemmas about bytes -----

  predicate SameBytes(a: Request, b: Request) {
    a.data == b.data && a.sent == b.sent
  }

  lemma {:induction false} BytesAgree(a: seq<Request>, b: seq<Request>, n: nat)
    requires n <= |a| && n <= |b| && Started(a) && Started(b)
    requires forall i :: 0 <= i < n ==> SameBytes(a[i], b[i])
    ensures Bytes(a, n) == Bytes(b, n)
  {
    if n > 0 {
      BytesAgree(a, b, n - 1);
    }
  }

  lemma {:induction false} BytesOfUntouched(rs: seq<Request>, p: nat, n: nat)
    requires p <= n <= |rs| && Started(rs) && forall i :: p <= i < n ==> rs[i].sent == 0
    ensures Bytes(rs, n) == Bytes(rs, p)
  {
    if p < n {
      BytesOfUntouched(rs, p, n - 1);
      assert rs[n - 1].data[..0] == [];
    }
  }

  // ----- Sending keeps the order and puts the right bytes on the wire -----

  lemma {:induction false} SendSomeKeepsOrder(q: Queues, n: nat)
    requires q.unsent != [] && Started(q.unsent)
    ensures Started(SendSome(q, n).unsent) && SameIds(QueueLine(SendSome(q, n)), QueueLine(q))
  {
    var a, b := QueueLine(SendSome(q, n)), QueueLine(q);
    forall i | 0 <= i < |a| ensures a[i].id == b[i].id {
    }
  }

  lemma {:induction false} SendSomeHonest(q: Queues, n: nat)
    requires q.unsent != [] && FrontOnly(q.unsent) && Honest(q.written)
    ensures var r := SendSome(q, n);
            && FrontOnly(r.unsent) && Honest(r.written) && |q.written| <= |r.written|
            && (NoErrors(q.written) ==> NoErrors(r.written))
  {
  }

  /** `b` is `a` except that `k` more bytes of the request at `p` were sent; nothing after `p` has been touched. */
  predicate Advanced(a: seq<Request>, b: seq<Request>, p: nat, k: nat) {
    && p < |a| == |b| && Started(a) && Started(b)
    && b[p].data == a[p].data && b[p].sent == a[p].sent + k
    && (forall i :: 0 <= i < p ==> SameBytes(a[i], b[i]))
    && (forall i :: p < i < |a| ==> a[i].sent == 0 && b[i].sent == 0)
  }

  lemma {:induction false} BytesAdvance(a: seq<Request>, b: seq<Request>, p: nat, k: nat)
    requires Advanced(a, b, p, k)
    ensures Bytes(b, |b|) == Bytes(a, |a|) + a[p].data[a[p].sent..a[p].sent + k]
  {
    BytesAgree(a, b, p);
    BytesOfUntouched(a, p + 1, |a|);
    BytesOfUntouched(b, p + 1, |b|);
    var d, m := a[p].data, a[p].sent;
    assert d[..m] + d[m..m + k] == d[..m + k];
    assert Bytes(a, p) + (d[..m] + d[m..m + k]) == Bytes(a, p) + d[..m] + d[m..m + k];
  }

  /** In the whole line of requests only the one at the front of the unsent ones changes, and it is the last one of
      which anything has been sent. */
  lemma {:induction false} SendSomeAdvances(before: seq<Request>, q: Queues, n: nat)
    requires q.unsent != [] && FrontOnly(q.unsent) && Started(before + QueueLine(q))
    ensures var front := q.unsent[0];
            Advanced(before + QueueLine(q), before + QueueLine(SendSome(q, n)), |before| + |q.written|,
                     Min(n, |front.data| - front.sent))
    ensures (before + QueueLine(q))[|before| + |q.written|] == q.unsent[0]
  {
    var a, b := before + QueueLine(q), before + QueueLine(SendSome(q, n));
    var p := |before| + |q.written|;
    assert a[p] == q.unsent[0];
    assert forall i :: p < i < |a| ==> a[i] == q.unsent[i - p];
    assert forall i :: 0 <= i < |a| && i != p ==> b[i] == a[i];
  }

  lemma {:induction false} SendSomeSends(before: seq<Request>, q: Queues, n: nat)
    requires q.unsent != [] && FrontOnly(q.unsent) && OnTheWire(q.wire, before + QueueLine(q))
    ensures OnTheWire(SendSome(q, n).wire, before + QueueLine(SendSome(q, n)))
  {
    SendSomeAdvances(before, q, n);
    var front := q.unsent[0];
    BytesAdvance(before + QueueLine(q), before + QueueLine(SendSome(q, n)), |before| + |q.written|,
                 Min(n, |front.data| - front.sent));
  }

  lemma {:induction false} SendAllKeepsOrder(q: Queues, kernel: seq<Kernel>)
    requires Started(q.unsent)
    ensures var r := SendAll(q, kernel).q; Started(r.unsent) && SameIds(QueueLine(r), QueueLine(q))
    decreases |kernel|
  {
    if q.unsent != [] && kernel != [] && kernel[0].Sent? {
      SendSomeKeepsOrder(q, kernel[0].n);
      SendAllKeepsOrder(SendSome(q, kernel[0].n), kernel[1..]);
    }
  }

  lemma {:induction false} SendAllHonest(q: Queues, kernel: seq<Kernel>)
    requires FrontOnly(q.unsent) && Honest(q.written)
    ensures var r := SendAll(q, kernel).q;
            && FrontOnly(r.unsent) && Honest(r.written) && |q.written| <= |r.written|
            && (NoErrors(q.written) ==> NoErrors(r.written))
    decreases |kernel|
  {
    if q.unsent != [] && kernel != [] && kernel[0].Sent? {
      SendSomeHonest(q, kernel[0].n);
      SendAllHonest(SendSome(q, kernel[0].n), kernel[1..]);
    }
  }

  lemma {:induction false} SendAllSends(before: seq<Request>, q: Queues, kernel: seq<Kernel>)
    requires FrontOnly(q.unsent) && Honest(q.written) && OnTheWire(q.wire, before + QueueLine(q))
    ensures var r := SendAll(q, kernel).q; OnTheWire(r.wire, before + QueueLine(r))
    decreases |kernel|
  {
    if q.unsent != [] && kernel != [] && kernel[0].Sent? {
      SendSomeSends(before, q, kernel[0].n);
      SendSomeHonest(q, kernel[0].n);
      SendAllSends(before, SendSome(q, kernel[0].n), kernel[1..]);
    }
  }

  // ----- Purging -----

  lemma {:induction false} PurgedHonest(unsent: seq<Request>, n: nat, parent: Option<nat>, error: Error)
    requires n <= |unsent| && Started(unsent) && Unfinished(unsent)
    ensures Honest(PurgedTo(unsent, n, parent, error))
  {
    if n > 0 {
      PurgedHonest(unsent, n - 1, parent, error);
    }
  }

  lemma {:induction false} PurgedOthers(unsent: seq<Request>, n: nat, parent: Option<nat>, error: Error)
    requires n <= |unsent| && forall i :: 0 <= i < n ==> parent != Some(unsent[i].id)
    ensures SameIds(PurgedTo(unsent, n, parent, error), unsent[..n])
  {
    if n > 0 {
      PurgedOthers(unsent, n - 1, parent, error);
    }
  }

  lemma {:induction false} PurgedParent(unsent: seq<Request>, parent: nat, error: Error)
    requires unsent != [] && unsent[|unsent| - 1].id == parent
    requires forall i :: 0 <= i < |unsent| - 1 ==> unsent[i].id != parent
    ensures SameIds(Purged(unsent, Some(parent), error), unsent[..|unsent| - 1])
  {
    PurgedOthers(unsent, |unsent| - 1, Some(parent), error);
  }

  // ----- Every step keeps the invariant -----

  lemma {:induction false} ProcessedAwake(s: State, kernel: seq<Kernel>, parent: Option<nat>)
    requires FrontOnly(s.q.unsent) && Honest(s.q.written) && Awake(s) && s.open
    ensures Awake(Processed(s, kernel, parent))
  {
    SendAllHonest(s.q, kernel);
  }

  lemma {:induction false} ProcessedSendingOk(s: State, kernel: seq<Kernel>, parent: Option<nat>)
    requires SendingOk(s)
    ensures SendingOk(Processed(s, kernel, parent))
  {
    SendAllHonest(s.q, kernel);
    var o := SendAll(s.q, kernel);
    if o.fatal.Some? {
      PurgedHonest(o.q.unsent, |o.q.unsent|, parent, o.fatal.value);
    } else if !s.broken {
      SendAllSends(s.completed, s.q, kernel);
    }
  }

  lemma {:induction false} WritableKeepsOrder(s: State, kernel: seq<Kernel>)
    requires InOrder(s) && Started(s.q.unsent)
    ensures InOrder(Processed(s, kernel, None))
  {
    SendAllKeepsOrder(s.q, kernel);
    var o := SendAll(s.q, kernel);
    if o.fatal.Some? {
      PurgedOthers(o.q.unsent, |o.q.unsent|, None, o.fatal.value);
      assert SameIds(QueueLine(Processed(s, kernel, None).q), QueueLine(o.q));
    }
    assert SameIds(Line(Processed(s, kernel, None)), Line(s));
  }

  function Pushed(s: State, data: seq<Byte>): Queues {
    s.q.(unsent := s.q.unsent + [Request(s.nextId, data, 0, 0)])
  }

  /** If anything is left unsent by a write, the request of that write is the last of it. */
  lemma {:induction false} LastIsParent(s: State, data: seq<Byte>, kernel: seq<Kernel>)
    requires Started(s.q.unsent) && Numbered(s) && InOrder(s)
    ensures var u := SendAll(Pushed(s, data), kernel).q.unsent;
            && (u != [] ==> u[|u| - 1].id == s.nextId && Contains(u, s.nextId))
            && (forall i :: 0 <= i < |u| - 1 ==> u[i].id != s.nextId)
  {
    var q := Pushed(s, data);
    SendAllKeepsOrder(q, kernel);
    var r := SendAll(q, kernel).q;
    var u, w, c := r.unsent, |r.written|, |s.completed|;
    if u != [] {
      assert QueueLine(r)[w + |u| - 1].id == QueueLine(q)[w + |u| - 1].id;
    }
    forall i | 0 <= i < |u| - 1 ensures u[i].id != s.nextId {
      assert QueueLine(r)[w + i] == u[i];
      assert QueueLine(q)[w + i] == QueueLine(s.q)[w + i] == Line(s)[c + w + i];
      assert s.accepted[c + w + i] == u[i].id;
    }
  }

  lemma {:induction false} SendPushedKeepsOrder(s: State, data: seq<Byte>, kernel: seq<Kernel>)
    requires Started(s.q.unsent)
    ensures var o := SendAll(Pushed(s, data), kernel);
            SameIds(s.completed + QueueLine(o.q), Line(s) + [Request(s.nextId, data, 0, 0)])
  {
    var q := Pushed(s, data);
    SendAllKeepsOrder(q, kernel);
    assert s.completed + QueueLine(q) == Line(s) + [Request(s.nextId, data, 0, 0)];
  }

  lemma {:induction false} WriteKeepsOrder(s: State, data: seq<Byte>, kernel: seq<Kernel>)
    requires InOrder(s) && Numbered(s) && Started(s.q.unsent)
    ensures InOrder(AfterWrite(s, data, kernel))
  {
    if s.open && s.connected {
      var o := SendAll(Pushed(s, data), kernel);
      SendPushedKeepsOrder(s, data, kernel);
      LastIsParent(s, data, kernel);
      if o.fatal.Some? {
        PurgedParent(o.q.unsent, s.nextId, o.fatal.value);
        FailedWriteOrder(s, data, o);
      }
    }
  }

  lemma {:induction false} FailedWriteOrder(s: State, data: seq<Byte>, o: Outcome)
    requires InOrder(s) && o.fatal.Some? && o.q.unsent != []
    requires SameIds(s.completed + QueueLine(o.q), Line(s) + [Request(s.nextId, data, 0, 0)])
    requires SameIds(Purged(o.q.unsent, Some(s.nextId), o.fatal.value), o.q.unsent[..|o.q.unsent| - 1])
    ensures HaveIds(s.completed + (o.q.written + Purged(o.q.unsent, Some(s.nextId), o.fatal.value) + []), s.accepted)
  {
    var p := Purged(o.q.unsent, Some(s.nextId), o.fatal.value);
    var a, b := s.completed + (o.q.written + p + []), s.completed + QueueLine(o.q);
    forall i | 0 <= i < |a| ensures a[i].id == s.accepted[i] {
      assert a[i].id == b[i].id;
      assert b[i].id == (Line(s) + [Request(s.nextId, data, 0, 0)])[i].id;
    }
  }

  lemma {:induction false} NextNumber(accepted: seq<nat>, refused: seq<nat>, id: nat)
    requires NumbersFit(accepted, refused, id)
    ensures NumbersFit(accepted + [id], refused, id + 1) && NumbersFit(accepted, refused + [id], id + 1)
  {
  }

  lemma {:induction false} WriteKeepsNumbers(s: State, data: seq<Byte>, kernel: seq<Kernel>)
    requires Numbered(s) && Started(s.q.unsent)
    ensures Numbered(AfterWrite(s, data, kernel))
  {
    NextNumber(s.accepted, s.refused, s.nextId);
    var t := AfterWrite(s, data, kernel);
    assert t == s.(crashed := true) || t.nextId == s.nextId + 1;
    assert t.nextId == s.nextId + 1 ==>
             || (t.accepted == s.accepted + [s.nextId] && t.refused == s.refused)
             || (t.accepted == s.accepted && t.refused == s.refused + [s.nextId]);
  }

  lemma {:induction false} PushKeepsSendingOk(s: State, data: seq<Byte>)
    requires SendingOk(s)
    ensures SendingOk(s.(q := Pushed(s, data), nextId := s.nextId + 1))
  {
    var t := s.(q := Pushed(s, data), nextId := s.nextId + 1);
    if !s.broken {
      var n := |Line(s)|;
      assert Line(t) == Line(s) + [Request(s.nextId, data, 0, 0)];
      BytesAgree(Line(s), Line(t), n);
      BytesOfUntouched(Line(t), n, n + 1);
    }
  }

  lemma {:induction false} WriteKeepsSendingOk(s: State, data: seq<Byte>, kernel: seq<Kernel>)
    requires SendingOk(s) && Awake(s)
    ensures SendingOk(AfterWrite(s, data, kernel)) && Awake(AfterWrite(s, data, kernel))
  {
    if s.open && s.connected {
      var pushed := s.(q := Pushed(s, data), nextId := s.nextId + 1);
      PushKeepsSendingOk(s, data);
      ProcessedSendingOk(pushed, kernel, Some(s.nextId));
      ProcessedAwake(pushed, kernel, Some(s.nextId));
    }
  }

  lemma {:induction false} CompletionKeepsLine(s: State, x: Action)
    requires Enabled(s, x) && (x.CompleteWritten? || x.CompleteUnsent?)
    ensures var a, b := Line(s), Line(Next(s, x));
            |a| == |b| && forall i :: 0 <= i < |a| ==> a[i].id == b[i].id && SameBytes(a[i], b[i])
  {
  }

  lemma {:induction false} CompletionKeepsWire(s: State, x: Action)
    requires Enabled(s, x) && (x.CompleteWritten? || x.CompleteUnsent?) && OnTheWire(s.q.wire, Line(s))
    ensures OnTheWire(s.q.wire, Line(Next(s, x)))
  {
    CompletionKeepsLine(s, x);
    var a, b := Line(s), Line(Next(s, x));
    assert Started(b);
    BytesAgree(a, b, |a|);
  }

  lemma {:induction false} CompletionKeepsSendingOk(s: State, x: Action)
    requires SendingOk(s) && Enabled(s, x) && (x.CompleteWritten? || x.CompleteUnsent?)
    ensures SendingOk(Next(s, x))
  {
    if !s.broken {
      CompletionKeepsWire(s, x);
    }
  }

  lemma {:induction false} CompletionKeepsInv(s: State, x: Action)
    requires Inv(s) && Enabled(s, x) && (x.CompleteWritten? || x.CompleteUnsent?)
    ensures Inv(Next(s, x))
  {
    CompletionKeepsLine(s, x);
    CompletionKeepsSendingOk(s, x);
  }

  lemma {:induction false} StepKeepsInv(s: State, t: State)
    requires Inv(s) && Step(s, t)
    ensures Inv(t)
  {
    var x :| Enabled(s, x) && t == Next(s, x);
    match x
    case Write(data, kernel) =>
      WriteKeepsOrder(s, data, kernel);
      WriteKeepsNumbers(s, data, kernel);
      WriteKeepsSendingOk(s, data, kernel);
    case Writable(kernel) =>
      WritableKeepsOrder(s, kernel);
      ProcessedSendingOk(s, kernel, None);
      ProcessedAwake(s, kernel, None);
    case CompleteWritten => CompletionKeepsInv(s, x);
    case CompleteUnsent => CompletionKeepsInv(s, x);
    case _ =>
  }

  lemma {:induction false} ReachableInv(s: State)
    requires Reachable(Init, Step, s)
    ensures Inv(s)
  {
    forall t, u | Inv(t) && Step(t, u) ensures Inv(u) {
      StepKeepsInv(t, u);
    }
    ReachableInvariant(Init, Step, Inv, s);
  }

  // ----- Main results -----

  /** Completions are called in the order of the accepted writes, each at most once, and never for a refused write. */
  lemma {:induction false} CompletionsInOrder(s: State)
    requires Reachable(Init, Step, s)
    ensures |s.completed| <= |s.accepted|
    ensures forall i :: 0 <= i < |s.completed| ==> s.completed[i].id == s.accepted[i]
    ensures forall i, j :: 0 <= i < j < |s.completed| ==> s.completed[i].id != s.completed[j].id
    ensures forall i, j :: 0 <= i < |s.completed| && 0 <= j < |s.refused| ==> s.completed[i].id != s.refused[j]
  {
    ReachableInv(s);
    forall i | 0 <= i < |s.completed| ensures s.completed[i].id == s.accepted[i] {
      assert Line(s)[i] == s.completed[i];
    }
  }

  /** Once the socket is closed and nothing is queued, every accepted write has been completed. */
  lemma {:induction false} AllCompletedWhenQueuesAreEmpty(s: State)
    requires Reachable(Init, Step, s) && s.q.written == [] && s.q.unsent == []
    ensures HaveIds(s.completed, s.accepted)
  {
    ReachableInv(s);
    NothingQueued(s);
  }

  /** While no completion is being delivered, whatever waits for one has a task scheduled; a closed socket leaves
      nothing to a task. */
  lemma {:induction false} NoCompletionIsForgotten(s: State)
    requires Reachable(Init, Step, s) && s.covered == 0
    ensures s.q.written != [] ==> s.open && s.scheduled
  {
    ReachableInv(s);
  }

  /** Until a send fails for good, the bytes on the wire are those of the completed and written requests, in full
      while the socket is open, then the sent part of the first unsent one. */
  lemma {:induction false} WireCarriesRequestsInOrder(s: State)
    requires Reachable(Init, Step, s) && !s.broken
    ensures OnTheWire(s.q.wire, s.completed + s.q.written + s.q.unsent)
    ensures forall i :: 0 < i < |s.q.unsent| ==> s.q.unsent[i].sent == 0
    ensures s.open ==> forall i :: 0 <= i < |s.completed + s.q.written| ==>
              var r := (s.completed + s.q.written)[i]; r.error == 0 && r.sent == |r.data|
  {
    ReachableInv(s);
    assert s.completed + s.q.written + s.q.unsent == Line(s);
  }

  /** A completion of a write that had any bytes reports success exactly when the kernel took all of them. Until a send
      fails for good the only other report is that the socket was closed, and it is made by a close. */
  lemma {:induction false} SuccessMeansSentInFull(s: State, i: nat)
    requires Reachable(Init, Step, s) && i < |s.completed|
    ensures s.completed[i].error == 0 ==> s.completed[i].sent == |s.completed[i].data|
    ensures s.completed[i].data != [] && s.completed[i].sent == |s.completed[i].data| ==> s.completed[i].error == 0
    ensures !s.broken && s.completed[i].error != 0 ==> s.completed[i].error == SOCKET_CLOSED && !s.open
  {
    ReachableInv(s);
  }

  // ----- What the kernel's answers decide -----

  predicate AllSent(kernel: seq<Kernel>, j: nat) {
    j <= |kernel| && forall i :: 0 <= i < j ==> kernel[i].Sent?
  }

  /** How many bytes of each request remain. */
  function Sizes(unsent: seq<Request>): (sizes: seq<nat>)
    requires Started(unsent)
    ensures |sizes| == |unsent|
  {
    seq(|unsent|, i requires 0 <= i < |unsent| => |unsent[i].data| - unsent[i].sent)
  }

  /** What remains of these sizes after the first `j` answers, each of which takes bytes of the front one only. */
  function Left(sizes: seq<nat>, kernel: seq<Kernel>, j: nat): (left: seq<nat>)
    requires AllSent(kernel, j)
    ensures |left| <= |sizes|
    decreases j
  {
    if j == 0 || sizes == [] then sizes
    else if kernel[0].n < sizes[0] then Left([sizes[0] - kernel[0].n] + sizes[1..], kernel[1..], j - 1)
    else Left(sizes[1..], kernel[1..], j - 1)
  }

  /** The kernel takes bytes `j` times and then gives another answer, or nothing is left, or it is not asked again. */
  predicate StopsAt(sizes: seq<nat>, kernel: seq<Kernel>, j: nat) {
    AllSent(kernel, j) && (j < |kernel| && Left(sizes, kernel, j) != [] ==> !kernel[j].Sent?)
  }

  /** The first `j` answers take bytes and leave some, and the next one is an error. */
  predicate FailsAt(sizes: seq<nat>, kernel: seq<Kernel>, j: nat) {
    && AllSent(kernel, j) && Left(sizes, kernel, j) != []
    && j < |kernel| && (kernel[j].Pipe? || kernel[j].Failed?)
  }

  function ErrorOf(answer: Kernel): Error
    requires answer.Pipe? || answer.Failed?
  {
    if answer.Pipe? then SOCKET_CLOSED else answer.error
  }

  /** The bytes that wait, in order, from the `n`th request on. */
  function Waiting(unsent: seq<Request>, n: nat): seq<Byte>
    requires n <= |unsent| && Started(unsent)
    decreases |unsent| - n
  {
    if n == |unsent| then [] else unsent[n].data[unsent[n].sent..] + Waiting(unsent, n + 1)
  }

  lemma {:induction false} SendingStops(kernel: seq<Kernel>) returns (j: nat)
    ensures forall sizes :: StopsAt(sizes, kernel, j)
  {
    j := 0;
    while j < |kernel| && kernel[j].Sent?
      invariant AllSent(kernel, j)
    {
      j := j + 1;
    }
  }

  lemma {:induction false} SendSomeSizes(q: Queues, n: nat)
    requires q.unsent != [] && Started(q.unsent)
    ensures Started(SendSome(q, n).unsent)
    ensures var sizes := Sizes(q.unsent);
            Sizes(SendSome(q, n).unsent) ==
            if n < sizes[0] then [sizes[0] - n] + sizes[1..] else sizes[1..]
  {
  }

  lemma {:induction false} LaterWaiting(a: seq<Request>, n: nat, b: seq<Request>, m: nat)
    requires Started(a) && Started(b) && n <= |a| && m <= |b| && a[n..] == b[m..]
    ensures Waiting(a, n) == Waiting(b, m)
    decreases |a| - n
  {
    assert |a[n..]| == |b[m..]|;
    if n < |a| {
      assert a[n] == a[n..][0] == b[m];
      assert a[n + 1..] == a[n..][1..] == b[m + 1..];
      LaterWaiting(a, n + 1, b, m + 1);
    }
  }

  lemma {:induction false} BytesMove(wire: seq<Byte>, data: seq<Byte>, from: nat, to: nat, rest: seq<Byte>)
    requires from <= to <= |data|
    ensures wire + data[from..to] + (data[to..] + rest) == wire + (data[from..] + rest)
  {
  }

  lemma {:induction false} SendSomeConserves(q: Queues, n: nat)
    requires q.unsent != [] && Started(q.unsent)
    ensures var r := SendSome(q, n);
            Started(r.unsent) && r.wire + Waiting(r.unsent, 0) == q.wire + Waiting(q.unsent, 0)
  {
    var r, d, m := SendSome(q, n), q.unsent[0].data, q.unsent[0].sent;
    var to := m + Min(n, |d| - m);
    BytesMove(q.wire, d, m, to, Waiting(q.unsent, 1));
    if to == |d| {
      LaterWaiting(r.unsent, 0, q.unsent, 1);
      assert d[to..] + Waiting(q.unsent, 1) == Waiting(q.unsent, 1);
    } else {
      LaterWaiting(r.unsent, 1, q.unsent, 1);
    }
  }

  /** What comes of the requests of `q` when `left` bytes remain of the last ones and the others have been sent. */
  predicate SentUpTo(q: Queues, r: Queues, left: seq<nat>) {
    && Started(q.unsent) && |left| <= |q.unsent|
    && var w, k := |q.written|, |q.unsent| - |left|;
    && |r.written| == w + k && q.written <= r.written
    && (forall i :: w <= i < w + k ==>
          r.written[i] == q.unsent[i - w].(sent := |q.unsent[i - w].data|, error := 0))
    && |r.unsent| == |left|
    && (forall i :: 0 <= i < |left| ==>
          var request := q.unsent[k + i];
          left[i] <= |request.data| && r.unsent[i] == request.(sent := |request.data| - left[i]))
  }

  lemma {:induction false} SentUpToStart(q: Queues)
    requires Started(q.unsent)
    ensures SentUpTo(q, q, Sizes(q.unsent))
  {
  }

  lemma {:induction false} SentUpToAfterPart(q: Queues, t: Queues, r: Queues, left: seq<nat>)
    requires Started(q.unsent) && SentUpTo(t, r, left) && q.unsent != [] && t.written == q.written
    requires |t.unsent| == |q.unsent| && (forall i :: 0 < i < |q.unsent| ==> t.unsent[i] == q.unsent[i])
    requires exists k: nat :: t.unsent[0] == q.unsent[0].(sent := k)
    ensures SentUpTo(q, r, left)
  {
  }

  lemma {:induction false} SentUpToAfterWhole(q: Queues, t: Queues, r: Queues, left: seq<nat>)
    requires Started(q.unsent) && SentUpTo(t, r, left) && q.unsent != [] && t.unsent == q.unsent[1..]
    requires t.written == q.written + [q.unsent[0].(sent := |q.unsent[0].data|, error := 0)]
    ensures SentUpTo(q, r, left)
  {
    var w, k := |q.written|, |q.unsent| - |left|;
    forall i | w <= i < w + k
      ensures r.written[i] == q.unsent[i - w].(sent := |q.unsent[i - w].data|, error := 0)
    {
      if i == w {
        assert r.written[i] == t.written[i];
      } else {
        assert t.unsent[i - w - 1] == q.unsent[i - w];
      }
    }
    forall i | 0 <= i < |left|
      ensures left[i] <= |q.unsent[k + i].data|
      ensures r.unsent[i] == q.unsent[k + i].(sent := |q.unsent[k + i].data| - left[i])
    {
      assert t.unsent[k - 1 + i] == q.unsent[k + i];
    }
  }

  lemma {:induction false} SentUpToStep(q: Queues, n: nat, r: Queues, left: seq<nat>)
    requires q.unsent != [] && Started(q.unsent) && SentUpTo(SendSome(q, n), r, left)
    ensures SentUpTo(q, r, left)
  {
    if n < |q.unsent[0].data| - q.unsent[0].sent {
      SentUpToAfterPart(q, SendSome(q, n), r, left);
    } else {
      SentUpToAfterWhole(q, SendSome(q, n), r, left);
    }
  }

  /** After one answer it is the same story for the queues it leaves and the answers that follow. */
  lemma {:induction false} AfterFirstAnswer(q: Queues, kernel: seq<Kernel>, j: nat)
    requires Started(q.unsent) && StopsAt(Sizes(q.unsent), kernel, j) && j > 0 && q.unsent != []
    ensures var next := SendSome(q, kernel[0].n).unsent;
            && Started(next) && StopsAt(Sizes(next), kernel[1..], j - 1)
            && Left(Sizes(next), kernel[1..], j - 1) == Left(Sizes(q.unsent), kernel, j)
            && (FailsAt(Sizes(next), kernel[1..], j - 1) <==> FailsAt(Sizes(q.unsent), kernel, j))
  {
    SendSomeSizes(q, kernel[0].n);
    assert AllSent(kernel[1..], j - 1);
    assert j < |kernel| ==> kernel[1..][j - 1] == kernel[j];
  }

  lemma {:induction false} AnswersSend(q: Queues, kernel: seq<Kernel>, j: nat)
    requires Started(q.unsent) && StopsAt(Sizes(q.unsent), kernel, j)
    ensures SentUpTo(q, SendAll(q, kernel).q, Left(Sizes(q.unsent), kernel, j))
    decreases |kernel|
  {
    if j == 0 || q.unsent == [] {
      SentUpToStart(q);
    } else {
      var n := kernel[0].n;
      AfterFirstAnswer(q, kernel, j);
      AnswersSend(SendSome(q, n), kernel[1..], j - 1);
      SentUpToStep(q, n, SendAll(q, kernel).q, Left(Sizes(q.unsent), kernel, j));
    }
  }

  lemma {:induction false} SendingConserves(q: Queues, kernel: seq<Kernel>)
    requires Started(q.unsent)
    ensures var r := SendAll(q, kernel).q;
            Started(r.unsent) && r.wire + Waiting(r.unsent, 0) == q.wire + Waiting(q.unsent, 0)
    decreases |kernel|
  {
    if q.unsent != [] && kernel != [] && kernel[0].Sent? {
      SendSomeConserves(q, kernel[0].n);
      SendingConserves(SendSome(q, kernel[0].n), kernel[1..]);
    }
  }

  lemma {:induction false} AnswersFail(q: Queues, kernel: seq<Kernel>, j: nat)
    requires Started(q.unsent) && StopsAt(Sizes(q.unsent), kernel, j)
    ensures SendAll(q, kernel).fatal ==
            if FailsAt(Sizes(q.unsent), kernel, j) then Some(ErrorOf(kernel[j])) else None
    decreases |kernel|
  {
    if j > 0 && q.unsent != [] {
      AfterFirstAnswer(q, kernel, j);
      AnswersFail(SendSome(q, kernel[0].n), kernel[1..], j - 1);
    }
  }

  /** What sending does, from the sizes of the requests and the kernel's answers alone. The front requests whose bytes
      were all taken are written without an error, the others keep what is left of them, and the bytes on the wire and
      those waiting stay the same line of bytes. Sending fails for good exactly when the first answer that takes
      nothing comes while something is left and is a broken pipe, reported as a closed socket, or another error,
      reported as it is; a send that would block is no failure. */
  lemma {:induction false} AnswersDecide(q: Queues, kernel: seq<Kernel>, j: nat)
    requires Started(q.unsent) && StopsAt(Sizes(q.unsent), kernel, j)
    ensures var left, o := Left(Sizes(q.unsent), kernel, j), SendAll(q, kernel);
            && SentUpTo(q, o.q, left) && Started(o.q.unsent)
            && o.q.wire + Waiting(o.q.unsent, 0) == q.wire + Waiting(q.unsent, 0)
            && (o.fatal == None <==> left == [] || j == |kernel| || kernel[j] == Again)
            && (forall e :: o.fatal == Some(e) <==>
                  && left != [] && j < |kernel|
                  && (kernel[j] == Failed(e) || (kernel[j] == Pipe && e == SOCKET_CLOSED)))
  {
    AnswersSend(q, kernel, j);
    SendingConserves(q, kernel);
    AnswersFail(q, kernel, j);
  }

  lemma {:induction false} FailsExactlyWhen(q: Queues, kernel: seq<Kernel>)
    requires Started(q.unsent)
    ensures SendAll(q, kernel).fatal.Some? <==> exists j :: FailsAt(Sizes(q.unsent), kernel, j)
  {
    if SendAll(q, kernel).fatal.Some? {
      var stop := SendingStops(kernel);
      AnswersFail(q, kernel, stop);
      assert FailsAt(Sizes(q.unsent), kernel, stop);
    } else if j :| FailsAt(Sizes(q.unsent), kernel, j) {
      AnswersFail(q, kernel, j);
    }
  }

  /** A write to an open socket is refused exactly when the write direction was shut down or the kernel, asked to send
      what is queued and then this write, answers with an error while some of it is left. */
  lemma {:induction false} WriteRefusedExactlyWhen(s: State, data: seq<Byte>, kernel: seq<Kernel>)
    requires Reachable(Init, Step, s) && s.open
    ensures Enabled(s, Write(data, kernel)) <==> !s.crashed
    ensures Started(s.q.unsent) && Started(Pushed(s, data).unsent)
    ensures var t := AfterWrite(s, data, kernel);
            && (t.refused == s.refused + [s.nextId] <==>
                  !s.connected || exists j :: FailsAt(Sizes(Pushed(s, data).unsent), kernel, j))
            && (t.accepted == s.accepted + [s.nextId] <==> t.refused == s.refused)
  {
    ReachableInv(s);
    LastIsParent(s, data, kernel);
    FailsExactlyWhen(Pushed(s, data), kernel);
    var t := AfterWrite(s, data, kernel);
    assert t.refused == s.refused <==> t.refused != s.refused + [s.nextId] by {
      assert |s.refused + [s.nextId]| == |s.refused| + 1;
    }
  }

  lemma {:induction false} PurgedErrors(unsent: seq<Request>, n: nat, parent: Option<nat>, error: Error)
    requires n <= |unsent|
    ensures forall i :: 0 <= i < |PurgedTo(unsent, n, parent, error)| ==>
              PurgedTo(unsent, n, parent, error)[i].error == error
  {
    if n > 0 {
      PurgedErrors(unsent, n - 1, parent, error);
    }
  }

  /** The first `n` unsent requests of `q` have been written, in order: `k` as a success, the others with this error. */
  predicate FailedBehind(q: Queues, written: seq<Request>, k: nat, n: nat, error: Error) {
    var w := |q.written|;
    && n <= |q.unsent| && |written| == w + n && q.written <= written
    && forall i :: w <= i < w + n ==>
         written[i].id == q.unsent[i - w].id && written[i].error == if i < w + k then 0 else error
  }

  lemma {:induction false} PurgeBehindSent(q: Queues, r: Queues, left: seq<nat>, purged: seq<Request>, error: Error)
    requires SentUpTo(q, r, left)
    requires |purged| <= |r.unsent| && SameIds(purged, r.unsent[..|purged|])
    requires forall i :: 0 <= i < |purged| ==> purged[i].error == error
    ensures FailedBehind(q, r.written + purged, |q.unsent| - |left|, |q.unsent| - |left| + |purged|, error)
  {
    var w, all := |q.written|, r.written + purged;
    var n := |r.written|;
    forall i | w <= i < |all|
      ensures all[i].id == q.unsent[i - w].id && all[i].error == if i < n then 0 else error
    {
      if i < n {
        assert all[i] == r.written[i];
      } else {
        assert all[i] == purged[i - n] && purged[i - n].id == r.unsent[i - n].id;
      }
    }
  }

  lemma {:induction false} FailedQueues(q: Queues, kernel: seq<Kernel>, j: nat, purged: seq<Request>, error: Error)
    requires Started(q.unsent) && StopsAt(Sizes(q.unsent), kernel, j)
    requires var u := SendAll(q, kernel).q.unsent; |purged| <= |u| && SameIds(purged, u[..|purged|])
    requires forall i :: 0 <= i < |purged| ==> purged[i].error == error
    ensures var r, k := SendAll(q, kernel).q, |q.unsent| - |Left(Sizes(q.unsent), kernel, j)|;
            |r.unsent| == |q.unsent| - k && FailedBehind(q, r.written + purged, k, k + |purged|, error)
  {
    AnswersSend(q, kernel, j);
    PurgeBehindSent(q, SendAll(q, kernel).q, Left(Sizes(q.unsent), kernel, j), purged, error);
  }

  /** When sending fails for good on a writable socket, every request that is not yet sent is failed, in order, with the
      error of the send. */
  lemma {:induction false} FailureReachesAllUnsent(s: State, kernel: seq<Kernel>, j: nat)
    requires Enabled(s, Writable(kernel)) && FailsAt(Sizes(s.q.unsent), kernel, j)
    ensures var t, k := Next(s, Writable(kernel)), |s.q.unsent| - |Left(Sizes(s.q.unsent), kernel, j)|;
            && t.broken && t.q.unsent == [] && t.scheduled
            && FailedBehind(s.q, t.q.written, k, |s.q.unsent|, ErrorOf(kernel[j]))
  {
    var u, error := SendAll(s.q, kernel).q.unsent, ErrorOf(kernel[j]);
    AnswersFail(s.q, kernel, j);
    PurgedOthers(u, |u|, None, error);
    PurgedErrors(u, |u|, None, error);
    FailedQueues(s.q, kernel, j, Purged(u, None, error), error);
  }

  lemma {:induction false} FailedWrite(s: State, data: seq<Byte>, kernel: seq<Kernel>)
    requires s.open && s.connected && Started(s.q.unsent)
    requires var o := SendAll(Pushed(s, data), kernel); o.fatal.Some? && Contains(o.q.unsent, s.nextId)
    ensures var o, t := SendAll(Pushed(s, data), kernel), AfterWrite(s, data, kernel);
            && t.broken && t.q.unsent == [] && t.refused == s.refused + [s.nextId]
            && t.q.written == o.q.written + Purged(o.q.unsent, Some(s.nextId), o.fatal.value)
  {
  }

  /** When it fails during a write, the same happens to the requests before it; this one is refused instead. */
  lemma {:induction false} FailureDuringWrite(s: State, data: seq<Byte>, kernel: seq<Kernel>, j: nat)
    requires Reachable(Init, Step, s) && Enabled(s, Write(data, kernel)) && s.open && s.connected
    requires FailsAt(Sizes(Pushed(s, data).unsent), kernel, j)
    ensures var q, t := Pushed(s, data), Next(s, Write(data, kernel));
            && t.broken && t.q.unsent == [] && t.refused == s.refused + [s.nextId]
            && FailedBehind(q, t.q.written, |q.unsent| - |Left(Sizes(q.unsent), kernel, j)|, |s.q.unsent|,
                            ErrorOf(kernel[j]))
  {
    ReachableInv(s);
    var q := Pushed(s, data);
    AnswersFail(q, kernel, j);
    LastIsParent(s, data, kernel);
    var u, error := SendAll(q, kernel).q.unsent, ErrorOf(kernel[j]);
    PurgedParent(u, s.nextId, error);
    PurgedErrors(u, |u|, Some(s.nextId), error);
    FailedQueues(q, kernel, j, Purged(u, Some(s.nextId), error), error);
    FailedWrite(s, data, kernel);
  }

  /** The completion task is scheduled exactly when sending adds to the requests that wait for it, unless it is already;
      it starts with all of them, and a close does without it. */
  lemma {:induction false} TaskIsScheduledExactlyWhen(s: State, x: Action)
    requires Enabled(s, x)
    ensures var t := Next(s, x);
            && (t.scheduled <==>
                  || (s.scheduled && !x.StartTask? && !x.StartClose?)
                  || ((x.Write? || x.Writable?) && |t.q.written| > |s.q.written|))
            && (x.StartTask? || x.StartClose? ==> t.covered == |s.q.written|)
            && (t.open <==> s.open && !x.StartClose?)
            && (t.connected <==> s.connected && !x.ShutdownWrite? && !x.StartClose?)
            && (x.Write? && s.open ==> t.nextId == s.nextId + 1)
  {
  }

  predicate StaysShut(s: State, t: State) {
    !s.connected ==> !t.connected
  }

  /** Once the write direction was shut down every later write is refused, whatever else happened in between. */
  lemma {:induction false} WritesAfterShutdownAreRefused(s: State, t: State, data: seq<Byte>, kernel: seq<Kernel>)
    requires Reachable(Init, Step, s) && Enabled(s, ShutdownWrite)
    requires Reaches(Step, Next(s, ShutdownWrite), t) && t.open
    ensures Enabled(t, Write(data, kernel))
    ensures Next(t, Write(data, kernel)) == t.(nextId := t.nextId + 1, refused := t.refused + [t.nextId])
  {
    var shut := Next(s, ShutdownWrite);
    StepIs(s, ShutdownWrite);
    ReachableInv(shut);
    LinesGrow(shut, t);
    forall u, v | Step(u, v) ensures StaysShut(u, v) {
      var x :| Enabled(u, x) && v == Next(u, x);
    }
    ReachesBound(Step, _ => true, StaysShut, shut, t);
  }

  predicate Returned(s: State, t: State) {
    t.accepted == s.accepted + [s.nextId] || t.refused == s.refused + [s.nextId]
  }

  /** A write returns, one way or the other, exactly when the socket is open; when it is not, the program crashes, and
      nothing else makes it crash. */
  lemma {:induction false} WriteReturnsExactlyWhenOpen(s: State, x: Action)
    requires Reachable(Init, Step, s) && Enabled(s, x)
    ensures x.Write? ==> (Returned(s, Next(s, x)) <==> s.open)
    ensures Next(s, x).crashed <==> x.Write? && !s.open
  {
    ReachableInv(s);
    if x.Write? && !s.open {
      assert |Next(s, x).accepted| == |s.accepted| && |Next(s, x).refused| == |s.refused|;
    }
  }

  /** A completion called by a close writes: the program crashes, and the writes behind it, accepted as they were, are
      never completed. */
  lemma {:induction false} CompletionWritingAfterCloseCrashes(data: seq<Byte>, n: nat)
    requires n > 1
    ensures exists s :: Reachable(Init, Step, s) && s.crashed && |s.accepted| == n && |s.completed| == 1
  {
    var s := ManyWrites(data, n);
    StepIs(s, StartClose);
    var closing := Next(s, StartClose);
    StepIs(closing, CompleteUnsent);
    var told := Next(closing, CompleteUnsent);
    ReachableInv(told);
    StepIs(told, Write(data, []));
  }

  lemma {:induction false} StepIs(s: State, x: Action)
    requires Reachable(Init, Step, s) && Enabled(s, x)
    ensures Reachable(Init, Step, Next(s, x))
  {
    assert Step(s, Next(s, x));
    ReachableStep(Init, Step, s, Next(s, x));
  }

  /** Any number of accepted writes, none of which the kernel has taken anything of. */
  lemma {:induction false} ManyWrites(data: seq<Byte>, n: nat) returns (s: State)
    ensures Reachable(Init, Step, s) && s.open && s.connected && !s.crashed
    ensures |s.accepted| == |s.q.unsent| == n && s.q.written == [] && s.completed == []
  {
    if n == 0 {
      s := State(Queues([], [], []), true, true, false, 0, false, 0, [], [], [], false);
      ReachesRefl(Step, s);
    } else {
      var before := ManyWrites(data, n - 1);
      ReachableInv(before);
      s := Next(before, Write(data, []));
      StepIs(before, Write(data, []));
    }
  }

  // ----- The functions of the code -----

  lemma {:induction false} StepReaches(s: State, t: State, x: Action)
    requires Reaches(Step, s, t) && Enabled(t, x)
    ensures Reaches(Step, s, Next(t, x))
  {
    assert Step(t, Next(t, x));
    ReachesStep(Step, s, t, Next(t, x));
  }

  /** What a completion callback can have changed by the time it returns. Either the socket is as open as before and
      only gained requests, or it was closed in the meantime and everything queued has been completed. */
  predicate CallbackLeaves(s: State, t: State) {
    if s.open && !t.open then t.q.written == [] && t.q.unsent == [] && t.covered == 0
    else
      && s.open == t.open && s.q.written <= t.q.written && s.covered == t.covered
      && (!s.open ==> s.q == t.q)
  }

  class Socket {
    var unsent: seq<Request>
    var written: seq<Request>
    var wire: seq<Byte>
    var open: bool
    var connected: bool
    var scheduled: bool
    var nextId: nat
    ghost var covered: nat
    ghost var broken: bool
    ghost var accepted: seq<nat>
    ghost var refused: seq<nat>
    ghost var completed: seq<Request>
    var crashed: bool

    ghost function View(): State
      reads this
    {
      State(Queues(unsent, written, wire), open, connected, scheduled, covered, broken, nextId, accepted, refused,
            completed, crashed)
    }

    constructor ()
      ensures Init(View())
    {
      unsent, written, wire, open, connected, scheduled, nextId := [], [], [], true, true, false, 0;
      covered, broken, accepted, refused, completed, crashed := 0, false, [], [], [], false;
    }

    /** One send of the front request, of which the kernel took at most `n` bytes. */
    method SendFront(n: nat)
      requires unsent != [] && Started(unsent)
      modifies this`unsent, this`written, this`wire
      ensures Queues(unsent, written, wire) == SendSome(old(Queues(unsent, written, wire)), n)
    {
      var request := unsent[0];
      var remaining := |request.data| - request.sent;
      var taken := Min(n, remaining);
      wire := wire + request.data[request.sent..request.sent + taken];
      request := request.(sent := request.sent + taken);
      if taken == remaining {
        unsent := unsent[1..];
        written := written + [request.(error := 0)];
      } else {
        unsent := [request] + unsent[1..];
      }
    }

    /** The sending loop of s_process_socket_write_requests. */
    method SendLoop(kernel: seq<Kernel>) returns (fatal: Option<Error>)
      requires Started(unsent)
      modifies this`unsent, this`written, this`wire
      ensures Outcome(Queues(unsent, written, wire), fatal) == SendAll(old(Queues(unsent, written, wire)), kernel)
    {
      var i := 0;
      while unsent != [] && i < |kernel|
        invariant 0 <= i <= |kernel| && Started(unsent)
        invariant SendAll(Queues(unsent, written, wire), kernel[i..])
               == SendAll(old(Queues(unsent, written, wire)), kernel)
        decreases |kernel| - i
      {
        assert kernel[i..][0] == kernel[i] && kernel[i..][1..] == kernel[i + 1..];
        match kernel[i] {
          case Again => return None;
          case Pipe => return Some(SOCKET_CLOSED);
          case Failed(error) => return Some(error);
          case Sent(n) =>
            SendSomeKeepsOrder(Queues(unsent, written, wire), n);
            SendFront(n);
        }
        i := i + 1;
      }
      fatal := None;
    }

    /** The purge of s_process_socket_write_requests. */
    method PurgeLoop(parent: Option<nat>, error: Error) returns (parentFailed: bool)
      modifies this`unsent, this`written
      ensures unsent == [] && written == old(written) + Purged(old(unsent), parent, error)
      ensures parentFailed <==> parent.Some? && Contains(old(unsent), parent.value)
    {
      ghost var all := unsent;
      ghost var i := 0;
      parentFailed := false;
      while unsent != []
        invariant 0 <= i <= |all| && unsent == all[i..]
        invariant written == old(written) + PurgedTo(all, i, parent, error)
        invariant parentFailed <==> exists j :: 0 <= j < i && parent == Some(all[j].id)
        decreases |unsent|
      {
        var request := unsent[0];
        assert request == all[i] && unsent[1..] == all[i + 1..];
        unsent := unsent[1..];
        if parent == Some(request.id) {
          parentFailed := true;
        } else {
          written := written + [request.(error := error)];
        }
        i := i + 1;
      }
    }

    /** s_process_socket_write_requests */
    method ProcessWriteRequests(kernel: seq<Kernel>, parent: Option<nat>) returns (parentFailed: bool)
      requires Started(unsent)
      modifies this`unsent, this`written, this`wire, this`broken, this`scheduled
      ensures View() == Processed(old(View()), kernel, parent)
      ensures parentFailed <==> parent.Some? && ParentFailed(old(View()), kernel, parent.value)
    {
      var already := |written|;
      var fatal := SendLoop(kernel);
      parentFailed := false;
      if fatal.Some? {
        broken := true;
        parentFailed := PurgeLoop(parent, fatal.value);
      }
      if |written| > already && !scheduled {
        scheduled := true;
      }
    }

    /** aws_socket_write; it does not come back when `crashed` is set */
    method Write(data: seq<Byte>, kernel: seq<Kernel>) returns (ok: bool)
      requires Started(unsent)
      modifies this
      ensures View() == AfterWrite(old(View()), data, kernel)
      ensures ok <==> accepted == old(accepted) + [old(nextId)]
    {
      if !open {
        crashed := true;
        return false;
      }
      var id := nextId;
      nextId := id + 1;
      if !connected {
        refused := refused + [id];
        return false;
      }
      unsent := unsent + [Request(id, data, 0, 0)];
      var failed := ProcessWriteRequests(kernel, Some(id));
      if failed {
        refused := refused + [id];
      } else {
        accepted := accepted + [id];
      }
      ok := !failed;
    }

    /** The socket became writable. */
    method OnWritable(kernel: seq<Kernel>)
      requires open && !crashed && Started(unsent)
      modifies this`unsent, this`written, this`wire, this`broken, this`scheduled
      ensures View() == Next(old(View()), Writable(kernel))
    {
      var _ := ProcessWriteRequests(kernel, None);
    }

    /** Take the front request off the written queue; its completion is about to be called. */
    method PopWritten() returns (request: Request)
      requires Enabled(View(), CompleteWritten)
      modifies this`written, this`covered, this`completed
      ensures View() == Next(old(View()), CompleteWritten) && request == old(written)[0]
    {
      request := written[0];
      written := written[1..];
      covered := covered - 1;
      completed := completed + [request];
    }

    method PopUnsent() returns (request: Request)
      requires Enabled(View(), CompleteUnsent)
      modifies this`unsent, this`completed
      ensures View() == Next(old(View()), CompleteUnsent) && request == old(unsent)[0]
    {
      request := unsent[0];
      unsent := unsent[1..];
      completed := completed + [request.(error := SOCKET_CLOSED)];
    }

    /** A completion callback: the user may write, shut down the write direction or close, any number of times. */
    method UserCallback()
      requires Inv(View()) && !crashed
      modifies this
      ensures Inv(View()) && Reaches(Step, old(View()), View())
      ensures crashed || CallbackLeaves(old(View()), View())
      decreases if open then 1 else 0, 2
    {
      ReachesRefl(Step, View());
      var budget: nat := *;
      while budget > 0 && !crashed
        invariant Inv(View()) && Reaches(Step, old(View()), View())
        invariant crashed || CallbackLeaves(old(View()), View())
        invariant open ==> old(open)
      {
        ghost var before := View();
        UserCall();
        ReachesTrans(Step, old(View()), before, View());
        budget := budget - 1;
      }
    }

    /** One call the user makes. */
    method UserCall()
      requires Inv(View()) && !crashed
      modifies this
      ensures Inv(View()) && Reaches(Step, old(View()), View())
      ensures (crashed || CallbackLeaves(old(View()), View())) && (open ==> old(open))
      decreases if open then 1 else 0, 1
    {
      ReachesRefl(Step, View());
      var choice: nat := *;
      if choice == 0 && open {
        Close();
      } else if choice == 1 && open {
        StepTaken(View(), View(), ShutdownWrite);
        connected := false;
      } else {
        var data: seq<Byte>, kernel: seq<Kernel> := *, *;
        WriteLeaves(View(), data, kernel);
        StepTaken(View(), View(), Action.Write(data, kernel));
        var _ := Write(data, kernel);
      }
    }

    /** s_written_task: complete what was waiting when the task started, unless a callback closes the socket. */
    method WrittenTask()
      requires Inv(View()) && scheduled && covered == 0 && !crashed
      modifies this
      ensures Inv(View()) && Reaches(Step, old(View()), View())
      ensures crashed || (covered == 0 && |completed| >= |old(completed)| + |old(written)|)
    {
      ReachesRefl(Step, View());
      StepTaken(View(), View(), StartTask);
      scheduled, covered := false, |written|;
      ghost var before := View();
      DeliverCovered();
      ReachesTrans(Step, old(View()), before, View());
    }

    /** Call the completion of the front request. */
    method DeliverFront() returns (id: nat)
      requires Inv(View()) && covered > 0 && !crashed
      modifies this
      ensures Inv(View()) && Reaches(Step, old(View()), View()) && (open ==> old(open))
      ensures id == old(written)[0].id && (crashed || Delivered(old(View()), View()))
      decreases if open then 1 else 0, 3
    {
      ReachesRefl(Step, View());
      StepTaken(View(), View(), CompleteWritten);
      var request := PopWritten();
      id := request.id;
      ghost var before := View();
      UserCallback();
      ReachesTrans(Step, old(View()), before, View());
      if !crashed {
        FrontDelivered(old(View()), View());
      }
    }

    /** The loop of the task: stop after the request that was last in the queue at the start, or when the queue has
        been emptied by a close. */
    method DeliverCovered()
      requires Inv(View()) && covered == |written| && !crashed
      modifies this
      ensures Inv(View()) && Reaches(Step, old(View()), View()) && (open ==> old(open))
      ensures crashed || (covered == 0 && |completed| >= |old(completed)| + |old(written)|)
      ensures !old(open) ==> crashed || (written == [] && unsent == old(unsent))
      decreases if open then 1 else 0, 4
    {
      ReachesRefl(Step, View());
      if written == [] {
        return;
      }
      var stop := written[|written| - 1].id;
      while true
        invariant Inv(View()) && Reaches(Step, old(View()), View()) && (open ==> old(open))
        invariant covered > 0 && written[covered - 1].id == stop && !crashed
        invariant |completed| + covered >= |old(completed)| + |old(written)|
        invariant !old(open) ==> unsent == old(unsent)
        decreases covered
      {
        ghost var before := View();
        var id := DeliverFront();
        ReachesTrans(Step, old(View()), before, View());
        if crashed {
          break;
        }
        TaskGoesOn(before, View());
        if id == stop || written == [] {
          break;
        }
      }
    }

    /** Call the completions of everything that is still queued. */
    method DeliverAll()
      requires Inv(View()) && !open && !crashed
      modifies this
      ensures Inv(View()) && Reaches(Step, old(View()), View()) && !open
      ensures crashed || (written == [] && unsent == [])
      decreases 0, 3
    {
      ReachesRefl(Step, View());
      while written != [] && !crashed
        invariant Inv(View()) && Reaches(Step, old(View()), View()) && !open
        decreases !crashed, |written|
      {
        StepTaken(old(View()), View(), CompleteWritten);
        var _ := PopWritten();
        ghost var before := View();
        UserCallback();
        ReachesTrans(Step, old(View()), before, View());
      }
      while unsent != [] && !crashed
        invariant Inv(View()) && Reaches(Step, old(View()), View()) && !open && (crashed || written == [])
        decreases !crashed, |unsent|
      {
        StepTaken(old(View()), View(), CompleteUnsent);
        var _ := PopUnsent();
        ghost var before := View();
        UserCallback();
        ReachesTrans(Step, old(View()), before, View());
      }
    }

    /** aws_socket_close on the event-loop thread: the scheduled task is canceled, which runs it, and both queues are
        then emptied, so that every accepted write has been completed when the call returns. It does not come back
        when `crashed` is set. */
    method Close()
      requires Inv(View()) && !crashed
      modifies this
      ensures Inv(View()) && Reaches(Step, old(View()), View()) && !open
      ensures old(open) && !crashed ==>
                written == [] && unsent == [] && covered == 0 && HaveIds(completed, accepted)
      ensures !old(open) ==> View() == old(View())
      decreases if open then 1 else 0, 0
    {
      ReachesRefl(Step, View());
      if open {
        var wasScheduled := BeginClose();
        StepTaken(old(View()), old(View()), StartClose);
        ghost var before := View();
        DeliverAfterClose(wasScheduled);
        ReachesTrans(Step, old(View()), before, View());
        if !crashed {
          NothingQueued(View());
        }
      }
    }

    /** The socket is closed for everybody before the first completion is called. */
    method BeginClose() returns (wasScheduled: bool)
      requires open && !crashed
      modifies this`open, this`connected, this`scheduled, this`covered
      ensures View() == Next(old(View()), StartClose) && wasScheduled == old(scheduled)
    {
      wasScheduled := scheduled;
      open, connected, scheduled, covered := false, false, false, |written|;
    }

    /** What a close completes: first what the canceled task covers, then all the rest. */
    method DeliverAfterClose(wasScheduled: bool)
      requires Inv(View()) && !open && !crashed
      modifies this
      ensures Inv(View()) && Reaches(Step, old(View()), View()) && !open
      ensures crashed || (written == [] && unsent == [])
      decreases 0, 5
    {
      ReachesRefl(Step, View());
      if wasScheduled {
        DeliverCovered();
      }
      if !crashed {
        ghost var before := View();
        DeliverAll();
        ReachesTrans(Step, old(View()), before, View());
      }
    }
  }

  // ----- Facts the methods rely on -----

  /** The front of the written queue was completed, and perhaps, by way of a close, everything behind it too. */
  predicate Delivered(s: State, t: State) {
    if s.open && !t.open then
      t.q.written == [] && t.covered == 0 && |t.completed| >= |s.completed| + |s.q.written|
    else
      && t.covered == s.covered - 1 && |t.q.written| >= |s.q.written| - 1 && |t.completed| > |s.completed|
      && (forall i :: 0 <= i < |s.q.written| - 1 ==> t.q.written[i] == s.q.written[i + 1])
      && (!s.open ==> t.q.unsent == s.q.unsent)
  }

  /** One more step of a run. */
  lemma {:induction false} StepTaken(s: State, t: State, x: Action)
    requires Reaches(Step, s, t) && Inv(t) && Enabled(t, x)
    ensures Reaches(Step, s, Next(t, x)) && Inv(Next(t, x))
  {
    StepReaches(s, t, x);
    assert Step(t, Next(t, x));
    StepKeepsInv(t, Next(t, x));
  }

  lemma {:induction false} SendAllAppends(q: Queues, kernel: seq<Kernel>)
    requires Started(q.unsent)
    ensures q.written <= SendAll(q, kernel).q.written
    decreases |kernel|
  {
    if q.unsent != [] && kernel != [] && kernel[0].Sent? {
      SendSomeKeepsOrder(q, kernel[0].n);
      SendAllAppends(SendSome(q, kernel[0].n), kernel[1..]);
    }
  }

  lemma {:induction false} WriteLeaves(s: State, data: seq<Byte>, kernel: seq<Kernel>)
    requires Inv(s)
    ensures var t := AfterWrite(s, data, kernel); t.crashed || CallbackLeaves(s, t)
  {
    SendAllAppends(Pushed(s, data), kernel);
  }

  lemma {:induction false} WrittenIdsDiffer(s: State)
    requires Inv(s)
    ensures forall i :: 0 < i < |s.q.written| ==> s.q.written[i].id != s.q.written[0].id
  {
    forall i | 0 < i < |s.q.written| ensures s.q.written[i].id != s.q.written[0].id {
      var c := |s.completed|;
      assert Line(s)[c + i] == s.q.written[i] && Line(s)[c] == s.q.written[0];
    }
  }

  /** The task is done with the last request it covers, or when a close has emptied the queue, and not before. */
  lemma {:induction false} TaskGoesOn(s: State, t: State)
    requires Inv(s) && s.covered > 0 && Awake(t) && Delivered(s, t)
    ensures var last := s.q.written[s.covered - 1].id;
            if s.q.written[0].id == last || t.q.written == [] then t.covered == 0
            else 0 < t.covered < s.covered && t.q.written[t.covered - 1].id == last
    ensures |t.completed| + t.covered >= |s.completed| + s.covered
  {
    WrittenIdsDiffer(s);
  }

  lemma {:induction false} NothingQueued(s: State)
    requires Inv(s) && s.q.written == [] && s.q.unsent == []
    ensures HaveIds(s.completed, s.accepted) && s.covered == 0
  {
    assert Line(s) == s.completed;
  }

  lemma {:induction false} FrontDelivered(s: State, t: State)
    requires Inv(s) && Enabled(s, CompleteWritten)
    requires var told := Next(s, CompleteWritten); Inv(told) && Reaches(Step, told, t) && CallbackLeaves(told, t)
    ensures Delivered(s, t)
  {
    LinesGrow(Next(s, CompleteWritten), t);
  }

  predicate Longer(s: State, t: State) {
    |s.accepted| <= |t.accepted| && |s.completed| <= |t.completed|
  }

  lemma {:induction false} StepGrows(s: State, t: State)
    requires Step(s, t)
    ensures Longer(s, t)
  {
    var x :| Enabled(s, x) && t == Next(s, x);
  }

  /** No accepted or completed write is forgotten; when nothing is queued all accepted ones are complete. */
  lemma {:induction false} LinesGrow(s: State, t: State)
    requires Inv(s) && Reaches(Step, s, t)
    ensures Inv(t) && Longer(s, t)
    ensures t.q.written == [] && t.q.unsent == [] ==> |t.completed| >= |s.completed| + |s.q.written|
  {
    forall u, v | Inv(u) && Step(u, v) ensures Inv(v) && Longer(u, v) {
      StepKeepsInv(u, v);
      StepGrows(u, v);
    }
    ReachesBound(Step, Inv, Longer, s, t);
    Invariance(Step, Inv, s, t);
    assert |Line(s)| == |s.accepted| && |Line(t)| == |t.accepted|;
  }
}

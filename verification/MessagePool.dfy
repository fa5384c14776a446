/** The message pool of an event loop (source/message_pool.c).

Messages live in segments of two sizes, each size kept in a stack of its own. A message is taken from one stack or
the other by the size asked for, and put back by its capacity.
*/
module MessagePool {
  import opened Basics
  import opened Traces

  /** A block of memory; `room` is what it has for data besides the message header. */
  datatype Segment = Segment(id: int, room: nat)

  datatype Message = Message(segment: Segment, capacity: nat)

  /** Data sizes, and how many segments each stack keeps at most. */
  datatype Config = Config(appSize: nat, appCount: nat, smallSize: nat, smallCount: nat)

  /** The pool a channel sets up for its event loop. */
  const CHANNEL_CONFIG := Config(16 * 1024, 4, 128, 4)

  datatype Pool = Pool(
    config: Config,
    app: seq<Segment>,
    small: seq<Segment>,
    out: seq<Message>,            // messages handed out and not yet released
    made: nat,                    // segments allocated so far; their numbers are 0 .. made - 1
    freed: nat)                   // segments given back to the allocator

  datatype Action = Acquire(hint: nat) | Release(k: nat)

  function InitialPool(c: Config): Pool {
    Pool(c, seq(c.appCount, i => Segment(i, c.appSize)),
         seq(c.smallCount, i => Segment(c.appCount + i, c.smallSize)), [],
         c.appCount + c.smallCount, 0)
  }

  predicate Init(p: Pool) {
    p == InitialPool(p.config)
  }

  predicate Enabled(p: Pool, x: Action) {
    x.Acquire? || x.k < |p.out|
  }

  function CapacityFor(c: Config, hint: nat): nat {
    Min(hint, if hint > c.smallSize then c.appSize else c.smallSize)
  }

  function Top(stack: seq<Segment>, made: nat, room: nat): Segment {
    if stack != [] then stack[|stack| - 1] else Segment(made, room)
  }

  function Popped(stack: seq<Segment>): seq<Segment> {
    if stack != [] then stack[..|stack| - 1] else []
  }

  function AfterAcquire(p: Pool, hint: nat): Pool {
    var c := p.config;
    if hint > c.smallSize then
      p.(app := Popped(p.app),
         out := p.out + [Message(Top(p.app, p.made, c.appSize), CapacityFor(c, hint))],
         made := if p.app == [] then p.made + 1 else p.made)
    else
      p.(small := Popped(p.small),
         out := p.out + [Message(Top(p.small, p.made, c.smallSize), CapacityFor(c, hint))],
         made := if p.small == [] then p.made + 1 else p.made)
  }

  function AfterRelease(p: Pool, k: nat): Pool
    requires k < |p.out|
  {
    var m, rest := p.out[k], p.out[..k] + p.out[k + 1..];
    if m.capacity > p.config.smallSize then
      if |p.app| >= p.config.appCount then p.(out := rest, freed := p.freed + 1)
      else p.(out := rest, app := p.app + [m.segment])
    else
      if |p.small| >= p.config.smallCount then p.(out := rest, freed := p.freed + 1)
      else p.(out := rest, small := p.small + [m.segment])
  }

  function Next(p: Pool, x: Action): Pool
    requires Enabled(p, x)
  {
    match x
    case Acquire(hint) => AfterAcquire(p, hint)
    case Release(k) => AfterRelease(p, k)
  }

  ghost predicate Step(p: Pool, q: Pool) {
    exists x :: Enabled(p, x) && q == Next(p, x)
  }

  // ----- Ownership of the segments -----

  function Ids(stack: seq<Segment>): seq<int> {
    seq(|stack|, i requires 0 <= i < |stack| => stack[i].id)
  }

  function OutIds(out: seq<Message>): seq<int> {
    seq(|out|, i requires 0 <= i < |out| => out[i].segment.id)
  }

  ghost function Owners(p: Pool, id: int): nat {
    multiset(Ids(p.app))[id] + multiset(Ids(p.small))[id] + multiset(OutIds(p.out))[id]
  }

  /** No segment is in two places, and none that was not allocated is anywhere. */
  ghost predicate OwnedOnce(p: Pool) {
    forall id :: Owners(p, id) <= if 0 <= id < p.made then 1 else 0
  }

  predicate Bounded(p: Pool) {
    && |p.app| <= p.config.appCount && |p.small| <= p.config.smallCount
    && |p.app| + |p.small| + |p.out| + p.freed == p.made
  }

  ghost predicate Owned(p: Pool) {
    OwnedOnce(p) && Bounded(p)
  }

  lemma {:induction false} IdsOfPopped(stack: seq<Segment>, made: nat, room: nat, id: int)
    ensures multiset(Ids(Popped(stack)))[id] + (if Top(stack, made, room).id == id then 1 else 0) ==
            multiset(Ids(stack))[id] + (if stack == [] && id == made then 1 else 0)
  {
    if stack != [] {
      assert Ids(stack) == Ids(Popped(stack)) + [stack[|stack| - 1].id];
    }
  }

  lemma {:induction false} IdsOfPushed(stack: seq<Segment>, s: Segment, id: int)
    ensures multiset(Ids(stack + [s]))[id] == multiset(Ids(stack))[id] + if s.id == id then 1 else 0
  {
    assert Ids(stack + [s]) == Ids(stack) + [s.id];
  }

  lemma {:induction false} IdsOfOut(out: seq<Message>, m: Message, id: int)
    ensures multiset(OutIds(out + [m]))[id] == multiset(OutIds(out))[id] + if m.segment.id == id then 1 else 0
  {
    assert OutIds(out + [m]) == OutIds(out) + [m.segment.id];
  }

  lemma {:induction false} IdsWithout(out: seq<Message>, k: nat, id: int)
    requires k < |out|
    ensures multiset(OutIds(out))[id] ==
            multiset(OutIds(out[..k] + out[k + 1..]))[id] + if out[k].segment.id == id then 1 else 0
  {
    assert OutIds(out) == OutIds(out[..k]) + ([out[k].segment.id] + OutIds(out[k + 1..]));
    assert OutIds(out[..k] + out[k + 1..]) == OutIds(out[..k]) + OutIds(out[k + 1..]);
  }

  lemma {:induction false} AcquireOwners(p: Pool, hint: nat, id: int)
    ensures var q := AfterAcquire(p, hint);
            Owners(q, id) == Owners(p, id) + if q.made > p.made && id == p.made then 1 else 0
  {
    var c := p.config;
    if hint > c.smallSize {
      IdsOfPopped(p.app, p.made, c.appSize, id);
      IdsOfOut(p.out, Message(Top(p.app, p.made, c.appSize), CapacityFor(c, hint)), id);
    } else {
      IdsOfPopped(p.small, p.made, c.smallSize, id);
      IdsOfOut(p.out, Message(Top(p.small, p.made, c.smallSize), CapacityFor(c, hint)), id);
    }
  }

  lemma {:induction false} ReleaseOwners(p: Pool, k: nat, id: int)
    requires k < |p.out|
    ensures Owners(AfterRelease(p, k), id) <= Owners(p, id)
  {
    IdsWithout(p.out, k, id);
    IdsOfPushed(p.app, p.out[k].segment, id);
    IdsOfPushed(p.small, p.out[k].segment, id);
  }

  lemma {:induction false} AcquireKeepsOwned(p: Pool, hint: nat)
    requires Owned(p)
    ensures Owned(AfterAcquire(p, hint))
  {
    var q := AfterAcquire(p, hint);
    forall id ensures Owners(q, id) <= if 0 <= id < q.made then 1 else 0 {
      AcquireOwners(p, hint, id);
    }
    assert Bounded(q);
  }

  lemma {:induction false} ReleaseKeepsOwned(p: Pool, k: nat)
    requires Owned(p) && k < |p.out|
    ensures Owned(AfterRelease(p, k))
  {
    var q := AfterRelease(p, k);
    forall id ensures Owners(q, id) <= if 0 <= id < q.made then 1 else 0 {
      ReleaseOwners(p, k, id);
    }
    assert Bounded(q);
  }

  lemma {:induction false} StepKeepsOwned(p: Pool, q: Pool)
    requires Owned(p) && Step(p, q)
    ensures Owned(q)
  {
    var x :| Enabled(p, x) && q == Next(p, x);
    match x
    case Acquire(hint) => AcquireKeepsOwned(p, hint);
    case Release(k) => ReleaseKeepsOwned(p, k);
  }

  lemma {:induction false} InitOwned(p: Pool)
    requires Init(p)
    ensures Owned(p)
  {
    forall id ensures Owners(p, id) <= if 0 <= id < p.made then 1 else 0 {
      CountOfRange(p.app, 0, |p.app|, id);
      CountOfRange(p.small, p.config.appCount, |p.small|, id);
      assert Ids(p.app)[..|p.app|] == Ids(p.app) && Ids(p.small)[..|p.small|] == Ids(p.small);
    }
  }

  lemma {:induction false} CountOfRange(stack: seq<Segment>, first: int, n: nat, id: int)
    requires n <= |stack| && forall i :: 0 <= i < n ==> stack[i].id == first + i
    ensures multiset(Ids(stack)[..n])[id] == if first <= id < first + n then 1 else 0
  {
    if n > 0 {
      CountOfRange(stack, first, n - 1, id);
      assert Ids(stack)[..n] == Ids(stack)[..n - 1] + [stack[n - 1].id];
    }
  }

  /** In every run no segment is handed out twice or kept in a stack while it is out; the stacks stay within their
      bounds; and every segment is in a stack, out, or was given back. */
  lemma {:induction false} SegmentsAreNotShared(p: Pool, id: int)
    requires Reachable(Init, Step, p)
    ensures multiset(Ids(p.app))[id] + multiset(Ids(p.small))[id] + multiset(OutIds(p.out))[id] <= 1
    ensures |p.app| <= p.config.appCount && |p.small| <= p.config.smallCount
    ensures |p.app| + |p.small| + |p.out| + p.freed == p.made
  {
    forall q, r | Owned(q) && Step(q, r) ensures Owned(r) {
      StepKeepsOwned(q, r);
    }
    forall q | Init(q) ensures Owned(q) {
      InitOwned(q);
    }
    ReachableInvariant(Init, Step, Owned, p);
    assert Owners(p, id) <= 1;
  }

  /** A message larger than a small one is made from the stack of long segments, any other from the stack of short ones.
      It takes the segment put there last; a new one is allocated exactly if there is none. */
  lemma {:induction false} AcquireReusesSegment(p: Pool, hint: nat)
    ensures var q, long := Next(p, Acquire(hint)), hint > p.config.smallSize;
            var stack, size := if long then p.app else p.small, if long then p.config.appSize else p.config.smallSize;
            && |q.out| == |p.out| + 1 && q.out[..|p.out|] == p.out && q.freed == p.freed && q.config == p.config
            && q.out[|p.out|].capacity == (if hint < size then hint else size)
            && (if long then q.small == p.small else q.app == p.app)
            && (if stack == [] then
                  && q.made == p.made + 1 && q.app + q.small == p.app + p.small
                  && q.out[|p.out|].segment == Segment(p.made, size)
                else
                  q.made == p.made && (if long then q.app else q.small) + [q.out[|p.out|].segment] == stack)
  {
    var q := Next(p, Acquire(hint));
    assert q.out[..|p.out|] == p.out;
  }

  /** A released segment goes on top of the stack for its capacity, unless that is full: exactly then it is freed. */
  lemma {:induction false} ReleaseKeepsSegment(p: Pool, k: nat)
    requires k < |p.out|
    ensures var q, m := Next(p, Release(k)), p.out[k];
            && q.out == p.out[..k] + p.out[k + 1..] && q.made == p.made
            && (if m.capacity > p.config.smallSize then
                  && q.small == p.small
                  && (if |p.app| < p.config.appCount then q.app == p.app + [m.segment] && q.freed == p.freed
                      else q.app == p.app && q.freed == p.freed + 1)
                else
                  && q.app == p.app
                  && (if |p.small| < p.config.smallCount then q.small == p.small + [m.segment] && q.freed == p.freed
                      else q.small == p.small && q.freed == p.freed + 1))
  {
  }

  // ----- Capacities -----

  predicate FitsAll(p: Pool) {
    forall i :: 0 <= i < |p.out| ==> p.out[i].capacity <= p.out[i].segment.room
  }

  predicate Rooms(p: Pool) {
    && (forall i :: 0 <= i < |p.app| ==> p.app[i].room == p.config.appSize)
    && (forall i :: 0 <= i < |p.small| ==> p.small[i].room == p.config.smallSize)
    && (forall i :: 0 <= i < |p.out| ==> RoomOf(p.config, p.out[i]))
    && (p.config.smallCount == 0 ==> p.small == [])
  }

  predicate RoomOf(c: Config, m: Message) {
    && m.capacity <= m.segment.room
    && (m.capacity > c.smallSize ==> m.segment.room == c.appSize)
    && (m.capacity <= c.smallSize ==> m.segment.room == c.smallSize || c.smallCount == 0)
  }

  predicate Safe(c: Config) {
    c.smallSize <= c.appSize || c.smallCount == 0
  }

  lemma {:induction false} AcquireKeepsRooms(p: Pool, hint: nat)
    requires Safe(p.config) && Rooms(p)
    ensures Rooms(AfterAcquire(p, hint))
  {
  }

  lemma {:induction false} ReleaseKeepsRooms(p: Pool, k: nat)
    requires Safe(p.config) && Rooms(p) && k < |p.out|
    ensures Rooms(AfterRelease(p, k))
  {
    assert RoomOf(p.config, p.out[k]);
  }

  lemma {:induction false} StepKeepsRooms(p: Pool, q: Pool)
    requires Safe(p.config) && Rooms(p) && Step(p, q)
    ensures Rooms(q) && q.config == p.config
  {
    var x :| Enabled(p, x) && q == Next(p, x);
    match x
    case Acquire(hint) => AcquireKeepsRooms(p, hint);
    case Release(k) => ReleaseKeepsRooms(p, k);
  }

  lemma {:induction false} SafeConfigFits(p: Pool)
    requires Reachable(Init, Step, p) && Safe(p.config)
    ensures FitsAll(p)
  {
    var inv := (q: Pool) => Safe(q.config) ==> Rooms(q);
    forall q, r | inv(q) && Step(q, r) ensures inv(r) {
      var x :| Enabled(q, x) && r == Next(q, x);
      if Safe(r.config) {
        StepKeepsRooms(q, r);
      }
    }
    ReachableInvariant(Init, Step, inv, p);
  }

  lemma {:induction false} Advance(p: Pool, q: Pool, x: Action) returns (r: Pool)
    requires Reaches(Step, p, q) && Enabled(q, x)
    ensures Reaches(Step, p, r) && r == Next(q, x)
  {
    r := Next(q, x);
    assert Step(q, r);
    ReachesStep(Step, p, q, r);
  }

  /** With small messages larger than application messages a short segment ends up in the stack of long ones. */
  lemma {:induction false} UnsafeConfigOverflows(c: Config) returns (p: Pool)
    requires !Safe(c)
    ensures Reachable(Init, Step, p) && p.config == c && !FitsAll(p)
  {
    var p0 := InitialPool(c);
    assert Init(p0);
    ReachesRefl(Step, p0);
    p := Advance(p0, p0, Acquire(c.smallSize + 1));
    p := Advance(p0, p, Acquire(c.smallSize));
    assert p.out[0].capacity == p.out[0].segment.room == c.appSize;
    var short := p.out[0].segment;
    p := Advance(p0, p, Release(0));
    assert p.small[|p.small| - 1] == short;
    p := Advance(p0, p, Acquire(c.smallSize));
    var last := |p.out| - 1;
    assert p.out[last] == Message(short, c.smallSize);
  }

  /** Every message ever handed out fits in its segment if and only if application messages are at least as large as
      small ones, or no small segments are kept. */
  lemma {:induction false} CapacityFitsExactlyWhen(c: Config)
    ensures (forall p :: Reachable(Init, Step, p) && p.config == c ==> FitsAll(p)) <==> Safe(c)
  {
    if Safe(c) {
      forall p | Reachable(Init, Step, p) && p.config == c ensures FitsAll(p) {
        SafeConfigFits(p);
      }
    } else {
      var p := UnsafeConfigOverflows(c);
    }
  }

  /** A message is never larger than asked for, and holds something whenever something is asked for. */
  lemma CapacityIsWithinHint(c: Config, hint: nat)
    ensures CapacityFor(c, hint) <= hint
    ensures hint > 0 && c.appSize > 0 && c.smallSize > 0 ==> CapacityFor(c, hint) > 0
  {
  }

  // ----- The stacks in place -----

  class MemoryPool {
    const segmentSize: nat
    const idealCount: nat
    var stack: seq<Segment>

    constructor (segmentSize: nat, idealCount: nat, first: nat)
      ensures this.segmentSize == segmentSize && this.idealCount == idealCount
      ensures stack == seq(idealCount, i => Segment(first + i, segmentSize))
    {
      this.segmentSize, this.idealCount := segmentSize, idealCount;
      stack := [];
      new;
      for i := 0 to idealCount
        invariant stack == seq(i, j => Segment(first + j, segmentSize))
      {
        stack := stack + [Segment(first + i, segmentSize)];
      }
    }

    /** aws_memory_pool_acquire; `number` is the one a new segment gets. */
    method Acquire(number: nat) returns (segment: Segment, isNew: bool)
      modifies this
      ensures segment == Top(old(stack), number, segmentSize) && stack == Popped(old(stack))
      ensures isNew <==> old(stack) == []
    {
      if |stack| > 0 {
        segment := stack[|stack| - 1];
        stack := stack[..|stack| - 1];
        return segment, false;
      }
      return Segment(number, segmentSize), true;
    }

    /** aws_memory_pool_release */
    method Release(segment: Segment) returns (freed: bool)
      modifies this
      ensures freed <==> |old(stack)| >= idealCount
      ensures stack == if freed then old(stack) else old(stack) + [segment]
    {
      if |stack| >= idealCount {
        return true;
      }
      stack := stack + [segment];
      return false;
    }
  }

  class Pools {
    const app: MemoryPool
    const small: MemoryPool
    var out: seq<Message>
    var made: nat
    var freed: nat

    ghost predicate Valid()
      reads this
    {
      app != small
    }

    ghost function View(): Pool
      reads this, app, small
    {
      Pool(Config(app.segmentSize, app.idealCount, small.segmentSize, small.idealCount),
           app.stack, small.stack, out, made, freed)
    }

    constructor (c: Config)
      ensures Valid() && fresh(app) && fresh(small) && View() == InitialPool(c)
    {
      app := new MemoryPool(c.appSize, c.appCount, 0);
      small := new MemoryPool(c.smallSize, c.smallCount, c.appCount);
      out, made, freed := [], c.appCount + c.smallCount, 0;
      new;
      assert app.stack == seq(c.appCount, i => Segment(i, c.appSize));
    }

    /** aws_message_pool_acquire */
    method AcquireMessage(hint: nat) returns (m: Message)
      requires Valid()
      modifies this, app, small
      ensures Valid() && View() == AfterAcquire(old(View()), hint)
      ensures m == out[|out| - 1] && m.capacity <= hint
    {
      var segment, isNew, max;
      if hint > small.segmentSize {
        segment, isNew := app.Acquire(made);
        max := app.segmentSize;
      } else {
        segment, isNew := small.Acquire(made);
        max := small.segmentSize;
      }
      if isNew {
        made := made + 1;
      }
      m := Message(segment, if hint <= max then hint else max);
      out := out + [m];
    }

    /** aws_message_pool_release */
    method ReleaseMessage(k: nat)
      requires Valid() && k < |out|
      modifies this, app, small
      ensures Valid() && View() == AfterRelease(old(View()), k)
    {
      var m := out[k];
      out := out[..k] + out[k + 1..];
      var gone;
      if m.capacity > small.segmentSize {
        gone := app.Release(m.segment);
      } else {
        gone := small.Release(m.segment);
      }
      if gone {
        freed := freed + 1;
      }
    }
  }
}

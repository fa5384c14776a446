/** The token bucket of the standard retry strategy (source/standard_retry_strategy.c).

Tokens of one partition share a bucket of capacity. Scheduling a retry takes capacity out in one critical
section, then asks the nested back-off strategy, and rolls back in a second critical section if that refuses;
any number of other tokens may act in between. A success pays the token's last cost back.

The sum of capacity and cost is a machine addition that may wrap around. With a maximum within 10 of the largest size a
pay-back can therefore lower the capacity, down to nothing.
*/
module RetryBucket {
  import opened Basics
  import opened Traces

  const RETRY_COST: Size := 5
  const TRANSIENT_COST: Size := 10
  const NO_RETRY_COST: Size := 1

  datatype ErrorType = Transient | Throttling | ServerError | ClientError

  /** What a token is doing: nothing, or waiting for the nested strategy with the values it saved. */
  datatype Phase = Idle | Scheduling(previousCost: Size, consumed: Size)

  datatype Token = Token(lastCost: Size, phase: Phase, released: bool)
  {
    function Held(): nat {
      lastCost + if phase.Scheduling? then phase.previousCost else 0
    }

    function Units(): nat {
      if phase.Scheduling? then InRetries(phase.consumed) else 0
    }
  }

  datatype Bucket = Bucket(
    capacity: Size,
    max: Size,
    tokens: seq<Token>,      // every token ever acquired
    forfeited: nat,          // cost that was dropped without reaching the capacity
    admitted: nat,           // retries the nested strategy accepted
    successes: nat)

  datatype Action =
    | Acquire
    | Begin(token: nat, error: ErrorType)
    | Accept(token: nat)
    | Reject(token: nat)
    | Success(token: nat)
    | Release(token: nat)

  predicate Init(b: Bucket) {
    b == Bucket(b.max, b.max, [], 0, 0, 0)
  }

  predicate IsIdle(b: Bucket, t: nat) {
    t < |b.tokens| && b.tokens[t].phase.Idle? && !b.tokens[t].released
  }

  predicate IsScheduling(b: Bucket, t: nat) {
    t < |b.tokens| && b.tokens[t].phase.Scheduling? && !b.tokens[t].released
  }

  /** One operation at a time per token. */
  predicate Enabled(b: Bucket, a: Action) {
    match a
    case Acquire => true
    case Begin(t, _) => IsIdle(b, t)
    case Accept(t) => IsScheduling(b, t)
    case Reject(t) => IsScheduling(b, t)
    case Success(t) => IsIdle(b, t)
    case Release(t) => IsIdle(b, t)
  }

  predicate Concerns(a: Action, t: nat) {
    match a
    case Acquire => false
    case Begin(u, _) => u == t
    case Accept(u) => u == t
    case Reject(u) => u == t
    case Success(u) => u == t
    case Release(u) => u == t
  }

  predicate Denied(b: Bucket, error: ErrorType) {
    error.ClientError? || b.capacity == 0
  }

  function Cost(capacity: Size, error: ErrorType): Size {
    var full := if error.Transient? then TRANSIENT_COST else RETRY_COST;
    if capacity < full then capacity else full
  }

  /** Capacity after paying `cost` back: never above the maximum, but the addition wraps around. */
  function PaidBack(b: Bucket, cost: Size): Size {
    var desired := AddWrap(b.capacity, cost);
    if desired < b.max then desired else b.max
  }

  function Put(b: Bucket, t: nat, token: Token, capacity: Size, forfeit: nat): Bucket
    requires t < |b.tokens|
  {
    b.(tokens := b.tokens[t := token], capacity := capacity, forfeited := b.forfeited + forfeit)
  }

  function Next(b: Bucket, a: Action): Bucket
    requires Enabled(b, a)
  {
    match a
    case Acquire => b.(tokens := b.tokens + [Token(NO_RETRY_COST, Idle, false)])
    case Begin(t, error) =>
      if Denied(b, error) then b
      else
        var cost := Cost(b.capacity, error);
        Put(b, t, b.tokens[t].(lastCost := cost, phase := Scheduling(b.tokens[t].lastCost, cost)), b.capacity - cost, 0)
    case Accept(t) =>
      var saved := b.tokens[t].phase.previousCost;
      Put(b, t, b.tokens[t].(phase := Idle), b.capacity, saved).(admitted := b.admitted + 1)
    case Reject(t) =>
      var Scheduling(saved, consumed) := b.tokens[t].phase;
      var capacity := PaidBack(b, consumed);
      Put(b, t, b.tokens[t].(lastCost := saved, phase := Idle), capacity, Shortfall(b, consumed))
    case Success(t) =>
      var cost := b.tokens[t].lastCost;
      Put(b, t, b.tokens[t].(lastCost := 0), PaidBack(b, cost), Shortfall(b, cost)).(successes := b.successes + 1)
    case Release(t) =>
      Put(b, t, b.tokens[t].(lastCost := 0, released := true), b.capacity, b.tokens[t].lastCost)
  }

  /** The part of `cost` that paying back does not bring into the bucket. */
  function Shortfall(b: Bucket, cost: Size): nat {
    if b.capacity + cost >= PaidBack(b, cost) then b.capacity + cost - PaidBack(b, cost) else 0
  }

  ghost predicate Step(b: Bucket, c: Bucket) {
    exists a :: Enabled(b, a) && c == Next(b, a)
  }

  // ----- The ledger -----

  function HeldByAll(tokens: seq<Token>): nat {
    if tokens == [] then 0 else HeldByAll(tokens[..|tokens| - 1]) + tokens[|tokens| - 1].Held()
  }

  function UnitsOfAll(tokens: seq<Token>): nat {
    if tokens == [] then 0 else UnitsOfAll(tokens[..|tokens| - 1]) + tokens[|tokens| - 1].Units()
  }

  /** How many retries of the ordinary cost an amount of capacity stands for, rounded up. */
  function InRetries(amount: nat): nat {
    (amount + 4) / 5
  }

  lemma {:induction false} ReplaceOne(tokens: seq<Token>, i: nat, token: Token)
    requires i < |tokens|
    ensures HeldByAll(tokens[i := token]) == HeldByAll(tokens) - tokens[i].Held() + token.Held()
    ensures UnitsOfAll(tokens[i := token]) == UnitsOfAll(tokens) - tokens[i].Units() + token.Units()
  {
    var n := |tokens| - 1;
    var now := tokens[i := token];
    if i == n {
      assert now[..n] == tokens[..n];
    } else {
      ReplaceOne(tokens[..n], i, token);
      assert now[..n] == tokens[..n][i := token];
    }
  }

  lemma {:induction false} AddOne(tokens: seq<Token>, token: Token)
    ensures HeldByAll(tokens + [token]) == HeldByAll(tokens) + token.Held()
    ensures UnitsOfAll(tokens + [token]) == UnitsOfAll(tokens) + token.Units()
  {
    assert (tokens + [token])[..|tokens|] == tokens;
  }

  predicate SmallCosts(t: Token) {
    t.lastCost <= TRANSIENT_COST && (t.phase.Scheduling? ==> t.phase.previousCost <= TRANSIENT_COST)
  }

  ghost predicate Inv(b: Bucket) {
    && b.capacity <= b.max
    && b.capacity + HeldByAll(b.tokens) + b.forfeited == b.max + |b.tokens|
    && (forall i :: 0 <= i < |b.tokens| && b.tokens[i].phase.Scheduling? ==>
      b.tokens[i].lastCost == b.tokens[i].phase.consumed && 0 < b.tokens[i].phase.consumed)
    && (forall i :: 0 <= i < |b.tokens| ==> SmallCosts(b.tokens[i]))
    && (b.successes == 0 ==> b.admitted + InRetries(b.capacity) + UnitsOfAll(b.tokens) <= InRetries(b.max))
  }

  lemma {:induction false} PutKeepsInv(b: Bucket, t: nat, token: Token, capacity: Size, forfeit: nat)
    requires Inv(b) && t < |b.tokens| && capacity <= b.max
    requires capacity + token.Held() + forfeit == b.capacity + b.tokens[t].Held()
    requires token.phase.Scheduling? ==> token.lastCost == token.phase.consumed && 0 < token.phase.consumed
    requires SmallCosts(token)
    ensures var c := Put(b, t, token, capacity, forfeit);
      && Inv(c.(successes := c.successes + 1))
      && (InRetries(capacity) + token.Units() <= InRetries(b.capacity) + b.tokens[t].Units() ==> Inv(c))
      && (InRetries(capacity) + token.Units() < InRetries(b.capacity) + b.tokens[t].Units() ==>
          Inv(c.(admitted := c.admitted + 1)))
  {
    ReplaceOne(b.tokens, t, token);
  }

  lemma {:induction false} PayingBack(b: Bucket, cost: Size)
    requires b.capacity <= b.max
    ensures PaidBack(b, cost) <= b.max && PaidBack(b, cost) + Shortfall(b, cost) == b.capacity + cost
    ensures InRetries(PaidBack(b, cost)) <= InRetries(b.capacity) + InRetries(cost)
  {
  }

  lemma {:induction false} BeginKeepsInv(b: Bucket, t: nat, error: ErrorType)
    requires Inv(b) && IsIdle(b, t)
    ensures Inv(Next(b, Begin(t, error)))
  {
    if !Denied(b, error) {
      var c := Next(b, Begin(t, error));
      PutKeepsInv(b, t, c.tokens[t], c.capacity, 0);
    }
  }

  lemma {:induction false} RejectKeepsInv(b: Bucket, t: nat)
    requires Inv(b) && IsScheduling(b, t)
    ensures Inv(Next(b, Reject(t)))
  {
    var c := Next(b, Reject(t));
    var consumed := b.tokens[t].phase.consumed;
    PayingBack(b, consumed);
    PutKeepsInv(b, t, c.tokens[t], c.capacity, Shortfall(b, consumed));
  }

  lemma {:induction false} SuccessKeepsInv(b: Bucket, t: nat)
    requires Inv(b) && IsIdle(b, t)
    ensures Inv(Next(b, Success(t)))
  {
    var c := Next(b, Success(t));
    PayingBack(b, b.tokens[t].lastCost);
    PutKeepsInv(b, t, c.tokens[t], c.capacity, Shortfall(b, b.tokens[t].lastCost));
  }

  lemma {:induction false} AcceptKeepsInv(b: Bucket, t: nat)
    requires Inv(b) && IsScheduling(b, t)
    ensures Inv(Next(b, Accept(t)))
  {
    var c := Next(b, Accept(t));
    PutKeepsInv(b, t, c.tokens[t], c.capacity, b.tokens[t].phase.previousCost);
  }

  lemma {:induction false} ReleaseKeepsInv(b: Bucket, t: nat)
    requires Inv(b) && IsIdle(b, t)
    ensures Inv(Next(b, Release(t)))
  {
    var c := Next(b, Release(t));
    PutKeepsInv(b, t, c.tokens[t], c.capacity, b.tokens[t].lastCost);
  }

  lemma {:induction false} StepKeepsInv(b: Bucket, c: Bucket)
    requires Inv(b) && Step(b, c)
    ensures Inv(c)
  {
    var a :| Enabled(b, a) && c == Next(b, a);
    match a {
      case Acquire => AddOne(b.tokens, Token(NO_RETRY_COST, Idle, false));
      case Begin(t, error) => BeginKeepsInv(b, t, error);
      case Accept(t) => AcceptKeepsInv(b, t);
      case Reject(t) => RejectKeepsInv(b, t);
      case Success(t) => SuccessKeepsInv(b, t);
      case Release(t) => ReleaseKeepsInv(b, t);
    }
  }

  lemma {:induction false} ReachableInv(b: Bucket)
    requires Reachable(Init, Step, b)
    ensures Inv(b)
  {
    forall s, t | Inv(s) && Step(s, t) ensures Inv(t) {
      StepKeepsInv(s, t);
    }
    ReachableInvariant(Init, Step, Inv, b);
  }

  // ----- What every interleaving keeps -----

  /** Capacity, the last costs of all tokens and the costs saved by schedules in flight never exceed the
      initial capacity and one unit per token acquired; what is missing is exactly what was forfeited. */
  lemma {:induction false} CapacityIsConserved(b: Bucket)
    requires Reachable(Init, Step, b)
    ensures b.capacity <= b.max
    ensures b.capacity + HeldByAll(b.tokens) <= b.max + |b.tokens|
    ensures b.max + |b.tokens| - b.capacity - HeldByAll(b.tokens) == b.forfeited
  {
    ReachableInv(b);
  }

  /** As long as no operation has succeeded, the bucket admits no more retries than its initial capacity pays
      for at the ordinary cost, however schedules, refusals and roll-backs interleave. */
  lemma {:induction false} OutageAdmitsBoundedRetries(b: Bucket)
    requires Reachable(Init, Step, b) && b.successes == 0
    ensures b.admitted <= InRetries(b.max)
  {
    ReachableInv(b);
  }

  /** A schedule the nested strategy refuses leaves no trace when nothing came in between. */
  lemma {:induction false} RollbackUndoesSchedule(b: Bucket, t: nat, error: ErrorType)
    requires Reachable(Init, Step, b) && IsIdle(b, t) && !Denied(b, error)
    ensures IsScheduling(Next(b, Begin(t, error)), t)
    ensures Next(Next(b, Begin(t, error)), Reject(t)) == b
  {
    ReachableInv(b);
    var began := Next(b, Begin(t, error));
    assert began.tokens[t := b.tokens[t]] == b.tokens;
  }

  /** Scheduling a retry is denied exactly for a client error or an empty bucket, and then changes nothing; otherwise it
      takes 10 out of the bucket for a transient error and 5 for another one, or whatever is left if that is less. */
  lemma {:induction false} ScheduleTakesItsCost(b: Bucket, t: nat, error: ErrorType)
    requires Reachable(Init, Step, b) && IsIdle(b, t)
    ensures var c, cost := Next(b, Begin(t, error)), Min(b.capacity, if error == Transient then 10 else 5);
            && (c == b <==> error == ClientError || b.capacity == 0)
            && (c != b ==>
                  && c.capacity == b.capacity - cost && |c.tokens| == |b.tokens|
                  && c.tokens[t] == Token(cost, Scheduling(b.tokens[t].lastCost, cost), false)
                  && c == b.(capacity := c.capacity, tokens := b.tokens[t := c.tokens[t]]))
  {
    if !Denied(b, error) {
      assert Next(b, Begin(t, error)).capacity < b.capacity;
    }
  }

  /** What becomes of a token's cost: a retry that is let through keeps what it took, in place of what the one before it
      had cost; one that is refused owes again what it owed before; a success leaves nothing to owe, and so does the
      release of a token, which alone gives nothing back. Other tokens are left alone. */
  lemma {:induction false} TokenOwes(b: Bucket, a: Action, t: nat)
    requires Enabled(b, a) && t < |b.tokens|
    ensures var c, was := Next(b, a), b.tokens[t];
            && t < |c.tokens| && c.max == b.max
            && (!Concerns(a, t) ==> c.tokens[t] == was)
            && (a == Accept(t) ==>
                  c.tokens[t] == was.(phase := Idle) && c.capacity == b.capacity && c.admitted == b.admitted + 1)
            && (a == Reject(t) ==> c.tokens[t] == Token(was.phase.previousCost, Idle, was.released))
            && (a == Success(t) ==> c.tokens[t] == was.(lastCost := 0))
            && (a == Release(t) ==> c.tokens[t].Held() == 0 && c.tokens[t].released && c.capacity == b.capacity)
            && (c.admitted != b.admitted <==> a.Accept?)
            && (a == Acquire ==> c == b.(tokens := b.tokens + [Token(1, Idle, false)]))
  {
  }

  // ----- When paying back works -----

  /** What paying back is meant to do. */
  predicate PaysBack(b: Bucket, c: Bucket, cost: Size) {
    c.capacity == Min(b.capacity + cost, b.max)
  }

  function Due(b: Bucket, a: Action): Size
    requires Enabled(b, a) && (a.Success? || a.Reject?)
  {
    if a.Success? then b.tokens[a.token].lastCost else b.tokens[a.token].phase.consumed
  }

  /** A success or a roll-back adds its cost to the capacity, up to the maximum, exactly when the sum does not wrap
      around; when it does, and only then, the capacity falls. */
  lemma {:induction false} PaysBackExactlyWhen(b: Bucket, a: Action)
    requires Reachable(Init, Step, b) && Enabled(b, a) && (a.Success? || a.Reject?)
    ensures PaysBack(b, Next(b, a), Due(b, a)) <==> b.capacity + Due(b, a) <= SIZE_MAX
    ensures Next(b, a).capacity < b.capacity <==> b.capacity + Due(b, a) > SIZE_MAX
  {
    ReachableInv(b);
  }

  predicate NeverLowers(b: Bucket, a: Action) {
    Enabled(b, a) && (a.Success? || a.Reject?) ==> Next(b, a).capacity >= b.capacity
  }

  ghost predicate AlwaysPaysBack(max: Size) {
    forall b, a :: Reachable(Init, Step, b) && b.max == max ==> NeverLowers(b, a)
  }

  /** No run with a given maximum lowers the capacity by paying back exactly when the maximum leaves room for the
      largest cost. */
  lemma {:induction false} PaysBackIffMaximumLeavesRoom(max: Size)
    ensures AlwaysPaysBack(max) <==> max <= SIZE_MAX - TRANSIENT_COST
  {
    if max <= SIZE_MAX - TRANSIENT_COST {
      forall b, a | Reachable(Init, Step, b) && b.max == max ensures NeverLowers(b, a) {
        ReachableInv(b);
        if Enabled(b, a) && (a.Success? || a.Reject?) {
          PaysBackExactlyWhen(b, a);
          assert SmallCosts(b.tokens[a.token]);
        }
      }
    } else {
      var b := FullAgain(max);
      PaysBackExactlyWhen(b, Success(0));
      assert !NeverLowers(b, Success(0));
    }
  }

  /** With the largest maximum the very first success empties a full bucket. */
  lemma {:induction false} SuccessMayEmptyBucket() returns (b: Bucket)
    ensures Reachable(Init, Step, b) && b.max == SIZE_MAX && b.capacity == 0 && b.successes == 1 && b.admitted == 0
  {
    b := Bucket(SIZE_MAX, SIZE_MAX, [], 0, 0, 0);
    ReachesRefl(Step, b);
    b := Take(b, Acquire);
    b := Take(b, Success(0));
  }

  lemma {:induction false} Take(b: Bucket, a: Action) returns (c: Bucket)
    requires Reachable(Init, Step, b) && Enabled(b, a)
    ensures c == Next(b, a) && Reachable(Init, Step, c)
  {
    c := Next(b, a);
    assert Step(b, c);
    ReachableStep(Init, Step, b, c);
  }

  /** A token owes the largest cost while the bucket is full: others have made up for it. */
  lemma {:induction false} FullAgain(max: Size) returns (b: Bucket)
    requires max > SIZE_MAX - TRANSIENT_COST
    ensures Reachable(Init, Step, b) && b.max == max && b.capacity == max
    ensures IsIdle(b, 0) && b.tokens[0].lastCost == TRANSIENT_COST
  {
    b := Bucket(max, max, [], 0, 0, 0);
    ReachesRefl(Step, b);
    b := Take(b, Acquire);
    b := Take(b, Begin(0, Transient));
    b := Take(b, Accept(0));
    b := Refilled(b, TRANSIENT_COST);
  }

  /** Successes of fresh tokens bring back one unit each. */
  lemma {:induction false} Refilled(b: Bucket, n: nat) returns (c: Bucket)
    requires Reachable(Init, Step, b) && b.tokens != [] && b.capacity + n <= b.max
    ensures Reachable(Init, Step, c) && c.max == b.max && c.capacity == b.capacity + n
    ensures c.tokens != [] && c.tokens[0] == b.tokens[0]
    decreases n
  {
    c := b;
    if n > 0 {
      c := Take(c, Acquire);
      c := Take(c, Success(|b.tokens|));
      c := Refilled(c, n - 1);
    }
  }

  // ----- The code -----

  class Strategy {
    const maxCapacity: Size
    var currentCapacity: Size
    var tokens: seq<Token>
    var forfeited: nat
    var admitted: nat
    var successes: nat

    function View(): Bucket
      reads this
    {
      Bucket(currentCapacity, maxCapacity, tokens, forfeited, admitted, successes)
    }

    constructor (maxCapacity: Size)
      ensures this.maxCapacity == maxCapacity && Init(View())
    {
      this.maxCapacity := maxCapacity;
      currentCapacity, tokens, forfeited, admitted, successes := maxCapacity, [], 0, 0, 0;
    }

    method AcquireToken() returns (t: nat)
      modifies this`tokens
      ensures t == |old(tokens)| && View() == Next(old(View()), Acquire)
    {
      t := |tokens|;
      tokens := tokens + [Token(NO_RETRY_COST, Idle, false)];
    }

    method RecordSuccess(t: nat)
      requires IsIdle(View(), t)
      modifies this
      ensures View() == Next(old(View()), Success(t))
    {
      forfeited := forfeited + Shortfall(View(), tokens[t].lastCost);
      var payback := AddWrap(currentCapacity, tokens[t].lastCost);
      currentCapacity := if payback < maxCapacity then payback else maxCapacity;
      tokens := tokens[t := tokens[t].(lastCost := 0)];
      successes := successes + 1;
    }

    /** The first critical section of s_standard_retry_strategy_schedule_retry. */
    method TakeCapacity(t: nat, error: ErrorType) returns (ok: bool)
      requires IsIdle(View(), t)
      modifies this
      ensures ok == !Denied(old(View()), error)
      ensures View() == Next(old(View()), Begin(t, error))
    {
      if error.ClientError? || currentCapacity == 0 {
        return false;
      }
      var consumed: Size;
      if error.Transient? {
        consumed := if currentCapacity < TRANSIENT_COST then currentCapacity else TRANSIENT_COST;
      } else {
        consumed := if currentCapacity < RETRY_COST then currentCapacity else RETRY_COST;
      }
      var previousCost := tokens[t].lastCost;
      tokens := tokens[t := tokens[t].(lastCost := consumed, phase := Scheduling(previousCost, consumed))];
      currentCapacity := currentCapacity - consumed;
      ok := true;
    }

    /** The second critical section: the nested strategy refused. */
    method RollBack(t: nat)
      requires IsScheduling(View(), t)
      modifies this
      ensures View() == Next(old(View()), Reject(t))
    {
      var Scheduling(previousCost, consumed) := tokens[t].phase;
      forfeited := forfeited + Shortfall(View(), consumed);
      tokens := tokens[t := tokens[t].(lastCost := previousCost, phase := Idle)];
      var desired := AddWrap(currentCapacity, consumed);
      currentCapacity := if desired < maxCapacity then desired else maxCapacity;
    }

    /** Whatever holders of other tokens do in the meantime. */
    method OtherTokens(t: nat)
      requires t < |tokens|
      modifies this
      ensures Reaches(Step, old(View()), View())
      ensures t < |tokens| && tokens[t] == old(tokens)[t]
    {
      var budget: nat := *;
      ReachesRefl(Step, View());
      while budget > 0
        invariant Reaches(Step, old(View()), View())
        invariant t < |tokens| && tokens[t] == old(tokens)[t]
      {
        var a: Action := *;
        if Enabled(View(), a) && !Concerns(a, t) {
          StepReaches(old(View()), View(), a);
          match a {
            case Acquire => var _ := AcquireToken();
            case Begin(u, error) => var _ := TakeCapacity(u, error);
            case Accept(u) => Accepted(u);
            case Reject(u) => RollBack(u);
            case Success(u) => RecordSuccess(u);
            case Release(u) => ReleaseToken(u);
          }
        }
        budget := budget - 1;
      }
    }

    method Accepted(t: nat)
      requires IsScheduling(View(), t)
      modifies this
      ensures View() == Next(old(View()), Accept(t))
    {
      forfeited := forfeited + tokens[t].phase.previousCost;
      tokens := tokens[t := tokens[t].(phase := Idle)];
      admitted := admitted + 1;
    }

    method ReleaseToken(t: nat)
      requires IsIdle(View(), t)
      modifies this
      ensures View() == Next(old(View()), Release(t))
    {
      forfeited := forfeited + tokens[t].lastCost;
      tokens := tokens[t := tokens[t].(lastCost := 0, released := true)];
    }

    /** s_standard_retry_strategy_schedule_retry: an error leaves the token as it was, whatever others did. */
    method ScheduleRetry(t: nat, error: ErrorType) returns (ok: bool)
      requires IsIdle(View(), t)
      modifies this
      ensures Reaches(Step, old(View()), View())
      ensures t < |tokens| && IsIdle(View(), t)
      ensures !ok ==> tokens[t] == old(tokens)[t]
      ensures ok ==> 0 < tokens[t].lastCost <= if error.Transient? then TRANSIENT_COST else RETRY_COST
      ensures old(Denied(View(), error)) ==> !ok
    {
      ReachesRefl(Step, View());
      StepReaches(View(), View(), Begin(t, error));
      ok := TakeCapacity(t, error);
      if !ok {
        return;
      }
      ghost var taken := View();
      OtherTokens(t);
      ReachesTrans(Step, old(View()), taken, View());
      ok := *;
      if ok {
        StepReaches(old(View()), View(), Accept(t));
        Accepted(t);
      } else {
        StepReaches(old(View()), View(), Reject(t));
        RollBack(t);
      }
    }
  }

  lemma {:induction false} StepReaches(b: Bucket, c: Bucket, a: Action)
    requires Reaches(Step, b, c) && Enabled(c, a)
    ensures Reaches(Step, b, Next(c, a))
  {
    assert Step(c, Next(c, a));
    ReachesStep(Step, b, c, Next(c, a));
  }
}

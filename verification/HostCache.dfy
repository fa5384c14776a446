/** The address caches of a host entry (source/host_resolver.c).

For each record type an entry holds a cache of good addresses and a cache of addresses that failed to connect.
Both evict the least recently used element when they overflow. A cache is modelled as the sequence of its
records from least to most recently used; the cache itself belongs to another library and is taken to be what
its name says. The lists of addresses that appeared and disappeared are kept per record type and are never
emptied here, so that they record the whole history of an entry.
*/
module HostCache {
  import opened Basics
  import opened Traces

  /** Addresses are only ever compared for equality. */
  type Address = int

  datatype Record = Record(address: Address, expiry: nat, failures: nat)

  type Cache = seq<Record>

  type Capacity = x: int | x > 0 witness 1

  datatype Caches = Caches(
    capacity: Capacity, good: Cache, failed: Cache, appeared: seq<Address>, disappeared: seq<Address>)

  // ----- The cache operations -----

  /** Where the record of an address stands; the length of the cache if there is none. */
  function Position(c: Cache, a: Address): (p: nat)
    ensures p <= |c| && (p < |c| ==> c[p].address == a)
    ensures forall i :: 0 <= i < p ==> c[i].address != a
  {
    if c == [] then 0
    else if c[0].address == a then 0
    else 1 + Position(c[1..], a)
  }

  predicate Has(c: Cache, a: Address) {
    Position(c, a) < |c|
  }

  function Keys(c: Cache): (k: seq<Address>)
    ensures |k| == |c| && forall i :: 0 <= i < |c| ==> k[i] == c[i].address
  {
    seq(|c|, i requires 0 <= i < |c| => c[i].address)
  }

  /** The addresses of a cache, each counted as often as it occurs. */
  ghost function Bag(c: Cache): multiset<Address> {
    multiset(Keys(c))
  }

  function Without(c: Cache, a: Address): Cache {
    if Has(c, a) then c[..Position(c, a)] + c[Position(c, a) + 1..] else c
  }

  /** Using the least recently used element makes it the most recently used one. */
  function Rotate(c: Cache): Cache {
    if c == [] then [] else c[1..] + [c[0]]
  }

  /** Looking an address up makes it the most recently used one; here its record is replaced as well. */
  function Renew(c: Cache, r: Record): Cache {
    Without(c, r.address) + [r]
  }

  /** What an insertion leaves in a cache of the given capacity. */
  function Put(c: Cache, r: Record, capacity: Capacity): Cache {
    var longer := Renew(c, r);
    if |longer| > capacity then longer[1..] else longer
  }

  /** The address an insertion pushes out, if any. */
  function PushedOut(c: Cache, r: Record, capacity: Capacity): seq<Address> {
    var longer := Renew(c, r);
    if |longer| > capacity then [longer[0].address] else []
  }

  // ----- What processing the records is meant to do -----

  /** Of the first `n` records, those that have not expired. */
  function Unexpired(c: Cache, now: nat, n: nat): (k: Cache)
    requires n <= |c|
    ensures |k| <= n
  {
    if n == 0 then []
    else if c[n - 1].expiry < now then Unexpired(c, now, n - 1)
    else Unexpired(c, now, n - 1) + [c[n - 1]]
  }

  /** Of the first `n` records, those that have expired. */
  function Expired(c: Cache, now: nat, n: nat): (k: Cache)
    requires n <= |c|
    ensures |k| == n - |Unexpired(c, now, n)|
  {
    if n == 0 then []
    else if c[n - 1].expiry < now then Expired(c, now, n - 1) + [c[n - 1]]
    else Expired(c, now, n - 1)
  }

  predicate AllExpired(c: Cache, now: nat) {
    Unexpired(c, now, |c|) == []
  }

  /** The unexpired records in the same order; when all have expired, only the last. */
  function Kept(c: Cache, now: nat): Cache {
    if c != [] && AllExpired(c, now) then [c[|c| - 1]] else Unexpired(c, now, |c|)
  }

  function Dropped(c: Cache, now: nat): Cache {
    if c != [] && AllExpired(c, now) then c[..|c| - 1] else Expired(c, now, |c|)
  }

  /** The first record that may still be used; the length of the cache if there is none. */
  function FirstUsable(c: Cache, now: nat): (p: nat)
    ensures p <= |c| && (p < |c| ==> now < c[p].expiry)
    ensures forall i :: 0 <= i < p ==> c[i].expiry <= now
  {
    if c == [] then 0
    else if now < c[0].expiry then 0
    else 1 + FirstUsable(c[1..], now)
  }

  function Processed(s: Caches, now: nat): Caches {
    var p := FirstUsable(s.failed, now);
    if s.good != [] then
      s.(good := Kept(s.good, now), disappeared := s.disappeared + Keys(Dropped(s.good, now)))
    else if p < |s.failed| then
      s.(good := [s.failed[p]],
         failed := s.failed[p + 1..] + s.failed[..p],
         appeared := s.appeared + [s.failed[p].address])
    else s
  }

  // ----- The other operations on an entry -----

  /** One address of a fresh resolution: renew its record wherever it is, or take it in as good. */
  function RefreshedOne(s: Caches, a: Address, expiry: nat): Caches {
    if Has(s.good, a) then
      s.(good := Renew(s.good, s.good[Position(s.good, a)].(expiry := expiry)))
    else if Has(s.failed, a) then
      s.(failed := Renew(s.failed, s.failed[Position(s.failed, a)].(expiry := expiry)))
    else
      var r := Record(a, expiry, 0);
      s.(good := Put(s.good, r, s.capacity),
         disappeared := s.disappeared + PushedOut(s.good, r, s.capacity),
         appeared := s.appeared + [a])
  }

  function Refresher(expiry: nat): (Caches, Address) -> Caches {
    (t, a) => RefreshedOne(t, a, expiry)
  }

  function Refreshed(s: Caches, addresses: seq<Address>, expiry: nat): Caches {
    FoldLeft(Refresher(expiry), s, addresses, |addresses|)
  }

  /** A connection to the address failed. */
  function AfterFailure(s: Caches, a: Address): Caches {
    var p, q := Position(s.good, a), Position(s.failed, a);
    if Has(s.good, a) then
      s.(good := Without(s.good, a),
         failed := Put(s.failed, s.good[p].(failures := s.good[p].failures + 1), s.capacity),
         disappeared := s.disappeared + [a])
    else if Has(s.failed, a) then
      s.(failed := Renew(s.failed, s.failed[q].(failures := s.failed[q].failures + 1)))
    else s
  }

  /** An address is handed out; without a good one the failed cache is rotated to no effect. */
  function Vended(s: Caches): Caches {
    if s.good != [] then s.(good := Rotate(s.good)) else s.(failed := Rotate(s.failed))
  }

  datatype Action =
    | Refresh(addresses: seq<Address>, expiry: nat)
    | Process(now: nat)
    | ConnectionFailed(address: Address)
    | Vend

  function Next(s: Caches, x: Action): Caches {
    match x
    case Refresh(addresses, expiry) => Refreshed(s, addresses, expiry)
    case Process(now) => Processed(s, now)
    case ConnectionFailed(a) => AfterFailure(s, a)
    case Vend => Vended(s)
  }

  predicate Init(s: Caches) {
    s == Caches(s.capacity, [], [], [], [])
  }

  ghost predicate Step(s: Caches, t: Caches) {
    exists x :: t == Next(s, x)
  }

  // ----- Invariant -----

  /** No address occurs twice, be it in one cache or in both. */
  ghost predicate AtMostOnce(s: Caches) {
    forall a :: Bag(s.good)[a] + Bag(s.failed)[a] <= 1
  }

  predicate Fits(s: Caches) {
    |s.good| <= s.capacity && |s.failed| <= s.capacity
  }

  /** Every address that appeared either disappeared again or is a good one now. */
  ghost predicate Balanced(s: Caches) {
    multiset(s.appeared) == multiset(s.disappeared) + Bag(s.good)
  }

  ghost predicate Inv(s: Caches) {
    AtMostOnce(s) && Fits(s) && Balanced(s)
  }

  // ----- Lemmas about the cache operations -----

  lemma {:induction false} BagOfConcat(c: Cache, d: Cache)
    ensures Bag(c + d) == Bag(c) + Bag(d)
  {
    assert Keys(c + d) == Keys(c) + Keys(d);
  }

  lemma {:induction false} BagOfOne(r: Record)
    ensures Bag([r]) == multiset{r.address}
  {
    assert Keys([r]) == [r.address];
  }

  lemma {:induction false} HasMeansInBag(c: Cache, a: Address)
    ensures Has(c, a) <==> Bag(c)[a] > 0
  {
    if Has(c, a) {
      assert Keys(c)[Position(c, a)] == a;
    } else {
      assert a !in Keys(c);
    }
  }

  lemma {:induction false} BagOfMore(c: Cache, r: Record)
    ensures Bag(c + [r]) == Bag(c) + multiset{r.address}
  {
    BagOfConcat(c, [r]);
    BagOfOne(r);
  }

  lemma {:induction false} BagOfAllBut(c: Cache, p: nat)
    requires p < |c|
    ensures Bag(c) == Bag(c[..p] + c[p + 1..]) + multiset{c[p].address}
  {
    var front, back := c[..p], c[p + 1..];
    assert c == front + [c[p]] + back;
    BagOfConcat(front + [c[p]], back);
    BagOfMore(front, c[p]);
    BagOfConcat(front, back);
  }

  lemma {:induction false} BagWithout(c: Cache, a: Address)
    ensures Has(c, a) ==> Bag(c) == Bag(Without(c, a)) + multiset{a} && |Without(c, a)| == |c| - 1
  {
    if Has(c, a) {
      BagOfAllBut(c, Position(c, a));
    }
  }

  lemma {:induction false} BagOfRenewed(c: Cache, r: Record)
    ensures Has(c, r.address) ==> Bag(Renew(c, r)) == Bag(c) && |Renew(c, r)| == |c|
    ensures !Has(c, r.address) ==> Bag(Renew(c, r)) == Bag(c) + multiset{r.address} && |Renew(c, r)| == |c| + 1
  {
    BagWithout(c, r.address);
    BagOfConcat(Without(c, r.address), [r]);
    BagOfOne(r);
  }

  lemma {:induction false} BagAfterPut(c: Cache, r: Record, capacity: Capacity)
    requires |c| <= capacity && !Has(c, r.address)
    ensures Bag(c) + multiset{r.address} == Bag(Put(c, r, capacity)) + multiset(PushedOut(c, r, capacity))
    ensures |Put(c, r, capacity)| <= capacity
    ensures forall a :: Bag(Put(c, r, capacity))[a] <= Bag(c)[a] + if a == r.address then 1 else 0
  {
    BagOfRenewed(c, r);
    var longer := Renew(c, r);
    if |longer| > capacity {
      assert longer == [longer[0]] + longer[1..];
      BagOfConcat([longer[0]], longer[1..]);
      BagOfOne(longer[0]);
    }
  }

  lemma {:induction false} BagOfRotated(c: Cache)
    ensures Bag(Rotate(c)) == Bag(c)
  {
    if c != [] {
      assert c == [c[0]] + c[1..];
      BagOfConcat([c[0]], c[1..]);
      BagOfConcat(c[1..], [c[0]]);
    }
  }

  /** Splitting by expiry loses nothing and invents nothing. */
  lemma {:induction false} SplitByExpiry(c: Cache, now: nat, n: nat)
    requires n <= |c|
    ensures Bag(c[..n]) == Bag(Unexpired(c, now, n)) + Bag(Expired(c, now, n))
  {
    if n > 0 {
      SplitByExpiry(c, now, n - 1);
      assert c[..n] == c[..n - 1] + [c[n - 1]];
      BagOfMore(c[..n - 1], c[n - 1]);
      if c[n - 1].expiry < now {
        BagOfMore(Expired(c, now, n - 1), c[n - 1]);
      } else {
        BagOfMore(Unexpired(c, now, n - 1), c[n - 1]);
      }
    }
  }

  lemma {:induction false} MembersByExpiry(c: Cache, now: nat, n: nat)
    requires n <= |c|
    ensures forall r :: r in Unexpired(c, now, n) <==> r in c[..n] && now <= r.expiry
  {
    if n > 0 {
      MembersByExpiry(c, now, n - 1);
      assert c[..n] == c[..n - 1] + [c[n - 1]];
    }
  }

  lemma {:induction false} KeptAndDropped(c: Cache, now: nat)
    ensures Bag(c) == Bag(Kept(c, now)) + Bag(Dropped(c, now))
    ensures |Kept(c, now)| <= |c|
  {
    var n := |c| - 1;
    if c != [] && AllExpired(c, now) {
      assert c == c[..n] + [c[n]];
      BagOfConcat(c[..n], [c[n]]);
    } else {
      SplitByExpiry(c, now, |c|);
      assert c[..|c|] == c;
    }
  }

  // ----- Every operation keeps the invariant -----

  lemma {:induction false} PromotionKeepsBags(c: Cache, p: nat)
    requires p < |c|
    ensures Bag(c) == Bag([c[p]]) + Bag(c[p + 1..] + c[..p]) && Bag([c[p]]) == multiset{c[p].address}
  {
    assert c == c[..p] + ([c[p]] + c[p + 1..]);
    BagOfConcat(c[..p], [c[p]] + c[p + 1..]);
    BagOfConcat([c[p]], c[p + 1..]);
    BagOfConcat(c[p + 1..], c[..p]);
    BagOfOne(c[p]);
  }

  lemma {:induction false} DropKeepsInv(s: Caches, now: nat)
    requires Inv(s) && s.good != []
    ensures Inv(Processed(s, now))
  {
    KeptAndDropped(s.good, now);
    assert forall a :: Bag(Kept(s.good, now))[a] <= Bag(s.good)[a];
    Regroup(multiset(s.disappeared), Bag(s.good), multiset{}, Bag(Dropped(s.good, now)), Bag(Kept(s.good, now)));
  }

  lemma {:induction false} PromotionKeepsInv(s: Caches, now: nat)
    requires Inv(s) && s.good == []
    ensures Inv(Processed(s, now))
  {
    var p := FirstUsable(s.failed, now);
    if p < |s.failed| {
      PromotionKeepsBags(s.failed, p);
    }
  }

  lemma {:induction false} ProcessKeepsInv(s: Caches, now: nat)
    requires Inv(s)
    ensures Inv(Processed(s, now))
  {
    if s.good != [] {
      DropKeepsInv(s, now);
    } else {
      PromotionKeepsInv(s, now);
    }
  }

  lemma Regroup(down: multiset<Address>, good: multiset<Address>, more: multiset<Address>, out: multiset<Address>,
                rest: multiset<Address>)
    requires good + more == rest + out
    ensures (down + good) + more == (down + out) + rest
  {
    assert (down + good) + more == down + (good + more);
    assert (down + out) + rest == down + (rest + out);
  }

  lemma {:induction false} PutKeepsBalance(s: Caches, r: Record)
    requires Balanced(s)
    requires Bag(s.good) + multiset{r.address} ==
             Bag(Put(s.good, r, s.capacity)) + multiset(PushedOut(s.good, r, s.capacity))
    ensures multiset(s.appeared + [r.address]) ==
            multiset(s.disappeared + PushedOut(s.good, r, s.capacity)) + Bag(Put(s.good, r, s.capacity))
  {
    var out := PushedOut(s.good, r, s.capacity);
    assert multiset(s.appeared + [r.address]) == multiset(s.appeared) + multiset{r.address};
    assert multiset(s.disappeared + out) == multiset(s.disappeared) + multiset(out);
    Regroup(multiset(s.disappeared), Bag(s.good), multiset{r.address}, multiset(out), Bag(Put(s.good, r, s.capacity)));
  }

  lemma {:induction false} RefreshOneKeepsInv(s: Caches, a: Address, expiry: nat)
    requires Inv(s)
    ensures Inv(RefreshedOne(s, a, expiry))
  {
    if Has(s.good, a) {
      BagOfRenewed(s.good, s.good[Position(s.good, a)].(expiry := expiry));
    } else if Has(s.failed, a) {
      BagOfRenewed(s.failed, s.failed[Position(s.failed, a)].(expiry := expiry));
    } else {
      var r := Record(a, expiry, 0);
      BagAfterPut(s.good, r, s.capacity);
      HasMeansInBag(s.good, a);
      HasMeansInBag(s.failed, a);
      PutKeepsBalance(s, r);
    }
  }

  lemma {:induction false} RefreshKeepsInv(s: Caches, addresses: seq<Address>, expiry: nat)
    requires Inv(s)
    ensures Inv(Refreshed(s, addresses, expiry))
  {
    forall t, a | Inv(t) ensures Inv(RefreshedOne(t, a, expiry)) {
      RefreshOneKeepsInv(t, a, expiry);
    }
    FoldInvariant(Refresher(expiry), (t, _) => Inv(t), s, addresses, |addresses|);
  }

  lemma {:induction false} NotBoth(s: Caches, a: Address)
    requires AtMostOnce(s)
    ensures Has(s.good, a) ==> !Has(s.failed, a)
  {
    HasMeansInBag(s.good, a);
    HasMeansInBag(s.failed, a);
  }

  /** An address moves from one bag to the other, from which another may fall out. */
  lemma {:induction false} MovedAtMostOnce(
    good: multiset<Address>, failed: multiset<Address>, a: Address, left: multiset<Address>, now: multiset<Address>)
    requires forall b :: good[b] + failed[b] <= 1
    requires good == left + multiset{a} && forall b :: now[b] <= failed[b] + if b == a then 1 else 0
    ensures forall b :: left[b] + now[b] <= 1
  {
    forall b ensures left[b] + now[b] <= 1 {
      assert good[b] + failed[b] <= 1 && good[b] == left[b] + if b == a then 1 else 0;
    }
  }

  lemma {:induction false} WithdrawnBalance(s: Caches, a: Address, left: multiset<Address>)
    requires Balanced(s) && Bag(s.good) == left + multiset{a}
    ensures multiset(s.appeared) == multiset(s.disappeared + [a]) + left
  {
    assert multiset(s.disappeared + [a]) == multiset(s.disappeared) + multiset{a};
  }

  lemma {:induction false} MoveKeepsInv(s: Caches, a: Address, good: Cache, failed: Cache)
    requires Inv(s) && Bag(s.good) == Bag(good) + multiset{a} && |good| <= |s.good| && |failed| <= s.capacity
    requires forall b :: Bag(failed)[b] <= Bag(s.failed)[b] + if b == a then 1 else 0
    ensures Inv(s.(good := good, failed := failed, disappeared := s.disappeared + [a]))
  {
    MovedAtMostOnce(Bag(s.good), Bag(s.failed), a, Bag(good), Bag(failed));
    WithdrawnBalance(s, a, Bag(good));
  }

  lemma {:induction false} GoodFailureKeepsInv(s: Caches, a: Address)
    requires Inv(s) && Has(s.good, a)
    ensures Inv(AfterFailure(s, a))
  {
    var r := s.good[Position(s.good, a)];
    var good, failed := Without(s.good, a), Put(s.failed, r.(failures := r.failures + 1), s.capacity);
    assert AfterFailure(s, a) == s.(good := good, failed := failed, disappeared := s.disappeared + [a]);
    NotBoth(s, a);
    BagWithout(s.good, a);
    BagAfterPut(s.failed, r.(failures := r.failures + 1), s.capacity);
    MoveKeepsInv(s, a, good, failed);
  }

  lemma {:induction false} RepeatedFailureKeepsInv(s: Caches, a: Address)
    requires Inv(s) && !Has(s.good, a) && Has(s.failed, a)
    ensures Inv(AfterFailure(s, a))
  {
    var q := Position(s.failed, a);
    BagOfRenewed(s.failed, s.failed[q].(failures := s.failed[q].failures + 1));
    assert Bag(AfterFailure(s, a).failed) == Bag(s.failed);
  }

  lemma {:induction false} FailureKeepsInv(s: Caches, a: Address)
    requires Inv(s)
    ensures Inv(AfterFailure(s, a))
  {
    if Has(s.good, a) {
      GoodFailureKeepsInv(s, a);
    } else if Has(s.failed, a) {
      RepeatedFailureKeepsInv(s, a);
    }
  }

  lemma {:induction false} VendKeepsInv(s: Caches)
    requires Inv(s)
    ensures Inv(Vended(s))
  {
    BagOfRotated(s.good);
    BagOfRotated(s.failed);
  }

  lemma {:induction false} StepKeepsInv(s: Caches, t: Caches)
    requires Inv(s) && Step(s, t)
    ensures Inv(t)
  {
    var x :| t == Next(s, x);
    match x
    case Refresh(addresses, expiry) => RefreshKeepsInv(s, addresses, expiry);
    case Process(now) => ProcessKeepsInv(s, now);
    case ConnectionFailed(a) => FailureKeepsInv(s, a);
    case Vend => VendKeepsInv(s);
  }

  // ----- Main results -----

  lemma {:induction false} ReachableInv(s: Caches)
    requires Reachable(Init, Step, s)
    ensures Inv(s)
  {
    forall t, u | Inv(t) && Step(t, u) ensures Inv(u) {
      StepKeepsInv(t, u);
    }
    ReachableInvariant(Init, Step, Inv, s);
  }

  lemma {:induction false} TwoPlaces(k: seq<Address>, i: nat, j: nat)
    requires i < j < |k| && k[i] == k[j]
    ensures multiset(k)[k[i]] >= 2
  {
    assert k == k[..j] + k[j..];
    assert k[..j][i] in multiset(k[..j]) && k[j..][0] in multiset(k[j..]);
  }

  /** In every reachable entry no good address of a record type is a failed one too, no cache holds an address
      twice or more records than its capacity, and every announced address was withdrawn again or is good. */
  lemma {:induction false} GoodAndFailedAreDisjoint(s: Caches)
    requires Reachable(Init, Step, s)
    ensures forall a :: !(Has(s.good, a) && Has(s.failed, a))
    ensures forall i, j :: 0 <= i < j < |s.good| ==> s.good[i].address != s.good[j].address
    ensures forall i, j :: 0 <= i < j < |s.failed| ==> s.failed[i].address != s.failed[j].address
    ensures |s.good| <= s.capacity && |s.failed| <= s.capacity
    ensures multiset(s.appeared) == multiset(s.disappeared) + multiset(Keys(s.good))
  {
    ReachableInv(s);
    forall a ensures !(Has(s.good, a) && Has(s.failed, a)) {
      HasMeansInBag(s.good, a);
      HasMeansInBag(s.failed, a);
    }
    NoRepeats(s, s.good);
    NoRepeats(s, s.failed);
  }

  lemma {:induction false} NoRepeats(s: Caches, c: Cache)
    requires AtMostOnce(s) && (c == s.good || c == s.failed)
    ensures forall i, j :: 0 <= i < j < |c| ==> c[i].address != c[j].address
  {
    forall i, j | 0 <= i < j < |c| ensures c[i].address != c[j].address {
      assert Bag(s.good)[c[i].address] + Bag(s.failed)[c[i].address] <= 1;
      if c[i].address == c[j].address {
        TwoPlaces(Keys(c), i, j);
      }
    }
  }

  /** What is kept, said without the recursion: nothing expired unless everything has, and never nothing. */
  lemma {:induction false} KeptRecords(c: Cache, now: nat)
    ensures c != [] ==> Kept(c, now) != []
    ensures (exists r :: r in c && now <= r.expiry) ==> forall r :: r in Kept(c, now) <==> r in c && now <= r.expiry
    ensures c != [] && (forall r :: r in c ==> r.expiry < now) ==> Kept(c, now) == [c[|c| - 1]]
    ensures multiset(Keys(c)) == multiset(Keys(Kept(c, now))) + multiset(Keys(Dropped(c, now)))
  {
    MembersByExpiry(c, now, |c|);
    assert c[..|c|] == c;
    KeptAndDropped(c, now);
    if !AllExpired(c, now) {
      var u := Unexpired(c, now, |c|);
      assert u[0] in u;
    }
  }

  /** `d` consists of records among the first `n` of `c`, taken at the increasing positions `at`. */
  ghost predicate Follows(c: Cache, n: nat, at: seq<int>, d: Cache) {
    && |at| == |d| && n <= |c|
    && (forall i :: 0 <= i < |at| ==> 0 <= at[i] < n && c[at[i]] == d[i])
    && (forall i, j :: 0 <= i < j < |at| ==> at[i] < at[j])
  }

  ghost predicate InOrder(c: Cache, n: nat, d: Cache) {
    exists at :: Follows(c, n, at, d)
  }

  /** Where the unexpired records stand. */
  function UnexpiredAt(c: Cache, now: nat, n: nat): seq<int>
    requires n <= |c|
  {
    if n == 0 then []
    else if c[n - 1].expiry < now then UnexpiredAt(c, now, n - 1)
    else UnexpiredAt(c, now, n - 1) + [n - 1]
  }

  /** The kept records stand in the same order as before. */
  lemma {:induction false} KeptOrder(c: Cache, now: nat)
    ensures InOrder(c, |c|, Kept(c, now))
  {
    if c != [] && AllExpired(c, now) {
      assert Follows(c, |c|, [|c| - 1], Kept(c, now));
    } else {
      UnexpiredOrder(c, now, |c|);
      assert Follows(c, |c|, UnexpiredAt(c, now, |c|), Kept(c, now));
    }
  }

  lemma {:induction false} UnexpiredOrder(c: Cache, now: nat, n: nat)
    requires n <= |c|
    ensures Follows(c, n, UnexpiredAt(c, now, n), Unexpired(c, now, n))
  {
    if n > 0 {
      UnexpiredOrder(c, now, n - 1);
      FollowsOn(c, n - 1, UnexpiredAt(c, now, n - 1), Unexpired(c, now, n - 1));
    }
  }

  lemma {:induction false} FollowsOn(c: Cache, n: nat, at: seq<int>, d: Cache)
    requires Follows(c, n, at, d) && n < |c|
    ensures Follows(c, n + 1, at, d) && Follows(c, n + 1, at + [n], d + [c[n]])
  {
    var more := at + [n];
    assert forall i :: 0 <= i < |at| ==> more[i] == at[i] && (d + [c[n]])[i] == d[i];
  }

  /** A failed connection takes the address out of the good ones and leaves one more failure on record for it, as the
      most recently used of the failed ones; what is known of its expiry stays. */
  lemma {:induction false} FailureIsRecorded(s: Caches, a: Address)
    requires Inv(s)
    ensures var t := AfterFailure(s, a);
            && !Has(t.good, a)
            && (Has(s.good, a) ==> RecordsFailure(t.failed, s.good[Position(s.good, a)]))
            && (!Has(s.good, a) && Has(s.failed, a) ==> RecordsFailure(t.failed, s.failed[Position(s.failed, a)]))
            && (!Has(s.good, a) && !Has(s.failed, a) ==> t == s)
  {
    if Has(s.good, a) {
      FailedIsNotGood(s, a);
      var r := s.good[Position(s.good, a)];
      PutIsLast(s.failed, r.(failures := r.failures + 1), s.capacity);
    } else if Has(s.failed, a) {
      var q := Position(s.failed, a);
      var r := s.failed[q].(failures := s.failed[q].failures + 1);
      assert AfterFailure(s, a).failed == Without(s.failed, a) + [r];
    }
  }

  /** Among the records of other addresses, `d` has those of `c`. */
  ghost predicate SameOthers(c: Cache, d: Cache, a: Address) {
    forall r: Record :: r.address != a ==> (r in c <==> r in d)
  }

  /** The same, but for the least recently used record if `evicts`. */
  ghost predicate SameOthersBut(c: Cache, d: Cache, a: Address, evicts: bool) {
    && (evicts ==> c != [])
    && forall r: Record :: r.address != a ==> (r in d <==> r in c && !(evicts && r == c[0]))
  }

  lemma {:induction false} WithoutLeavesOthers(c: Cache, a: Address)
    ensures SameOthers(c, Without(c, a), a)
  {
    forall r: Record | r.address != a ensures r in c ==> r in Without(c, a) {
      OthersStay(c, a, r);
    }
  }

  lemma {:induction false} RenewLeavesOthers(c: Cache, r: Record)
    ensures SameOthers(c, Renew(c, r), r.address)
  {
    WithoutLeavesOthers(c, r.address);
  }

  lemma {:induction false} PutEvictsOldest(c: Cache, r: Record, capacity: Capacity)
    requires |c| <= capacity && !Has(c, r.address)
    requires forall i, j :: 0 <= i < j < |c| ==> c[i].address != c[j].address
    ensures SameOthersBut(c, Put(c, r, capacity), r.address, |c| == capacity)
  {
    if |c| == capacity {
      var d := Put(c, r, capacity);
      assert d == c[1..] + [r];
      assert forall i :: 0 < i < |c| ==> d[i - 1] == c[i];
    }
  }

  lemma {:induction false} NewFailureEvictsOldest(s: Caches, r: Record)
    requires Inv(s) && Has(s.good, r.address)
    ensures SameOthersBut(s.failed, Put(s.failed, r.(failures := r.failures + 1), s.capacity), r.address,
                          |s.failed| == s.capacity)
  {
    HasMeansInBag(s.good, r.address);
    HasMeansInBag(s.failed, r.address);
    assert Bag(s.good)[r.address] + Bag(s.failed)[r.address] <= 1;
    NoRepeats(s, s.failed);
    PutEvictsOldest(s.failed, r.(failures := r.failures + 1), s.capacity);
  }

  /** A failed connection leaves the records of all other addresses alone, except that a new failed address pushes the
      least recently used one out of a full cache of failed ones; an address is withdrawn exactly if it was good. */
  lemma {:induction false} FailureLeavesOthers(s: Caches, a: Address)
    requires Inv(s)
    ensures var t := AfterFailure(s, a);
            && SameOthers(s.good, t.good, a) && t.appeared == s.appeared
            && SameOthersBut(s.failed, t.failed, a, Has(s.good, a) && |s.failed| == s.capacity)
            && t.disappeared == s.disappeared + (if Has(s.good, a) then [a] else [])
  {
    if Has(s.good, a) {
      WithoutLeavesOthers(s.good, a);
      NewFailureEvictsOldest(s, s.good[Position(s.good, a)]);
    } else if Has(s.failed, a) {
      var r := s.failed[Position(s.failed, a)];
      RenewLeavesOthers(s.failed, r.(failures := r.failures + 1));
    }
  }

  /** One address of a resolution: a known one gets the new expiry where it is, good or failed, and keeps its count of
      failures; an unknown one becomes good and is announced, and pushes the least recently used good one out of a full
      cache. The records of all other addresses stay as they are. */
  lemma {:induction false} RefreshOfOne(s: Caches, a: Address, expiry: nat)
    requires Inv(s)
    ensures var t := RefreshedOne(s, a, expiry);
            if Has(s.good, a) then
              && SameOthers(s.good, t.good, a) && t == s.(good := t.good)
              && t.good != [] && t.good[|t.good| - 1] == s.good[Position(s.good, a)].(expiry := expiry)
            else if Has(s.failed, a) then
              && SameOthers(s.failed, t.failed, a) && t == s.(failed := t.failed)
              && t.failed != [] && t.failed[|t.failed| - 1] == s.failed[Position(s.failed, a)].(expiry := expiry)
            else
              && SameOthersBut(s.good, t.good, a, |s.good| == s.capacity) && t.failed == s.failed
              && t.good != [] && t.good[|t.good| - 1] == Record(a, expiry, 0)
              && t.appeared == s.appeared + [a]
              && t.disappeared == s.disappeared + (if |s.good| == s.capacity then [s.good[0].address] else [])
  {
    if Has(s.good, a) {
      RenewLeavesOthers(s.good, s.good[Position(s.good, a)].(expiry := expiry));
    } else if Has(s.failed, a) {
      RenewLeavesOthers(s.failed, s.failed[Position(s.failed, a)].(expiry := expiry));
    } else {
      NoRepeats(s, s.good);
      PutIsLast(s.good, Record(a, expiry, 0), s.capacity);
      PutEvictsOldest(s.good, Record(a, expiry, 0), s.capacity);
    }
  }

  lemma {:induction false} FailedIsNotGood(s: Caches, a: Address)
    requires AtMostOnce(s) && Has(s.good, a)
    ensures !Has(Without(s.good, a), a)
  {
    HasMeansInBag(Without(s.good, a), a);
    BagWithout(s.good, a);
    assert Bag(s.good)[a] + Bag(s.failed)[a] <= 1;
  }

  lemma {:induction false} PutIsLast(c: Cache, r: Record, capacity: Capacity)
    ensures var d := Put(c, r, capacity); d != [] && d[|d| - 1] == r
  {
    var longer := Renew(c, r);
    assert longer[|longer| - 1] == r;
  }

  predicate RecordsFailure(failed: Cache, was: Record) {
    failed != [] && failed[|failed| - 1] == was.(failures := was.failures + 1)
  }

  /** An address that failed becomes good again exactly by promotion: no good address was left, its record had not
      expired, and every failed record less recently used than it had. */
  lemma {:induction false} FailedAddressReturnsExactlyByPromotion(s: Caches, x: Action, a: Address)
    requires Inv(s) && Has(s.failed, a)
    ensures Has(Next(s, x).good, a) <==> x.Process? && s.good == [] && IsPromoted(s.failed, a, x.now)
  {
    if Has(Next(s, x).good, a) {
      OnlyPromotionReturns(s, x, a);
    } else if x.Process? && s.good == [] && IsPromoted(s.failed, a, x.now) {
      PromotedIsFirstUsable(s.failed, a, x.now);
    }
  }

  lemma {:induction false} OnlyPromotionReturns(s: Caches, x: Action, a: Address)
    requires Inv(s) && Has(s.failed, a) && Has(Next(s, x).good, a)
    ensures x.Process? && s.good == [] && IsPromoted(s.failed, a, x.now)
  {
    HasMeansInBag(s.failed, a);
    HasMeansInBag(s.good, a);
    HasMeansInBag(Next(s, x).good, a);
    assert Bag(s.good)[a] + Bag(s.failed)[a] <= 1;
    match x {
      case Refresh(addresses, expiry) =>
        RefreshLeavesFailed(s, addresses, expiry, a);
        RefreshKeepsInv(s, addresses, expiry);
      case ConnectionFailed(b) => BagWithout(s.good, b);
      case Vend => BagOfRotated(s.good);
      case Process(now) =>
        if s.good != [] {
          KeptAndDropped(s.good, now);
        } else {
          NoRepeats(s, s.failed);
        }
    }
  }

  predicate IsPromoted(failed: Cache, a: Address, now: nat) {
    var p := Position(failed, a);
    p < |failed| && now < failed[p].expiry && forall i :: 0 <= i < p ==> failed[i].expiry <= now
  }

  lemma {:induction false} PromotedIsFirstUsable(failed: Cache, a: Address, now: nat)
    requires IsPromoted(failed, a, now)
    ensures FirstUsable(failed, now) == Position(failed, a)
  {
  }

  /** The record of `a` has become the only good one, is announced, and is no longer failed; all others still are. */
  ghost predicate IsPromotionOf(s: Caches, t: Caches, a: Address) {
    && Has(s.failed, a) && t.good == [s.failed[Position(s.failed, a)]]
    && !Has(t.failed, a) && SameOthers(s.failed, t.failed, a)
    && t.appeared == s.appeared + [a] && t.disappeared == s.disappeared
  }

  /** Without good records, processing promotes a failed record exactly when one has not expired: the least recently
      used such record becomes the only good one, unchanged and announced, and only it leaves the failed ones. When all
      have expired nothing changes. */
  lemma {:induction false} PromotionHappensExactlyWhen(s: Caches, now: nat)
    requires Inv(s) && s.good == []
    ensures (exists a :: IsPromoted(s.failed, a, now)) <==> exists r :: r in s.failed && now < r.expiry
    ensures forall a | IsPromoted(s.failed, a, now) ::
              IsPromotionOf(s, Processed(s, now), a)
    ensures (forall r :: r in s.failed ==> r.expiry <= now) ==> Processed(s, now) == s
  {
    NoRepeats(s, s.failed);
    var p := FirstUsable(s.failed, now);
    if p < |s.failed| {
      var r := s.failed[p];
      assert r in s.failed && now < r.expiry;
      assert Position(s.failed, r.address) == p;
      assert IsPromoted(s.failed, r.address, now);
    }
    forall a | IsPromoted(s.failed, a, now) ensures IsPromotionOf(s, Processed(s, now), a) {
      Promotes(s, a, now);
    }
  }

  lemma {:induction false} Promotes(s: Caches, a: Address, now: nat)
    requires Inv(s) && s.good == [] && IsPromoted(s.failed, a, now)
    ensures IsPromotionOf(s, Processed(s, now), a)
  {
    NoRepeats(s, s.failed);
    PromotedIsFirstUsable(s.failed, a, now);
    TakenOutAt(s.failed, Position(s.failed, a));
  }

  lemma {:induction false} TakenOutAt(c: Cache, p: nat)
    requires p < |c| && forall i, j :: 0 <= i < j < |c| ==> c[i].address != c[j].address
    ensures var d := c[p + 1..] + c[..p]; !Has(d, c[p].address) && SameOthers(c, d, c[p].address)
  {
    var d, a := c[p + 1..] + c[..p], c[p].address;
    forall k | 0 <= k < |d| ensures d[k].address != a {
      assert d[k] == c[if k < |c| - p - 1 then k + p + 1 else k - (|c| - p - 1)];
    }
    forall r: Record | r.address != a && r in c ensures r in d {
      var i :| 0 <= i < |c| && c[i] == r;
      assert d[if i > p then i - p - 1 else i + (|c| - p - 1)] == r;
    }
  }

  /** With good records, processing drops the expired ones, but not the last record if all have expired; the dropped
      ones are withdrawn, and failed records are left alone. */
  lemma {:induction false} ProcessingDropsExpired(s: Caches, now: nat)
    requires Inv(s) && s.good != []
    ensures var t := Processed(s, now);
            && t.good != [] && t.failed == s.failed && t.appeared == s.appeared
            && ((exists r :: r in s.good && now <= r.expiry) ==>
                  forall r :: r in t.good <==> r in s.good && now <= r.expiry)
            && ((forall r :: r in s.good ==> r.expiry < now) ==> t.good == [s.good[|s.good| - 1]])
            && InOrder(s.good, |s.good|, t.good)
            && s.disappeared <= t.disappeared
            && multiset(t.disappeared) + Bag(t.good) == multiset(s.disappeared) + Bag(s.good)
  {
    KeptRecords(s.good, now);
    KeptOrder(s.good, now);
    DroppedAreWithdrawn(s, now);
  }

  lemma {:induction false} DroppedAreWithdrawn(s: Caches, now: nat)
    requires s.good != []
    ensures var t := Processed(s, now);
            && s.disappeared <= t.disappeared
            && multiset(t.disappeared) + Bag(t.good) == multiset(s.disappeared) + Bag(s.good)
  {
    KeptAndDropped(s.good, now);
  }

  ghost function Times(c: Cache, a: Address): nat {
    Bag(c)[a]
  }

  lemma {:induction false} RefreshLeavesFailed(s: Caches, addresses: seq<Address>, expiry: nat, a: Address)
    ensures Times(Refreshed(s, addresses, expiry).failed, a) == Times(s.failed, a)
  {
    forall t, b ensures Times(RefreshedOne(t, b, expiry).failed, a) == Times(t.failed, a) {
      RefreshOneLeavesFailed(t, b, expiry, a);
    }
    FoldInvariant(Refresher(expiry), (t: Caches, _: nat) => Times(t.failed, a) == Times(s.failed, a),
                  s, addresses, |addresses|);
  }

  lemma {:induction false} RefreshOneLeavesFailed(s: Caches, a: Address, expiry: nat, b: Address)
    ensures Times(RefreshedOne(s, a, expiry).failed, b) == Times(s.failed, b)
  {
    if !Has(s.good, a) && Has(s.failed, a) {
      BagOfRenewed(s.failed, s.failed[Position(s.failed, a)].(expiry := expiry));
    }
  }

  function VendedTimes(s: Caches, k: nat): Caches {
    if k == 0 then s else Vended(VendedTimes(s, k - 1))
  }

  /** Addresses are handed out in turn: `k` requests get the `k` least recently used good addresses, and after as
      many requests as there are good addresses each was handed out once and the order is the old one. */
  lemma {:induction false} VendingTakesTurns(s: Caches, k: nat)
    requires k <= |s.good|
    ensures VendedTimes(s, k) == s.(good := s.good[k..] + s.good[..k])
    ensures k == |s.good| ==> VendedTimes(s, k) == s
  {
    if k > 0 {
      VendingTakesTurns(s, k - 1);
      RotatedTo(s.good, k - 1);
    }
    if k == |s.good| {
      assert s.good[k..] + s.good[..k] == s.good;
    }
  }

  ghost predicate Renewed(t: Caches, a: Address, expiry: nat) {
    exists r :: (r in t.good || r in t.failed) && r.address == a && r.expiry == expiry
  }

  /** The address is failed, or among the `m` good ones used last, and has the new expiry. */
  ghost predicate Recent(t: Caches, a: Address, expiry: nat, m: nat) {
    || (exists r :: r in t.failed && r.address == a && r.expiry == expiry)
    || (exists j :: 0 <= j < |t.good| && |t.good| - m <= j && t.good[j].address == a && t.good[j].expiry == expiry)
  }

  ghost predicate RecentSoFar(s: Caches, addresses: seq<Address>, expiry: nat, t: Caches, i: nat) {
    && |t.good| <= t.capacity == s.capacity && i <= |addresses|
    && forall k :: 0 <= k < i && i - k <= s.capacity ==> Recent(t, addresses[k], expiry, i - k)
  }

  /** A resolution takes in or renews the last addresses it lists, as many as the cache has room for, whatever was in
      the cache before; so one that lists no more than that takes in or renews all of them. */
  lemma {:induction false} RefreshRenewsAll(s: Caches, addresses: seq<Address>, expiry: nat)
    requires |s.good| <= s.capacity
    ensures forall k :: 0 <= k < |addresses| && |addresses| - k <= s.capacity ==>
              Renewed(Refreshed(s, addresses, expiry), addresses[k], expiry)
  {
    forall t, i | 0 <= i < |addresses| && RecentSoFar(s, addresses, expiry, t, i)
      ensures RecentSoFar(s, addresses, expiry, RefreshedOne(t, addresses[i], expiry), i + 1)
    {
      RecentOneMore(s, addresses, expiry, t, i);
    }
    FoldInvariant(Refresher(expiry), (t, i) => RecentSoFar(s, addresses, expiry, t, i), s, addresses, |addresses|);
    var t := Refreshed(s, addresses, expiry);
    forall k | 0 <= k < |addresses| && |addresses| - k <= s.capacity ensures Renewed(t, addresses[k], expiry) {
      assert Recent(t, addresses[k], expiry, |addresses| - k);
    }
  }

  lemma {:induction false} RecentOneMore(s: Caches, addresses: seq<Address>, expiry: nat, t: Caches, i: nat)
    requires i < |addresses| && RecentSoFar(s, addresses, expiry, t, i)
    ensures RecentSoFar(s, addresses, expiry, RefreshedOne(t, addresses[i], expiry), i + 1)
  {
    RefreshedIsRecent(t, addresses[i], expiry);
    forall k | 0 <= k < i + 1 && i + 1 - k <= s.capacity
      ensures Recent(RefreshedOne(t, addresses[i], expiry), addresses[k], expiry, i + 1 - k)
    {
      StillRecent(s, addresses, expiry, t, i, k);
    }
  }

  lemma {:induction false} StillRecent(s: Caches, addresses: seq<Address>, expiry: nat, t: Caches, i: nat, k: nat)
    requires k <= i < |addresses| && i + 1 - k <= s.capacity && RecentSoFar(s, addresses, expiry, t, i)
    ensures Recent(RefreshedOne(t, addresses[i], expiry), addresses[k], expiry, i + 1 - k)
  {
    if k < i {
      assert Recent(t, addresses[k], expiry, i - k);
      OthersAgeByOne(t, addresses[i], expiry, addresses[k], i - k);
    } else {
      RefreshedIsRecent(t, addresses[i], expiry);
    }
  }

  lemma {:induction false} RefreshedIsRecent(t: Caches, a: Address, expiry: nat)
    requires |t.good| <= t.capacity
    ensures var u := RefreshedOne(t, a, expiry);
            |u.good| <= t.capacity && u.capacity == t.capacity && Recent(u, a, expiry, 1)
  {
    var u := RefreshedOne(t, a, expiry);
    BagWithout(t.good, a);
    if Has(t.good, a) || !Has(t.failed, a) {
      var j := |u.good| - 1;
      assert u.good[j].address == a && u.good[j].expiry == expiry;
    } else {
      assert u.failed[|u.failed| - 1] in u.failed;
    }
  }

  lemma {:induction false} OthersAgeByOne(t: Caches, a: Address, expiry: nat, b: Address, m: nat)
    requires |t.good| <= t.capacity && m < t.capacity && Recent(t, b, expiry, m)
    ensures Recent(RefreshedOne(t, a, expiry), b, expiry, m + 1)
  {
    var u := RefreshedOne(t, a, expiry);
    if a == b {
      RefreshedIsRecent(t, a, expiry);
    } else if r :| r in t.failed && r.address == b && r.expiry == expiry {
      OthersStay(t.failed, a, r);
      assert r in u.failed;
    } else {
      var j :| 0 <= j < |t.good| && |t.good| - m <= j && t.good[j].address == b && t.good[j].expiry == expiry;
      var shifts := if Has(t.good, a) then Position(t.good, a) < j else !Has(t.failed, a) && |t.good| == t.capacity;
      assert u.good[if shifts then j - 1 else j] == t.good[j];
    }
  }

  // ----- What a resolution leaves in the caches -----

  ghost predicate Distinct(s: seq<Address>) {
    forall i, j :: 0 <= i < j < |s| ==> s[i] != s[j]
  }

  function Remove(s: seq<Address>, a: Address): (r: seq<Address>)
    ensures forall x :: x in r ==> x in s
  {
    if s == [] then []
    else if s[|s| - 1] == a then s[..|s| - 1]
    else Remove(s[..|s| - 1], a) + [s[|s| - 1]]
  }

  function Touch(s: seq<Address>, a: Address): seq<Address> {
    Remove(s, a) + [a]
  }

  /** Each address once, ordered by its last use. */
  function InUseOrder(uses: seq<Address>): seq<Address> {
    if uses == [] then [] else Touch(InUseOrder(uses[..|uses| - 1]), uses[|uses| - 1])
  }

  function Latest(s: seq<Address>, n: nat): seq<Address> {
    if |s| <= n then s else s[|s| - n..]
  }

  lemma {:induction false} RemoveConcat(p: seq<Address>, q: seq<Address>, a: Address)
    ensures Remove(p + q, a) == if a in q then p + Remove(q, a) else Remove(p, a) + q
  {
    if q == [] {
      assert p + q == p && Remove(p, a) + q == Remove(p, a);
    } else {
      var front, last := q[..|q| - 1], q[|q| - 1];
      assert q == front + [last];
      assert (p + q)[..|p + q| - 1] == p + front && (p + q)[|p + q| - 1] == last;
      if last != a {
        RemoveConcat(p, front, a);
        assert p + Remove(front, a) + [last] == p + (Remove(front, a) + [last]);
        assert Remove(p, a) + front + [last] == Remove(p, a) + q;
      }
    }
  }

  lemma {:induction false} RemoveAbsent(s: seq<Address>, a: Address)
    requires a !in s
    ensures Remove(s, a) == s
  {
    RemoveConcat([], s, a);
    assert [] + s == s;
  }

  lemma {:induction false} AppendDistinct(s: seq<Address>, a: Address)
    requires Distinct(s) && a !in s
    ensures Distinct(s + [a])
  {
  }

  lemma {:induction false} RemoveOnly(s: seq<Address>, a: Address)
    requires Distinct(s)
    ensures Distinct(Remove(s, a)) && a !in Remove(s, a) && |Remove(s, a)| == |s| - if a in s then 1 else 0
  {
    if s != [] {
      var n := |s| - 1;
      var front := s[..n];
      assert s == front + [s[n]] && s[n] !in front;
      RemoveOnly(front, a);
      if s[n] != a {
        AppendDistinct(Remove(front, a), s[n]);
      }
    }
  }

  lemma {:induction false} UseOrderIsDistinct(uses: seq<Address>)
    ensures Distinct(InUseOrder(uses))
  {
    if uses != [] {
      var before, a := InUseOrder(uses[..|uses| - 1]), uses[|uses| - 1];
      UseOrderIsDistinct(uses[..|uses| - 1]);
      RemoveOnly(before, a);
      AppendDistinct(Remove(before, a), a);
    }
  }

  lemma {:induction false} UseOrderOfDistinct(s: seq<Address>)
    requires Distinct(s)
    ensures InUseOrder(s) == s
  {
    if s != [] {
      var n := |s| - 1;
      UseOrderOfDistinct(s[..n]);
      RemoveAbsent(s[..n], s[n]);
    }
  }

  lemma {:induction false} UseOrderOfOneMore(uses: seq<Address>, a: Address)
    ensures InUseOrder(uses + [a]) == Touch(InUseOrder(uses), a)
  {
    assert (uses + [a])[..|uses|] == uses;
  }

  lemma {:induction false} LatestOfConcat(p: seq<Address>, q: seq<Address>, n: nat)
    requires n <= |q|
    ensures Latest(p + q, n) == Latest(q, n)
  {
  }

  lemma {:induction false} TouchInside(p: seq<Address>, q: seq<Address>, a: Address)
    requires Distinct(q) && a in q
    ensures Touch(p + q, a) == p + Touch(q, a) && |Touch(q, a)| == |q|
  {
    RemoveConcat(p, q, a);
    RemoveOnly(q, a);
  }

  lemma {:induction false} TouchOutside(p: seq<Address>, q: seq<Address>, a: Address)
    requires a !in q
    ensures Touch(p + q, a) == Remove(p, a) + (q + [a])
  {
    RemoveConcat(p, q, a);
  }

  /** A full cache that takes one more in at the back and lets the first go holds the latest of all. */
  lemma {:induction false} TouchLatest(order: seq<Address>, a: Address, n: nat)
    requires Distinct(order) && n > 0
    ensures Latest(Touch(order, a), n) ==
            if a in Latest(order, n) then Touch(Latest(order, n), a) else Latest(Latest(order, n) + [a], n)
  {
    if |order| > n {
      var p, q := order[..|order| - n], order[|order| - n..];
      assert order == p + q;
      if a in q {
        TouchInside(p, q, a);
        LatestOfConcat(p, Touch(q, a), n);
      } else {
        TouchOutside(p, q, a);
        LatestOfConcat(Remove(p, a), q + [a], n);
      }
    } else {
      if a !in order {
        RemoveAbsent(order, a);
      } else {
        RemoveOnly(order, a);
      }
    }
  }

  lemma {:induction false} KeysOfConcat(c: Cache, d: Cache)
    ensures Keys(c + d) == Keys(c) + Keys(d)
  {
  }

  lemma {:induction false} KeysOfFront(c: Cache, i: nat)
    requires i <= |c|
    ensures Keys(c[..i]) == Keys(c)[..i]
  {
  }

  lemma {:induction false} KeysOfBack(c: Cache, i: nat)
    requires i <= |c|
    ensures Keys(c[i..]) == Keys(c)[i..]
  {
  }

  lemma {:induction false} RemoveAt(k: seq<Address>, p: nat)
    requires Distinct(k) && p < |k|
    ensures Remove(k, k[p]) == k[..p] + k[p + 1..]
  {
    var front, back, a := k[..p], k[p + 1..], k[p];
    assert k == (front + [a]) + back;
    assert forall i :: 0 <= i < |back| ==> back[i] == k[p + 1 + i];
    RemoveConcat(front + [a], back, a);
    assert (front + [a])[..|front|] == front;
  }

  lemma {:induction false} KeysWithout(c: Cache, a: Address)
    requires Distinct(Keys(c)) && Has(c, a)
    ensures Keys(Without(c, a)) == Remove(Keys(c), a)
  {
    var p := Position(c, a);
    RemoveAt(Keys(c), p);
    KeysOfConcat(c[..p], c[p + 1..]);
    KeysOfFront(c, p);
    KeysOfBack(c, p + 1);
    assert Keys(c)[p] == a;
  }

  lemma {:induction false} KeysOfRenewed(c: Cache, r: Record)
    requires Distinct(Keys(c)) && Has(c, r.address)
    ensures Keys(Renew(c, r)) == Touch(Keys(c), r.address)
  {
    KeysWithout(c, r.address);
    KeysOfConcat(Without(c, r.address), [r]);
    assert Keys([r]) == [r.address];
  }

  lemma {:induction false} KeysOfPut(c: Cache, r: Record, capacity: Capacity)
    requires !Has(c, r.address) && |c| <= capacity
    ensures Keys(Put(c, r, capacity)) == Latest(Keys(c) + [r.address], capacity)
  {
    var longer := c + [r];
    KeysOfConcat(c, [r]);
    assert Keys([r]) == [r.address];
    KeysOfBack(longer, 1);
  }

  /** `start`, followed by those of the first `n` addresses of a resolution whose record is a failed one, or by those
      whose record is not. */
  function Uses(start: seq<Address>, s: Caches, addresses: seq<Address>, n: nat, failed: bool): seq<Address>
    requires n <= |addresses|
  {
    if n == 0 then start
    else if Has(s.failed, addresses[n - 1]) == failed then
      Uses(start, s, addresses, n - 1, failed) + [addresses[n - 1]]
    else Uses(start, s, addresses, n - 1, failed)
  }

  /** The good addresses are the latest of those in use, as many as there is room for; the failed ones are in order of
      use. */
  ghost predicate HoldsLatest(t: Caches, good: seq<Address>, failed: seq<Address>) {
    Keys(t.good) == Latest(InUseOrder(good), t.capacity) && Keys(t.failed) == InUseOrder(failed)
  }

  lemma {:induction false} KeysAreDistinct(s: Caches)
    requires AtMostOnce(s)
    ensures Distinct(Keys(s.good)) && Distinct(Keys(s.failed))
  {
    NoRepeats(s, s.good);
    NoRepeats(s, s.failed);
  }

  lemma {:induction false} HasMeansKey(c: Cache, a: Address)
    ensures Has(c, a) <==> a in Keys(c)
  {
    if Has(c, a) {
      assert Keys(c)[Position(c, a)] == a;
    }
  }

  lemma {:induction false} RefreshGoodUse(t: Caches, good: seq<Address>, failed: seq<Address>, a: Address, expiry: nat)
    requires Inv(t) && HoldsLatest(t, good, failed) && !Has(t.failed, a)
    ensures HoldsLatest(RefreshedOne(t, a, expiry), good + [a], failed)
  {
    UseOrderOfOneMore(good, a);
    UseOrderIsDistinct(good);
    TouchLatest(InUseOrder(good), a, t.capacity);
    HasMeansKey(t.good, a);
    KeysAreDistinct(t);
    if Has(t.good, a) {
      KeysOfRenewed(t.good, t.good[Position(t.good, a)].(expiry := expiry));
    } else {
      KeysOfPut(t.good, Record(a, expiry, 0), t.capacity);
    }
  }

  lemma {:induction false} RefreshFailedUse(
    t: Caches, good: seq<Address>, failed: seq<Address>, a: Address, expiry: nat)
    requires Inv(t) && HoldsLatest(t, good, failed) && Has(t.failed, a)
    ensures HoldsLatest(RefreshedOne(t, a, expiry), good, failed + [a])
  {
    NotBoth(t, a);
    UseOrderOfOneMore(failed, a);
    KeysAreDistinct(t);
    KeysOfRenewed(t.failed, t.failed[Position(t.failed, a)].(expiry := expiry));
  }

  lemma {:induction false} StillFailed(t: Caches, a: Address, expiry: nat, b: Address)
    ensures Has(RefreshedOne(t, a, expiry).failed, b) <==> Has(t.failed, b)
  {
    RefreshOneLeavesFailed(t, a, expiry, b);
    HasMeansInBag(t.failed, b);
    HasMeansInBag(RefreshedOne(t, a, expiry).failed, b);
  }

  ghost predicate LatestAfter(s: Caches, addresses: seq<Address>, n: nat, t: Caches)
    requires n <= |addresses|
  {
    HoldsLatest(t, Uses(Keys(s.good), s, addresses, n, false), Uses(Keys(s.failed), s, addresses, n, true))
  }

  ghost predicate FailedAsBefore(s: Caches, t: Caches) {
    forall a :: Has(t.failed, a) <==> Has(s.failed, a)
  }

  /** `t` is what `n` addresses of the resolution have made of `s`. */
  ghost predicate OnTrack(s: Caches, addresses: seq<Address>, n: nat, t: Caches) {
    Inv(t) && t.capacity == s.capacity && FailedAsBefore(s, t) && n <= |addresses| && LatestAfter(s, addresses, n, t)
  }

  lemma {:induction false} OnTrackAtFirst(s: Caches, addresses: seq<Address>)
    requires Inv(s)
    ensures OnTrack(s, addresses, 0, s)
  {
    KeysAreDistinct(s);
    UseOrderOfDistinct(Keys(s.good));
    UseOrderOfDistinct(Keys(s.failed));
  }

  lemma {:induction false} LatestAfterOneMore(s: Caches, addresses: seq<Address>, n: nat, t: Caches, expiry: nat)
    requires Inv(t) && n < |addresses| && LatestAfter(s, addresses, n, t)
    requires Has(t.failed, addresses[n]) <==> Has(s.failed, addresses[n])
    ensures LatestAfter(s, addresses, n + 1, RefreshedOne(t, addresses[n], expiry))
  {
    var good, failed := Uses(Keys(s.good), s, addresses, n, false), Uses(Keys(s.failed), s, addresses, n, true);
    if Has(t.failed, addresses[n]) {
      RefreshFailedUse(t, good, failed, addresses[n], expiry);
    } else {
      RefreshGoodUse(t, good, failed, addresses[n], expiry);
    }
  }

  lemma {:induction false} StillAsBefore(s: Caches, t: Caches, a: Address, expiry: nat)
    requires FailedAsBefore(s, t)
    ensures FailedAsBefore(s, RefreshedOne(t, a, expiry)) && RefreshedOne(t, a, expiry).capacity == t.capacity
  {
    forall b ensures Has(RefreshedOne(t, a, expiry).failed, b) <==> Has(s.failed, b) {
      StillFailed(t, a, expiry, b);
    }
  }

  lemma {:induction false} StaysOnTrack(s: Caches, addresses: seq<Address>, n: nat, t: Caches, expiry: nat)
    requires n < |addresses| && OnTrack(s, addresses, n, t)
    ensures OnTrack(s, addresses, n + 1, RefreshedOne(t, addresses[n], expiry))
  {
    RefreshOneKeepsInv(t, addresses[n], expiry);
    StillAsBefore(s, t, addresses[n], expiry);
    LatestAfterOneMore(s, addresses, n, t, expiry);
  }

  lemma {:induction false} AlwaysOnTrack(s: Caches, addresses: seq<Address>, expiry: nat)
    requires Inv(s)
    ensures OnTrack(s, addresses, |addresses|, Refreshed(s, addresses, expiry))
  {
    forall t, i | 0 <= i < |addresses| && OnTrack(s, addresses, i, t)
      ensures OnTrack(s, addresses, i + 1, RefreshedOne(t, addresses[i], expiry))
    {
      StaysOnTrack(s, addresses, i, t, expiry);
    }
    OnTrackAtFirst(s, addresses);
    FoldInvariant(Refresher(expiry), (t, i) => OnTrack(s, addresses, i, t), s, addresses, |addresses|);
  }

  /** What a resolution leaves, whether its addresses are new, good or failed: the good cache holds the addresses that
      were good and then those listed that are not failed, each at its last use, and of these the latest that it has
      room for; a failed address that is listed stays failed and becomes the latest of those. */
  lemma {:induction false} RefreshKeepsLatest(s: Caches, addresses: seq<Address>, expiry: nat)
    requires Inv(s)
    ensures var t, n := Refreshed(s, addresses, expiry), |addresses|;
            && Keys(t.good) == Latest(InUseOrder(Uses(Keys(s.good), s, addresses, n, false)), s.capacity)
            && Keys(t.failed) == InUseOrder(Uses(Keys(s.failed), s, addresses, n, true))
  {
    AlwaysOnTrack(s, addresses, expiry);
  }

  lemma {:induction false} StaysAt(c: Cache, a: Address, i: nat)
    requires i < |c| && c[i].address != a && Has(c, a)
    ensures c[i] in Without(c, a)
  {
    assert Without(c, a)[if i < Position(c, a) then i else i - 1] == c[i];
  }

  lemma {:induction false} OthersStay(c: Cache, a: Address, r: Record)
    requires r.address != a
    ensures r in c ==> r in Without(c, a)
  {
    if r in c && Has(c, a) {
      var i :| 0 <= i < |c| && c[i] == r;
      StaysAt(c, a, i);
    }
  }

  // ----- The loops of the code -----

  /** The two caches of one record type, updated in place. */
  class RecordCaches {
    const capacity: Capacity
    var good: Cache
    var failed: Cache
    var appeared: seq<Address>
    var disappeared: seq<Address>

    constructor (capacity: Capacity)
      ensures this.capacity == capacity && Init(View())
    {
      this.capacity := capacity;
      good, failed, appeared, disappeared := [], [], [], [];
    }

    function View(): Caches
      reads this
    {
      Caches(capacity, good, failed, appeared, disappeared)
    }

    /** aws_lru_cache_use_lru_element on the good cache */
    method UseLruGood() returns (r: Option<Record>)
      modifies this`good
      ensures good == Rotate(old(good))
      ensures r == if old(good) == [] then None else Some(old(good[0]))
    {
      if good == [] {
        return None;
      }
      r := Some(good[0]);
      good := good[1..] + [good[0]];
    }

    method UseLruFailed() returns (r: Option<Record>)
      modifies this`failed
      ensures failed == Rotate(old(failed))
      ensures r == if old(failed) == [] then None else Some(old(failed[0]))
    {
      if failed == [] {
        return None;
      }
      r := Some(failed[0]);
      failed := failed[1..] + [failed[0]];
    }

    /** The cache tells the entry about every good record that leaves it. */
    method RemoveGood(a: Address)
      modifies this`good, this`disappeared
      ensures good == Without(old(good), a)
      ensures disappeared == old(disappeared) + if Has(old(good), a) then [a] else []
    {
      var p := Position(good, a);
      if p < |good| {
        good := good[..p] + good[p + 1..];
        disappeared := disappeared + [a];
      }
    }

    method PutGood(r: Record)
      modifies this`good, this`disappeared
      ensures good == Put(old(good), r, capacity)
      ensures disappeared == old(disappeared) + PushedOut(old(good), r, capacity)
    {
      var p := Position(good, r.address);
      if p < |good| {
        good := good[..p] + good[p + 1..];
      }
      good := good + [r];
      if |good| > capacity {
        var gone := good[0].address;
        good := good[1..];
        disappeared := disappeared + [gone];
      }
    }

    /** One turn of the rotation: the record at `index` is dropped or goes to the back. */
    method DropNext(ghost was: Cache, ghost index: nat, now: nat) returns (dropped: bool)
      requires index < |was| && good == was[index..] + Unexpired(was, now, index)
      requires forall i, j :: 0 <= i < j < |was| ==> was[i].address != was[j].address
      modifies this`good, this`disappeared
      ensures good == was[index + 1..] + Unexpired(was, now, index + 1)
      ensures dropped == (was[index].expiry < now)
      ensures disappeared == old(disappeared) + if dropped then [was[index].address] else []
    {
      RotatedOnce(was, index, now);
      assert good[0] == was[index];
      var lru := UseLruGood();
      dropped := lru.value.expiry < now;
      if dropped {
        RemoveLast(was, index, now);
        RemoveGood(lru.value.address);
      }
    }

    /** The first half of process_records: rotate once through the cache and drop what has expired, but stop before
        the last record goes. */
    method DropExpired(now: nat)
      requires AtMostOnce(View())
      modifies this`good, this`disappeared
      ensures good == Kept(old(good), now)
      ensures disappeared == old(disappeared) + Keys(Dropped(old(good), now))
    {
      ghost var was := good;
      NoRepeats(View(), good);
      var count := |good|;
      var expired := 0;
      var index := 0;
      while index < count && expired < count - 1
        invariant count == |was| && 0 <= index <= count
        invariant good == was[index..] + Unexpired(was, now, index)
        invariant expired == |Expired(was, now, index)| && (count > 0 ==> expired < count)
        invariant disappeared == old(disappeared) + Keys(Expired(was, now, index))
      {
        ExpiredOneMore(was, index, now);
        var dropped := DropNext(was, index, now);
        expired := expired + if dropped then 1 else 0;
        index := index + 1;
      }
      WhatRemains(was, index, now);
    }

    /** Move the record just used from the failed cache to the empty good one. */
    method PromoteLast(r: Record)
      requires good == [] && failed != [] && failed[|failed| - 1] == r
      modifies this
      ensures View() == old(View()).(good := [r], failed := old(failed)[..|old(failed)| - 1],
                                     appeared := old(appeared) + [r.address])
    {
      PutIntoEmpty(r, capacity);
      PutGood(r);
      appeared := appeared + [r.address];
      failed := failed[..|failed| - 1];
    }

    /** One turn of the search: the record at `index` goes to the back, or is promoted. */
    method PromoteNext(ghost was: Cache, ghost index: nat, now: nat) returns (promoted: bool)
      requires index < |was| && failed == Turned(was, index) && FirstUsable(was, now) >= index && good == []
      modifies this
      ensures promoted <==> FirstUsable(was, now) == index
      ensures promoted ==>
                View() == old(View()).(good := [was[index]], failed := was[index + 1..] + was[..index],
                                       appeared := old(appeared) + [was[index].address])
      ensures !promoted ==> View() == old(View()).(failed := Turned(was, index + 1))
    {
      RotatedTo(was, index);
      var lru := UseLruFailed();
      promoted := now < lru.value.expiry;
      if promoted {
        PromotedIsLast(was, index, now);
        PromoteLast(lru.value);
      }
    }

    /** The second half: without good records, promote the first failed record that has not expired. */
    method Promote(now: nat)
      requires good == []
      modifies this
      ensures View() == Processed(old(View()), now)
    {
      ghost var was := failed;
      var count := |failed|;
      NotTurned(was);
      for index := 0 to count
        invariant View() == old(View()).(failed := Turned(was, index)) && FirstUsable(was, now) >= index
      {
        var promoted := PromoteNext(was, index, now);
        if promoted {
          return;
        }
      }
    }

    /** process_records */
    method ProcessRecords(now: nat)
      requires AtMostOnce(View())
      modifies this
      ensures View() == Processed(old(View()), now)
    {
      DropExpired(now);
      if |good| == 0 {
        KeptRecords(old(good), now);
        assert Keys(Dropped([], now)) == [];
        Promote(now);
      } else {
        assert old(good) != [];
      }
    }

    /** The part of s_update_address_cache that concerns this record type */
    method UpdateAddressCache(addresses: seq<Address>, expiry: nat)
      modifies this
      ensures View() == Refreshed(old(View()), addresses, expiry)
    {
      ghost var was := View();
      for i := 0 to |addresses|
        invariant View() == FoldLeft(Refresher(expiry), was, addresses, i)
      {
        UpdateOne(addresses[i], expiry);
      }
    }

    method UpdateOne(a: Address, expiry: nat)
      modifies this
      ensures View() == RefreshedOne(old(View()), a, expiry)
    {
      var p := Position(good, a);
      if p < |good| {
        good := good[..p] + good[p + 1..] + [good[p].(expiry := expiry)];
        return;
      }
      var q := Position(failed, a);
      if q < |failed| {
        failed := failed[..q] + failed[q + 1..] + [failed[q].(expiry := expiry)];
        return;
      }
      PutGood(Record(a, expiry, 0));
      appeared := appeared + [a];
    }

    /** resolver_record_connection_failure */
    method RecordConnectionFailure(a: Address)
      modifies this
      ensures View() == AfterFailure(old(View()), a)
    {
      var p := Position(good, a);
      if p < |good| {
        FailGood(a, p);
      } else {
        FailAgain(a);
      }
    }

    method FailGood(a: Address, p: nat)
      requires p == Position(good, a) < |good|
      modifies this`good, this`failed, this`disappeared
      ensures View() == AfterFailure(old(View()), a)
    {
      var copy := good[p].(failures := good[p].failures + 1);
      RemoveGood(a);
      PutFailed(copy);
    }

    method FailAgain(a: Address)
      requires !Has(good, a)
      modifies this`failed
      ensures View() == AfterFailure(old(View()), a)
    {
      var q := Position(failed, a);
      if q < |failed| {
        failed := failed[..q] + failed[q + 1..] + [failed[q].(failures := failed[q].failures + 1)];
      }
    }

    method PutFailed(r: Record)
      modifies this`failed
      ensures failed == Put(old(failed), r, capacity)
    {
      var p := Position(failed, r.address);
      if p < |failed| {
        failed := failed[..p] + failed[p + 1..];
      }
      failed := failed + [r];
      if |failed| > capacity {
        failed := failed[1..];
      }
    }

    /** s_get_lru_address: a failed address is never handed out, although its cache is consulted. */
    method GetLruAddress() returns (r: Option<Record>)
      requires AtMostOnce(View())
      modifies this
      ensures View() == Vended(old(View()))
      ensures r == if old(good) == [] then None else Some(old(good[0]))
      ensures r.Some? ==> !Has(old(failed), r.value.address)
    {
      if good != [] {
        HasMeansInBag(good, good[0].address);
        HasMeansInBag(failed, good[0].address);
      }
      r := UseLruGood();
      if r.None? {
        var _ := UseLruFailed();
      }
    }
  }

  // ----- Steps of the rotation loop -----

  lemma PutIntoEmpty(r: Record, capacity: Capacity)
    ensures Put([], r, capacity) == [r] && PushedOut([], r, capacity) == []
  {
  }

  /** The first `n` records have been rotated to the back. */
  function Turned(c: Cache, n: nat): Cache
    requires n <= |c|
  {
    c[n..] + c[..n]
  }

  lemma NotTurned(c: Cache)
    ensures Turned(c, 0) == Turned(c, |c|) == c
  {
  }

  /** The record to be promoted has just been rotated to the back. */
  lemma {:induction false} PromotedIsLast(was: Cache, index: nat, now: nat)
    requires index < |was| && FirstUsable(was, now) >= index && now < was[index].expiry
    ensures FirstUsable(was, now) == index
    ensures (was[index + 1..] + was[..index + 1])[..|was| - 1] == was[index + 1..] + was[..index]
  {
  }

  lemma {:induction false} RotatedTo(was: Cache, index: nat)
    requires index < |was|
    ensures var c := was[index..] + was[..index];
            && c[0] == was[index] && Rotate(c) == was[index + 1..] + was[..index + 1]
            && Rotate(c)[..|was| - 1] == was[index + 1..] + was[..index]
  {
    assert was[index..] == [was[index]] + was[index + 1..];
  }

  lemma {:induction false} RotatedOnce(was: Cache, index: nat, now: nat)
    requires index < |was|
    ensures Rotate(was[index..] + Unexpired(was, now, index)) ==
            was[index + 1..] + Unexpired(was, now, index) + [was[index]]
    ensures was[index].expiry >= now ==>
              Rotate(was[index..] + Unexpired(was, now, index)) == was[index + 1..] + Unexpired(was, now, index + 1)
  {
    assert was[index..] == [was[index]] + was[index + 1..];
  }

  lemma {:induction false} ExpiredOneMore(was: Cache, index: nat, now: nat)
    requires index < |was|
    ensures Keys(Expired(was, now, index + 1)) ==
            Keys(Expired(was, now, index)) + if was[index].expiry < now then [was[index].address] else []
    ensures |Expired(was, now, index + 1)| == |Expired(was, now, index)| + if was[index].expiry < now then 1 else 0
  {
    if was[index].expiry < now {
      KeysOfConcat(Expired(was, now, index), [was[index]]);
      assert Keys([was[index]]) == [was[index].address];
    }
  }

  lemma {:induction false} RemoveLast(was: Cache, index: nat, now: nat)
    requires index < |was| && was[index].expiry < now
    requires forall i, j :: 0 <= i < j < |was| ==> was[i].address != was[j].address
    ensures var kept := was[index + 1..] + Unexpired(was, now, index);
            && Without(kept + [was[index]], was[index].address) == kept
            && Has(kept + [was[index]], was[index].address)
  {
    var u := Unexpired(was, now, index);
    var kept := was[index + 1..] + u;
    MembersByExpiry(was, now, index);
    forall i | 0 <= i < |kept| ensures kept[i].address != was[index].address {
      if i >= |was| - index - 1 {
        assert u[i - (|was| - index - 1)] in was[..index];
      }
    }
    var whole := kept + [was[index]];
    assert whole[|kept|].address == was[index].address;
    assert Position(whole, was[index].address) == |kept|;
  }

  /** When the loop stops early a single record is left, and it is the one to keep. */
  lemma {:induction false} WhatRemains(was: Cache, index: nat, now: nat)
    requires index <= |was| && (was != [] ==> |Expired(was, now, index)| < |was|)
    requires index == |was| || |Expired(was, now, index)| == |was| - 1
    ensures was[index..] + Unexpired(was, now, index) == Kept(was, now)
    ensures Expired(was, now, index) == Dropped(was, now)
  {
    if index < |was| {
      assert index == |was| - 1 && Unexpired(was, now, index) == [];
      ExpiredIsAll(was, now, index);
    }
  }

  lemma {:induction false} ExpiredIsAll(c: Cache, now: nat, n: nat)
    requires n <= |c| && Unexpired(c, now, n) == []
    ensures Expired(c, now, n) == c[..n]
  {
    if n > 0 {
      ExpiredIsAll(c, now, n - 1);
    }
  }
}

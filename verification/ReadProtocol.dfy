/** The cache-aside protocol of one product read (internal/core/cache/
    product_cache.go): what a GetProductOrSet call does next, given the reply it
    just got. CacheAside has the same call as it runs against the client. */
module ReadProtocol {
  import opened Domain
  import opened PublicReads
  import opened ValkeyStore

  const LOCK_TTL := 5000    // ms
  const TICK := 50
  const PATIENCE := 500

  /** A TTL that jitter(d) may return: d and up to a tenth more. */
  predicate Jittered(d: int, ttl: int) {
    if d <= 0 then ttl == d else d <= ttl <= d + d / 10
  }

  datatype Source = FromCache | FromFetch

  /** `at` names the instant whose committed state the answer was read from. */
  datatype ReadResult = Found(product: PublicProduct, at: nat, source: Source) | Absent(absentAt: nat) | Failed

  datatype Pc =
    | Checking
    | Acquiring
    | Fetching(acquiredAt: int)                     // lock acquired
    | Storing(product: PublicProduct, at: nat)
    | Releasing(outcome: ReadResult)
    | OpenFetching                                  // SetNX failed
    | Waiting(since: int)                           // lock refused
    | LateFetching(refusedAt: int)                  // waited in vain
    | Done(result: ReadResult)

  datatype Reply =
    | Hit(product: PublicProduct, at: nat)
    | Miss                                          // a miss, or a failed Get
    | Acquired(now: int)
    | HeldElsewhere(now: int)
    | LockError
    | DbFound(product: PublicProduct, at: nat)
    | DbAbsent(at: nat)
    | DbError
    | Ack                                           // Set and unlock: errors are ignored
    | TimedOut(now: int)
    | Cancelled

  function FetchResult(r: Reply): ReadResult {
    match r
    case DbFound(p, at) => Found(p, at, FromFetch)
    case DbAbsent(at) => Absent(at)
    case _ => Failed
  }

  predicate IsFetch(r: Reply) { r.DbFound? || r.DbAbsent? || r.DbError? }

  /** The next state of a call; None when the reply cannot come in this state. */
  function OnReply(pc: Pc, r: Reply): Option<Pc> {
    match pc
    case Checking =>
      if r.Hit? then Some(Done(Found(r.product, r.at, FromCache))) else if r.Miss? then Some(Acquiring) else None
    case Acquiring =>
      if r.Acquired? then Some(Fetching(r.now))
      else if r.HeldElsewhere? then Some(Waiting(r.now))
      else if r.LockError? then Some(OpenFetching)
      else None
    case Fetching(_) =>
      if r.DbFound? then Some(Storing(r.product, r.at)) else if IsFetch(r) then Some(Releasing(FetchResult(r)))
          else None
    case Storing(p, at) => if r.Ack? then Some(Releasing(Found(p, at, FromFetch))) else None
    case Releasing(outcome) => if r.Ack? then Some(Done(outcome)) else None
    case OpenFetching => if IsFetch(r) then Some(Done(FetchResult(r))) else None
    case Waiting(since) =>
      if r.Hit? then Some(Done(Found(r.product, r.at, FromCache)))
      else if r.Miss? then Some(pc)
      else if r.TimedOut? && r.now >= since + PATIENCE then Some(LateFetching(since))
      else if r.Cancelled? then Some(Done(Failed))
      else None
    case LateFetching(_) => if IsFetch(r) then Some(Done(FetchResult(r))) else None
    case Done(_) => None
  }

  /** The state after a whole conversation, None when it is not one. */
  function Converse(replies: seq<Reply>): Option<Pc>
    decreases |replies|
  {
    if replies == [] then Some(Checking)
    else
      var before := Converse(replies[..|replies| - 1]);
      if before.None? then None else OnReply(before.value, replies[|replies| - 1])
  }

  lemma ConverseAppend(replies: seq<Reply>, r: Reply)
    requires Converse(replies).Some?
    ensures Converse(replies + [r]) == OnReply(Converse(replies).value, r)
  {
    assert (replies + [r])[..|replies|] == replies;
  }

  function CountFetches(replies: seq<Reply>): nat
    decreases |replies|
  {
    if replies == [] then 0
    else CountFetches(replies[..|replies| - 1]) + if IsFetch(replies[|replies| - 1]) then 1 else 0
  }

  /** Why a call may ask the database: it holds the lock, the lock store failed,
      or it waited out its patience after a refusal. */
  predicate LicensedAt(replies: seq<Reply>, i: nat)
    requires i < |replies|
  {
    || replies[i].Acquired?
    || replies[i].LockError?
    || (replies[i].TimedOut? && exists j | 0 <= j < i ::
       replies[j].HeldElsewhere? && replies[i].now >= replies[j].now + PATIENCE)
  }

  predicate Licensed(replies: seq<Reply>) { exists i | 0 <= i < |replies| :: LicensedAt(replies, i) }

  lemma LicenseStays(replies: seq<Reply>, r: Reply)
    requires Licensed(replies)
    ensures Licensed(replies + [r])
  {
    var i :| 0 <= i < |replies| && LicensedAt(replies, i);
    var longer := replies + [r];
    assert longer[i] == replies[i];
    if replies[i].TimedOut? {
      var j :| 0 <= j < i && replies[j].HeldElsewhere? && replies[i].now >= replies[j].now + PATIENCE;
      assert longer[j] == replies[j];
    }
    assert LicensedAt(longer, i);
  }

  lemma LicenseNow(replies: seq<Reply>, r: Reply)
    requires Converse(replies).Some? && OnReply(Converse(replies).value, r).Some?
    requires r.Acquired? || r.LockError? || r.TimedOut?
    ensures Licensed(replies + [r])
  {
    var longer := replies + [r];
    assert longer[|replies|] == r;
    if r.TimedOut? {
      var j := RefusedEarlier(replies);
      assert longer[j] == replies[j];
    }
    assert LicensedAt(longer, |replies|);
  }

  lemma {:induction false} RefusedEarlier(replies: seq<Reply>) returns (j: nat)
    requires Converse(replies).Some? && Converse(replies).value.Waiting?
    ensures j < |replies| && replies[j] == HeldElsewhere(Converse(replies).value.since)
    decreases |replies|
  {
    var front := replies[..|replies| - 1];
    if replies[|replies| - 1].HeldElsewhere? {
      j := |replies| - 1;
    } else {
      j := RefusedEarlier(front);
    }
  }

  /** In every conversation the database is asked at most once, and only with a
      license; a call that has not been licensed has not asked. */
  lemma {:induction false} FetchAttribution(replies: seq<Reply>)
    requires Converse(replies).Some?
    ensures CountFetches(replies) <= 1
    ensures CountFetches(replies) == 1 ==> Licensed(replies)
    ensures var pc := Converse(replies).value;
      && (pc.Checking? || pc.Acquiring? || pc.Fetching? || pc.OpenFetching? || pc.Waiting? || pc.LateFetching? ==>
         CountFetches(replies) == 0)
      && (pc.Fetching? || pc.OpenFetching? || pc.LateFetching? ==> Licensed(replies))
    decreases |replies|
  {
    if replies != [] {
      var front, r := replies[..|replies| - 1], replies[|replies| - 1];
      FetchAttribution(front);
      assert replies == front + [r];
      if Licensed(front) { LicenseStays(front, r); }
      if r.Acquired? || r.LockError? || r.TimedOut? { LicenseNow(front, r); }
    }
  }
}

/** The per-product lock under expiry: who holds it, and who can end it. */
module CacheLocks {
  import opened Domain
  import opened Catalog
  import opened ValkeyStore
  import opened ReadProtocol
  import opened CacheSystem
  import CacheInvariant

  /** From the acquisition to the end of the call. */
  predicate InSection(pc: Pc) { pc.Fetching? || pc.Storing? || pc.Releasing? }

  predicate HoldsWithinTtl(s: Sys, token: nat) {
    && token in s.readers && InSection(s.readers[token].pc)
    && s.readers[token].acquiredAt.Some? && s.now <= s.readers[token].acquiredAt.value + LOCK_TTL
  }

  /** A lock record was put there by a call for that product, to last LOCK_TTL from
      the acquisition. */
  predicate RecordOwned(readers: map<nat, Reader>, id: nat, lock: Entry<nat>) {
    && lock.value in readers
    && var r := readers[lock.value];
       && r.id == id && !r.pc.Checking? && !r.pc.Acquiring?
       && (r.acquiredAt.Some? ==> lock.expires == r.acquiredAt.value + LOCK_TTL)
  }

  predicate HolderOk(locks: map<nat, Entry<nat>>, now: int, token: nat, r: Reader) {
    InSection(r.pc) ==>
      && r.acquiredAt.Some?
      && (now <= r.acquiredAt.value + LOCK_TTL ==>
            r.id in locks && locks[r.id] == Entry(token, r.acquiredAt.value + LOCK_TTL))
  }

  predicate NotYetAcquired(r: Reader) { r.pc.Checking? || r.pc.Acquiring? ==> r.acquiredAt.None? }

  ghost predicate LocksOk(s: Sys) {
    && (forall id | id in s.locks :: RecordOwned(s.readers, id, s.locks[id]))
    && (forall t | t in s.readers :: HolderOk(s.locks, s.now, t, s.readers[t]) && NotYetAcquired(s.readers[t]))
  }

  lemma QuietShape(s: Sys, e: Event)
    requires Enabled(s, e) && !e.Read?
    ensures var s' := Step(s, e);
      && s'.locks == s.locks && s'.now >= s.now
      && (s'.readers == s.readers
          || (e.StartRead? && e.token !in s.readers
             && s'.readers == s.readers[e.token := Reader(e.id, Checking, None, |s.past|)]))
  {
    match e
    case ReadList(lid, act) => CacheInvariant.DoListShape(s, lid, act);
    case _ =>
  }

  lemma QuietKeepsLocks(s: Sys, s': Sys, token: nat, id: nat)
    requires LocksOk(s) && s'.locks == s.locks && s'.now >= s.now
    requires s'.readers == s.readers
             || (token !in s.readers && s'.readers == s.readers[token := Reader(id, Checking, None, |s.past|)])
    ensures LocksOk(s')
  {
    forall key | key in s'.locks
      ensures RecordOwned(s'.readers, key, s'.locks[key])
    {
      assert RecordOwned(s.readers, key, s.locks[key]);
    }
    forall t | t in s'.readers
      ensures HolderOk(s'.locks, s'.now, t, s'.readers[t]) && NotYetAcquired(s'.readers[t])
    {
      if t in s.readers { assert HolderOk(s.locks, s.now, t, s.readers[t]) && NotYetAcquired(s.readers[t]); }
    }
  }

  /** What one step of a call does to the calls and the locks. */
  ghost predicate LockShape(s: Sys, s': Sys, token: nat, act: Act)
    requires ReadEnabled(s, token, act)
  {
    var r := s.readers[token];
    && s'.now == s.now && s'.readers == s.readers[token := Advanced(s, token, act)]
    && s'.locks == match act
                   case SetNX(fault) => if IsApplied(fault) then StoredIfAbsent(s.locks, r.id, token, s.now, LOCK_TTL)
                       else s.locks
                   case Unlock(fault) => if IsApplied(fault) then DeletedIfEqual(s.locks, r.id, token, s.now)
                       else s.locks
                   case _ => s.locks
  }

  lemma ReadShape(s: Sys, token: nat, act: Act)
    requires Enabled(s, Read(token, act))
    ensures LockShape(s, Step(s, Read(token, act)), token, act)
  {
  }

  lemma SetNXKeepsLocks(s: Sys, s': Sys, token: nat, act: Act)
    requires LocksOk(s) && ReadEnabled(s, token, act) && LockShape(s, s', token, act) && act.SetNX?
    ensures LocksOk(s')
  {
    var r := s.readers[token];
    assert r.pc.Acquiring? && r.acquiredAt.None?;
    forall id | id in s'.locks
      ensures RecordOwned(s'.readers, id, s'.locks[id])
    {
      if id in s.locks && s'.locks[id] == s.locks[id] { assert RecordOwned(s.readers, id, s.locks[id]); }
    }
    forall t | t in s'.readers
      ensures HolderOk(s'.locks, s'.now, t, s'.readers[t]) && NotYetAcquired(s'.readers[t])
    {
      if t != token { assert HolderOk(s.locks, s.now, t, s.readers[t]) && NotYetAcquired(s.readers[t]); }
    }
  }

  lemma OtherKeepsLocks(s: Sys, s': Sys, token: nat, act: Act)
    requires LocksOk(s) && ReadEnabled(s, token, act) && LockShape(s, s', token, act) && !act.SetNX?
    ensures LocksOk(s')
  {
    assert HolderOk(s.locks, s.now, token, s.readers[token]) && NotYetAcquired(s.readers[token]);
    forall id | id in s'.locks
      ensures RecordOwned(s'.readers, id, s'.locks[id])
    {
      assert RecordOwned(s.readers, id, s.locks[id]);
    }
    forall t | t in s'.readers
      ensures HolderOk(s'.locks, s'.now, t, s'.readers[t]) && NotYetAcquired(s'.readers[t])
    {
      if t != token { assert HolderOk(s.locks, s.now, t, s.readers[t]) && NotYetAcquired(s.readers[t]); }
    }
  }

  lemma {:induction false} LocksReachable(s: Sys, es: seq<Event>)
    requires Initial(s) && Legal(s, es)
    ensures LocksOk(RunEvents(s, es))
    decreases |es|
  {
    if es != [] {
      var before, e := RunEvents(s, es[..|es| - 1]), es[|es| - 1];
      LocksReachable(s, es[..|es| - 1]);
      StepKeepsLocks(before, e);
    }
  }

  lemma StepKeepsLocks(s: Sys, e: Event)
    requires LocksOk(s) && Enabled(s, e)
    ensures LocksOk(Step(s, e))
  {
    if e.Read? {
      ReadShape(s, e.token, e.act);
      if e.act.SetNX? {
        SetNXKeepsLocks(s, Step(s, e), e.token, e.act);
      } else {
        OtherKeepsLocks(s, Step(s, e), e.token, e.act);
      }
    } else {
      QuietShape(s, e);
      QuietKeepsLocks(s, Step(s, e), if e.StartRead? then e.token else 0, if e.StartRead? then e.id else 0);
    }
  }

  /** In every reachable state, the calls of one product that were told they hold
      the lock, and whose TTL has not run out, are at most one, and the live lock
      record carries its token. */
  lemma MutualExclusion(s: Sys, es: seq<Event>, a: nat, b: nat)
    requires Initial(s) && Legal(s, es)
    requires HoldsWithinTtl(RunEvents(s, es), a) && HoldsWithinTtl(RunEvents(s, es), b)
    requires RunEvents(s, es).readers[a].id == RunEvents(s, es).readers[b].id
    ensures a == b
    ensures var end := RunEvents(s, es);
      Live(end.locks, end.readers[a].id, end.now) && end.locks[end.readers[a].id].value == a
  {
    LocksReachable(s, es);
    var end := RunEvents(s, es);
    assert HolderOk(end.locks, end.now, a, end.readers[a]);
    assert HolderOk(end.locks, end.now, b, end.readers[b]);
  }

  /** A live lock record stays as it is until it expires, through every step but
      the unlock of the call whose token it holds. */
  lemma LiveLockEndsOnlyByItsOwner(s: Sys, e: Event, id: nat)
    requires Enabled(s, e) && Live(s.locks, id, s.now)
    requires !(e.Read? && e.act.Unlock? && e.token == s.locks[id].value)
    ensures id in Step(s, e).locks && Step(s, e).locks[id] == s.locks[id]
  {
    if e.Read? { ReadShape(s, e.token, e.act); }
  }

  /** A call whose fetch overran the TTL releases nothing: whatever lock is there
      by then is another's. */
  lemma OverrunReleaseRemovesNothing(s: Sys, es: seq<Event>, token: nat, fault: Fault)
    requires Initial(s) && Legal(s, es) && Enabled(RunEvents(s, es), Read(token, Unlock(fault)))
    requires !HoldsWithinTtl(RunEvents(s, es), token)
    ensures Step(RunEvents(s, es), Read(token, Unlock(fault))).locks == RunEvents(s, es).locks
  {
    LocksReachable(s, es);
    Overrun(RunEvents(s, es), token, fault);
  }

  lemma Overrun(s: Sys, token: nat, fault: Fault)
    requires LocksOk(s) && Enabled(s, Read(token, Unlock(fault))) && !HoldsWithinTtl(s, token)
    ensures Step(s, Read(token, Unlock(fault))).locks == s.locks
  {
    ReadShape(s, token, Unlock(fault));
    var r := s.readers[token];
    assert HolderOk(s.locks, s.now, token, r);
    if r.id in s.locks { assert RecordOwned(s.readers, r.id, s.locks[r.id]); }
  }
}

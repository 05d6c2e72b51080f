/**
 The per-domain rate limiter. Times are readings of a monotonic clock, in some
 unit; delays are durations in that unit.
 */
module RateLimiting {
  datatype DomainState = DomainState(delay: nat, lastAccessed: nat)

  type Limits = map<string, DomainState>

  function SaturatingSince(now: nat, earlier: nat): nat {
    if now < earlier then 0 else now - earlier
  }

  /** A fresh entry looks as if the domain was last accessed one delay ago: the clock must have run that long. */
  predicate CanEnter(limits: Limits, domain: string, now: nat, delay: nat) {
    domain in limits || delay <= now
  }

  function EntryOr(limits: Limits, domain: string, now: nat, delay: nat): DomainState
    requires CanEnter(limits, domain, now, delay)
  {
    if domain in limits then limits[domain] else DomainState(delay, now - delay)
  }

  predicate Grants(state: DomainState, now: nat) {
    SaturatingSince(now, state.lastAccessed) >= state.delay
  }

  /** The map after `try_acquire`. */
  function Acquired(limits: Limits, domain: string, now: nat, defaultDelay: nat): Limits
    requires CanEnter(limits, domain, now, defaultDelay)
  {
    var state := EntryOr(limits, domain, now, defaultDelay);
    limits[domain := if Grants(state, now) then state.(lastAccessed := now) else state]
  }

  /** The map after `update_delay`. */
  function Updated(limits: Limits, domain: string, now: nat, newDelay: nat): Limits
    requires CanEnter(limits, domain, now, newDelay)
  {
    limits[domain := EntryOr(limits, domain, now, newDelay).(delay := newDelay)]
  }

  /** How long `await_acquiring` sleeps: for the time since the last access, not for the rest of the delay. */
  function SleepTime(limits: Limits, domain: string, now: nat, defaultDelay: nat): nat
    requires CanEnter(limits, domain, now, defaultDelay)
  {
    SaturatingSince(now, EntryOr(limits, domain, now, defaultDelay).lastAccessed)
  }

  /** The map after `await_acquiring`: the access recorded is the reading from before the sleep. */
  function Awaited(limits: Limits, domain: string, now: nat, defaultDelay: nat): Limits
    requires CanEnter(limits, domain, now, defaultDelay)
  {
    limits[domain := EntryOr(limits, domain, now, defaultDelay).(lastAccessed := now)]
  }

  /** When a request is granted, and the entry that it then leaves. */
  lemma AcquiredInFields(limits: Limits, domain: string, now: nat, defaultDelay: nat)
    requires defaultDelay <= now
    ensures Grants(EntryOr(limits, domain, now, defaultDelay), now) <==>
            domain !in limits || limits[domain].delay == 0 || limits[domain].lastAccessed + limits[domain].delay <= now
    ensures Acquired(limits, domain, now, defaultDelay) ==
            if Grants(EntryOr(limits, domain, now, defaultDelay), now)
            then limits[domain := DomainState(if domain in limits then limits[domain].delay else defaultDelay, now)]
            else limits
  {
  }

  class DomainRateLimiter {
    var limits: Limits
    const defaultDelay: nat

    constructor (defaultDelay: nat)
      ensures limits == map[] && this.defaultDelay == defaultDelay
    {
      limits, this.defaultDelay := map[], defaultDelay;
    }

    /** `now` is the clock reading taken before the entry is locked. */
    method TryAcquire(domain: string, now: nat) returns (granted: bool)
      requires CanEnter(limits, domain, now, defaultDelay)
      modifies this
      ensures granted == Grants(EntryOr(old(limits), domain, now, defaultDelay), now)
      ensures limits == Acquired(old(limits), domain, now, defaultDelay)
      ensures domain !in old(limits) ==> granted && limits == old(limits)[domain := DomainState(defaultDelay, now)]
      ensures domain in old(limits) ==>
                var was := old(limits)[domain];
                && (granted <==> was.delay == 0 || was.lastAccessed + was.delay <= now)
                && limits == old(limits)[domain := DomainState(was.delay, if granted then now else was.lastAccessed)]
    {
      if domain !in limits {
        limits := limits[domain := DomainState(defaultDelay, now - defaultDelay)];
      }
      var state := limits[domain];
      if SaturatingSince(now, state.lastAccessed) >= state.delay {
        limits := limits[domain := state.(lastAccessed := now)];
        granted := true;
      } else {
        granted := false;
      }
    }

    method UpdateDelay(domain: string, newDelay: nat, now: nat)
      requires CanEnter(limits, domain, now, newDelay)
      modifies this
      ensures limits == Updated(old(limits), domain, now, newDelay)
      ensures domain in old(limits) ==>
                limits == old(limits)[domain := DomainState(newDelay, old(limits)[domain].lastAccessed)]
      ensures domain !in old(limits) ==> limits == old(limits)[domain := DomainState(newDelay, now - newDelay)]
    {
      if domain in limits {
        limits := limits[domain := limits[domain].(delay := newDelay)];
      } else {
        limits := limits[domain := DomainState(newDelay, now - newDelay)];
      }
    }

    method AwaitAcquiring(domain: string, now: nat) returns (slept: nat)
      requires CanEnter(limits, domain, now, defaultDelay)
      modifies this
      ensures slept == SleepTime(old(limits), domain, now, defaultDelay)
      ensures limits == Awaited(old(limits), domain, now, defaultDelay)
      ensures slept == if domain !in old(limits) then defaultDelay
                       else if now < old(limits)[domain].lastAccessed then 0
                       else now - old(limits)[domain].lastAccessed
      ensures limits == old(limits)[domain := DomainState(
                                      if domain in old(limits) then old(limits)[domain].delay else defaultDelay, now)]
    {
      if domain !in limits {
        limits := limits[domain := DomainState(defaultDelay, now - defaultDelay)];
      }
      var state := limits[domain];
      slept := SaturatingSince(now, state.lastAccessed);
      limits := limits[domain := state.(lastAccessed := now)];
    }
  }
}

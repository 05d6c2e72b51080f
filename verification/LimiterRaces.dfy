/**
 The rate limiter under races. A call reads the clock in one step and decides, under
 the lock of the domain's entry, in a later one; between the two, other threads may do
 as they like.
 */
module LimiterRaces {
  import opened Multiples
  import opened RateLimiting

  datatype Call =
    | TryAcquire(domain: string)
    | UpdateDelay(domain: string, newDelay: nat)
    | AwaitAcquiring(domain: string)

  datatype Pending = Pending(call: Call, now: nat)

  /** A granted request: the clock reading it carried, and the clock when it was decided. */
  datatype Grant = Grant(domain: string, stamp: nat, decidedAt: nat)

  datatype Shared = Shared(
    limits: Limits, defaultDelay: nat, clock: nat, pending: map<nat, Pending>, grants: seq<Grant>)

  datatype Step = Tick(elapsed: nat) | ReadClock(thread: nat, call: Call) | Decide(thread: nat)

  function CallDelay(call: Call, defaultDelay: nat): nat {
    if call.UpdateDelay? then call.newDelay else defaultDelay
  }

  /** `await_acquiring` keeps the entry locked while it sleeps, so it takes effect at the end of its sleep. */
  predicate Enabled(s: Shared, step: Step) {
    match step
    case Tick(_) => true
    case ReadClock(t, _) => t !in s.pending
    case Decide(t) =>
      && t in s.pending
      && var p := s.pending[t];
         && CanEnter(s.limits, p.call.domain, p.now, CallDelay(p.call, s.defaultDelay))
         && (p.call.AwaitAcquiring? ==> p.now + SleepTime(s.limits, p.call.domain, p.now, s.defaultDelay) <= s.clock)
  }

  function Next(s: Shared, step: Step): Shared
    requires Enabled(s, step)
  {
    match step
    case Tick(elapsed) => s.(clock := s.clock + elapsed)
    case ReadClock(t, call) => s.(pending := s.pending[t := Pending(call, s.clock)])
    case Decide(t) =>
      var p := s.pending[t];
      var s' := s.(pending := s.pending - {t});
      match p.call
      case UpdateDelay(domain, newDelay) => s'.(limits := Updated(s.limits, domain, p.now, newDelay))
      case AwaitAcquiring(domain) => s'.(limits := Awaited(s.limits, domain, p.now, s.defaultDelay))
      case TryAcquire(domain) =>
        s'.(limits := Acquired(s.limits, domain, p.now, s.defaultDelay),
            grants := if Grants(EntryOr(s.limits, domain, p.now, s.defaultDelay), p.now)
                      then s.grants + [Grant(domain, p.now, s.clock)] else s.grants)
  }

  /** A run: each step is possible in the state that the steps before it lead to. */
  predicate IsRun(s: Shared, steps: seq<Step>)
    decreases |steps|, 0
  {
    steps == [] ||
    var n := |steps| - 1;
    IsRun(s, steps[..n]) && Enabled(Final(s, steps[..n]), steps[n])
  }

  function Final(s: Shared, steps: seq<Step>): Shared
    requires IsRun(s, steps)
    decreases |steps|, 1
  {
    if steps == [] then s
    else
      var n := |steps| - 1;
      Next(Final(s, steps[..n]), steps[n])
  }

  function Fresh(defaultDelay: nat, clock: nat): Shared {
    Shared(map[], defaultDelay, clock, map[], [])
  }

  // ----- Spacing -----

  /** The grants to `domain`, in the order of the decisions. */
  function ToDomain(grants: seq<Grant>, domain: string): seq<Grant> {
    if grants == [] then []
    else
      var g := grants[|grants| - 1];
      ToDomain(grants[..|grants| - 1], domain) + if g.domain == domain then [g] else []
  }

  /** The clock readings that the grants carry. */
  function Stamps(grants: seq<Grant>): (r: seq<nat>)
    ensures |r| == |grants| && forall i :: 0 <= i < |r| ==> r[i] == grants[i].stamp
  {
    seq(|grants|, i requires 0 <= i < |grants| => grants[i].stamp)
  }

  /** The grants to `domain` that a run has added to those of the state it started in. */
  function NewGrants(s: Shared, t: Shared, domain: string): seq<Grant> {
    if |s.grants| <= |t.grants| then ToDomain(t.grants[|s.grants|..], domain) else []
  }

  /** The last access recorded when the run started, if any, and the readings of the grants since. */
  function Accesses(s: Shared, t: Shared, domain: string): seq<nat> {
    (if domain in s.limits then [s.limits[domain].lastAccessed] else []) + Stamps(NewGrants(s, t, domain))
  }

  predicate SpacedBy(stamps: seq<nat>, d: nat) {
    forall i, j :: 0 <= i <= j < |stamps| ==> stamps[i] + (j - i) * d <= stamps[j]
  }

  // ----- Waits that set the last access back -----

  /** The step is the end of an `await_acquiring` that records a reading older than the one recorded. */
  predicate SetsBack(s: Shared, step: Step, domain: string) {
    && step.Decide? && step.thread in s.pending && s.pending[step.thread].call == AwaitAcquiring(domain)
    && domain in s.limits && s.pending[step.thread].now < s.limits[domain].lastAccessed
  }

  /**
   A grant less than `d` after `last` is out of the question: `last` is recorded, or the access recorded is
   older, but the clock has passed `last + d` and no request under way carries a reading between the two.
   */
  predicate OnTime(s: Shared, last: nat, domain: string, d: nat) {
    && domain in s.limits
    && var recorded := s.limits[domain].lastAccessed;
       || last <= recorded
       || (last + d <= s.clock
           && forall t :: t in s.pending && s.pending[t].call == TryAcquire(domain) ==>
                            s.pending[t].now < recorded + d || last + d <= s.pending[t].now)
  }

  /**
   The step sets the last access back and leaves room for a grant less than `d` after the last of the accesses
   since `s`.
   */
  predicate IsLate(s: Shared, t: Shared, step: Step, domain: string, d: nat)
    requires Enabled(t, step)
  {
    var accesses := Accesses(s, t, domain);
    SetsBack(t, step, domain) && accesses != [] && !OnTime(Next(t, step), accesses[|accesses| - 1], domain, d)
  }

  /** At no point of the run is a delay below `d` in force for `domain`. */
  predicate DelayKept(s: Shared, steps: seq<Step>, domain: string, d: nat)
    requires IsRun(s, steps)
    decreases |steps|
  {
    && (domain in Final(s, steps).limits ==> d <= Final(s, steps).limits[domain].delay)
    && (steps == [] || DelayKept(s, steps[..|steps| - 1], domain, d))
  }

  predicate NeverLate(s: Shared, steps: seq<Step>, domain: string, d: nat)
    requires IsRun(s, steps)
    decreases |steps|
  {
    steps == [] ||
    var n := |steps| - 1;
    NeverLate(s, steps[..n], domain, d) && !IsLate(s, Final(s, steps[..n]), steps[n], domain, d)
  }

  /** What the run must keep: the delay, and the last access as far as it matters. */
  predicate InForce(s: Shared, steps: seq<Step>, domain: string, d: nat)
    requires IsRun(s, steps)
  {
    DelayKept(s, steps, domain, d) && NeverLate(s, steps, domain, d)
  }

  /** The accesses are spaced, and the next one will be on time. */
  predicate Spaced(accesses: seq<nat>, t: Shared, domain: string, d: nat) {
    SpacedBy(accesses, d) && (accesses != [] ==> OnTime(t, accesses[|accesses| - 1], domain, d))
  }

  lemma SpacedByAppended(stamps: seq<nat>, d: nat, now: nat)
    requires SpacedBy(stamps, d)
    requires stamps != [] ==> stamps[|stamps| - 1] + d <= now
    ensures SpacedBy(stamps + [now], d)
  {
    var all := stamps + [now];
    forall i, j | 0 <= i <= j < |all|
      ensures all[i] + (j - i) * d <= all[j]
    {
      if i < j == |stamps| {
        assert stamps[i] + (j - 1 - i) * d <= stamps[j - 1];
        assert (j - i) * d == (j - 1 - i) * d + d;
      }
    }
  }

  lemma {:induction false} ToDomainAdds(a: seq<Grant>, b: seq<Grant>, domain: string)
    ensures ToDomain(a + b, domain) == ToDomain(a, domain) + ToDomain(b, domain)
  {
    if b == [] {
      assert a + b == a && ToDomain(a, domain) + [] == ToDomain(a, domain);
    } else {
      var n := |b| - 1;
      ToDomainAdds(a, b[..n], domain);
      assert (a + b)[..|a + b| - 1] == a + b[..n];
    }
  }

  lemma AccessesAdd(s: Shared, t: Shared, u: Shared, domain: string)
    requires s.grants <= t.grants <= u.grants
    ensures NewGrants(s, u, domain) == NewGrants(s, t, domain) + NewGrants(t, u, domain)
    ensures Accesses(s, u, domain) == Accesses(s, t, domain) + Stamps(NewGrants(t, u, domain))
  {
    var n, m := |s.grants|, |t.grants|;
    assert u.grants[n..] == t.grants[n..] + u.grants[m..];
    ToDomainAdds(t.grants[n..], u.grants[m..], domain);
  }

  lemma NoNewGrants(t: Shared, t': Shared, domain: string)
    requires t'.grants == t.grants
    ensures NewGrants(t, t', domain) == []
  {
  }

  lemma OneNewGrant(t: Shared, t': Shared, g: Grant, domain: string)
    requires t'.grants == t.grants + [g]
    ensures NewGrants(t, t', domain) == if g.domain == domain then [g] else []
  {
    assert t'.grants[|t.grants|..] == [g] && [g][..0] == [] && ToDomain([], domain) == [];
    assert ToDomain([g], domain) == if g.domain == domain then [g] else [];
  }

  /** What a step grants to `domain`. */
  lemma StepGrants(t: Shared, step: Step, domain: string)
    requires Enabled(t, step)
    ensures var t', g := Next(t, step), NewGrants(t, Next(t, step), domain);
            && t.grants <= t'.grants
            && if step.Decide? && t.pending[step.thread].call == TryAcquire(domain)
                  && var now := t.pending[step.thread].now; Grants(EntryOr(t.limits, domain, now, t.defaultDelay), now)
               then g == [Grant(domain, t.pending[step.thread].now, t.clock)]
               else g == []
  {
    hide ToDomain, NewGrants;
    var t' := Next(t, step);
    if t'.grants == t.grants {
      NoNewGrants(t, t', domain);
    } else {
      var p := t.pending[step.thread];
      OneNewGrant(t, t', Grant(p.call.domain, p.now, t.clock), domain);
    }
  }

  /** A step that does not set the last access back keeps the next access on time. */
  lemma StepIsOnTime(t: Shared, step: Step, last: nat, domain: string, d: nat)
    requires d > 0 && Enabled(t, step) && !SetsBack(t, step, domain) && OnTime(t, last, domain, d)
    requires d <= t.limits[domain].delay
    ensures var g := NewGrants(t, Next(t, step), domain);
            if g == [] then OnTime(Next(t, step), last, domain, d)
            else last + d <= g[0].stamp && OnTime(Next(t, step), g[0].stamp, domain, d)
  {
    hide NewGrants;
    StepGrants(t, step, domain);
  }

  lemma FirstGrantIsOnTime(t: Shared, step: Step, domain: string, d: nat)
    requires Enabled(t, step)
    ensures var g := NewGrants(t, Next(t, step), domain);
            g != [] ==> OnTime(Next(t, step), g[0].stamp, domain, d)
  {
    hide NewGrants;
    StepGrants(t, step, domain);
  }

  lemma AtMostOneGrant(t: Shared, step: Step, domain: string)
    requires Enabled(t, step)
    ensures var g := NewGrants(t, Next(t, step), domain);
            g == [] || |g| == 1
    ensures SetsBack(t, step, domain) ==> NewGrants(t, Next(t, step), domain) == []
  {
    hide NewGrants;
    StepGrants(t, step, domain);
  }

  lemma StepKeepsSpaced(accesses: seq<nat>, t: Shared, step: Step, domain: string, d: nat)
    requires d > 0 && Enabled(t, step) && Spaced(accesses, t, domain, d)
    requires domain in t.limits ==> d <= t.limits[domain].delay
    requires SetsBack(t, step, domain) && accesses != [] ==> OnTime(Next(t, step), accesses[|accesses| - 1], domain, d)
    ensures Spaced(accesses + Stamps(NewGrants(t, Next(t, step), domain)), Next(t, step), domain, d)
  {
    hide SpacedBy, NewGrants, OnTime, SetsBack, Next, Enabled;
    var g := NewGrants(t, Next(t, step), domain);
    AtMostOneGrant(t, step, domain);
    FirstGrantIsOnTime(t, step, domain, d);
    if accesses != [] {
      OnTimeIsEntered(t, accesses[|accesses| - 1], domain, d);
      if !SetsBack(t, step, domain) {
        StepIsOnTime(t, step, accesses[|accesses| - 1], domain, d);
      }
    }
    if g == [] {
      assert accesses + Stamps(g) == accesses;
    } else {
      assert Stamps(g) == [g[0].stamp];
      SpacedByAppended(accesses, d, g[0].stamp);
    }
  }

  lemma OnTimeIsEntered(t: Shared, last: nat, domain: string, d: nat)
    requires OnTime(t, last, domain, d)
    ensures domain in t.limits
  {
  }

  lemma StartIsSpaced(s: Shared, domain: string, d: nat)
    ensures Spaced(Accesses(s, s, domain), s, domain, d)
  {
    NoNewGrants(s, s, domain);
  }

  lemma {:induction false} RunKeepsSpacing(s: Shared, steps: seq<Step>, domain: string, d: nat)
    requires d > 0 && IsRun(s, steps) && InForce(s, steps, domain, d)
    ensures s.grants <= Final(s, steps).grants
    ensures Spaced(Accesses(s, Final(s, steps), domain), Final(s, steps), domain, d)
  {
    hide Spaced, Accesses, NewGrants, SetsBack, OnTime, Enabled, Next;
    if steps == [] {
      StartIsSpaced(s, domain, d);
    } else {
      var n := |steps| - 1;
      var t := Final(s, steps[..n]);
      RunKeepsSpacing(s, steps[..n], domain, d);
      StepGrants(t, steps[n], domain);
      AccessesAdd(s, t, Final(s, steps), domain);
      StepKeepsSpaced(Accesses(s, t, domain), t, steps[n], domain, d);
    }
  }

  /**
   However the clock readings and decisions of any number of threads interleave, from any state:
   as long as the delay in force is at least d > 0 and no wait sets the last access back while it
   matters, n grants span at least (n - 1) * d, and the first comes no less than d after the access
   last recorded.
   */
  lemma SpacingUnderRaces(s: Shared, steps: seq<Step>, domain: string, d: nat)
    requires d > 0 && IsRun(s, steps) && InForce(s, steps, domain, d)
    ensures SpacedBy(Accesses(s, Final(s, steps), domain), d)
  {
    RunKeepsSpacing(s, steps, domain, d);
  }

  // ----- When setting back does harm -----

  /** One more step of a run that has come to the state `u`. */
  lemma OneMoreInForce(t: Shared, steps: seq<Step>, u: Shared, step: Step, domain: string, d: nat)
    returns (steps': seq<Step>, u': Shared)
    requires IsRun(t, steps) && Final(t, steps) == u && InForce(t, steps, domain, d)
    requires Enabled(u, step) && !SetsBack(u, step, domain)
    requires domain in Next(u, step).limits ==> d <= Next(u, step).limits[domain].delay
    ensures IsRun(t, steps') && Final(t, steps') == u' == Next(u, step) && InForce(t, steps', domain, d)
  {
    hide Enabled, Next, SetsBack, Accesses, OnTime;
    steps', u' := Then(t, steps, u, step);
    assert steps'[..|steps|] == steps;
  }

  lemma {:induction false} SomeBound(s: set<nat>) returns (b: nat)
    ensures forall x :: x in s ==> x < b
  {
    b := 0;
    if s != {} {
      var x :| x in s;
      var c := SomeBound(s - {x});
      assert forall y :: y in s ==> y == x || y in s - {x};
      b := if c <= x then x + 1 else c;
    }
  }

  /** The delay can come down to `d` at any time. */
  lemma DelayComesDown(t: Shared, domain: string, d: nat)
    returns (thread: nat, steps: seq<Step>, u: Shared)
    requires domain in t.limits && d <= t.limits[domain].delay
    ensures thread !in t.pending
    ensures IsRun(t, steps) && Final(t, steps) == u && InForce(t, steps, domain, d)
    ensures u.limits == t.limits[domain := t.limits[domain].(delay := d)]
    ensures u.pending == t.pending && u.clock == t.clock && u.grants == t.grants && u.defaultDelay == t.defaultDelay
  {
    hide IsRun, Final, InForce;
    thread := SomeBound(t.pending.Keys);
    assert IsRun(t, []) && Final(t, []) == t && InForce(t, [], domain, d) by { EmptyRunIsInForce(t, domain, d); }
    steps, u := OneMoreInForce(t, [], t, ReadClock(thread, UpdateDelay(domain, d)), domain, d);
    steps, u := OneMoreInForce(t, steps, u, Decide(thread), domain, d);
    assert u.pending == t.pending;
  }

  lemma EmptyRunIsInForce(t: Shared, domain: string, d: nat)
    requires domain in t.limits && d <= t.limits[domain].delay
    ensures IsRun(t, []) && Final(t, []) == t && InForce(t, [], domain, d)
  {
  }

  /** A state that is not on time has a run in force that ends in a grant less than `d` after `last`. */
  lemma LateGrant(t: Shared, last: nat, domain: string, d: nat) returns (steps: seq<Step>)
    requires d > 0 && domain in t.limits && d <= t.limits[domain].delay && !OnTime(t, last, domain, d)
    ensures IsRun(t, steps) && InForce(t, steps, domain, d)
    ensures exists g :: g in NewGrants(t, Final(t, steps), domain) && g.stamp < last + d
  {
    hide IsRun, Final, InForce, NewGrants;
    var recorded := t.limits[domain].lastAccessed;
    var thread, u;
    thread, steps, u := DelayComesDown(t, domain, d);
    if last + d <= t.clock {
      thread :| thread in t.pending && t.pending[thread].call == TryAcquire(domain)
                && recorded + d <= t.pending[thread].now < last + d;
    } else {
      var wait := if recorded + d <= t.clock then 0 else recorded + d - t.clock;
      steps, u := OneMoreInForce(t, steps, u, Tick(wait), domain, d);
      steps, u := OneMoreInForce(t, steps, u, ReadClock(thread, TryAcquire(domain)), domain, d);
    }
    var now := u.pending[thread].now;
    assert u.grants == t.grants && u.pending[thread] == Pending(TryAcquire(domain), now)
           && recorded + d <= now < last + d;
    StepGrants(u, Decide(thread), domain);
    SameGrantsSameNew(t, u, Next(u, Decide(thread)), domain);
    steps, u := OneMoreInForce(t, steps, u, Decide(thread), domain, d);
  }

  lemma SameGrantsSameNew(s: Shared, t: Shared, u: Shared, domain: string)
    requires s.grants == t.grants
    ensures NewGrants(s, u, domain) == NewGrants(t, u, domain)
  {
  }

  /** No run from `t`, as long as it is in force, grants `domain` a request with a reading before `from`. */
  ghost predicate NoGrantBefore(t: Shared, from: nat, domain: string, d: nat) {
    forall steps, g ::
      IsRun(t, steps) && InForce(t, steps, domain, d) && g in NewGrants(t, Final(t, steps), domain) ==> from <= g.stamp
  }

  /** A state is on time exactly if no run in force from it makes a grant less than `d` after `last`. */
  lemma OnTimeExactly(t: Shared, last: nat, domain: string, d: nat)
    requires d > 0 && domain in t.limits && d <= t.limits[domain].delay
    ensures OnTime(t, last, domain, d) <==> NoGrantBefore(t, last + d, domain, d)
  {
    hide OnTime, IsRun, Final, InForce, NewGrants;
    if OnTime(t, last, domain, d) {
      forall steps, g | IsRun(t, steps) && InForce(t, steps, domain, d) && g in NewGrants(t, Final(t, steps), domain)
        ensures last + d <= g.stamp
      {
        GrantsAreOnTime(t, last, steps, g, domain, d);
      }
    } else {
      var steps := LateGrant(t, last, domain, d);
    }
  }

  /** The clock has passed `to`, and no reading under way and no new grant for `domain` lies between `from` and `to`. */
  predicate NoneBetween(s: Shared, t: Shared, from: nat, to: nat, domain: string) {
    && s.grants <= t.grants && to <= t.clock
    && (forall i :: i in t.pending && t.pending[i].call == TryAcquire(domain) ==>
                      t.pending[i].now < from || to <= t.pending[i].now)
    && (forall g :: g in NewGrants(s, t, domain) ==> g.stamp < from || to <= g.stamp)
  }

  lemma StepKeepsNoneBetween(s: Shared, t: Shared, step: Step, from: nat, to: nat, domain: string)
    requires NoneBetween(s, t, from, to, domain) && Enabled(t, step)
    ensures NoneBetween(s, Next(t, step), from, to, domain)
  {
    hide NewGrants;
    StepGrants(t, step, domain);
    AccessesAdd(s, t, Next(t, step), domain);
  }

  lemma {:induction false} RunKeepsNoneBetween(s: Shared, steps: seq<Step>, from: nat, to: nat, domain: string)
    requires IsRun(s, steps) && NoneBetween(s, s, from, to, domain)
    ensures NoneBetween(s, Final(s, steps), from, to, domain)
  {
    hide NoneBetween, Enabled, Next;
    if steps != [] {
      var n := |steps| - 1;
      RunKeepsNoneBetween(s, steps[..n], from, to, domain);
      StepKeepsNoneBetween(s, Final(s, steps[..n]), steps[n], from, to, domain);
    }
  }

  /** All grants of a run in force come at least `d` after the access recorded at its start. */
  lemma GrantsAfterRecorded(t: Shared, steps: seq<Step>, g: Grant, domain: string, d: nat)
    requires d > 0 && domain in t.limits && IsRun(t, steps) && InForce(t, steps, domain, d)
    requires g in NewGrants(t, Final(t, steps), domain)
    ensures t.limits[domain].lastAccessed + d <= g.stamp
  {
    hide IsRun, Final, InForce, NewGrants;
    SpacingUnderRaces(t, steps, domain, d);
    var grants, all := NewGrants(t, Final(t, steps), domain), Accesses(t, Final(t, steps), domain);
    var i :| 0 <= i < |grants| && grants[i] == g;
    assert all[0] == t.limits[domain].lastAccessed && all[i + 1] == g.stamp;
    assert all[0] + ((i + 1) - 0) * d <= all[i + 1];
    assert (i + 1) * d == i * d + d;
  }

  lemma GrantsAreOnTime(t: Shared, last: nat, steps: seq<Step>, g: Grant, domain: string, d: nat)
    requires d > 0 && OnTime(t, last, domain, d) && IsRun(t, steps) && InForce(t, steps, domain, d)
    requires g in NewGrants(t, Final(t, steps), domain)
    ensures last + d <= g.stamp
  {
    hide IsRun, Final, InForce, NewGrants;
    var recorded := t.limits[domain].lastAccessed;
    GrantsAfterRecorded(t, steps, g, domain, d);
    if recorded < last {
      NoNewGrants(t, t, domain);
      RunKeepsNoneBetween(t, steps, recorded + d, last + d, domain);
    }
  }

  /**
   When a wait sets the last access back from L to r, all grants of runs in force from then on are
   still at least d after L exactly if the clock has passed L + d already and no request under way carries a reading
   from r + d on but before L + d.
   */
  lemma SetBackExactly(t: Shared, w: nat, domain: string, d: nat)
    requires d > 0 && Enabled(t, Decide(w)) && SetsBack(t, Decide(w), domain) && d <= t.limits[domain].delay
    ensures var last, r := t.limits[domain].lastAccessed, t.pending[w].now;
            NoGrantBefore(Next(t, Decide(w)), last + d, domain, d) <==>
            && last + d <= t.clock
            && forall i :: i in t.pending && t.pending[i].call == TryAcquire(domain) ==>
                             !(r + d <= t.pending[i].now < last + d)
  {
    hide NoGrantBefore;
    var last, t' := t.limits[domain].lastAccessed, Next(t, Decide(w));
    OnTimeExactly(t', last, domain, d);
    assert forall i :: i in t.pending && t.pending[i].call == TryAcquire(domain) ==> i in t'.pending;
  }

  /** Every run from `t`, as long as it is in force, keeps the accesses since `s` spaced. */
  ghost predicate StaysSpaced(s: Shared, t: Shared, domain: string, d: nat) {
    forall more :: IsRun(t, more) && InForce(t, more, domain, d) ==>
      SpacedBy(Accesses(s, t, domain) + Stamps(NewGrants(t, Final(t, more), domain)), d)
  }

  ghost predicate AlwaysStaysSpaced(s: Shared, steps: seq<Step>, domain: string, d: nat)
    requires IsRun(s, steps)
    decreases |steps|
  {
    && StaysSpaced(s, Final(s, steps), domain, d)
    && (steps == [] || AlwaysStaysSpaced(s, steps[..|steps| - 1], domain, d))
  }

  lemma SpacedTogether(a: seq<nat>, b: seq<nat>, d: nat)
    requires SpacedBy(a, d) && SpacedBy(b, d) && (a != [] && b != [] ==> a[|a| - 1] + d <= b[0])
    ensures SpacedBy(a + b, d)
  {
    var all := a + b;
    forall i, j | 0 <= i <= j < |all|
      ensures all[i] + (j - i) * d <= all[j]
    {
      if i < |a| <= j {
        var k := |a| - 1;
        assert a[i] + (k - i) * d <= a[k] && b[0] + (j - |a| - 0) * d <= b[j - |a|];
        assert (j - i) * d == (k - i) * d + d + (j - |a|) * d;
      } else if |a| <= i {
        assert b[i - |a|] + ((j - |a|) - (i - |a|)) * d <= b[j - |a|];
        assert (j - |a|) - (i - |a|) == j - i;
      }
    }
  }

  lemma SpacedAlone(t: Shared, steps: seq<Step>, domain: string, d: nat)
    requires d > 0 && IsRun(t, steps) && InForce(t, steps, domain, d)
    ensures SpacedBy(Stamps(NewGrants(t, Final(t, steps), domain)), d)
  {
    hide IsRun, Final, InForce, NewGrants;
    SpacingUnderRaces(t, steps, domain, d);
    var stamps, all := Stamps(NewGrants(t, Final(t, steps), domain)), Accesses(t, Final(t, steps), domain);
    var past := |all| - |stamps|;
    forall i, j | 0 <= i <= j < |stamps|
      ensures stamps[i] + (j - i) * d <= stamps[j]
    {
      assert all[past + i] == stamps[i] && all[past + j] == stamps[j];
      assert (past + j) - (past + i) == j - i;
      assert all[past + i] + ((past + j) - (past + i)) * d <= all[past + j];
    }
  }

  lemma SpacedStaysSpaced(s: Shared, t: Shared, domain: string, d: nat)
    requires d > 0 && Spaced(Accesses(s, t, domain), t, domain, d)
    ensures StaysSpaced(s, t, domain, d)
  {
    hide IsRun, Final, InForce, NewGrants, Accesses, OnTime, SpacedBy;
    var before := Accesses(s, t, domain);
    forall more | IsRun(t, more) && InForce(t, more, domain, d)
      ensures SpacedBy(before + Stamps(NewGrants(t, Final(t, more), domain)), d)
    {
      var grants := NewGrants(t, Final(t, more), domain);
      SpacedAlone(t, more, domain, d);
      if before != [] && grants != [] {
        GrantsAreOnTime(t, before[|before| - 1], more, grants[0], domain, d);
      }
      SpacedTogether(before, Stamps(grants), d);
    }
  }

  /** The other way round: if the accesses stay spaced, the next one is on time. */
  lemma StaysSpacedIsOnTime(s: Shared, t: Shared, domain: string, d: nat)
    requires d > 0 && StaysSpaced(s, t, domain, d) && Accesses(s, t, domain) != []
    requires domain in t.limits && d <= t.limits[domain].delay
    ensures var accesses := Accesses(s, t, domain);
            OnTime(t, accesses[|accesses| - 1], domain, d)
  {
    hide IsRun, Final, InForce, NewGrants, Accesses, OnTime;
    var accesses := Accesses(s, t, domain);
    var last := accesses[|accesses| - 1];
    if !OnTime(t, last, domain, d) {
      var steps := LateGrant(t, last, domain, d);
      EarlyIsNotSpaced(accesses, NewGrants(t, Final(t, steps), domain), d);
    }
  }

  lemma EarlyIsNotSpaced(accesses: seq<nat>, grants: seq<Grant>, d: nat)
    requires accesses != [] && exists g :: g in grants && g.stamp < accesses[|accesses| - 1] + d
    ensures !SpacedBy(accesses + Stamps(grants), d)
  {
    var k, all := |accesses| - 1, accesses + Stamps(grants);
    var i :| 0 <= i < |grants| && grants[i].stamp < accesses[k] + d;
    assert all[k] == accesses[k] && all[k + 1 + i] == grants[i].stamp;
    assert ((k + 1 + i) - k) * d == i * d + d;
    assert all[k] + ((k + 1 + i) - k) * d > all[k + 1 + i];
  }

  /**
   The condition is exact: a run that keeps the delay is in force if and only if, from each of its states,
   every run, as long as it is in force, keeps the accesses spaced.
   */
  lemma {:induction false} SpacedExactly(s: Shared, steps: seq<Step>, domain: string, d: nat)
    requires d > 0 && IsRun(s, steps) && DelayKept(s, steps, domain, d)
    ensures InForce(s, steps, domain, d) <==> AlwaysStaysSpaced(s, steps, domain, d)
  {
    hide Spaced, StaysSpaced, Accesses, NewGrants, OnTime, Enabled, Next, SetsBack;
    if InForce(s, steps, domain, d) {
      RunKeepsSpacing(s, steps, domain, d);
      SpacedStaysSpaced(s, Final(s, steps), domain, d);
    }
    if steps != [] {
      var n := |steps| - 1;
      SpacedExactly(s, steps[..n], domain, d);
      var t, t' := Final(s, steps[..n]), Final(s, steps);
      if InForce(s, steps[..n], domain, d) && IsLate(s, t, steps[n], domain, d) {
        RunKeepsSpacing(s, steps[..n], domain, d);
        StepGrants(t, steps[n], domain);
        AtMostOneGrant(t, steps[n], domain);
        AccessesAdd(s, t, t', domain);
        assert Accesses(s, t, domain) + Stamps([]) == Accesses(s, t, domain);
        SetBackIsEntered(t, steps[n], domain);
        if StaysSpaced(s, t', domain, d) {
          StaysSpacedIsOnTime(s, t', domain, d);
        }
      }
    }
  }

  lemma SetBackIsEntered(t: Shared, step: Step, domain: string)
    requires Enabled(t, step) && SetsBack(t, step, domain)
    ensures domain in Next(t, step).limits
  {
  }

  // ----- Conditions on the calls alone -----

  /** The call puts no delay below `d` in force for `domain`, and does not wait for it. */
  predicate CallKeeps(call: Call, domain: string, d: nat) {
    call.domain == domain ==> !call.AwaitAcquiring? && (call.UpdateDelay? ==> d <= call.newDelay)
  }

  predicate CallsKeep(steps: seq<Step>, domain: string, d: nat) {
    forall i :: 0 <= i < |steps| && steps[i].ReadClock? ==> CallKeeps(steps[i].call, domain, d)
  }

  /** The domain's delay, or else the default one, is at least `d`, and the calls under way keep it so. */
  predicate Guarded(s: Shared, domain: string, d: nat) {
    && (if domain in s.limits then d <= s.limits[domain].delay else d <= s.defaultDelay)
    && forall t :: t in s.pending ==> CallKeeps(s.pending[t].call, domain, d)
  }

  lemma StepKeepsGuard(s: Shared, step: Step, domain: string, d: nat)
    requires Guarded(s, domain, d) && Enabled(s, step)
    requires step.ReadClock? ==> CallKeeps(step.call, domain, d)
    ensures Guarded(Next(s, step), domain, d) && !SetsBack(s, step, domain)
  {
  }

  /** From a state in which the domain's delay is at least `d`, calls that keep it so keep it in force. */
  lemma {:induction false} GuardedIsInForce(s: Shared, steps: seq<Step>, domain: string, d: nat)
    requires Guarded(s, domain, d) && IsRun(s, steps) && CallsKeep(steps, domain, d)
    ensures Guarded(Final(s, steps), domain, d) && InForce(s, steps, domain, d)
  {
    hide CallKeeps, Enabled, Next, SetsBack, Accesses, OnTime;
    if steps != [] {
      var n := |steps| - 1;
      GuardedIsInForce(s, steps[..n], domain, d);
      StepKeepsGuard(Final(s, steps[..n]), steps[n], domain, d);
    }
  }

  /** So a domain whose crawl delay is at least d, or a new one if the default delay is, is spaced by d. */
  lemma GuardedIsSpaced(s: Shared, steps: seq<Step>, domain: string, d: nat)
    requires d > 0 && Guarded(s, domain, d) && IsRun(s, steps) && CallsKeep(steps, domain, d)
    ensures SpacedBy(Accesses(s, Final(s, steps), domain), d)
  {
    GuardedIsInForce(s, steps, domain, d);
    SpacingUnderRaces(s, steps, domain, d);
  }

  // ----- The moments of granting -----

  /** Every reading under way is one that the clock has shown, and so is that of every new grant to `domain`. */
  predicate NoneEarly(s: Shared, t: Shared, domain: string) {
    && s.grants <= t.grants
    && (forall i :: i in t.pending ==> t.pending[i].now <= t.clock)
    && forall g :: g in NewGrants(s, t, domain) ==> g.stamp <= g.decidedAt
  }

  lemma StepKeepsNoneEarly(s: Shared, t: Shared, step: Step, domain: string)
    requires NoneEarly(s, t, domain) && Enabled(t, step)
    ensures NoneEarly(s, Next(t, step), domain)
  {
    hide NewGrants;
    StepGrants(t, step, domain);
    AccessesAdd(s, t, Next(t, step), domain);
  }

  lemma {:induction false} RunKeepsNoneEarly(s: Shared, steps: seq<Step>, domain: string)
    requires IsRun(s, steps) && forall i :: i in s.pending ==> s.pending[i].now <= s.clock
    ensures NoneEarly(s, Final(s, steps), domain)
  {
    hide NoneEarly, Enabled, Next;
    if steps == [] {
      NoneEarlyAtStart(s, domain);
    } else {
      var n := |steps| - 1;
      RunKeepsNoneEarly(s, steps[..n], domain);
      StepKeepsNoneEarly(s, Final(s, steps[..n]), steps[n], domain);
    }
  }

  lemma NoneEarlyAtStart(s: Shared, domain: string)
    requires forall i :: i in s.pending ==> s.pending[i].now <= s.clock
    ensures NoneEarly(s, s, domain)
  {
    assert s.grants[|s.grants|..] == [];
  }

  /**
   The moments at which n grants are decided span at least (n - 1) * d less the lag of the first of
   them, which is the time between its clock reading and its decision.
   */
  lemma DecisionsSpacedUpToLag(s: Shared, steps: seq<Step>, domain: string, d: nat, i: nat, j: nat)
    requires d > 0 && IsRun(s, steps) && InForce(s, steps, domain, d)
    requires forall t :: t in s.pending ==> s.pending[t].now <= s.clock
    requires i <= j < |NewGrants(s, Final(s, steps), domain)|
    ensures var g := NewGrants(s, Final(s, steps), domain);
            var lag := g[i].decidedAt - g[i].stamp;
            lag >= 0 && g[i].decidedAt + (j - i) * d <= g[j].decidedAt + lag
  {
    hide IsRun, Final, InForce, NewGrants;
    var t := Final(s, steps);
    SpacingUnderRaces(s, steps, domain, d);
    RunKeepsNoneEarly(s, steps, domain);
    var g, all := NewGrants(s, t, domain), Accesses(s, t, domain);
    assert g[i] in g && g[j] in g;
    var past := |all| - |g|;
    assert all[past + i] == g[i].stamp && all[past + j] == g[j].stamp;
    assert (past + j) - (past + i) == j - i;
    assert all[past + i] + ((past + j) - (past + i)) * d <= all[past + j];
  }

  // ----- Windows -----

  function CountWithin(stamps: seq<nat>, from: nat, length: nat): nat {
    if stamps == [] then 0
    else
      var t := stamps[|stamps| - 1];
      CountWithin(stamps[..|stamps| - 1], from, length) + if from <= t <= from + length then 1 else 0
  }

  lemma {:induction false} CountExactly(stamps: seq<nat>, from: nat, length: nat)
    ensures CountWithin(stamps, from, length) == |set i | 0 <= i < |stamps| && from <= stamps[i] <= from + length|
  {
    if stamps != [] {
      var n := |stamps| - 1;
      CountExactly(stamps[..n], from, length);
      var before := set i | 0 <= i < n && from <= stamps[..n][i] <= from + length;
      var all := set i | 0 <= i < |stamps| && from <= stamps[i] <= from + length;
      assert all == before + if from <= stamps[n] <= from + length then {n} else {};
    }
  }

  /** The last of c readings inside a window has left at least (c - 1) * d of it behind. */
  lemma {:induction false} CountReaches(stamps: seq<nat>, from: nat, length: nat, d: nat)
    requires SpacedBy(stamps, d)
    ensures var c := CountWithin(stamps, from, length);
            c > 0 ==> from + (c - 1) * d <= stamps[|stamps| - 1] && (c - 1) * d <= length
  {
    hide SpacedBy;
    if |stamps| > 1 {
      var n := |stamps| - 1;
      SpacedByPrefix(stamps, d);
      CountReaches(stamps[..n], from, length, d);
      var c := CountWithin(stamps[..n], from, length);
      if c > 0 {
        assert c * d == (c - 1) * d + d;
      }
    }
  }

  lemma SpacedByPrefix(stamps: seq<nat>, d: nat)
    requires |stamps| > 1 && SpacedBy(stamps, d)
    ensures var n := |stamps| - 1;
            SpacedBy(stamps[..n], d) && stamps[n - 1] + d <= stamps[n]
  {
    var n := |stamps| - 1;
    assert forall i, j :: 0 <= i <= j < n ==> stamps[..n][i] == stamps[i] && stamps[..n][j] == stamps[j];
    assert stamps[n - 1] + (n - (n - 1)) * d <= stamps[n];
  }

  /** A window of length w holds at most w / d + 1 grants. */
  lemma WindowHoldsFew(stamps: seq<nat>, from: nat, length: nat, d: nat)
    requires 0 < d && SpacedBy(stamps, d)
    ensures CountWithin(stamps, from, length) <= length / d + 1
  {
    CountReaches(stamps, from, length, d);
    var c := CountWithin(stamps, from, length);
    if c > 0 {
      FactorBelowQuotient(c - 1, d, length);
    }
  }

  /** Any window of time holds few of the readings, under the conditions of `SpacingUnderRaces` ... */
  lemma GrantsInAWindow(s: Shared, steps: seq<Step>, domain: string, d: nat, from: nat, length: nat)
    requires d > 0 && IsRun(s, steps) && InForce(s, steps, domain, d)
    ensures CountWithin(Accesses(s, Final(s, steps), domain), from, length) <= length / d + 1
  {
    SpacingUnderRaces(s, steps, domain, d);
    WindowHoldsFew(Accesses(s, Final(s, steps), domain), from, length, d);
  }

  /** ... and so, for a new limiter, of a run whose calls allow no delay below d. */
  lemma GrantsOfANewLimiter(defaultDelay: nat, clock: nat, steps: seq<Step>, domain: string, d: nat, from: nat,
                            length: nat)
    requires 0 < d <= defaultDelay
    requires IsRun(Fresh(defaultDelay, clock), steps) && CallsKeep(steps, domain, d)
    ensures var stamps := Stamps(ToDomain(Final(Fresh(defaultDelay, clock), steps).grants, domain));
            SpacedBy(stamps, d) && CountWithin(stamps, from, length) <= length / d + 1
  {
    var s := Fresh(defaultDelay, clock);
    var t := Final(s, steps);
    GuardedIsSpaced(s, steps, domain, d);
    assert t.grants[0..] == t.grants;
    assert Accesses(s, t, domain) == Stamps(ToDomain(t.grants, domain));
    WindowHoldsFew(Stamps(ToDomain(t.grants, domain)), from, length, d);
  }

  // ----- What is not promised -----

  lemma {:induction false} AllToDomain(grants: seq<Grant>, domain: string)
    requires forall g :: g in grants ==> g.domain == domain
    ensures ToDomain(grants, domain) == grants
  {
    if grants != [] {
      AllToDomain(grants[..|grants| - 1], domain);
    }
  }

  /** The bound on the moments is met: two grants with readings a full delay apart may be decided at the same moment. */
  lemma SpacedGrantsMayBeSimultaneous(domain: string) returns (steps: seq<Step>)
    ensures IsRun(Fresh(10, 10), steps) && CallsKeep(steps, domain, 10)
    ensures ToDomain(Final(Fresh(10, 10), steps).grants, domain) == [Grant(domain, 10, 20), Grant(domain, 20, 20)]
  {
    hide IsRun, Final, CallsKeep, ToDomain;
    var t;
    steps, t := TwoReadThenDecide(10, 10, 10, 1, 2, domain);
    AllToDomain(t.grants, domain);
  }

  /**
   The requests of two threads: the first is read at `clock`, the second `wait` later, and then they are
   decided, the one of thread `a` before that of `b`.
   */
  lemma TwoReadThenDecide(delay: nat, clock: nat, wait: nat, a: nat, b: nat, domain: string)
    returns (steps: seq<Step>, t: Shared)
    requires {a, b} == {1, 2} && delay <= clock
    ensures IsRun(Fresh(delay, clock), steps) && Final(Fresh(delay, clock), steps) == t
    ensures CallsKeep(steps, domain, delay)
    ensures var first, second := Grant(domain, clock, clock + wait), Grant(domain, clock + wait, clock + wait);
            t.grants == if a == 1 then [first] + (if delay <= wait then [second] else [])
                        else [second] + (if delay == 0 then [first] else [])
  {
    hide IsRun, Final;
    var s, call := Fresh(delay, clock), TryAcquire(domain);
    var one, two := Pending(call, clock), Pending(call, clock + wait);
    NoStepsYet(s);
    steps, t := Then(s, [], s, ReadClock(1, call));
    steps, t := Then(s, steps, t, Tick(wait));
    steps, t := Then(s, steps, t, ReadClock(2, call));
    assert t == Shared(map[], delay, clock + wait, map[1 := one, 2 := two], []);
    steps, t := Then(s, steps, t, Decide(a));
    assert t.pending == map[b := if b == 1 then one else two];
    steps, t := Then(s, steps, t, Decide(b));
  }

  /** With a delay of zero, as for a host without a crawl delay, grants are not even in the order of their readings. */
  lemma ZeroDelayIsNotSpaced(clock: nat, domain: string) returns (steps: seq<Step>)
    ensures IsRun(Fresh(0, clock), steps) && CallsKeep(steps, domain, 0)
    ensures var stamps := Stamps(ToDomain(Final(Fresh(0, clock), steps).grants, domain));
            stamps == [clock + 1, clock] && !SpacedBy(stamps, 0)
  {
    hide IsRun, Final, CallsKeep, ToDomain, SpacedBy;
    var t;
    steps, t := TwoReadThenDecide(0, clock, 1, 2, 1, domain);
    AllToDomain(t.grants, domain);
    OutOfOrderIsNotSpaced([clock + 1, clock], 0);
  }

  lemma OutOfOrderIsNotSpaced(stamps: seq<nat>, d: nat)
    requires |stamps| == 2 && stamps[1] < stamps[0]
    ensures !SpacedBy(stamps, d)
  {
    assert stamps[0] + (1 - 0) * d > stamps[1];
  }

  /** So a new limiter with the default delay d spaces all runs whose calls keep d exactly if d is not zero. */
  lemma NewLimiterSpacesExactly(d: nat, clock: nat, domain: string)
    ensures d > 0 <==>
            forall steps :: IsRun(Fresh(d, clock), steps) && CallsKeep(steps, domain, d) ==>
                              SpacedBy(Stamps(ToDomain(Final(Fresh(d, clock), steps).grants, domain)), d)
  {
    hide IsRun, Final, CallsKeep, SpacedBy, ToDomain;
    if d > 0 {
      forall steps | IsRun(Fresh(d, clock), steps) && CallsKeep(steps, domain, d)
        ensures SpacedBy(Stamps(ToDomain(Final(Fresh(d, clock), steps).grants, domain)), d)
      {
        GrantsOfANewLimiter(d, clock, steps, domain, d, 0, 0);
      }
    } else {
      var steps := ZeroDelayIsNotSpaced(clock, domain);
    }
  }

  /** The first worker is granted and waits with a reading of 20, and meanwhile the second is granted. */
  lemma WaitIsOvertaken(domain: string) returns (steps: seq<Step>, t: Shared)
    ensures IsRun(Fresh(10, 15), steps) && Final(Fresh(10, 15), steps) == t
            && DelayKept(Fresh(10, 15), steps, domain, 10)
    ensures t == Shared(map[domain := DomainState(10, 25)], 10, 25, map[1 := Pending(AwaitAcquiring(domain), 20)],
                        [Grant(domain, 15, 15), Grant(domain, 25, 25)])
  {
    hide IsRun, Final, DelayKept;
    var s, try, g := Fresh(10, 15), TryAcquire(domain), Grant(domain, 15, 15);
    EmptyRunKeepsDelay(s, domain, 10);
    steps, t := OneMoreKept(s, [], s, ReadClock(1, try), domain, 10);
    steps, t := OneMoreKept(s, steps, t, Decide(1), domain, 10);
    assert t == Shared(map[domain := DomainState(10, 15)], 10, 15, map[], [g]);
    steps, t := OneMoreKept(s, steps, t, Tick(5), domain, 10);
    steps, t := OneMoreKept(s, steps, t, ReadClock(1, AwaitAcquiring(domain)), domain, 10);
    steps, t := OneMoreKept(s, steps, t, Tick(5), domain, 10);
    assert t == Shared(map[domain := DomainState(10, 15)], 10, 25, map[1 := Pending(AwaitAcquiring(domain), 20)], [g]);
    steps, t := OneMoreKept(s, steps, t, ReadClock(2, try), domain, 10);
    steps, t := OneMoreKept(s, steps, t, Decide(2), domain, 10);
    assert t.pending == map[1 := Pending(AwaitAcquiring(domain), 20)];
  }

  /**
   A set-back as workers bring it about, with a delay of ten: the first is granted at 15 and waits with a
   reading of 20, the second is granted at 25, the wait ends, and the second is granted again at 30.
   */
  lemma WaitSetsBack(domain: string) returns (steps: seq<Step>)
    ensures IsRun(Fresh(10, 15), steps) && DelayKept(Fresh(10, 15), steps, domain, 10)
    ensures Stamps(ToDomain(Final(Fresh(10, 15), steps).grants, domain)) == [15, 25, 30]
  {
    hide IsRun, Final, DelayKept;
    var s := Fresh(10, 15);
    var g, h, k := Grant(domain, 15, 15), Grant(domain, 25, 25), Grant(domain, 30, 30);
    var t;
    steps, t := WaitIsOvertaken(domain);
    steps, t := OneMoreKept(s, steps, t, Decide(1), domain, 10);
    assert t == Shared(map[domain := DomainState(10, 20)], 10, 25, map[], [g, h]);
    steps, t := OneMoreKept(s, steps, t, Tick(5), domain, 10);
    steps, t := OneMoreKept(s, steps, t, ReadClock(2, TryAcquire(domain)), domain, 10);
    steps, t := OneMoreKept(s, steps, t, Decide(2), domain, 10);
    assert t.grants == [g, h, k];
    AllToDomain(t.grants, domain);
  }

  lemma EmptyRunKeepsDelay(s: Shared, domain: string, d: nat)
    requires domain !in s.limits
    ensures IsRun(s, []) && Final(s, []) == s && DelayKept(s, [], domain, d)
  {
  }

  lemma OneMoreKept(s: Shared, steps: seq<Step>, t: Shared, step: Step, domain: string, d: nat)
    returns (steps': seq<Step>, t': Shared)
    requires IsRun(s, steps) && Final(s, steps) == t && DelayKept(s, steps, domain, d) && Enabled(t, step)
    requires domain in Next(t, step).limits ==> d <= Next(t, step).limits[domain].delay
    ensures IsRun(s, steps') && Final(s, steps') == t' == Next(t, step) && DelayKept(s, steps', domain, d)
  {
    hide Enabled, Next;
    steps', t' := Then(s, steps, t, step);
    assert steps'[..|steps|] == steps;
  }

  /** One more step of a run that has come to the state `t`. */
  lemma Then(s: Shared, steps: seq<Step>, t: Shared, step: Step) returns (steps': seq<Step>, t': Shared)
    requires IsRun(s, steps) && Final(s, steps) == t && Enabled(t, step)
    ensures steps' == steps + [step]
    ensures IsRun(s, steps') && Final(s, steps') == t' == Next(t, step)
  {
    hide Enabled, Next;
    steps', t' := steps + [step], Next(t, step);
    assert steps'[..|steps|] == steps;
  }

  lemma NoStepsYet(s: Shared)
    ensures IsRun(s, []) && Final(s, []) == s
  {
  }
}

/**
 How a crawl ends: it does a bounded amount of work, workers stop soon after
 shutdown, and a run that ends by itself leaves nothing behind.
 */
module CrawlEnding {
  import opened Wrappers
  import opened Multiples
  import opened CrawlProtocol
  import opened CrawlCounting

  // ----- Bounded work -----

  /** The step brings in only URLs from `universe`. */
  predicate StaysInside(step: Step, universe: set<Url>) {
    match step
    case Work(_, FetchOk(links)) => forall u :: u in links ==> u in universe
    case StorageInsert(u, _) => u in universe
    case _ => true
  }

  predicate AllStayInside(steps: seq<Step>, universe: set<Url>) {
    forall i :: 0 <= i < |steps| ==> StaysInside(steps[i], universe)
  }

  /** Everything in the system comes from `universe`, and page counts are backed by calls. */
  ghost predicate Inside(s: State, universe: set<Url>) {
    && (forall u :: Occurrences(u, s) > 0 ==> u in universe)
    && (forall w :: 0 <= w < |s.workers| ==> LinksInside(s.workers[w], universe))
    && s.pages + Total(Uncounted, s.workers) <= |s.calls|
  }

  predicate LinksInside(pc: Pc, universe: set<Url>) {
    pc.Filtering? ==> NoRepeats(pc.links) && forall u :: u in pc.links ==> u in universe
  }

  lemma MoveKeepsLinksInside(s: State, w: nat, move: Move, universe: set<Url>)
    requires CanMove(s, w, move) && StaysInside(Work(w, move), universe) && LinksInside(s.workers[w], universe)
    ensures LinksInside(Moved(s, w, move).workers[w], universe)
    ensures forall u :: Admits(s, Work(w, move), u) ==> u in universe
  {
  }

  lemma MoveKeepsPagesBacked(s: State, w: nat, move: Move)
    requires CanMove(s, w, move)
    ensures var t := Moved(s, w, move);
            s.pages + Total(Uncounted, s.workers) <= |s.calls| ==> t.pages + Total(Uncounted, t.workers) <= |t.calls|
  {
    hide Total, TimesIn, FetchAdd, AllDropped, Recorded, CanReply, NoRepeats;
    TotalMoved(Uncounted, s.workers, w, Moved(s, w, move).workers[w]);
  }

  lemma StepKeepsInside(s: State, step: Step, universe: set<Url>)
    requires Enabled(s, step) && Inside(s, universe) && StaysInside(step, universe)
    ensures Inside(Next(s, step), universe)
  {
    hide Occurrences, Moved, CanMove, Total, LinksInside, StaysInside;
    var t := Next(s, step);
    if step.Work? {
      assert LinksInside(s.workers[step.w], universe) by { CanMoveWorker(s, step.w, step.move); }
      MoveKeepsLinksInside(s, step.w, step.move, universe);
      MoveKeepsPagesBacked(s, step.w, step.move);
      OthersStay(s, step.w, step.move);
    }
    forall u | Occurrences(u, t) > 0
      ensures u in universe
    {
      StepMovesCopies(s, step, u);
      AdmittedIsInside(s, step, u, universe);
    }
  }

  lemma CanMoveWorker(s: State, w: nat, move: Move)
    requires CanMove(s, w, move)
    ensures w < |s.workers|
  {
  }

  lemma OthersStay(s: State, w: nat, move: Move)
    requires CanMove(s, w, move)
    ensures |Moved(s, w, move).workers| == |s.workers|
    ensures forall v :: 0 <= v < |s.workers| && v != w ==> Moved(s, w, move).workers[v] == s.workers[v]
  {
    hide FetchAdd, AllDropped, Recorded, CanReply, NoRepeats;
  }

  lemma AdmittedIsInside(s: State, step: Step, u: Url, universe: set<Url>)
    requires Enabled(s, step) && StaysInside(step, universe)
    requires forall w :: 0 <= w < |s.workers| ==> LinksInside(s.workers[w], universe)
    ensures Admits(s, step, u) ==> u in universe
  {
  }

  lemma StartIsInside(s: State, universe: set<Url>)
    requires IsStart(s) && forall u :: u in AtStart(s) ==> u in universe
    ensures Inside(s, universe)
  {
    NothingHeldAtStart(Uncounted, s.workers);
    forall u | Occurrences(u, s) > 0
      ensures u in universe
    {
      NothingHeldAtStart(Copies(u), s.workers);
      assert TimesIn(u, s.queue) > 0 ==> u in multiset(s.queue);
    }
  }

  lemma {:induction false} RunStaysInside(s: State, steps: seq<Step>, universe: set<Url>)
    requires IsRun(s, steps) && Inside(s, universe) && AllStayInside(steps, universe)
    ensures Inside(Final(s, steps), universe)
  {
    hide Inside, Next, Enabled, StaysInside;
    if steps != [] {
      var n := |steps| - 1;
      RunStaysInside(s, steps[..n], universe);
      StepKeepsInside(Final(s, steps[..n]), steps[n], universe);
    }
  }

  /** The calls of other URLs than `u`. */
  function Without(u: Url, calls: seq<Call>): seq<Call> {
    if calls == [] then []
    else Without(u, calls[..|calls| - 1]) + if calls[|calls| - 1].url == u then [] else [calls[|calls| - 1]]
  }

  lemma {:induction false} CallsWithout(u: Url, calls: seq<Call>)
    ensures |calls| == |Without(u, calls)| + CallsOf(u, calls)
    ensures forall v :: CallsOf(v, Without(u, calls)) == if v == u then 0 else CallsOf(v, calls)
  {
    if calls != [] {
      var n := |calls| - 1;
      var rest := Without(u, calls[..n]);
      CallsWithout(u, calls[..n]);
      assert rest + [] == rest;
      forall v
        ensures CallsOf(v, rest + [calls[n]]) == CallsOf(v, rest) + if calls[n].url == v then 1 else 0
      {
        CallsOfOne(v, rest, calls[n]);
      }
    }
  }

  lemma {:induction false} SomeCall(calls: seq<Call>)
    requires calls != []
    ensures CallsOf(calls[|calls| - 1].url, calls) > 0
  {
  }

  /** Calls of URLs from a set, none called more than `k` times. */
  lemma {:induction false} CallsFromSet(calls: seq<Call>, universe: set<Url>, k: nat)
    requires forall u :: CallsOf(u, calls) <= k && (CallsOf(u, calls) > 0 ==> u in universe)
    ensures |calls| <= |universe| * k
    decreases |universe|
  {
    hide CallsOf, Without;
    if universe == {} {
      if calls != [] {
        SomeCall(calls);
        assert false;
      }
    } else {
      var u :| u in universe;
      CallsWithout(u, calls);
      CallsFromSet(Without(u, calls), universe - {u}, k);
      OneMoreMultiple(|universe|, k);
    }
  }

  /**
   A crawl that stays inside N URLs makes at most N calls of `process_single_url`, and N more for each time
   that the storage service restarts, and counts no more pages than calls.
   */
  lemma CallsAreBounded(s: State, steps: seq<Step>, universe: set<Url>)
    requires IsFreshStart(s) && IsRun(s, steps) && AllStayInside(steps, universe)
    requires forall u :: u in AtStart(s) ==> u in universe
    ensures var t := Final(s, steps);
            t.pages <= |t.calls| <= |universe| * (1 + Restarts(steps))
  {
    hide IsRun, Final, Waiting;
    var t := Final(s, steps);
    StartIsInside(s, universe);
    RunStaysInside(s, steps, universe);
    AtMostOnce(s, steps);
    forall u
      ensures CallsOf(u, t.calls) <= 1 + Restarts(steps) && (CallsOf(u, t.calls) > 0 ==> u in universe)
    {
      assert Within(u, t, Restarts(steps));
    }
    CallsFromSet(t.calls, universe, 1 + Restarts(steps));
  }

  // ----- Progress -----

  /** Steps to come, not counting those that stutter: unseen, queued and held URLs at their prices. */
  ghost function Potential(s: State, universe: set<Url>): nat {
    var n := |universe|;
    Prices(n, |s.queue|) + Total(WorkLeft(n), s.workers)
    + |universe - s.seen| * (Price(n) + 2) + if s.storage.Some? then Price(n) + 1 else 0
  }

  /**
   The steps that are no progress: looking at the flag, the queue or the limiter, and requeueing, which may leave
   everything as it was, and a restart of the storage service.
   */
  predicate Stutters(s: State, step: Step)
    requires Enabled(s, step)
  {
    match step
    case Work(_, CheckShutdown) => !s.cancelled
    case Work(_, Pop) => true
    case Work(_, Acquire(granted)) => !granted
    case Work(_, Requeue(ok)) => ok
    case Cancel => true
    case MonitorTick => true
    case StorageInsert(_, reply) => !reply.Fresh?
    case StorageRestart => true
    case _ => false
  }

  lemma PricesAdd(n: nat, a: nat, b: nat)
    ensures Prices(n, a + b) == Prices(n, a) + Prices(n, b)
    ensures Prices(n, 0) == 0 && Prices(n, 1) == Price(n)
  {
    assert (a + b) * Price(n) == a * Price(n) + b * Price(n);
  }

  lemma {:induction false} DistinctLinks(links: seq<Url>, universe: set<Url>)
    requires NoRepeats(links) && forall u :: u in links ==> u in universe
    ensures |links| <= |universe|
  {
    if links != [] {
      var n := |links| - 1;
      assert forall u :: u in links[..n] ==> u in universe - {links[n]};
      DistinctLinks(links[..n], universe - {links[n]});
    }
  }

  /** The part of the potential that does not depend on the seen filter. */
  ghost function Load(s: State, n: nat): nat {
    Prices(n, |s.queue|) + Total(WorkLeft(n), s.workers)
  }

  /** What a move may do to the load. */
  ghost predicate Spends(s: State, w: nat, move: Move, n: nat)
    requires CanMove(s, w, move)
  {
    var before, after := Load(s, n), Load(Moved(s, w, move), n);
    if move.InsertUrl? && move.reply.Fresh? then after < before + Price(n)
    else if Stutters(s, Work(w, move)) then after == before
    else after < before
  }

  lemma QueueMoveSpends(s: State, w: nat, move: Move, n: nat)
    requires IsQueueMove(move) && CanMove(s, w, move)
    ensures Spends(s, w, move, n)
  {
    hide Total, TimesIn, AllDropped, Prices;
    var pc := s.workers[w];
    TotalMoved(WorkLeft(n), s.workers, w, Moved(s, w, move).workers[w]);
    PricesAdd(n, |s.queue|, 1);
    if move.Pop? || move.PopUnparsable? {
      PricesAdd(n, |s.queue| - 1, 1);
    } else if move.PushBulk? {
      PricesAdd(n, |s.queue|, |pc.kept|);
    }
  }

  /** The moves by which a worker hands on the links of a page. */
  predicate IsLinkMove(move: Move) {
    move.FetchOk? || move.InsertUrl? || move.FilterDone?
  }

  lemma LinkMoveSpends(s: State, w: nat, move: Move, universe: set<Url>)
    requires IsLinkMove(move) && CanMove(s, w, move) && StaysInside(Work(w, move), universe)
    ensures Spends(s, w, move, |universe|)
  {
    hide Total, TimesIn, Recorded, CanReply, NoRepeats, Prices;
    var n := |universe|;
    TotalMoved(WorkLeft(n), s.workers, w, Moved(s, w, move).workers[w]);
    PricesAdd(n, 0, 0);
    if move.FetchOk? {
      DistinctLinks(move.links, universe);
    } else if move.InsertUrl? {
      PricesAdd(n, |s.workers[w].kept|, 1);
    }
  }

  lemma OtherMoveSpends(s: State, w: nat, move: Move, n: nat)
    requires !IsQueueMove(move) && !IsLinkMove(move) && CanMove(s, w, move)
    ensures Spends(s, w, move, n)
  {
    hide Total, TimesIn, FetchAdd, Prices;
    TotalMoved(WorkLeft(n), s.workers, w, Moved(s, w, move).workers[w]);
  }

  lemma MoveSpends(s: State, w: nat, move: Move, universe: set<Url>)
    requires CanMove(s, w, move) && StaysInside(Work(w, move), universe)
    ensures Spends(s, w, move, |universe|)
  {
    hide Spends, StaysInside;
    if IsQueueMove(move) {
      QueueMoveSpends(s, w, move, |universe|);
    } else if IsLinkMove(move) {
      LinkMoveSpends(s, w, move, universe);
    } else {
      OtherMoveSpends(s, w, move, |universe|);
    }
  }

  lemma RecordingShrinks(seen: set<Url>, seen': set<Url>, universe: set<Url>)
    requires seen <= seen'
    ensures |universe - seen'| <= |universe - seen|
    ensures forall u :: u in universe && u !in seen && u in seen' ==> |universe - seen'| < |universe - seen|
  {
    forall u | u in universe && u !in seen && u in seen'
      ensures |universe - seen'| < |universe - seen|
    {
      SubsetSize(universe - seen' + {u}, universe - seen);
    }
    SubsetSize(universe - seen', universe - seen);
  }

  lemma {:induction false} SubsetSize(a: set<Url>, b: set<Url>)
    requires a <= b
    ensures |a| <= |b|
  {
    if a != {} {
      var u :| u in a;
      SubsetSize(a - {u}, b - {u});
    }
  }

  lemma Reserve(a: nat, b: nat, price: nat)
    requires a <= b
    ensures a * price <= b * price
    ensures a < b ==> a * price + price <= b * price
  {
    if a < b {
      MultiplesApart(a, b, price);
    }
  }

  /** What a restart of the storage service can add to the potential: all URLs may be admitted again. */
  ghost function Reopened(universe: set<Url>): nat {
    |universe| * (Price(|universe|) + 2)
  }

  /**
   Every step that does not stutter uses up some of the potential, and only a restart of the storage service
   adds to it.
   */
  lemma StepSpends(s: State, step: Step, universe: set<Url>)
    requires Enabled(s, step) && StaysInside(step, universe) && Inside(s, universe)
    ensures var before, after := Potential(s, universe), Potential(Next(s, step), universe);
            if step.StorageRestart? then Stutters(s, step) && after <= before + Reopened(universe)
            else after <= before && (after < before || Stutters(s, step))
    ensures (match step
             case Work(_, move) =>
               || !(move.CheckShutdown? || move.Pop? || move.Acquire? || move.Requeue?)
               || (move.CheckShutdown? && s.cancelled) || move == Acquire(true) || move == Requeue(false)
             case StorageInsert(_, reply) => reply.Fresh?
             case StoragePush(_) => true
             case _ => false) ==>
              Potential(Next(s, step), universe) < Potential(s, universe)
  {
    hide Total, Moved, CanMove, Prices, Occurrences, LinksInside, CanReply;
    var n, t := |universe|, Next(s, step);
    if step.StorageRestart? {
      assert universe - t.seen == universe;
    } else {
      OrdinaryStepSpends(s, step, universe);
    }
  }

  lemma OrdinaryStepSpends(s: State, step: Step, universe: set<Url>)
    requires Enabled(s, step) && StaysInside(step, universe) && Inside(s, universe) && !step.StorageRestart?
    ensures var before, after := Potential(s, universe), Potential(Next(s, step), universe);
            after <= before && (after < before || Stutters(s, step))
  {
    hide Total, Moved, CanMove, Prices, Occurrences, LinksInside, CanReply;
    var n, t := |universe|, Next(s, step);
    SeenGrows(s, step);
    RecordingShrinks(s.seen, t.seen, universe);
    Reserve(|universe - t.seen|, |universe - s.seen|, Price(n) + 2);
    if step.Work? {
      MoveSpends(s, step.w, step.move, universe);
      if step.move.InsertUrl? && step.move.reply.Fresh? {
        FreshIsNew(s, step.w, step.move, universe);
      }
    } else if step.StoragePush? {
      PricesAdd(n, |s.queue|, 1);
    } else if step.StorageInsert? {
      FreshSitemap(s, step);
    }
  }

  lemma FreshSitemap(s: State, step: Step)
    requires Enabled(s, step) && step.StorageInsert?
    ensures step.reply.Fresh? ==> step.url !in s.seen
  {
  }

  lemma SeenGrows(s: State, step: Step)
    requires Enabled(s, step) && !step.StorageRestart?
    ensures s.seen <= Next(s, step).seen
    ensures step.Work? ==> Next(s, step).storage == s.storage
  {
    hide FetchAdd, AllDropped, CanReply, NoRepeats;
  }

  lemma FreshIsNew(s: State, w: nat, move: Move, universe: set<Url>)
    requires CanMove(s, w, move) && move.InsertUrl? && move.reply.Fresh? && Inside(s, universe)
    ensures exists u :: u in universe && u !in s.seen && u in Moved(s, w, move).seen
  {
    hide Occurrences, Total;
    var u := s.workers[w].links[0];
    assert LinksInside(s.workers[w], universe);
    assert u in universe && u !in s.seen && u in Moved(s, w, move).seen;
  }

  /** The steps of a run that do not stutter. */
  function ProgressSteps(s: State, steps: seq<Step>): nat
    requires IsRun(s, steps)
  {
    if steps == [] then 0
    else
      var n := |steps| - 1;
      ProgressSteps(s, steps[..n]) + if Stutters(Final(s, steps[..n]), steps[n]) then 0 else 1
  }

  lemma ProgressOfOneMore(s: State, steps: seq<Step>, step: Step)
    requires IsRun(s, steps) && Enabled(Final(s, steps), step)
    ensures IsRun(s, steps + [step])
    ensures ProgressSteps(s, []) == 0
    ensures ProgressSteps(s, steps + [step]) ==
            ProgressSteps(s, steps) + if Stutters(Final(s, steps), step) then 0 else 1
  {
    hide Enabled, Next, Stutters;
    RunExtended(s, steps, step);
    assert (steps + [step])[..|steps|] == steps;
  }

  /**
   Bounded work: in any run that stays inside a set of URLs, all but a bounded number of steps stutter; a
   restart of the storage service adds to the bound what it costs to do everything again.
   */
  lemma {:induction false} ProgressIsBounded(s: State, steps: seq<Step>, universe: set<Url>)
    requires IsStart(s) && IsRun(s, steps) && AllStayInside(steps, universe)
    requires forall u :: u in AtStart(s) ==> u in universe
    ensures ProgressSteps(s, steps) + Potential(Final(s, steps), universe) <=
            Potential(s, universe) + Restarts(steps) * Reopened(universe)
  {
    hide Reopened, Potential, Next, Enabled, Stutters, StaysInside, IsStart, Inside;
    if steps != [] {
      var n := |steps| - 1;
      ProgressIsBounded(s, steps[..n], universe);
      StartIsInside(s, universe);
      RunStaysInside(s, steps[..n], universe);
      StepSpends(Final(s, steps[..n]), steps[n], universe);
      if steps[n].StorageRestart? {
        OneMoreMultiple(Restarts(steps), Reopened(universe));
      }
    }
  }

  // ----- Shutdown -----

  /** The calls that worker `w` has started. */
  function CallsBy(w: nat, calls: seq<Call>): nat {
    if calls == [] then 0
    else CallsBy(w, calls[..|calls| - 1]) + if calls[|calls| - 1].worker == w then 1 else 0
  }

  /** ... and the one that it may still start after shutdown. */
  function CallsStarted(w: nat, s: State): nat
    requires w < |s.workers|
  {
    CallsBy(w, s.calls) + Weight(MayCall, s.workers[w])
  }

  lemma CallsByOne(w: nat, calls: seq<Call>, c: Call)
    ensures CallsBy(w, calls + [c]) == CallsBy(w, calls) + if c.worker == w then 1 else 0
  {
    assert (calls + [c])[..|calls|] == calls;
  }

  lemma MoveAfterShutdown(s: State, w: nat, move: Move, v: nat)
    requires s.cancelled && CanMove(s, w, move) && v < |s.workers|
    ensures var t := Moved(s, w, move);
            && t.cancelled && |t.workers| == |s.workers|
            && CallsStarted(v, t) <= CallsStarted(v, s)
            && t.pages + Total(MayCount, t.workers) <= s.pages + Total(MayCount, s.workers)
  {
    hide Total, TimesIn, FetchAdd, AllDropped, Recorded, CanReply, NoRepeats, CallsBy;
    TotalMoved(MayCount, s.workers, w, Moved(s, w, move).workers[w]);
    if move.Acquire? {
      CallsByOne(v, s.calls, Call(w, s.workers[w].url));
    }
  }

  lemma StepAfterShutdown(s: State, step: Step, v: nat)
    requires s.cancelled && Enabled(s, step) && v < |s.workers|
    ensures var t := Next(s, step);
            && t.cancelled && |t.workers| == |s.workers|
            && CallsStarted(v, t) <= CallsStarted(v, s)
            && t.pages + Total(MayCount, t.workers) <= s.pages + Total(MayCount, s.workers)
  {
    hide Moved, CanMove, Total, Weight, CallsBy;
    if step.Work? {
      MoveAfterShutdown(s, step.w, step.move, v);
    }
  }

  lemma {:induction false} RunAfterShutdown(s: State, steps: seq<Step>, v: nat)
    requires s.cancelled && IsRun(s, steps) && v < |s.workers|
    ensures var t := Final(s, steps);
            && t.cancelled && |t.workers| == |s.workers|
            && CallsStarted(v, t) <= CallsStarted(v, s)
            && t.pages + Total(MayCount, t.workers) <= s.pages + Total(MayCount, s.workers)
  {
    hide Next, Enabled, Total, Weight, CallsBy;
    if steps != [] {
      var n := |steps| - 1;
      RunAfterShutdown(s, steps[..n], v);
      StepAfterShutdown(Final(s, steps[..n]), steps[n], v);
    }
  }

  /**
   Shutdown drain: from any state in which the shutdown flag is set, each worker starts at
   most one more call, and all of them together add at most one page each.
   */
  lemma ShutdownDrains(s: State, steps: seq<Step>)
    requires s.cancelled && IsRun(s, steps)
    ensures var t := Final(s, steps);
            && (forall v :: 0 <= v < |s.workers| ==> CallsBy(v, t.calls) <= CallsBy(v, s.calls) + 1)
            && t.pages <= s.pages + |s.workers|
  {
    hide IsRun, Final, Total, CallsBy;
    TotalAtMost(MayCount, s.workers, 1);
    forall v | 0 <= v < |s.workers|
      ensures CallsBy(v, Final(s, steps).calls) <= CallsBy(v, s.calls) + 1
    {
      RunAfterShutdown(s, steps, v);
    }
    if |s.workers| > 0 {
      RunAfterShutdown(s, steps, 0);
    } else {
      NoWorkersNoPages(s, steps);
    }
  }

  lemma {:induction false} NoWorkersNoPages(s: State, steps: seq<Step>)
    requires s.workers == [] && IsRun(s, steps)
    ensures Final(s, steps).workers == [] && Final(s, steps).pages == s.pages
  {
    if steps != [] {
      NoWorkersNoPages(s, steps[..|steps| - 1]);
    }
  }

  // ----- The monitor -----

  /** A tick of the monitor sets the flag exactly if the counter is 0 or the page limit is reached; a caller, always. */
  lemma TickExactly(s: State)
    ensures var t := Next(s, MonitorTick);
            && (t.cancelled <==> s.cancelled || s.active == 0 || (s.limit.Some? && s.pages >= s.limit.value))
            && t == s.(cancelled := t.cancelled)
    ensures Next(s, Cancel) == s.(cancelled := true)
  {
  }

  /**
   The page limit: a tick in a state that has reached it leaves room for one page per worker and one
   more call of each, whatever happens then.
   */
  lemma LimitHolds(s: State, steps: seq<Step>)
    requires s.limit.Some? && s.pages >= s.limit.value && IsRun(Next(s, MonitorTick), steps)
    ensures var t := Final(Next(s, MonitorTick), steps);
            && t.cancelled && t.pages <= s.pages + |s.workers|
            && forall v :: 0 <= v < |s.workers| ==> CallsBy(v, t.calls) <= CallsBy(v, s.calls) + 1
  {
    hide IsRun, Final, CallsBy;
    TickExactly(s);
    ShutdownDrains(Next(s, MonitorTick), steps);
    StaysCancelled(Next(s, MonitorTick), steps);
  }

  lemma {:induction false} StaysCancelled(s: State, steps: seq<Step>)
    requires s.cancelled && IsRun(s, steps)
    ensures Final(s, steps).cancelled
  {
    hide Moved, CanMove;
    if steps != [] {
      var n := |steps| - 1;
      StaysCancelled(s, steps[..n]);
      if steps[n].Work? {
        FlagStays(Final(s, steps[..n]), steps[n].w, steps[n].move);
      }
    }
  }

  lemma FlagStays(s: State, w: nat, move: Move)
    requires CanMove(s, w, move)
    ensures Moved(s, w, move).cancelled == s.cancelled && Moved(s, w, move).limit == s.limit
  {
    hide FetchAdd, AllDropped, Recorded, CanReply, NoRepeats;
  }

  // ----- Quiescence -----

  predicate AllTimedOut(s: State) {
    forall w :: 0 <= w < |s.workers| ==> s.workers[w] == Exited(PopTimedOut)
  }

  /** If all workers have timed out, the last to do so saw an empty queue. */
  ghost predicate LastLooked(s: State) {
    |s.workers| > 0 && (AllTimedOut(s) && s.storagePushes == 0 ==> s.queue == [])
  }

  lemma MoveKeepsLastLooked(s: State, w: nat, move: Move)
    requires CanMove(s, w, move) && LastLooked(s)
    ensures LastLooked(Moved(s, w, move))
  {
    var t := Moved(s, w, move);
    if t.workers[w] == Exited(PopTimedOut) {
      assert move.PopTimeout?;
    }
  }

  lemma {:induction false} RunKeepsLastLooked(s: State, steps: seq<Step>)
    requires IsStart(s) && |s.workers| > 0 && IsRun(s, steps)
    ensures LastLooked(Final(s, steps))
  {
    hide Moved, CanMove;
    if steps == [] {
      assert s.workers[0] == Top;
    } else {
      var n := |steps| - 1;
      var t := Final(s, steps[..n]);
      RunKeepsLastLooked(s, steps[..n]);
      if steps[n].Work? {
        MoveKeepsLastLooked(t, steps[n].w, steps[n].move);
      } else {
        assert AllTimedOut(Next(t, steps[n])) ==> AllTimedOut(t);
      }
    }
  }

  lemma {:induction false} TimedOutLeakNothing(workers: seq<Pc>)
    requires forall w :: 0 <= w < |workers| ==> workers[w] == Exited(PopTimedOut)
    ensures Total(Leaks, workers) == 0
  {
    if workers != [] {
      TimedOutLeakNothing(workers[..|workers| - 1]);
    }
  }

  /**
   Quiescence: if every worker left because the queue stayed empty and the storage service
   pushed nothing, then the queue is empty, the counter is 0, and the next tick of the
   monitor stops the run.
   */
  lemma Quiescence(s: State, steps: seq<Step>)
    requires IsStart(s) && |s.workers| > 0 && IsRun(s, steps)
    requires AllTimedOut(Final(s, steps)) && Final(s, steps).storagePushes == 0
    ensures var t := Final(s, steps);
            t.queue == [] && t.active == 0 && Next(t, MonitorTick).cancelled
  {
    hide IsRun, Final, IsStart, Total;
    var t := Final(s, steps);
    RunKeepsLastLooked(s, steps);
    ExitedHoldNothing(Hands, t.workers);
    ExitedHoldNothing(Gap, t.workers);
    TimedOutLeakNothing(t.workers);
    CounterConservation(s, steps);
    SmallDoesNotWrap(0);
  }
}

/**
 What every interleaving of the crawl keeps: the counter of active tasks, and the
 whereabouts of each URL.
 */
module CrawlCounting {
  import opened Wrappers
  import opened CrawlProtocol

  // ----- The counter of active tasks -----

  /** The number that the counter stands for: below zero, it has wrapped around. */
  function Balance(s: State): int {
    |s.queue| + Total(Hands, s.workers) + Total(Leaks, s.workers) - Total(Gap, s.workers) - s.storagePushes
  }

  /** How a step changes the number that the counter stands for. */
  function Change(s: State, step: Step): int
    requires Enabled(s, step)
  {
    match step
    case Work(_, DropWithoutDomain) => -1
    case Work(_, GiveUp) => -1
    case Work(_, DropGuard) => -1
    case Work(w, AddTasks) => s.workers[w].added
    case _ => 0
  }

  /** What the step does to the counter itself. */
  lemma StepChangesCounter(s: State, step: Step)
    requires Enabled(s, step)
    ensures Next(s, step).active == FetchAdd(s.active, Change(s, step))
  {
  }

  /** The moves that take from or add to the queue. */
  predicate IsQueueMove(move: Move) {
    move.Pop? || move.PopUnparsable? || move.Requeue? || move.PushBulk?
  }

  lemma QueueMoveKeepsBalance(s: State, w: nat, move: Move)
    requires IsQueueMove(move) && CanMove(s, w, move)
    ensures Balance(Moved(s, w, move)) == Balance(s)
  {
    hide Total, TimesIn, AllDropped;
    var pc := Moved(s, w, move).workers[w];
    TotalMoved(Hands, s.workers, w, pc);
    TotalMoved(Leaks, s.workers, w, pc);
    TotalMoved(Gap, s.workers, w, pc);
  }

  lemma MoveChangesBalance(s: State, w: nat, move: Move)
    requires CanMove(s, w, move)
    ensures Balance(Moved(s, w, move)) == Balance(s) + Change(s, Work(w, move))
  {
    hide Total, TimesIn, FetchAdd, AllDropped, Recorded, CanReply, NoRepeats;
    if IsQueueMove(move) {
      QueueMoveKeepsBalance(s, w, move);
    } else {
      var pc := Moved(s, w, move).workers[w];
      TotalMoved(Hands, s.workers, w, pc);
      TotalMoved(Leaks, s.workers, w, pc);
      TotalMoved(Gap, s.workers, w, pc);
    }
  }

  lemma StepChangesBalance(s: State, step: Step)
    requires Enabled(s, step)
    ensures Balance(Next(s, step)) == Balance(s) + Change(s, step)
  {
    hide Total, FetchAdd, Moved, CanMove;
    if step.Work? {
      MoveChangesBalance(s, step.w, step.move);
    }
  }

  lemma {:induction false} NothingHeldAtStart(m: Measure, workers: seq<Pc>)
    requires !m.WorkLeft? && forall w :: 0 <= w < |workers| ==> workers[w] == Top
    ensures Total(m, workers) == 0
  {
    if workers != [] {
      NothingHeldAtStart(m, workers[..|workers| - 1]);
    }
  }

  lemma StartIsCounted(s: State)
    requires IsStart(s)
    ensures s.active == Balance(s) % MODULUS
  {
    NothingHeldAtStart(Hands, s.workers);
    NothingHeldAtStart(Leaks, s.workers);
    NothingHeldAtStart(Gap, s.workers);
  }

  lemma WrapsAlike(a: usize, b: int, d: int)
    requires a == b % MODULUS
    ensures FetchAdd(a, d) == (b + d) % MODULUS
  {
  }

  lemma SmallDoesNotWrap(n: nat)
    requires n < MODULUS
    ensures n % MODULUS == n
  {
  }

  /**
   Counter conservation: in every reachable state, the counter plus the tasks pushed but
   not yet added plus the storage pushes is the queue plus the URLs in workers' hands plus
   the pops lost to parse failures, modulo 2^64.
   */
  lemma {:induction false} CounterConservation(s: State, steps: seq<Step>)
    requires IsStart(s) && IsRun(s, steps)
    ensures var t := Final(s, steps);
            && t.active == Balance(t) % MODULUS
            && Balance(t) == |t.queue| + Total(Hands, t.workers) + Total(Leaks, t.workers)
                             - Total(Gap, t.workers) - t.storagePushes
  {
    hide IsStart, FetchAdd;
    if steps == [] {
      StartIsCounted(s);
    } else {
      hide Next, Enabled, Change, Total;
      var n := |steps| - 1;
      var t := Final(s, steps[..n]);
      CounterConservation(s, steps[..n]);
      StepChangesCounter(t, steps[n]);
      StepChangesBalance(t, steps[n]);
      WrapsAlike(t.active, Balance(t), Change(t, steps[n]));
    }
  }

  /** Nobody is between `push_bulk` and `fetch_add`, and the storage service pushed nothing. */
  predicate NothingUncounted(s: State) {
    Total(Gap, s.workers) == 0 && s.storagePushes == 0
  }

  /** The queue is empty, no worker holds a URL, and no task was lost to a parse failure. */
  predicate NothingLeft(s: State) {
    s.queue == [] && Total(Hands, s.workers) == 0 && Total(Leaks, s.workers) == 0
  }

  lemma {:induction false} TotalIsZero(m: Measure, workers: seq<Pc>)
    ensures Total(m, workers) == 0 <==> forall w :: 0 <= w < |workers| ==> Weight(m, workers[w]) == 0
  {
    hide Weight;
    if workers != [] {
      TotalIsZero(m, workers[..|workers| - 1]);
    }
  }

  /** What these conditions mean for the workers. */
  lemma NothingExactly(s: State)
    ensures NothingUncounted(s) <==>
            s.storagePushes == 0 && forall w :: 0 <= w < |s.workers| && s.workers[w].Adding? ==> s.workers[w].added == 0
    ensures NothingLeft(s) <==>
            && s.queue == []
            && forall w :: 0 <= w < |s.workers| ==>
                 || s.workers[w].Top? || s.workers[w].Popping?
                 || (s.workers[w].Exited? && s.workers[w].exit != BadUrl)
  {
    hide Total;
    TotalIsZero(Gap, s.workers);
    TotalIsZero(Hands, s.workers);
    TotalIsZero(Leaks, s.workers);
  }

  /** Outside the gap and without storage pushes, the counter reads 0 exactly when nothing is left to do or lost. */
  lemma TerminationDetection(s: State, steps: seq<Step>)
    requires IsStart(s) && IsRun(s, steps)
    requires var t := Final(s, steps);
             NothingUncounted(t) && |t.queue| + Total(Hands, t.workers) + Total(Leaks, t.workers) < MODULUS
    ensures Final(s, steps).active == 0 <==> NothingLeft(Final(s, steps))
    ensures var t := Final(s, steps);
            t.active == 0 <==>
            && t.queue == []
            && forall w :: 0 <= w < |t.workers| ==>
                 || t.workers[w].Top? || t.workers[w].Popping?
                 || (t.workers[w].Exited? && t.workers[w].exit != BadUrl)
  {
    hide Final, IsRun, IsStart, Total;
    NothingExactly(Final(s, steps));
    CounterConservation(s, steps);
    SmallDoesNotWrap(Balance(Final(s, steps)));
  }

  /** What is queued, held or lost, and what of it the counter misses. */
  function Outstanding(s: State): nat {
    |s.queue| + Total(Hands, s.workers) + Total(Leaks, s.workers)
  }

  function Missed(s: State): nat {
    Total(Gap, s.workers) + s.storagePushes
  }

  /** The counter reads 0 too early exactly when the tasks it misses are as many as those outstanding. */
  lemma FalseZeros(s: State, steps: seq<Step>)
    requires IsStart(s) && IsRun(s, steps)
    requires Outstanding(Final(s, steps)) < MODULUS && Missed(Final(s, steps)) < MODULUS
    ensures var t := Final(s, steps);
            t.active == 0 && !NothingLeft(t) <==> Outstanding(t) == Missed(t) > 0
  {
    hide Final, IsRun, IsStart, Total;
    var t := Final(s, steps);
    CounterConservation(s, steps);
    if Outstanding(t) >= Missed(t) {
      SmallDoesNotWrap(Balance(t));
    } else {
      SmallDoesNotWrap(Balance(t) + MODULUS);
      assert (Balance(t) + MODULUS) % MODULUS == Balance(t) % MODULUS;
    }
  }

  // ----- Where each URL is -----

  function CallsOf(u: Url, calls: seq<Call>): nat {
    if calls == [] then 0
    else CallsOf(u, calls[..|calls| - 1]) + if calls[|calls| - 1].url == u then 1 else 0
  }

  function DropsOf(u: Url, dropped: seq<Dropped>): nat {
    if dropped == [] then 0
    else DropsOf(u, dropped[..|dropped| - 1]) + if dropped[|dropped| - 1].url == u then 1 else 0
  }

  /** The copies of `u` that still await a call: in the queue, in workers' hands, or on their way to the queue. */
  function Waiting(u: Url, s: State): nat {
    TimesIn(u, s.queue) + Total(Copies(u), s.workers) + if s.storage == Some(u) then 1 else 0
  }

  /** All copies of `u` there ever were: waiting, processed, or given up by a named branch. */
  function Occurrences(u: Url, s: State): nat {
    Waiting(u, s) + CallsOf(u, s.calls) + DropsOf(u, s.dropped)
  }

  /** The step makes the filter admit `u`: the only way for a copy of `u` to come about. */
  predicate Admits(s: State, step: Step, u: Url)
    requires Enabled(s, step)
  {
    match step
    case Work(w, InsertUrl(reply)) => reply.Fresh? && s.workers[w].links[0] == u
    case StorageInsert(v, reply) => reply.Fresh? && v == u
    case _ => false
  }

  lemma {:induction false} DropsOfAll(u: Url, dropped: seq<Dropped>, urls: seq<Url>, reason: Reason)
    ensures DropsOf(u, dropped + AllDropped(urls, reason)) == DropsOf(u, dropped) + TimesIn(u, urls)
  {
    hide TimesIn;
    if urls == [] {
      NoneInEmpty(u);
      assert dropped + AllDropped(urls, reason) == dropped;
    } else {
      var n := |urls| - 1;
      DropsOfAll(u, dropped, urls[..n], reason);
      var all := dropped + AllDropped(urls, reason);
      assert all[..|all| - 1] == dropped + AllDropped(urls[..n], reason);
      CountLast(urls[..n], urls[n], u);
      assert urls == urls[..n] + [urls[n]];
    }
  }

  lemma NoneInEmpty(u: Url)
    ensures TimesIn(u, []) == 0
  {
  }

  lemma DropsOfOne(u: Url, dropped: seq<Dropped>, d: Dropped)
    ensures DropsOf(u, dropped + [d]) == DropsOf(u, dropped) + if d.url == u then 1 else 0
  {
    assert (dropped + [d])[..|dropped|] == dropped;
  }

  lemma CallsOfOne(u: Url, calls: seq<Call>, c: Call)
    ensures CallsOf(u, calls + [c]) == CallsOf(u, calls) + if c.url == u then 1 else 0
  {
    assert (calls + [c])[..|calls|] == calls;
  }

  lemma CountFirst(q: seq<Url>, u: Url)
    requires q != []
    ensures TimesIn(u, q) == TimesIn(u, q[1..]) + if q[0] == u then 1 else 0
  {
    assert q == [q[0]] + q[1..];
  }

  lemma CountLast(q: seq<Url>, v: Url, u: Url)
    ensures TimesIn(u, q + [v]) == TimesIn(u, q) + if v == u then 1 else 0
  {
  }

  lemma TakingMovesCopies(s: State, w: nat, move: Move, u: Url)
    requires move.Pop? || move.PopUnparsable?
    requires CanMove(s, w, move)
    ensures Occurrences(u, Moved(s, w, move)) == Occurrences(u, s)
  {
    hide Total, TimesIn, CallsOf, DropsOf;
    TotalMoved(Copies(u), s.workers, w, Moved(s, w, move).workers[w]);
    CountFirst(s.queue, u);
    DropsOfOne(u, s.dropped, Dropped(s.queue[0], Unparsable));
  }

  lemma RequeueMovesCopies(s: State, w: nat, move: Move, u: Url)
    requires move.Requeue? && CanMove(s, w, move)
    ensures Occurrences(u, Moved(s, w, move)) == Occurrences(u, s)
  {
    hide Total, TimesIn, CallsOf, DropsOf;
    TotalMoved(Copies(u), s.workers, w, Moved(s, w, move).workers[w]);
    CountLast(s.queue, s.workers[w].url, u);
  }

  lemma PushBulkMovesCopies(s: State, w: nat, move: Move, u: Url)
    requires move.PushBulk? && CanMove(s, w, move)
    ensures Occurrences(u, Moved(s, w, move)) == Occurrences(u, s)
  {
    hide Total, TimesIn, CallsOf, DropsOf, AllDropped;
    var kept := s.workers[w].kept;
    TotalMoved(Copies(u), s.workers, w, Moved(s, w, move).workers[w]);
    DropsOfAll(u, s.dropped, kept, NotPushed);
    CountBoth(s.queue, kept, u);
  }

  lemma CountBoth(q: seq<Url>, r: seq<Url>, u: Url)
    ensures TimesIn(u, q + r) == TimesIn(u, q) + TimesIn(u, r)
  {
  }

  lemma InsertMovesCopies(s: State, w: nat, move: Move, u: Url)
    requires move.InsertUrl? && CanMove(s, w, move)
    ensures Occurrences(u, Moved(s, w, move)) == Occurrences(u, s) + if Admits(s, Work(w, move), u) then 1 else 0
  {
    hide Total, TimesIn, CallsOf, DropsOf, Recorded, CanReply;
    TotalMoved(Copies(u), s.workers, w, Moved(s, w, move).workers[w]);
    CountLast(s.workers[w].kept, s.workers[w].links[0], u);
  }

  /** The moves that touch no URL. */
  predicate IsQuiet(move: Move) {
    || move.CheckShutdown? || move.PopTimeout? || move.PopError? || move.CountPage? || move.FetchOk?
    || move.FetchError? || move.FilterDone? || move.AddTasks? || move.DropGuard?
  }

  lemma QuietMovesCopies(s: State, w: nat, move: Move, u: Url)
    requires IsQuiet(move) && CanMove(s, w, move)
    ensures Occurrences(u, Moved(s, w, move)) == Occurrences(u, s)
  {
    hide Total, TimesIn, CallsOf, DropsOf, FetchAdd, NoRepeats;
    NoneInEmpty(u);
    TotalMoved(Copies(u), s.workers, w, Moved(s, w, move).workers[w]);
  }

  lemma EndingMovesCopies(s: State, w: nat, move: Move, u: Url)
    requires move.DropWithoutDomain? || move.Acquire? || move.GiveUp?
    requires CanMove(s, w, move)
    ensures Occurrences(u, Moved(s, w, move)) == Occurrences(u, s)
  {
    hide Total, TimesIn, CallsOf, DropsOf, FetchAdd;
    var url := s.workers[w].url;
    TotalMoved(Copies(u), s.workers, w, Moved(s, w, move).workers[w]);
    CallsOfOne(u, s.calls, Call(w, url));
    DropsOfOne(u, s.dropped, Dropped(url, WithoutDomain));
    DropsOfOne(u, s.dropped, Dropped(url, NotRequeued));
  }

  lemma MoveMovesCopies(s: State, w: nat, move: Move, u: Url)
    requires CanMove(s, w, move)
    ensures Occurrences(u, Moved(s, w, move)) == Occurrences(u, s) + if Admits(s, Work(w, move), u) then 1 else 0
  {
    hide Occurrences, Moved;
    if move.Pop? || move.PopUnparsable? {
      TakingMovesCopies(s, w, move, u);
    } else if move.Requeue? {
      RequeueMovesCopies(s, w, move, u);
    } else if move.PushBulk? {
      PushBulkMovesCopies(s, w, move, u);
    } else if move.InsertUrl? {
      InsertMovesCopies(s, w, move, u);
    } else if IsQuiet(move) {
      QuietMovesCopies(s, w, move, u);
    } else {
      EndingMovesCopies(s, w, move, u);
    }
  }

  /** Conservation of URLs: a step moves copies about, and makes one only when the filter admits the URL. */
  lemma StepMovesCopies(s: State, step: Step, u: Url)
    requires Enabled(s, step)
    ensures Occurrences(u, Next(s, step)) == Occurrences(u, s) + if Admits(s, step, u) then 1 else 0
  {
    hide Total, TimesIn, Moved, CanMove, CallsOf, DropsOf;
    if step.Work? {
      MoveMovesCopies(s, step.w, step.move, u);
    } else if step.StoragePush? {
      CountLast(s.queue, s.storage.value, u);
      DropsOfOne(u, s.dropped, Dropped(s.storage.value, StorageGaveUp));
    } else if step.StorageRestart? {
      assert s.dropped + [] == s.dropped;
      if s.storage.Some? {
        DropsOfOne(u, s.dropped, Dropped(s.storage.value, StorageRestarted));
      }
    }
  }

  /** A URL occurs at most `k` times, and once more if the filter has it. */
  predicate Within(u: Url, s: State, k: nat) {
    Occurrences(u, s) <= k + if u in s.seen then 1 else 0
  }

  lemma AdmissionIsRecorded(s: State, step: Step, u: Url)
    requires Enabled(s, step) && !step.StorageRestart?
    ensures u in s.seen ==> u in Next(s, step).seen
    ensures Admits(s, step, u) ==> u !in s.seen && u in Next(s, step).seen
  {
  }

  lemma StepKeepsWithin(s: State, step: Step, u: Url, k: nat)
    requires Enabled(s, step) && Within(u, s, k)
    ensures Within(u, Next(s, step), k + if step.StorageRestart? then 1 else 0)
  {
    hide Occurrences;
    StepMovesCopies(s, step, u);
    if !step.StorageRestart? {
      hide Next, Enabled, Admits;
      AdmissionIsRecorded(s, step, u);
    }
  }

  /** From any state, under every interleaving, a restart of the storage service allows one more occurrence of a URL. */
  lemma {:induction false} OncePerRestart(s: State, steps: seq<Step>, u: Url, k: nat)
    requires IsRun(s, steps) && Within(u, s, k)
    ensures Within(u, Final(s, steps), k + Restarts(steps))
  {
    hide Within, Next, Enabled;
    if steps != [] {
      var n := |steps| - 1;
      OncePerRestart(s, steps[..n], u, k);
      StepKeepsWithin(Final(s, steps[..n]), steps[n], u, k + Restarts(steps[..n]));
    }
  }

  /** Each URL occurs at most once, and only if it is recorded in the filter. */
  ghost predicate OnlySeenOnce(s: State) {
    forall u :: Within(u, s, 0)
  }

  lemma {:induction false} CountWithoutRepeats(q: seq<Url>, u: Url)
    requires NoRepeats(q)
    ensures TimesIn(u, q) == if u in q then 1 else 0
  {
    if q != [] {
      var n := |q| - 1;
      CountWithoutRepeats(q[..n], u);
      assert q == q[..n] + [q[n]];
    }
  }

  /** At the start, all there is of a URL is what the queue and the storage service hold. */
  lemma OccurrencesAtStart(s: State, u: Url)
    requires IsStart(s)
    ensures Occurrences(u, s) == TimesIn(u, AtStart(s))
  {
    NothingHeldAtStart(Copies(u), s.workers);
    if s.storage.Some? {
      CountLast(s.queue, s.storage.value, u);
    }
  }

  lemma RepeatsCountTwice(q: seq<Url>)
    requires forall u :: TimesIn(u, q) <= 1
    ensures NoRepeats(q)
  {
    forall i, j | 0 <= i < j < |q|
      ensures q[i] != q[j]
    {
      CountBoth(q[..j], q[j..], q[i]);
      assert q == q[..j] + q[j..] && q[..j][i] == q[i] && q[j..][0] == q[j];
    }
  }

  /** At a start, this means that the URLs in the system are distinct and recorded. */
  lemma FreshStartIsOnlySeenOnce(s: State)
    requires IsStart(s)
    ensures IsFreshStart(s) <==> OnlySeenOnce(s)
  {
    hide Occurrences, AtStart, TimesIn;
    var q := AtStart(s);
    forall u
      ensures Within(u, s, 0) <==> TimesIn(u, q) <= if u in s.seen then 1 else 0
      ensures u in q ==> TimesIn(u, q) >= 1
      ensures u !in q ==> TimesIn(u, q) == 0
      ensures NoRepeats(q) ==> TimesIn(u, q) <= 1
    {
      OccurrencesAtStart(s, u);
      OccursInItself(q, u);
      if NoRepeats(q) {
        CountWithoutRepeats(q, u);
      }
    }
    if OnlySeenOnce(s) {
      forall u
        ensures TimesIn(u, q) <= 1
      {
        assert Within(u, s, 0);
      }
      RepeatsCountTwice(q);
      forall u | u in q
        ensures u in s.seen
      {
        assert Within(u, s, 0);
      }
    }
  }

  lemma OccursInItself(q: seq<Url>, u: Url)
    ensures TimesIn(u, q) >= 1 <==> u in q
  {
    assert u in multiset(q) <==> u in q;
  }

  /**
   At most once: from distinct seeds recorded as seen, under every interleaving, each URL
   occurs in total among the queue, the batches on their way to it, the workers' hands, the
   URLs given up and the history of calls at most once, and once more for each time that the
   storage service restarts.
   */
  lemma AtMostOnce(s: State, steps: seq<Step>)
    requires IsFreshStart(s) && IsRun(s, steps)
    ensures forall u :: Within(u, Final(s, steps), Restarts(steps))
    ensures Restarts(steps) == 0 ==> OnlySeenOnce(Final(s, steps))
  {
    hide Within, IsRun, Final;
    FreshStartIsOnlySeenOnce(s);
    forall u
      ensures Within(u, Final(s, steps), Restarts(steps))
    {
      OncePerRestart(s, steps, u, 0);
    }
  }

  /** One more step of a run, and what it does to the occurrences of a URL. */
  lemma OneMoreStep(s: State, steps: seq<Step>, t: State, step: Step, u: Url) returns (steps': seq<Step>, t': State)
    requires IsRun(s, steps) && Final(s, steps) == t && Enabled(t, step)
    ensures IsRun(s, steps') && Final(s, steps') == t' == Next(t, step)
    ensures Restarts(steps') == Restarts(steps) + if step.StorageRestart? then 1 else 0
    ensures Occurrences(u, t') == Occurrences(u, t) + if Admits(t, step, u) then 1 else 0
  {
    hide Occurrences, Enabled, Next, Admits;
    RunExtended(s, steps, step);
    StepMovesCopies(t, step, u);
    steps', t' := steps + [step], Next(t, step);
    assert steps'[..|steps|] == steps;
  }

  /** A URL that the filter does not have may be found again by the storage service. */
  lemma UnrecordedRepeats(s: State, u: Url) returns (steps: seq<Step>)
    requires u !in s.seen
    ensures IsRun(s, steps) && Restarts(steps) == 0 && Occurrences(u, Final(s, steps)) == Occurrences(u, s) + 1
  {
    hide Occurrences, IsRun, Final;
    NoSteps(s);
    var t;
    steps, t := [], s;
    if s.storage.Some? {
      steps, t := OneMoreStep(s, steps, t, StoragePush(true), u);
    }
    steps, t := OneMoreStep(s, steps, t, StorageInsert(u, Fresh), u);
  }

  /**
   From any state, no run without a restart of the storage service makes a URL occur twice exactly
   if each URL in the system occurs once and is recorded. For a start, this means that it is fresh.
   */
  lemma AtMostOnceExactly(s: State)
    ensures (forall steps, u :: IsRun(s, steps) && Restarts(steps) == 0 ==> Occurrences(u, Final(s, steps)) <= 1) <==>
            OnlySeenOnce(s)
    ensures IsStart(s) ==> (OnlySeenOnce(s) <==> IsFreshStart(s))
  {
    hide Occurrences, IsStart, IsFreshStart;
    if IsStart(s) {
      FreshStartIsOnlySeenOnce(s);
    }
    if OnlySeenOnce(s) {
      forall steps, u | IsRun(s, steps) && Restarts(steps) == 0
        ensures Occurrences(u, Final(s, steps)) <= 1
      {
        assert Within(u, s, 0);
        OncePerRestart(s, steps, u, 0);
      }
    } else {
      var u :| !Within(u, s, 0);
      var steps := [];
      if u !in s.seen {
        steps := UnrecordedRepeats(s, u);
      }
      assert IsRun(s, steps) && Restarts(steps) == 0 && !(Occurrences(u, Final(s, steps)) <= 1);
    }
  }

  /** The bound for runs with restarts is met: from any state, each of them can bring one more occurrence of any URL. */
  lemma {:induction false} RestartsRepeat(s: State, u: Url, k: nat) returns (steps: seq<Step>)
    ensures IsRun(s, steps) && Restarts(steps) == k && Occurrences(u, Final(s, steps)) == Occurrences(u, s) + k
  {
    hide Occurrences, IsRun, Final;
    if k == 0 {
      steps := [];
      NoSteps(s);
    } else {
      steps := RestartsRepeat(s, u, k - 1);
      var t := Final(s, steps);
      steps, t := OneMoreStep(s, steps, t, StorageRestart, u);
      steps, t := OneMoreStep(s, steps, t, StorageInsert(u, Fresh), u);
    }
  }

  /** How often a run makes the filter admit `u`. */
  function Admissions(s: State, steps: seq<Step>, u: Url): nat
    requires IsRun(s, steps)
  {
    if steps == [] then 0
    else
      var n := |steps| - 1;
      Admissions(s, steps[..n], u) + if Admits(Final(s, steps[..n]), steps[n], u) then 1 else 0
  }

  lemma {:induction false} NothingIsLost(s: State, steps: seq<Step>, u: Url)
    requires IsRun(s, steps)
    ensures Occurrences(u, Final(s, steps)) == Occurrences(u, s) + Admissions(s, steps, u)
  {
    hide Occurrences, Next, Enabled, Admits;
    if steps != [] {
      var n := |steps| - 1;
      NothingIsLost(s, steps[..n], u);
      StepMovesCopies(Final(s, steps[..n]), steps[n], u);
    }
  }

  predicate AllExited(s: State) {
    forall w :: 0 <= w < |s.workers| ==> s.workers[w].Exited?
  }

  lemma {:induction false} ExitedHoldNothing(m: Measure, workers: seq<Pc>)
    requires m != Leaks && forall w :: 0 <= w < |workers| ==> workers[w].Exited?
    ensures Total(m, workers) == 0
  {
    if workers != [] {
      ExitedHoldNothing(m, workers[..|workers| - 1]);
    }
  }

  /**
   When all workers have left, every copy of a URL that was there at the start or admitted
   since is still queued (or about to be pushed by the storage service), was processed, or was
   given up by a named branch.
   */
  lemma EverythingAccountedFor(s: State, steps: seq<Step>, u: Url)
    requires IsStart(s) && IsRun(s, steps) && AllExited(Final(s, steps))
    ensures var t := Final(s, steps);
            TimesIn(u, AtStart(s)) + Admissions(s, steps, u) ==
            TimesIn(u, t.queue) + (if t.storage == Some(u) then 1 else 0) + CallsOf(u, t.calls) + DropsOf(u, t.dropped)
  {
    hide TimesIn, AtStart;
    NothingIsLost(s, steps, u);
    OccurrencesAtStart(s, u);
    ExitedHoldNothing(Copies(u), Final(s, steps).workers);
  }
}

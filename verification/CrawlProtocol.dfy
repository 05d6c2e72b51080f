/**
 The crawl as a state machine. Any number of workers share a FIFO task queue, the
 counter of active tasks, the seen filter and the shutdown flag; the storage
 service pushes sitemap URLs to the same queue, and may restart. Every access to something shared
 is a step of its own, and steps of different workers interleave at will.
 */
module CrawlProtocol {
  import opened Wrappers

  const MODULUS: nat := 0x1_0000_0000_0000_0000

  /** A 64-bit `AtomicUsize`: `fetch_add` and `fetch_sub` wrap around. */
  type usize = n: nat | n < MODULUS

  function FetchAdd(a: usize, n: int): usize {
    (a + n) % MODULUS
  }

  datatype Url = Url(text: string, domain: Option<string>)

  datatype Exit = SawShutdown | PopTimedOut | PopFailed | BadUrl | PushFailed

  /** Where a worker is in its loop. */
  datatype Pc =
    | Top                                                   // about to look at the shutdown flag
    | Popping                                               // in `pop_front`
    | Popped(url: Url)                                      // about to ask for the domain and the rate limiter
    | Requeueing(url: Url)                                  // refused by the limiter, about to push the URL back
    | RequeueFailed(url: Url)                               // about to give the URL up
    | Fetching(url: Url, counted: bool)                     // in `process_single_url`, holding a task guard
    | Filtering(url: Url, links: seq<Url>, kept: seq<Url>)  // asking the seen filter about each link
    | Pushing(url: Url, kept: seq<Url>, attempt: nat)       // in `push_bulk`
    | Adding(url: Url, added: nat)                          // pushed, but not yet added to the counter
    | Leaving(url: Url, failed: bool)                       // about to drop the task guard
    | Exited(exit: Exit)

  datatype Call = Call(worker: nat, url: Url)

  datatype Reason = WithoutDomain | Unparsable | NotRequeued | NotPushed | StorageGaveUp | StorageRestarted

  datatype Dropped = Dropped(url: Url, reason: Reason)

  datatype State = State(
    queue: seq<Url>,
    active: usize,
    pages: nat,
    cancelled: bool,
    limit: Option<nat>,
    seen: set<Url>,         // URLs recorded in the filter, which is part of the storage service
    workers: seq<Pc>,
    storage: Option<Url>,   // a sitemap URL the storage service is about to push
    storagePushes: nat,     // history: how many it has pushed
    calls: seq<Call>,       // history: the calls of `process_single_url`
    dropped: seq<Dropped>)  // history: the URLs given up

  /** The filter's reply to an insertion. It may be wrong about a new URL, never about a recorded one. */
  datatype Reply = Fresh | Seen | Failed(recorded: bool)

  /** The atomic actions of a worker. */
  datatype Move =
    | CheckShutdown
    | Pop
    | PopUnparsable
    | PopTimeout
    | PopError
    | DropWithoutDomain
    | Acquire(granted: bool)
    | Requeue(ok: bool)
    | GiveUp
    | CountPage
    | FetchOk(links: seq<Url>)
    | FetchError
    | InsertUrl(reply: Reply)
    | FilterDone
    | PushBulk(ok: bool)
    | AddTasks
    | DropGuard

  datatype Step =
    | Work(w: nat, move: Move)
    | Cancel
    | MonitorTick
    | StorageInsert(url: Url, reply: Reply)
    | StoragePush(ok: bool)
    | StorageRestart

  predicate NoRepeats<T(==)>(s: seq<T>) {
    forall i, j :: 0 <= i < j < |s| ==> s[i] != s[j]
  }

  /** The filter never calls a recorded URL fresh. */
  predicate CanReply(seen: set<Url>, u: Url, reply: Reply) {
    reply.Fresh? ==> u !in seen
  }

  function Recorded(seen: set<Url>, u: Url, reply: Reply): set<Url> {
    if reply.Failed? && !reply.recorded then seen else seen + {u}
  }

  /** Whether worker `w` can make the move. */
  predicate CanMove(s: State, w: nat, move: Move) {
    w < |s.workers| &&
    var pc := s.workers[w];
    match move
    case CheckShutdown => pc.Top?
    case Pop => pc.Popping? && s.queue != []
    case PopUnparsable => pc.Popping? && s.queue != []
    case PopTimeout => pc.Popping? && s.queue == []
    case PopError => pc.Popping?
    case DropWithoutDomain => pc.Popped? && pc.url.domain.None?
    case Acquire(_) => pc.Popped? && pc.url.domain.Some?
    case Requeue(_) => pc.Requeueing?
    case GiveUp => pc.RequeueFailed?
    case CountPage => pc.Fetching? && !pc.counted
    case FetchOk(links) => pc.Fetching? && NoRepeats(links)
    case FetchError => pc.Fetching? && !pc.counted
    case InsertUrl(reply) => pc.Filtering? && pc.links != [] && CanReply(s.seen, pc.links[0], reply)
    case FilterDone => pc.Filtering? && pc.links == []
    case PushBulk(_) => pc.Pushing?
    case AddTasks => pc.Adding?
    case DropGuard => pc.Leaving?
  }

  function At(s: State, w: nat, pc: Pc): State
    requires w < |s.workers|
  {
    s.(workers := s.workers[w := pc])
  }

  /** The state after worker `w` made the move. */
  function Moved(s: State, w: nat, move: Move): State
    requires CanMove(s, w, move)
  {
    var pc := s.workers[w];
    match move
    case CheckShutdown => At(s, w, if s.cancelled then Exited(SawShutdown) else Popping)
    case Pop => At(s, w, Popped(s.queue[0])).(queue := s.queue[1..])
    case PopUnparsable =>
      At(s, w, Exited(BadUrl)).(queue := s.queue[1..], dropped := s.dropped + [Dropped(s.queue[0], Unparsable)])
    case PopTimeout => At(s, w, Exited(PopTimedOut))
    case PopError => At(s, w, Exited(PopFailed))
    case DropWithoutDomain =>
      At(s, w, Top).(active := FetchAdd(s.active, -1), dropped := s.dropped + [Dropped(pc.url, WithoutDomain)])
    case Acquire(granted) =>
      if granted then At(s, w, Fetching(pc.url, false)).(calls := s.calls + [Call(w, pc.url)])
      else At(s, w, Requeueing(pc.url))
    case Requeue(ok) =>
      if ok then At(s, w, Top).(queue := s.queue + [pc.url]) else At(s, w, RequeueFailed(pc.url))
    case GiveUp =>
      At(s, w, Top).(active := FetchAdd(s.active, -1), dropped := s.dropped + [Dropped(pc.url, NotRequeued)])
    case CountPage => At(s, w, Fetching(pc.url, true)).(pages := s.pages + 1)
    case FetchOk(links) => At(s, w, Filtering(pc.url, links, []))
    case FetchError => At(s, w, Leaving(pc.url, false))
    case InsertUrl(reply) =>
      var u := pc.links[0];
      At(s, w, Filtering(pc.url, pc.links[1..], if reply.Fresh? then pc.kept + [u] else pc.kept))
      .(seen := Recorded(s.seen, u, reply))
    case FilterDone => At(s, w, if pc.kept == [] then Leaving(pc.url, false) else Pushing(pc.url, pc.kept, 1))
    case PushBulk(ok) =>
      if ok then At(s, w, Adding(pc.url, |pc.kept|)).(queue := s.queue + pc.kept)
      else if pc.attempt < 3 then At(s, w, Pushing(pc.url, pc.kept, pc.attempt + 1))
      else At(s, w, Leaving(pc.url, true)).(dropped := s.dropped + AllDropped(pc.kept, NotPushed))
    case AddTasks => At(s, w, Leaving(pc.url, false)).(active := FetchAdd(s.active, pc.added))
    case DropGuard =>
      At(s, w, if pc.failed then Exited(PushFailed) else Top).(active := FetchAdd(s.active, -1))
  }

  predicate Enabled(s: State, step: Step) {
    match step
    case Work(w, move) => CanMove(s, w, move)
    case Cancel => true
    case MonitorTick => true
    case StorageInsert(u, reply) => s.storage.None? && !reply.Failed? && CanReply(s.seen, u, reply)
    case StoragePush(_) => s.storage.Some?
    case StorageRestart => true
  }

  function AllDropped(urls: seq<Url>, reason: Reason): seq<Dropped> {
    seq(|urls|, i requires 0 <= i < |urls| => Dropped(urls[i], reason))
  }

  /** The monitor stops the crawl when the counter reads 0 or the page limit is reached. */
  predicate MonitorStops(s: State) {
    s.active == 0 || (s.limit.Some? && s.limit.value <= s.pages)
  }

  function Next(s: State, step: Step): State
    requires Enabled(s, step)
  {
    match step
    case Work(w, move) => Moved(s, w, move)
    case Cancel => s.(cancelled := true)
    case MonitorTick => if MonitorStops(s) then s.(cancelled := true) else s
    case StorageInsert(u, reply) =>
      s.(seen := Recorded(s.seen, u, reply), storage := if reply.Fresh? then Some(u) else None)
    case StoragePush(ok) =>
      var u := s.storage.value;
      if ok then s.(queue := s.queue + [u], storage := None, storagePushes := s.storagePushes + 1)
      else s.(storage := None, dropped := s.dropped + [Dropped(u, StorageGaveUp)])
    case StorageRestart =>
      s.(seen := {}, storage := None,
         dropped := s.dropped + if s.storage.Some? then [Dropped(s.storage.value, StorageRestarted)] else [])
  }

  // ----- Runs -----

  /** A run: each step is possible in the state that the steps before it lead to. */
  predicate IsRun(s: State, steps: seq<Step>)
    decreases |steps|, 0
  {
    steps == [] ||
    var n := |steps| - 1;
    IsRun(s, steps[..n]) && Enabled(Final(s, steps[..n]), steps[n])
  }

  function Final(s: State, steps: seq<Step>): State
    requires IsRun(s, steps)
    decreases |steps|, 1
  {
    if steps == [] then s
    else
      var n := |steps| - 1;
      Next(Final(s, steps[..n]), steps[n])
  }

  lemma NoSteps(s: State)
    ensures IsRun(s, []) && Final(s, []) == s
  {
  }

  lemma RunExtended(s: State, steps: seq<Step>, step: Step)
    requires IsRun(s, steps) && Enabled(Final(s, steps), step)
    ensures IsRun(s, steps + [step]) && Final(s, steps + [step]) == Next(Final(s, steps), step)
  {
    assert (steps + [step])[..|steps|] == steps;
  }

  /** How often the storage service restarts, and begins with an empty filter. */
  function Restarts(steps: seq<Step>): nat {
    if steps == [] then 0
    else Restarts(steps[..|steps| - 1]) + if steps[|steps| - 1].StorageRestart? then 1 else 0
  }

  /**
   How a run starts: the counter is the length of the queue less the storage pushes in it, and no worker has
   begun.
   */
  predicate IsStart(s: State) {
    && s.active == (|s.queue| - s.storagePushes) % MODULUS
    && s.pages == 0 && s.calls == [] && s.dropped == []
    && forall w :: 0 <= w < |s.workers| ==> s.workers[w] == Top
  }

  /** The URLs in the system when a run starts. */
  function AtStart(s: State): seq<Url> {
    s.queue + if s.storage.Some? then [s.storage.value] else []
  }

  /** ... and, unless it resumes an earlier queue, these are distinct and recorded as seen. */
  predicate IsFreshStart(s: State) {
    IsStart(s) && NoRepeats(AtStart(s)) && forall u :: u in AtStart(s) ==> u in s.seen
  }

  // ----- Adding up over the workers -----

  /** What is added up. */
  datatype Measure =
    | Hands            // URLs the counter still counts for a worker
    | Gap              // tasks pushed but not yet added to the counter
    | Leaks            // tasks lost with a URL that did not parse
    | Copies(u: Url)   // copies of `u` popped but not processed, or admitted but not pushed
    | Uncounted        // calls that may still add to the page count
    | MayCall          // workers that may start a call although the shutdown flag is set
    | MayCount         // workers that may add to the page count although the shutdown flag is set
    | WorkLeft(n: nat) // steps to come, if a page has at most `n` links

  function TimesIn(u: Url, urls: seq<Url>): nat {
    multiset(urls)[u]
  }

  function Weight(m: Measure, pc: Pc): nat {
    match m
    case Hands => if pc.Top? || pc.Popping? || pc.Exited? then 0 else 1
    case Gap => if pc.Adding? then pc.added else 0
    case Leaks => if pc == Exited(BadUrl) then 1 else 0
    case Copies(u) =>
      if pc.Popped? || pc.Requeueing? || pc.RequeueFailed? then (if pc.url == u then 1 else 0)
      else if pc.Filtering? || pc.Pushing? then TimesIn(u, pc.kept)
      else 0
    case Uncounted => if pc.Fetching? && !pc.counted then 1 else 0
    case MayCall => if pc.Popping? || pc.Popped? then 1 else 0
    case MayCount => if pc.Popping? || pc.Popped? || (pc.Fetching? && !pc.counted) then 1 else 0
    case WorkLeft(n) => StepsLeft(n, pc)
  }

  /** The price of an unprocessed URL, when a page has at most `n` links. */
  function Price(n: nat): nat {
    n + 10
  }

  function Prices(n: nat, urls: nat): nat {
    urls * Price(n)
  }

  function StepsLeft(n: nat, pc: Pc): nat {
    match pc
    case Top => 1
    case Popping => 1
    case Popped(_) => 1 + Price(n)
    case Requeueing(_) => 1 + Price(n)
    case RequeueFailed(_) => 2
    case Fetching(_, counted) => if counted then 9 + n else 10 + n
    case Filtering(_, links, kept) => 8 + |links| + Prices(n, |kept|)
    case Pushing(_, kept, attempt) => 4 + (if attempt < 4 then 4 - attempt else 0) + Prices(n, |kept|)
    case Adding(_, _) => 3
    case Leaving(_, _) => 2
    case Exited(_) => 0
  }

  function Total(m: Measure, workers: seq<Pc>): nat {
    if workers == [] then 0
    else Total(m, workers[..|workers| - 1]) + Weight(m, workers[|workers| - 1])
  }

  lemma {:induction false} TotalMoved(m: Measure, workers: seq<Pc>, w: nat, pc: Pc)
    requires w < |workers|
    ensures Total(m, workers[w := pc]) == Total(m, workers) - Weight(m, workers[w]) + Weight(m, pc)
  {
    hide Weight;
    var n := |workers| - 1;
    if w < n {
      TotalMoved(m, workers[..n], w, pc);
      assert workers[w := pc][..n] == workers[..n][w := pc];
    } else {
      assert workers[w := pc][..n] == workers[..n];
    }
  }

  lemma {:induction false} TotalAtMost(m: Measure, workers: seq<Pc>, k: nat)
    requires forall w :: 0 <= w < |workers| ==> Weight(m, workers[w]) <= k
    ensures Total(m, workers) <= |workers| * k
  {
    hide Weight;
    if workers != [] {
      var n := |workers| - 1;
      TotalAtMost(m, workers[..n], k);
      assert |workers| * k == n * k + k;
    }
  }

  lemma {:induction false} TotalAtLeast(m: Measure, workers: seq<Pc>, w: nat)
    requires w < |workers|
    ensures Weight(m, workers[w]) <= Total(m, workers)
  {
    hide Weight;
    var n := |workers| - 1;
    if w < n {
      TotalAtLeast(m, workers[..n], w);
    }
  }
}

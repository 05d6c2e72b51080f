/**
 The crawler's own code: how a run starts, one turn of a worker's loop, and the
 monitor. Each access to something shared is paired with its step of the protocol;
 between any two accesses, the other participants take steps of their own.
 */
module Crawler {
  import opened Wrappers
  import opened Selections
  import opened CrawlProtocol
  import opened TaskQueues
  import opened SeenFilter
  import opened RateLimiting

  /** The outcome of `process_single_url`. The two that call the limiter give the clock reading with which they do. */
  datatype Outcome =
    | FetchFails
    | Fetches(links: seq<Url>, saved: bool)
    | Reveals(delay: nat, readAt: nat, stored: bool)          // of an unknown domain
    | ReadsSitemap(readAt: nat, found: Option<seq<Url>>)
  {
    function Links(): Option<seq<Url>> {
      match this
      case FetchFails => None
      case Fetches(links, _) => Some(links)
      case Reveals(_, _, stored) => if stored then Some([]) else None
      case ReadsSitemap(_, found) => found
    }

    predicate IsCounted() {
      Fetches? && saved
    }

    /** What `process_single_url` does to the limiter. */
    function LimitsAfter(limits: Limits, domain: string, defaultDelay: nat): Limits
      requires domain in limits
    {
      match this
      case Reveals(delay, readAt, _) => Updated(limits, domain, readAt, delay)
      case ReadsSitemap(readAt, _) => Awaited(limits, domain, readAt, defaultDelay)
      case _ => limits
    }
  }

  /** What the network and the unseen libraries answer during a worker's turn. */
  datatype Answers = Answers(
    popOk: bool, parses: bool, now: nat, requeueOk: bool, fetch: Outcome,
    rpcOk: nat -> bool,        // whether the reply to the n-th filter request arrives
    rpcRecorded: nat -> bool,  // if not, whether the filter got the request
    pushOk: nat -> bool)       // whether attempt n to push succeeds
  {
    predicate Pushes() {
      pushOk(1) || pushOk(2) || pushOk(3)
    }

    /** The links that a fetch brings to the queue, if the filter has the positions `bits` set. */
    function NewLinks(bits: set<nat>, hashes: Url -> set<nat>): seq<Url> {
      if fetch.Links().None? then [] else Admitted(bits, hashes, Deduped(fetch.Links().value), this)
    }
  }

  datatype StartUrl = NotGiven | NoUrl | Given(url: Url)

  /** The answers while a run starts; the seed list may not be readable. */
  datatype StartAnswers = StartAnswers(
    emptyOk: bool, cleanOk: bool, lenOk: bool, pushOk: bool, seeds: Option<seq<Url>>,
    rpcOk: nat -> bool, rpcRecorded: nat -> bool)

  datatype Starting = Started | NothingToCrawl | StartFailed

  /**
   What the other participants do between two accesses: steps of the protocol, and calls that leave these
   entries in the limiter.
   */
  datatype Interference = Interference(steps: seq<Step>, limits: Limits)

  /** The URLs are distinct, and the filter has them. */
  predicate AreKnown(urls: seq<Url>, seen: set<Url>) {
    NoRepeats(urls) && forall u :: u in urls ==> u in seen
  }

  /** What is left of `outbound_links` without repeats; the order is of no consequence. */
  function Deduped(links: seq<Url>): (r: seq<Url>)
    ensures NoRepeats(r)
    ensures forall u :: u in r <==> u in links
  {
    if links == [] then []
    else
      var n := |links| - 1;
      var r := Deduped(links[..n]);
      assert links == links[..n] + [links[n]];
      if links[n] in r then r else r + [links[n]]
  }

  /** The positions set in the filter after the requests about `links`, if nobody else makes any. */
  function BitsAfter(bits: set<nat>, hashes: Url -> set<nat>, links: seq<Url>, a: Answers): set<nat> {
    if links == [] then bits
    else
      var n := |links| - 1;
      BitsAfter(bits, hashes, links[..n], a) + if a.rpcOk(n) || a.rpcRecorded(n) then hashes(links[n]) else {}
  }

  /** The links that the filter reports as new, if nobody else asks it. */
  function Admitted(bits: set<nat>, hashes: Url -> set<nat>, links: seq<Url>, a: Answers): seq<Url> {
    if links == [] then []
    else
      var n := |links| - 1;
      Admitted(bits, hashes, links[..n], a)
      + if a.rpcOk(n) && !(hashes(links[n]) <= BitsAfter(bits, hashes, links[..n], a)) then [links[n]] else []
  }

  /** Set are the positions set before and those of all links of which a request arrived. */
  lemma {:induction false} BitsAfterExactly(bits: set<nat>, hashes: Url -> set<nat>, links: seq<Url>, a: Answers,
                                            p: nat)
    ensures p in BitsAfter(bits, hashes, links, a) <==>
            p in bits || exists k :: 0 <= k < |links| && (a.rpcOk(k) || a.rpcRecorded(k)) && p in hashes(links[k])
  {
    if links != [] {
      BitsAfterExactly(bits, hashes, links[..|links| - 1], a, p);
    }
  }

  function PickLink(bits: set<nat>, hashes: Url -> set<nat>, links: seq<Url>, a: Answers): nat -> Option<Url> {
    (k: nat) =>
      if k < |links| && a.rpcOk(k) && !(hashes(links[k]) <= BitsAfter(bits, hashes, links[..k], a)) then Some(links[k])
      else None
  }

  /** The links admitted are, in order, those whose reply arrives and of which then not all positions are set. */
  lemma {:induction false} AdmittedExactly(bits: set<nat>, hashes: Url -> set<nat>, links: seq<Url>, a: Answers)
    returns (at: seq<nat>)
    ensures Selects(Admitted(bits, hashes, links, a), at, 0, |links|, PickLink(bits, hashes, links, a))
  {
    hide Selects, BitsAfter;
    var pick := PickLink(bits, hashes, links, a);
    if links == [] {
      at := [];
      SelectsNothing(0, pick);
    } else {
      var n := |links| - 1;
      var before := Admitted(bits, hashes, links[..n], a);
      at := AdmittedExactly(bits, hashes, links[..n], a);
      assert forall k :: 0 <= k < n ==> links[..n][..k] == links[..k];
      SelectsAlike(before, at, 0, n, PickLink(bits, hashes, links[..n], a), pick);
      SelectsOneMore(before, at, 0, n, pick);
      if pick(n).Some? {
        at := at + [n];
      } else {
        assert Admitted(bits, hashes, links, a) == before;
      }
    }
  }

  /** `part` is what is left of `whole` when some of its elements are taken out. */
  predicate IsSubsequence<T(==)>(part: seq<T>, whole: seq<T>)
    decreases |whole|
  {
    if whole == [] then part == []
    else
      var n := |whole| - 1;
      || IsSubsequence(part, whole[..n])
      || (part != [] && part[|part| - 1] == whole[n] && IsSubsequence(part[..|part| - 1], whole[..n]))
  }

  lemma OneMoreLink(kept: seq<Url>, links: seq<Url>, i: nat)
    requires i < |links| && IsSubsequence(kept, links[..i])
    ensures IsSubsequence(kept, links[..i + 1]) && IsSubsequence(kept + [links[i]], links[..i + 1])
  {
    assert links[..i + 1][..i] == links[..i] && (kept + [links[i]])[..|kept|] == kept;
  }

  lemma OneMoreDistinct(kept: seq<Url>, links: seq<Url>, i: nat)
    requires i < |links| && IsSubsequence(kept, links[..i]) && NoRepeats(kept) && NoRepeats(links)
    ensures NoRepeats(kept + [links[i]])
  {
    hide IsSubsequence;
    PartsAreMembers(kept, links[..i]);
    assert links[i] !in links[..i];
  }

  lemma {:induction false} PartsAreMembers(part: seq<Url>, whole: seq<Url>)
    requires IsSubsequence(part, whole)
    ensures forall u :: u in part ==> u in whole
    decreases |whole|
  {
    if whole != [] {
      var n := |whole| - 1;
      if IsSubsequence(part, whole[..n]) {
        PartsAreMembers(part, whole[..n]);
      } else {
        PartsAreMembers(part[..|part| - 1], whole[..n]);
        assert part == part[..|part| - 1] + [whole[n]];
      }
    }
  }

  lemma NoneRepeats()
    ensures NoRepeats<Url>([])
  {
  }

  /**
   The URLs are distinct, the filter with the positions `before` set knew none of them, and with `now` it has
   them all.
   */
  predicate AreNew(urls: seq<Url>, hashes: Url -> set<nat>, before: set<nat>, now: set<nat>) {
    NoRepeats(urls) && before <= now && forall u :: u in urls ==> !(hashes(u) <= before) && hashes(u) <= now
  }

  lemma AreNewStays(urls: seq<Url>, hashes: Url -> set<nat>, before: set<nat>, now: set<nat>, later: set<nat>)
    requires AreNew(urls, hashes, before, now) && now <= later
    ensures AreNew(urls, hashes, before, later)
  {
  }

  lemma OneMoreIsNew(urls: seq<Url>, hashes: Url -> set<nat>, before: set<nat>, now: set<nat>, u: Url, more: set<nat>)
    requires AreNew(urls, hashes, before, now)
    ensures AreNew(urls, hashes, before, now + more)
    ensures more == hashes(u) && !(hashes(u) <= now) ==> AreNew(urls + [u], hashes, before, now + more)
  {
  }

  lemma NoneAreNew(hashes: Url -> set<nat>, bits: set<nat>)
    ensures AreNew([], hashes, bits, bits)
  {
  }

  /** Links are admitted in order and once each, even if they repeat, and none that the filter may have known. */
  lemma {:induction false} AdmittedAreNew(bits: set<nat>, hashes: Url -> set<nat>, links: seq<Url>, a: Answers)
    ensures var r := Admitted(bits, hashes, links, a);
            IsSubsequence(r, links) && AreNew(r, hashes, bits, BitsAfter(bits, hashes, links, a))
  {
    hide IsSubsequence, AreNew;
    if links == [] {
      NoneAreNew(hashes, bits);
      NothingIsPartOfAll(links);
    } else {
      var n := |links| - 1;
      AdmittedAreNew(bits, hashes, links[..n], a);
      OneMoreLink(Admitted(bits, hashes, links[..n], a), links, n);
      OneMoreIsNew(Admitted(bits, hashes, links[..n], a), hashes, bits, BitsAfter(bits, hashes, links[..n], a),
                   links[n], if a.rpcOk(n) || a.rpcRecorded(n) then hashes(links[n]) else {});
      assert links[..n + 1] == links
             && Admitted(bits, hashes, links[..n], a) + [] == Admitted(bits, hashes, links[..n], a);
    }
  }

  lemma {:induction false} NothingIsPartOfAll(whole: seq<Url>)
    ensures IsSubsequence([], whole)
  {
    if whole != [] {
      NothingIsPartOfAll(whole[..|whole| - 1]);
    }
  }

  /** The URL that a step records in the filter. */
  function RecordedBy(s: State, step: Step): Option<Url>
    requires Enabled(s, step)
  {
    match step
    case Work(w, InsertUrl(reply)) => if reply.Failed? && !reply.recorded then None else Some(s.workers[w].links[0])
    case StorageInsert(u, _) => Some(u)
    case _ => None
  }

  /** What a step of others does to what this code works on. */
  lemma StepOfOthers(s: State, step: Step, w: nat)
    requires Enabled(s, step) && !(step.Work? && step.w == w)
    ensures var t := Next(s, step);
            && |t.workers| == |s.workers| && (w < |s.workers| ==> t.workers[w] == s.workers[w]) && t.limit == s.limit
            && t.seen == (if step.StorageRestart? then {} else s.seen)
                         + (if RecordedBy(s, step).Some? then {RecordedBy(s, step).value} else {})
            && (s.workers == [] ==> s.queue <= t.queue && t.active == s.active)
  {
    hide Moved, CanMove, CanReply;
    if step.Work? {
      MoveOfOthers(s, step.w, step.move, w);
    }
  }

  lemma MoveOfOthers(s: State, v: nat, move: Move, w: nat)
    requires CanMove(s, v, move) && v != w
    ensures var t := Moved(s, v, move);
            && s.workers != []
            && |t.workers| == |s.workers| && (w < |s.workers| ==> t.workers[w] == s.workers[w]) && t.limit == s.limit
            && t.seen == if move.InsertUrl? then Recorded(s.seen, s.workers[v].links[0], move.reply) else s.seen
  {
    hide FetchAdd, AllDropped, Recorded, CanReply, NoRepeats;
  }

  /** What a granted call leaves in the limiter: the reading, or that of the wait, and the delay revealed. */
  lemma FetchInFields(fetch: Outcome, limits: Limits, d: string, delay: nat, now: nat, defaultDelay: nat)
    ensures fetch.LimitsAfter(limits[d := DomainState(delay, now)], d, defaultDelay) ==
            limits[d := DomainState(if fetch.Reveals? then fetch.delay else delay,
                                    if fetch.ReadsSitemap? then fetch.readAt else now)]
  {
    var granted := limits[d := DomainState(delay, now)];
    assert forall x: DomainState {:trigger granted[d := x]} :: granted[d := x] == limits[d := x];
  }

  /** The links of a page or of a sitemap that the filter reports as new. */
  lemma NewLinksInFields(a: Answers, bits: set<nat>, hashes: Url -> set<nat>)
    ensures var found := if a.fetch.Fetches? then a.fetch.links
                         else if a.fetch.ReadsSitemap? && a.fetch.found.Some? then a.fetch.found.value
                         else [];
            a.NewLinks(bits, hashes) == Admitted(bits, hashes, Deduped(found), a)
  {
  }

  class CrawlerCore {
    var pagesCrawled: nat
    var activeTasks: usize
    var shutdown: bool
    const limit: Option<nat>
    const queue: TaskQueue
    const storage: SeenUrls
    const drl: DomainRateLimiter
    var state: State                     // the state of the protocol that the fields stand for
    const others: nat -> Interference    // what the other participants do before each access
    var accesses: nat

    ghost predicate Valid()
      reads this, queue, storage
    {
      && storage.Valid()
      && state.queue == queue.items && state.active == activeTasks && state.pages == pagesCrawled
      && state.cancelled == shutdown && state.limit == limit && state.seen == storage.inserted
    }

    /** The steps lead from `s` to where the crawl is now. */
    ghost predicate Follows(s: State, steps: seq<Step>)
      reads this, queue, storage
    {
      Valid() && IsRun(s, steps) && Final(s, steps) == state
    }

    ghost predicate IsAt(w: nat, pc: Pc)
      reads this
    {
      w < |state.workers| && state.workers[w] == pc
    }

    /** Nobody else does anything meanwhile. */
    ghost predicate Alone() {
      forall k: nat :: others(k) == Interference([], map[])
    }

    /** The storage service does not restart meanwhile. */
    ghost predicate FilterLasts() {
      forall k: nat, i :: 0 <= i < |others(k).steps| ==> !others(k).steps[i].StorageRestart?
    }

    /** ... which is so if the others have no steps and no calls of the limiter. */
    lemma AloneExactly()
      ensures Alone() <==> forall k: nat :: others(k).steps == [] && others(k).limits == map[]
      ensures FilterLasts() <==> forall k: nat :: StorageRestart !in others(k).steps
    {
      forall k: nat | FilterLasts()
        ensures StorageRestart !in others(k).steps
      {
        assert forall i :: 0 <= i < |others(k).steps| ==> others(k).steps[i] != StorageRestart;
      }
      if forall k: nat :: StorageRestart !in others(k).steps {
        forall k: nat, i | 0 <= i < |others(k).steps|
          ensures !others(k).steps[i].StorageRestart?
        {
          assert others(k).steps[i] in others(k).steps;
        }
      }
    }

    lemma AloneFilterLasts()
      ensures Alone() ==> FilterLasts()
    {
    }

    /** The filter may know URLs, `seen`, from an earlier run. */
    constructor (limit: Option<nat>, queue: TaskQueue, storage: SeenUrls, drl: DomainRateLimiter,
                 others: nat -> Interference, seen: set<Url>)
      requires storage.Valid() && storage.inserted == seen
      ensures this.limit == limit && this.queue == queue && this.storage == storage && this.drl == drl
              && this.others == others
      ensures Valid() && state.storage.None?
    {
      pagesCrawled, activeTasks, shutdown, accesses := 0, 0, false, 0;
      this.limit, this.queue, this.storage, this.drl, this.others := limit, queue, storage, drl, others;
      state := State(queue.items, 0, 0, false, limit, seen, [], None, 0, [], []);
    }

    /** Another participant takes a step, if it is possible and not worker `w`'s. */
    method LetOtherStep(w: nat, step: Step, ghost s: State, ghost steps0: seq<Step>) returns (ghost steps: seq<Step>)
      requires Follows(s, steps0)
      modifies this`state, this`activeTasks, this`pagesCrawled, this`shutdown, queue, storage
      ensures Follows(s, steps)
      ensures |state.workers| == |old(state.workers)|
              && (w < |state.workers| ==> state.workers[w] == old(state.workers[w]))
      ensures state == if Enabled(old(state), step) && !(step.Work? && step.w == w) then Next(old(state), step)
                       else old(state)
      ensures step.StorageRestart? || (old(storage.bits) <= storage.bits && old(state.seen) <= state.seen)
      ensures old(state.workers) == [] ==> old(queue.items) <= queue.items && activeTasks == old(activeTasks)
    {
      hide IsRun, Final, Enabled, Next, RecordedBy, CanReply;
      steps := steps0;
      if Enabled(state, step) && !(step.Work? && step.w == w) {
        RunExtended(s, steps, step);
        StepOfOthers(state, step, w);
        var u := RecordedBy(state, step);
        if step.StorageRestart? {
          storage.Reset();
        }
        if u.Some? {
          var _ := storage.InsertUrl(u.value);
        }
        state := Next(state, step);
        queue.items, activeTasks, pagesCrawled, shutdown := state.queue, state.active, state.pages, state.cancelled;
        steps := steps + [step];
      }
    }

    /** The other participants take their steps; worker `w` stays where it is. */
    method LetOthersRun(w: nat, ghost s: State, ghost steps0: seq<Step>) returns (ghost steps: seq<Step>)
      requires Follows(s, steps0)
      modifies this, queue, storage, drl
      ensures Follows(s, steps)
      ensures |state.workers| == |old(state.workers)|
              && (w < |state.workers| ==> state.workers[w] == old(state.workers[w]))
      ensures FilterLasts() ==> old(storage.bits) <= storage.bits && old(state.seen) <= state.seen
      ensures accesses == old(accesses) + 1 && drl.limits == old(drl.limits) + others(old(accesses)).limits
      ensures old(state.workers) == [] ==> old(queue.items) <= queue.items && activeTasks == old(activeTasks)
      ensures Alone() ==>
                && state == old(state) && storage.bits == old(storage.bits) && drl.limits == old(drl.limits)
                && pagesCrawled == old(pagesCrawled) && queue.items == old(queue.items)
    {
      hide IsRun, Final;
      steps := steps0;
      var o := others(accesses);
      accesses := accesses + 1;
      drl.limits := drl.limits + o.limits;
      for k := 0 to |o.steps|
        invariant Follows(s, steps)
        invariant |state.workers| == |old(state.workers)|
                  && (w < |state.workers| ==> state.workers[w] == old(state.workers[w]))
        invariant FilterLasts() ==> old(storage.bits) <= storage.bits && old(state.seen) <= state.seen
        invariant old(state.workers) == [] ==> old(queue.items) <= queue.items && activeTasks == old(activeTasks)
        invariant k == 0 ==> state == old(state) && storage.bits == old(storage.bits)
        modifies this`state, this`activeTasks, this`pagesCrawled, this`shutdown, queue, storage
      {
        steps := LetOtherStep(w, o.steps[k], s, steps);
      }
    }

    // ----- The beginning and the monitor -----

    /** As long as no worker has begun, the others only push to the queue. */
    method LetStorageRun()
      requires Valid() && state.workers == []
      modifies this, queue, storage, drl
      ensures Valid() && state.workers == []
      ensures old(queue.items) <= queue.items && activeTasks == old(activeTasks)
      ensures FilterLasts() ==> old(state.seen) <= state.seen
      ensures Alone() ==> state == old(state)
    {
      NoSteps(state);
      ghost var _ := LetOthersRun(0, state, []);
    }

    method RecordUrl(u: Url, ok: bool, recorded: bool)
      requires Valid()
      modifies this`state, storage
      ensures Valid() && state == old(state).(seen := old(state.seen) + if ok || recorded then {u} else {})
    {
      if ok || recorded {
        var _ := storage.InsertUrl(u);
        state := state.(seen := state.seen + {u});
      }
    }

    /** No worker is left from an earlier run. */
    method DismissWorkers()
      requires Valid()
      modifies this`state
      ensures Valid() && state == old(state).(workers := [])
    {
      state := state.(workers := []);
    }

    method SetCounter(n: usize)
      requires Valid()
      modifies this`activeTasks, this`state
      ensures Valid() && activeTasks == n && state == old(state).(active := n)
    {
      activeTasks := n;
      state := state.(active := n);
    }

    /**
     The beginning of `run`: with a start URL, an empty queue filled from the seed list, or what an
     earlier run left behind. Of the URLs then queued, the counter counts those in `counted`; the
     storage service has pushed the others meanwhile.
     */
    method Start(startUrl: StartUrl, tokioWorkers: nat, a: StartAnswers)
      returns (r: Starting, ghost before: seq<Url>, ghost counted: seq<Url>, ghost after: seq<Url>)
      requires Valid()
      modifies this, queue, storage, drl
      ensures r.Started? ==> Valid() && IsStart(state) && state.workers == seq(tokioWorkers, i => Top)
      ensures r.Started? ==>
                && queue.items == before + counted + after
                && state.storagePushes == |before| + |after| && state.active == activeTasks == |counted| % MODULUS
                && pagesCrawled == 0
      ensures r.Started? && startUrl.Given? ==> counted == [startUrl.url]
      ensures r.Started? && startUrl.NotGiven? && old(queue.items) == [] ==> a.seeds == Some(counted)
      ensures r.Started? && startUrl.NotGiven? && old(queue.items) != [] ==> before == [] && old(queue.items) <= counted
      ensures r.Started? && Alone() ==>
                before == after == [] && (startUrl.NotGiven? && old(queue.items) != [] ==> counted == old(queue.items))
      ensures r.Started? && Alone() && old(state.storage).None?
              && (startUrl.Given?
                  || (old(queue.items) == [] && NoRepeats(counted) && forall i: nat :: i < |counted| ==> a.rpcOk(i))
                  || (old(queue.items) != [] && AreKnown(counted, old(state.seen))))
              ==> IsFreshStart(state)
      ensures r.StartFailed? <==>
                || !a.emptyOk
                || (!startUrl.NotGiven? && old(queue.items) != [] && !a.cleanOk)
                || startUrl.NoUrl?
                || (startUrl.Given? && (!a.pushOk || !a.rpcOk(0)))
                || (startUrl.NotGiven? && old(queue.items) == []
                    && (a.seeds.None? || (a.seeds.value != [] && !a.pushOk)))
                || (startUrl.NotGiven? && old(queue.items) != [] && !a.lenOk)
      ensures r.NothingToCrawl? <==> a.emptyOk && startUrl.NotGiven? && old(queue.items) == [] && a.seeds == Some([])
      ensures !r.Started? && Alone() ==>
                queue.items == if startUrl.NotGiven? || !a.emptyOk || (old(queue.items) != [] && !a.cleanOk)
                               then old(queue.items)
                               else if startUrl.Given? && a.pushOk then [startUrl.url] else []
    {
      hide Valid, Alone, FilterLasts, AreKnown, IsFreshStart, IsStart;
      AloneFilterLasts();
      before, counted, after := [], [], [];
      DismissWorkers();
      var empty := queue.IsEmpty(a.emptyOk);
      if empty.None? {
        return StartFailed, [], [], [];
      }
      LetStorageRun();
      var n := 0;
      if !startUrl.NotGiven? {
        r, n, before, counted, after := StartFromUrl(startUrl, empty.value, a);
      } else if empty.value {
        r, n, before, counted, after := StartFromSeeds(a);
      } else {
        r, n, counted, after := StartFromQueue(a);
      }
      if r.Started? {
        assert [] + counted + [] == counted;
        Begin(n, tokioWorkers);
      }
    }

    /** The workers begin, with a counter that counts `n` of the URLs queued. */
    method Begin(n: nat, tokioWorkers: nat)
      requires Valid() && state.active == n % MODULUS && n <= |queue.items|
      modifies this`state, this`pagesCrawled
      ensures Valid() && IsStart(state) && pagesCrawled == 0 && state.active == activeTasks == old(state.active)
      ensures state.workers == seq(tokioWorkers, i => Top) && state.storagePushes == |queue.items| - n
      ensures state.queue == queue.items && state.seen == old(state.seen) && state.storage == old(state.storage)
      ensures state.storage.None? && AreKnown(queue.items, state.seen) ==> IsFreshStart(state)
    {
      pagesCrawled := 0;
      assert queue.items + [] == queue.items;
      state := State(queue.items, activeTasks, 0, shutdown, limit, state.seen,
                     seq(tokioWorkers, i => Top), state.storage, |queue.items| - n, [], []);
    }

    /** What an earlier run left is counted, but not made known to the filter. */
    method StartFromQueue(a: StartAnswers) returns (r: Starting, n: nat, ghost counted: seq<Url>, ghost after: seq<Url>)
      requires Valid() && state.workers == []
      modifies this, queue, storage, drl
      ensures r == if a.lenOk then Started else StartFailed
      ensures r.StartFailed? ==> queue.items == old(queue.items)
      ensures r.Started? ==>
                && Valid() && state.workers == [] && counted == old(queue.items)
                && queue.items == counted + after && n == |counted| && state.active == n % MODULUS
                && (Alone() ==> after == [] && state.seen == old(state.seen) && state.storage == old(state.storage))
    {
      var len := queue.Len(a.lenOk);
      if len.None? {
        return StartFailed, 0, [], [];
      }
      r, n, counted := Started, |queue.items|, queue.items;
      LetStorageRun();
      SetCounter(len.value);
      after := queue.items[|counted|..];
    }

    /** An earlier run's queue is deleted. */
    method CleanUp(empty: bool, ok: bool) returns (cleaned: bool)
      requires Valid() && state.workers == []
      modifies this, queue, storage, drl
      ensures cleaned == (empty || ok)
      ensures !cleaned ==> queue.items == old(queue.items)
      ensures cleaned ==> Valid() && state.workers == []
      ensures cleaned && Alone() ==>
                queue.items == (if empty then old(queue.items) else []) && state.storage == old(state.storage)
    {
      hide Alone, FilterLasts, IsRun, Final;
      if !empty {
        queue.CleanQueue(ok);
        if !ok {
          return false;
        }
        state := state.(queue := []);
        LetStorageRun();
      }
      return true;
    }

    method PushFirst(u: Url, ok: bool)
      requires Valid()
      modifies this`state, queue
      ensures Valid() && queue.items == state.queue
      ensures state == old(state).(queue := old(queue.items) + if ok then [u] else [])
    {
      queue.Push(u, ok);
      state := state.(queue := queue.items);
    }

    /** Only after the push is the URL made known to the filter. */
    method PushStart(u: Url, a: StartAnswers) returns (pushed: bool, ghost after: seq<Url>)
      requires Valid() && state.workers == []
      modifies this, queue, storage, drl
      ensures pushed == (a.pushOk && a.rpcOk(0))
      ensures !pushed && Alone() ==> queue.items == old(queue.items) + if a.pushOk then [u] else []
      ensures pushed ==>
                && Valid() && state.workers == [] && state.active == 1
                && queue.items == old(queue.items) + [u] + after && (FilterLasts() ==> u in state.seen)
                && (Alone() ==> after == [] && state.storage == old(state.storage))
    {
      hide Alone, FilterLasts, Valid;
      after := [];
      PushFirst(u, a.pushOk);
      if !a.pushOk {
        return false, [];
      }
      LetStorageRun();
      SetCounter(1);
      RecordUrl(u, a.rpcOk(0), a.rpcRecorded(0));
      if !a.rpcOk(0) {
        return false, [];
      }
      LetStorageRun();
      after := queue.items[|old(queue.items)| + 1..];
      pushed := true;
    }

    method StartFromUrl(startUrl: StartUrl, empty: bool, a: StartAnswers)
      returns (r: Starting, n: nat, ghost before: seq<Url>, ghost counted: seq<Url>, ghost after: seq<Url>)
      requires Valid() && state.workers == [] && !startUrl.NotGiven?
      modifies this, queue, storage, drl
      ensures r == if (!empty && !a.cleanOk) || startUrl.NoUrl? || !a.pushOk || !a.rpcOk(0) then StartFailed
                   else Started
      ensures r.StartFailed? && Alone() ==>
                queue.items == if !empty && !a.cleanOk then old(queue.items)
                               else (if empty then old(queue.items) else [])
                                    + if startUrl.Given? && a.pushOk then [startUrl.url] else []
      ensures r.Started? ==>
                && Valid() && state.workers == [] && counted == [startUrl.url]
                && queue.items == before + counted + after && n == 1 == state.active
                && (FilterLasts() ==> AreKnown(counted, state.seen))
                && (Alone() ==>
                      && before == (if empty then old(queue.items) else []) && after == []
                      && state.storage == old(state.storage))
    {
      hide Alone, FilterLasts, Valid;
      before, counted, after, n := [], [], [], 1;
      var cleaned := CleanUp(empty, a.cleanOk);
      if !cleaned || startUrl.NoUrl? {
        return StartFailed, 1, [], [], [];
      }
      before, counted := queue.items, [startUrl.url];
      var pushed;
      pushed, after := PushStart(startUrl.url, a);
      r := if pushed then Started else StartFailed;
    }

    /** The seeds are recorded before they are pushed, and pushed even if they could not be recorded. */
    method StartFromSeeds(a: StartAnswers)
      returns (r: Starting, n: nat, ghost before: seq<Url>, ghost counted: seq<Url>, ghost after: seq<Url>)
      requires Valid() && state.workers == []
      modifies this, queue, storage, drl
      ensures r == if a.seeds.None? then StartFailed
                   else if a.seeds.value == [] then NothingToCrawl
                   else if !a.pushOk then StartFailed else Started
      ensures !r.Started? && Alone() ==> queue.items == old(queue.items)
      ensures r.Started? ==>
                && Valid() && state.workers == [] && counted == a.seeds.value
                && queue.items == before + counted + after && n == |counted| && state.active == n % MODULUS
                && (FilterLasts() && NoRepeats(counted) && (forall i: nat :: i < |counted| ==> a.rpcOk(i)) ==>
                      AreKnown(counted, state.seen))
                && (Alone() ==> before == old(queue.items) && after == [] && state.storage == old(state.storage))
    {
      before, counted, after, n := [], [], [], 0;
      if a.seeds.None? {
        return StartFailed, 0, [], [], [];
      }
      var seeds := a.seeds.value;
      var filtered: seq<Url> := [];
      for i := 0 to |seeds|
        invariant Valid() && state.workers == [] && filtered == seeds[..i]
        invariant FilterLasts() && (forall j: nat :: j < |seeds| ==> a.rpcOk(j)) ==>
                    forall u :: u in filtered ==> u in state.seen
        invariant Alone() ==> queue.items == old(queue.items) && state.storage == old(state.storage)
      {
        RecordUrl(seeds[i], a.rpcOk(i), a.rpcRecorded(i));
        LetStorageRun();
        filtered := filtered + [seeds[i]];
      }
      if filtered == [] {
        return NothingToCrawl, 0, [], [], [];
      }
      before, counted := queue.items, seeds;
      var pushed := queue.PushBulk(filtered, a.pushOk);
      if pushed.None? {
        return StartFailed, 0, [], [], [];
      }
      state := state.(queue := queue.items);
      LetStorageRun();
      n := pushed.value;
      SetCounter(n % MODULUS);
      after := queue.items[|before| + |seeds|..];
      r := Started;
    }

    /** One tick of the monitor loop. */
    method Monitor() returns (stop: bool)
      requires Valid()
      modifies this
      ensures Valid() && state == Next(old(state), MonitorTick)
      ensures stop <==> old(activeTasks) == 0 || (limit.Some? && old(pagesCrawled) >= limit.value)
      ensures shutdown <==> old(shutdown) || stop
      ensures activeTasks == old(activeTasks) && pagesCrawled == old(pagesCrawled)
    {
      stop := activeTasks == 0 || (limit.Some? && limit.value <= pagesCrawled);
      if stop {
        shutdown := true;
      }
      state := Next(state, MonitorTick);
    }

    // ----- A worker's turn -----

    /** Pairs what the code just did with worker `w`'s move of the protocol. */
    method Pair(w: nat, move: Move, ghost s: State, ghost steps: seq<Step>) returns (ghost steps': seq<Step>)
      requires CanMove(state, w, move) && IsRun(s, steps) && Final(s, steps) == state
      modifies this`state
      ensures state == Moved(old(state), w, move)
      ensures IsRun(s, steps') && Final(s, steps') == state
    {
      RunExtended(s, steps, Work(w, move));
      steps' := steps + [Work(w, move)];
      state := Moved(state, w, move);
    }

    /** One turn of worker `w`'s loop: `exit` is none if the loop goes on. */
    method WorkerTurn(w: nat, a: Answers) returns (exit: Option<Exit>, ghost steps: seq<Step>)
      requires Valid() && IsAt(w, Top) && drl.defaultDelay <= a.now
      modifies this, queue, storage, drl
      ensures Follows(old(state), steps)
      ensures IsAt(w, if exit.Some? then Exited(exit.value) else Top)
      ensures exit == Some(SawShutdown) <==> old(shutdown)
      ensures exit == Some(PopFailed) <==> !old(shutdown) && !a.popOk
      ensures Alone() && !old(shutdown) && a.popOk && old(queue.items) == [] ==> exit == Some(PopTimedOut)
      ensures Alone() && !old(shutdown) && a.popOk && old(queue.items) != [] && !a.parses ==> exit == Some(BadUrl)
      ensures Alone() && (old(shutdown) || !a.popOk || old(queue.items) == [] || !a.parses) ==>
                && drl.limits == old(drl.limits) && state.calls == old(state.calls) && pagesCrawled == old(pagesCrawled)
                && queue.items == if old(shutdown) || !a.popOk || old(queue.items) == [] then old(queue.items)
                                  else old(queue.items)[1..]
      // A URL without a domain is dropped.
      ensures Alone() && !old(shutdown) && a.popOk && old(queue.items) != [] && a.parses
              && old(queue.items)[0].domain.None? ==>
                && exit == None && queue.items == old(queue.items)[1..]
                && drl.limits == old(drl.limits) && state.calls == old(state.calls) && pagesCrawled == old(pagesCrawled)
      // A URL that the limiter refuses goes to the end of the queue.
      ensures Alone() && !old(shutdown) && a.popOk && old(queue.items) != [] && a.parses ==>
                var url := old(queue.items)[0];
                url.domain.Some? && url.domain.value in old(drl.limits) ==>
                  var was := old(drl.limits)[url.domain.value];
                  was.delay > 0 && a.now < was.lastAccessed + was.delay ==>
                    && exit == None && queue.items == old(queue.items)[1..] + (if a.requeueOk then [url] else [])
                    && drl.limits == old(drl.limits) && state.calls == old(state.calls)
                    && pagesCrawled == old(pagesCrawled)
      // Any other is fetched: the entry gets the reading, or that of the wait for a sitemap, and the delay revealed.
      ensures Alone() && !old(shutdown) && a.popOk && old(queue.items) != [] && a.parses ==>
                var url := old(queue.items)[0];
                url.domain.Some? ==>
                  var d, limits := url.domain.value, old(drl.limits);
                  d !in limits || limits[d].delay == 0 || limits[d].lastAccessed + limits[d].delay <= a.now ==>
                    && state.calls == old(state.calls) + [Call(w, url)]
                    && pagesCrawled == old(pagesCrawled) + (if a.fetch.Fetches? && a.fetch.saved then 1 else 0)
                    && drl.limits == limits[d := DomainState(
                                              if a.fetch.Reveals? then a.fetch.delay
                                              else if d in limits then limits[d].delay else drl.defaultDelay,
                                              if a.fetch.ReadsSitemap? then a.fetch.readAt else a.now)]
      // New links go to the queue, unless all attempts to push them fail.
      ensures Alone() && !old(shutdown) && a.popOk && old(queue.items) != [] && a.parses ==>
                var url := old(queue.items)[0];
                url.domain.Some? ==>
                  var d, limits := url.domain.value, old(drl.limits);
                  d !in limits || limits[d].delay == 0 || limits[d].lastAccessed + limits[d].delay <= a.now ==>
                    var found := if a.fetch.Fetches? then a.fetch.links
                                 else if a.fetch.ReadsSitemap? && a.fetch.found.Some? then a.fetch.found.value
                                 else [];
                    var links := Admitted(old(storage.bits), storage.hashes, Deduped(found), a);
                    var pushed := a.pushOk(1) || a.pushOk(2) || a.pushOk(3);
                    && queue.items == old(queue.items)[1..] + (if pushed then links else [])
                    && exit == if links != [] && !pushed then Some(PushFailed) else None
    {
      hide IsRun, Final, Alone, HasHandled;
      ghost var s := state;
      NoSteps(s);
      steps := [];
      var stop;
      stop, steps := LookAtFlag(w, s, steps);
      if stop {
        return Some(SawShutdown), steps;
      }
      steps := LetOthersRun(w, s, steps);
      var popped;
      popped, steps := TakeUrl(w, a, s, steps);
      match popped {
        case QueueError => exit := Some(PopFailed);
        case ParseError => exit := Some(BadUrl);
        case Nothing => exit := Some(PopTimedOut);
        case GotUrl(url) =>
          exit, steps := Handle(w, url, a, s, steps);
          if Alone() {
            HandledInFields(w, url, a, exit, old(queue.items)[1..], old(storage.bits), old(drl.limits),
                            old(state.calls), old(pagesCrawled));
          }
      }
    }

    lemma HandledInFields(w: nat, url: Url, a: Answers, exit: Option<Exit>, items: seq<Url>, bits: set<nat>,
                          limits: Limits, calls: seq<Call>, pages: nat)
      requires drl.defaultDelay <= a.now && HasHandled(w, url, a, exit, items, bits, limits, calls, pages)
      ensures url.domain.None? ==>
                && exit == None && queue.items == items && drl.limits == limits
                && state.calls == calls && pagesCrawled == pages
      ensures url.domain.Some? ==>
                var d := url.domain.value;
                if d !in limits || limits[d].delay == 0 || limits[d].lastAccessed + limits[d].delay <= a.now then
                  var found := if a.fetch.Fetches? then a.fetch.links
                               else if a.fetch.ReadsSitemap? && a.fetch.found.Some? then a.fetch.found.value
                               else [];
                  var links := Admitted(bits, storage.hashes, Deduped(found), a);
                  var pushed := a.pushOk(1) || a.pushOk(2) || a.pushOk(3);
                  && state.calls == calls + [Call(w, url)]
                  && pagesCrawled == pages + (if a.fetch.Fetches? && a.fetch.saved then 1 else 0)
                  && drl.limits == limits[d := DomainState(
                                            if a.fetch.Reveals? then a.fetch.delay
                                            else if d in limits then limits[d].delay else drl.defaultDelay,
                                            if a.fetch.ReadsSitemap? then a.fetch.readAt else a.now)]
                  && queue.items == items + (if pushed then links else [])
                  && exit == (if links != [] && !pushed then Some(PushFailed) else None)
                else
                  && exit == None && queue.items == items + (if a.requeueOk then [url] else [])
                  && drl.limits == limits && state.calls == calls && pagesCrawled == pages
    {
      hide Grants, Acquired, EntryOr, Outcome.LimitsAfter, Answers.NewLinks, Admitted, Deduped;
      if url.domain.Some? {
        var d := url.domain.value;
        AcquiredInFields(limits, d, a.now, drl.defaultDelay);
        NewLinksInFields(a, bits, storage.hashes);
        if Grants(EntryOr(limits, d, a.now, drl.defaultDelay), a.now) {
          FetchInFields(a.fetch, limits, d, if d in limits then limits[d].delay else drl.defaultDelay, a.now,
                        drl.defaultDelay);
        }
      }
    }

    method LookAtFlag(w: nat, ghost s: State, ghost steps0: seq<Step>) returns (stop: bool, ghost steps: seq<Step>)
      requires Follows(s, steps0) && IsAt(w, Top)
      modifies this`state
      ensures Follows(s, steps) && stop == shutdown && IsAt(w, if stop then Exited(SawShutdown) else Popping)
      ensures state.calls == old(state.calls)
    {
      hide IsRun, Final;
      stop := shutdown;
      steps := Pair(w, CheckShutdown, s, steps0);
    }

    /** Waits for a URL, which leaves the queue even if it then does not parse. */
    method TakeUrl(w: nat, a: Answers, ghost s: State, ghost steps0: seq<Step>)
      returns (popped: Popping, ghost steps: seq<Step>)
      requires Follows(s, steps0) && IsAt(w, Popping)
      modifies this`state, queue
      ensures Follows(s, steps)
      ensures queue.items == if a.popOk && old(queue.items) != [] then old(queue.items)[1..] else old(queue.items)
      ensures popped == if !a.popOk then QueueError
                        else if old(queue.items) == [] then Nothing
                        else if a.parses then GotUrl(old(queue.items)[0])
                        else ParseError
      ensures IsAt(w, match popped
                      case QueueError => Exited(PopFailed)
                      case ParseError => Exited(BadUrl)
                      case Nothing => Exited(PopTimedOut)
                      case GotUrl(url) => Popped(url))
      ensures state.calls == old(state.calls)
    {
      hide IsRun, Final;
      popped := queue.PopFront(a.popOk, a.parses);
      match popped {
        case QueueError => steps := Pair(w, PopError, s, steps0);
        case ParseError => steps := Pair(w, PopUnparsable, s, steps0);
        case Nothing => steps := Pair(w, PopTimeout, s, steps0);
        case GotUrl(_) => steps := Pair(w, Pop, s, steps0);
      }
    }

    /**
     What a worker who is alone has done with the URL that it popped; the parameters after `exit` are what was
     there before.
     */
    ghost predicate HasHandled(w: nat, url: Url, a: Answers, exit: Option<Exit>, items: seq<Url>, bits: set<nat>,
                               limits: Limits, calls: seq<Call>, pages: nat)
      requires drl.defaultDelay <= a.now
      reads this`state, this`pagesCrawled, queue, drl
    {
      if url.domain.None? then
        exit == None && queue.items == items && drl.limits == limits && state.calls == calls && pagesCrawled == pages
      else
        var d := url.domain.value;
        var acquired := Acquired(limits, d, a.now, drl.defaultDelay);
        if Grants(EntryOr(limits, d, a.now, drl.defaultDelay), a.now) then
          && drl.limits == a.fetch.LimitsAfter(acquired, d, drl.defaultDelay)
          && state.calls == calls + [Call(w, url)]
          && HasProcessed(a, exit, items, bits, pages)
        else
          && exit == None && drl.limits == acquired && state.calls == calls && pagesCrawled == pages
          && queue.items == items + if a.requeueOk then [url] else []
    }

    /** ... and with the URL that it may fetch: new links go to the queue, unless all attempts to push them fail. */
    ghost predicate HasProcessed(a: Answers, exit: Option<Exit>, items: seq<Url>, bits: set<nat>, pages: nat)
      reads this`pagesCrawled, queue
    {
      var links := a.NewLinks(bits, storage.hashes);
      && pagesCrawled == pages + (if a.fetch.IsCounted() then 1 else 0)
      && queue.items == items + (if a.Pushes() then links else [])
      && exit == if links != [] && !a.Pushes() then Some(PushFailed) else None
    }

    /** What a worker does with the URL it popped. */
    method Handle(w: nat, url: Url, a: Answers, ghost s: State, ghost steps0: seq<Step>)
      returns (exit: Option<Exit>, ghost steps: seq<Step>)
      requires Follows(s, steps0) && IsAt(w, Popped(url)) && drl.defaultDelay <= a.now
      modifies this, queue, storage, drl
      ensures Follows(s, steps) && IsAt(w, if exit.Some? then Exited(exit.value) else Top)
      ensures exit.Some? ==> exit.value.PushFailed?
      ensures Alone() ==>
                HasHandled(w, url, a, exit, old(queue.items), old(storage.bits), old(drl.limits), old(state.calls),
                           old(pagesCrawled))
    {
      hide Follows, Grants, EntryOr, Alone, HasProcessed;
      exit := None;
      steps := LetOthersRun(w, s, steps0);
      if url.domain.None? {
        steps := DropUrl(w, url, s, steps);
        return;
      }
      var granted;
      granted, steps := AskLimiter(w, url, a.now, s, steps);
      steps := LetOthersRun(w, s, steps);
      if granted {
        exit, steps := Process(w, url, a, s, steps);
      } else {
        steps := PutBack(w, url, a.requeueOk, s, steps);
      }
    }

    /** A URL without a domain is not processed. */
    method DropUrl(w: nat, url: Url, ghost s: State, ghost steps0: seq<Step>) returns (ghost steps: seq<Step>)
      requires Follows(s, steps0) && IsAt(w, Popped(url)) && url.domain.None?
      modifies this`activeTasks, this`state
      ensures Follows(s, steps) && IsAt(w, Top)
      ensures activeTasks == FetchAdd(old(activeTasks), -1) && state.calls == old(state.calls)
    {
      hide IsRun, Final, FetchAdd;
      activeTasks := FetchAdd(activeTasks, -1);
      steps := Pair(w, DropWithoutDomain, s, steps0);
    }

    /** A call of `process_single_url` starts exactly if the limiter grants it, by the entry it has at this moment. */
    method AskLimiter(w: nat, url: Url, now: nat, ghost s: State, ghost steps0: seq<Step>)
      returns (granted: bool, ghost steps: seq<Step>)
      requires Follows(s, steps0) && IsAt(w, Popped(url)) && url.domain.Some?
      requires CanEnter(drl.limits, url.domain.value, now, drl.defaultDelay)
      modifies this`state, drl
      ensures Follows(s, steps) && IsAt(w, if granted then Fetching(url, false) else Requeueing(url))
      ensures granted == Grants(EntryOr(old(drl.limits), url.domain.value, now, drl.defaultDelay), now)
      ensures drl.limits == Acquired(old(drl.limits), url.domain.value, now, drl.defaultDelay)
      ensures state.calls == old(state.calls) + if granted then [Call(w, url)] else []
    {
      hide IsRun, Final, Grants, EntryOr, Acquired;
      granted := drl.TryAcquire(url.domain.value, now);
      steps := Pair(w, Acquire(granted), s, steps0);
    }

    /** The URL goes back to the end of the queue, or is given up. */
    method PutBack(w: nat, url: Url, ok: bool, ghost s: State, ghost steps0: seq<Step>) returns (ghost steps: seq<Step>)
      requires Follows(s, steps0) && IsAt(w, Requeueing(url))
      modifies this, queue, storage, drl
      ensures Follows(s, steps) && IsAt(w, Top)
      ensures Alone() ==>
                && drl.limits == old(drl.limits) && state.calls == old(state.calls) && pagesCrawled == old(pagesCrawled)
                && queue.items == old(queue.items) + if ok then [url] else []
    {
      hide Follows, Alone;
      steps := Requeue(w, url, ok, s, steps0);
      if !ok {
        steps := LetOthersRun(w, s, steps);
        steps := GiveUrlUp(w, url, s, steps);
      }
    }

    method Requeue(w: nat, url: Url, ok: bool, ghost s: State, ghost steps0: seq<Step>) returns (ghost steps: seq<Step>)
      requires Follows(s, steps0) && IsAt(w, Requeueing(url))
      modifies this`state, queue
      ensures Follows(s, steps) && IsAt(w, if ok then Top else RequeueFailed(url))
      ensures queue.items == old(queue.items) + (if ok then [url] else []) && state.calls == old(state.calls)
    {
      hide IsRun, Final, FetchAdd;
      queue.Push(url, ok);
      steps := Pair(w, Move.Requeue(ok), s, steps0);
    }

    method GiveUrlUp(w: nat, url: Url, ghost s: State, ghost steps0: seq<Step>) returns (ghost steps: seq<Step>)
      requires Follows(s, steps0) && IsAt(w, RequeueFailed(url))
      modifies this`activeTasks, this`state
      ensures Follows(s, steps) && IsAt(w, Top) && state.calls == old(state.calls)
      ensures activeTasks == FetchAdd(old(activeTasks), -1)
    {
      hide IsRun, Final, FetchAdd;
      activeTasks := FetchAdd(activeTasks, -1);
      steps := Pair(w, GiveUp, s, steps0);
    }

    /** What a worker does with a URL under a task guard. */
    method Process(w: nat, url: Url, a: Answers, ghost s: State, ghost steps0: seq<Step>)
      returns (exit: Option<Exit>, ghost steps: seq<Step>)
      requires Follows(s, steps0) && IsAt(w, Fetching(url, false))
      requires url.domain.Some? && url.domain.value in drl.limits
      modifies this, queue, storage, drl
      ensures Follows(s, steps) && IsAt(w, if exit.Some? then Exited(exit.value) else Top)
      ensures Alone() ==>
                && drl.limits == a.fetch.LimitsAfter(old(drl.limits), url.domain.value, drl.defaultDelay)
                && state.calls == old(state.calls)
                && HasProcessed(a, exit, old(queue.items), old(storage.bits), old(pagesCrawled))
      ensures exit.Some? ==> exit.value.PushFailed?
    {
      hide Follows, FetchAdd, Alone, Outcome.LimitsAfter, Outcome.IsCounted, Answers.NewLinks, Outcome.Links;
      CallLimiter(url.domain.value, a.fetch);
      steps := LetOthersRun(w, s, steps0);
      var pushFailed;
      pushFailed, steps := EndCall(w, url, a, s, steps);
      steps := LetOthersRun(w, s, steps);
      steps := EndTask(w, url, pushFailed, s, steps);
      exit := if pushFailed then Some(PushFailed) else None;
    }

    /** What a worker does with the result of `process_single_url`. */
    method EndCall(w: nat, url: Url, a: Answers, ghost s: State, ghost steps0: seq<Step>)
      returns (pushFailed: bool, ghost steps: seq<Step>)
      requires Follows(s, steps0) && IsAt(w, Fetching(url, false))
      modifies this, queue, storage, drl
      ensures Follows(s, steps) && IsAt(w, Leaving(url, pushFailed))
      ensures Alone() ==>
                && drl.limits == old(drl.limits) && state.calls == old(state.calls)
                && pagesCrawled == old(pagesCrawled) + (if a.fetch.IsCounted() then 1 else 0)
                && var links := a.NewLinks(old(storage.bits), storage.hashes);
                   && queue.items == old(queue.items) + (if a.Pushes() then links else [])
                   && (pushFailed <==> links != [] && !a.Pushes())
    {
      hide Follows, Alone;
      pushFailed := false;
      if a.fetch.Links().None? {
        steps := FailFetch(w, url, s, steps0);
      } else {
        pushFailed, steps := HandOnLinks(w, url, a, s, steps0);
      }
    }

    method FailFetch(w: nat, url: Url, ghost s: State, ghost steps0: seq<Step>) returns (ghost steps: seq<Step>)
      requires Follows(s, steps0) && IsAt(w, Fetching(url, false))
      modifies this`state
      ensures Follows(s, steps) && IsAt(w, Leaving(url, false)) && state.calls == old(state.calls)
    {
      hide IsRun, Final;
      steps := Pair(w, FetchError, s, steps0);
    }

    /** The task guard is dropped. */
    method EndTask(w: nat, url: Url, pushFailed: bool, ghost s: State, ghost steps0: seq<Step>)
      returns (ghost steps: seq<Step>)
      requires Follows(s, steps0) && IsAt(w, Leaving(url, pushFailed))
      modifies this`activeTasks, this`state
      ensures Follows(s, steps) && IsAt(w, if pushFailed then Exited(PushFailed) else Top)
      ensures activeTasks == FetchAdd(old(activeTasks), -1) && state.calls == old(state.calls)
    {
      hide IsRun, Final, FetchAdd;
      activeTasks := FetchAdd(activeTasks, -1);
      steps := Pair(w, DropGuard, s, steps0);
    }

    /** The calls of the limiter in `process_single_url`. */
    method CallLimiter(domain: string, o: Outcome)
      requires domain in drl.limits
      modifies drl
      ensures drl.limits == o.LimitsAfter(old(drl.limits), domain, drl.defaultDelay)
      ensures var was := old(drl.limits)[domain];
              drl.limits == old(drl.limits)[domain := match o
                                                      case Reveals(delay, _, _) => DomainState(delay, was.lastAccessed)
                                                      case ReadsSitemap(readAt, _) => DomainState(was.delay, readAt)
                                                      case _ => was]
    {
      match o {
        case Reveals(delay, readAt, _) => drl.UpdateDelay(domain, delay, readAt);
        case ReadsSitemap(readAt, _) => var _ := drl.AwaitAcquiring(domain, readAt);
        case _ =>
      }
    }

    /** Hands the new links of a page on to the queue. */
    method HandOnLinks(w: nat, url: Url, a: Answers, ghost s: State, ghost steps0: seq<Step>)
      returns (pushFailed: bool, ghost steps: seq<Step>)
      requires Follows(s, steps0) && IsAt(w, Fetching(url, false)) && a.fetch.Links().Some?
      modifies this, queue, storage, drl
      ensures Follows(s, steps) && IsAt(w, Leaving(url, pushFailed))
      ensures Alone() ==>
                && drl.limits == old(drl.limits) && state.calls == old(state.calls)
                && pagesCrawled == old(pagesCrawled) + (if a.fetch.IsCounted() then 1 else 0)
                && var links := a.NewLinks(old(storage.bits), storage.hashes);
                   && queue.items == old(queue.items) + (if a.Pushes() then links else [])
                   && (pushFailed <==> links != [] && !a.Pushes())
    {
      hide Follows, NoRepeats, Deduped, Alone, Admitted;
      pushFailed := false;
      var links := Deduped(a.fetch.Links().value);
      steps := EndFetch(w, url, links, a.fetch.IsCounted(), s, steps0);
      var filteredUrls;
      filteredUrls, steps := FilterLinks(w, url, links, a, s, steps);
      steps := EndFilter(w, url, filteredUrls, s, steps);
      if filteredUrls != [] {
        pushFailed, steps := PushFiltered(w, url, filteredUrls, a, s, steps);
      }
    }

    method EndFilter(w: nat, url: Url, kept: seq<Url>, ghost s: State, ghost steps0: seq<Step>)
      returns (ghost steps: seq<Step>)
      requires Follows(s, steps0) && IsAt(w, Filtering(url, [], kept))
      modifies this`state
      ensures Follows(s, steps) && IsAt(w, if kept == [] then Leaving(url, false) else Pushing(url, kept, 1))
      ensures state.calls == old(state.calls)
    {
      hide IsRun, Final;
      steps := Pair(w, FilterDone, s, steps0);
    }

    /** The outcome of a successful fetch: a page may be counted. */
    method EndFetch(w: nat, url: Url, links: seq<Url>, saved: bool, ghost s: State, ghost steps0: seq<Step>)
      returns (ghost steps: seq<Step>)
      requires Follows(s, steps0) && IsAt(w, Fetching(url, false)) && NoRepeats(links)
      modifies this, queue, storage, drl
      ensures Follows(s, steps) && IsAt(w, Filtering(url, links, []))
      ensures Alone() ==>
                && drl.limits == old(drl.limits) && storage.bits == old(storage.bits) && state.calls == old(state.calls)
                && queue.items == old(queue.items)
                && pagesCrawled == old(pagesCrawled) + if saved then 1 else 0
    {
      hide IsRun, Final, NoRepeats, Alone;
      steps := steps0;
      if saved {
        pagesCrawled := pagesCrawled + 1;
        steps := Pair(w, CountPage, s, steps);
        steps := LetOthersRun(w, s, steps);
      }
      steps := Pair(w, FetchOk(links), s, steps);
    }

    /** Asks the seen filter about the next link; the request or its reply may get lost. */
    method AskFilter(w: nat, url: Url, links: seq<Url>, kept: seq<Url>, ok: bool, recorded: bool,
                     ghost s: State, ghost steps0: seq<Step>)
      returns (isNew: bool, ghost steps: seq<Step>)
      requires Follows(s, steps0) && links != [] && IsAt(w, Filtering(url, links, kept))
      modifies this`state, storage
      ensures Follows(s, steps) && IsAt(w, Filtering(url, links[1..], if isNew then kept + [links[0]] else kept))
      ensures isNew <==> ok && !(storage.hashes(links[0]) <= old(storage.bits))
      ensures storage.bits == old(storage.bits) + if ok || recorded then storage.hashes(links[0]) else {}
      ensures state.calls == old(state.calls)
    {
      hide IsRun, Final;
      isNew := false;
      if ok {
        var isDuplicate := storage.InsertUrl(links[0]);
        steps := Pair(w, InsertUrl(if isDuplicate then Seen else Fresh), s, steps0);
        isNew := !isDuplicate;
      } else {
        if recorded {
          var _ := storage.InsertUrl(links[0]);
        }
        steps := Pair(w, InsertUrl(Failed(recorded)), s, steps0);
      }
    }

    /** Asks about the link number `i`; others may ask about theirs before. */
    method FilterNext(w: nat, url: Url, links: seq<Url>, i: nat, kept: seq<Url>, ghost before: set<nat>, a: Answers,
                      ghost s: State, ghost steps0: seq<Step>)
      returns (kept': seq<Url>, ghost steps: seq<Step>)
      requires Follows(s, steps0) && i < |links| && IsAt(w, Filtering(url, links[i..], kept))
      requires IsSubsequence(kept, links[..i]) && (NoRepeats(links) ==> NoRepeats(kept))
      requires FilterLasts() ==> AreNew(kept, storage.hashes, before, storage.bits)
      modifies this, queue, storage, drl
      ensures Follows(s, steps) && IsAt(w, Filtering(url, links[i + 1..], kept'))
      ensures IsSubsequence(kept', links[..i + 1]) && (NoRepeats(links) ==> NoRepeats(kept'))
      ensures FilterLasts() ==> AreNew(kept', storage.hashes, before, storage.bits)
      ensures Alone() ==>
                && kept' == kept + (if a.rpcOk(i) && !(storage.hashes(links[i]) <= old(storage.bits)) then [links[i]]
                                    else [])
                && storage.bits == old(storage.bits)
                     + (if a.rpcOk(i) || a.rpcRecorded(i) then storage.hashes(links[i]) else {})
                && drl.limits == old(drl.limits) && state.calls == old(state.calls) && pagesCrawled == old(pagesCrawled)
                && queue.items == old(queue.items)
    {
      hide Follows, IsSubsequence, Alone, FilterLasts, NoRepeats, AreNew;
      steps := LetOthersRun(w, s, steps0);
      assert links[i..][0] == links[i] && links[i..][1..] == links[i + 1..];
      if FilterLasts() {
        AreNewStays(kept, storage.hashes, before, old(storage.bits), storage.bits);
        OneMoreIsNew(kept, storage.hashes, before, storage.bits, links[i],
                     if a.rpcOk(i) || a.rpcRecorded(i) then storage.hashes(links[i]) else {});
      }
      var isNew;
      isNew, steps := AskFilter(w, url, links[i..], kept, a.rpcOk(i), a.rpcRecorded(i), s, steps);
      OneMoreLink(kept, links, i);
      if NoRepeats(links) {
        OneMoreDistinct(kept, links, i);
      }
      kept' := kept + if isNew then [links[i]] else [];
    }

    /** Asks the seen filter about each link in turn. */
    method FilterLinks(w: nat, url: Url, links: seq<Url>, a: Answers, ghost s: State, ghost steps0: seq<Step>)
      returns (filteredUrls: seq<Url>, ghost steps: seq<Step>)
      requires Follows(s, steps0) && IsAt(w, Filtering(url, links, []))
      modifies this, queue, storage, drl
      ensures Follows(s, steps) && IsAt(w, Filtering(url, [], filteredUrls))
      ensures IsSubsequence(filteredUrls, links) && (NoRepeats(links) ==> NoRepeats(filteredUrls))
      ensures FilterLasts() ==> AreNew(filteredUrls, storage.hashes, old(storage.bits), storage.bits)
      ensures Alone() ==>
                && filteredUrls == Admitted(old(storage.bits), storage.hashes, links, a)
                && drl.limits == old(drl.limits) && state.calls == old(state.calls) && pagesCrawled == old(pagesCrawled)
                && queue.items == old(queue.items)
    {
      hide Follows, IsSubsequence, Alone, FilterLasts, NoRepeats, AreNew;
      steps := steps0;
      filteredUrls := [];
      assert links[0..] == links;
      NothingIsPartOfAll(links[..0]);
      assert NoRepeats(filteredUrls) by { NoneRepeats(); }
      NoneAreNew(storage.hashes, storage.bits);
      for i := 0 to |links|
        invariant Follows(s, steps) && IsAt(w, Filtering(url, links[i..], filteredUrls))
        invariant IsSubsequence(filteredUrls, links[..i]) && (NoRepeats(links) ==> NoRepeats(filteredUrls))
        invariant FilterLasts() ==> AreNew(filteredUrls, storage.hashes, old(storage.bits), storage.bits)
        invariant Alone() ==>
                    && filteredUrls == Admitted(old(storage.bits), storage.hashes, links[..i], a)
                    && storage.bits == BitsAfter(old(storage.bits), storage.hashes, links[..i], a)
                    && drl.limits == old(drl.limits) && state.calls == old(state.calls)
                    && pagesCrawled == old(pagesCrawled)
                    && queue.items == old(queue.items)
      {
        assert links[i..][0] == links[i] && links[i..][1..] == links[i + 1..] && links[..i + 1][..i] == links[..i];
        filteredUrls, steps := FilterNext(w, url, links, i, filteredUrls, old(storage.bits), a, s, steps);
      }
      assert links[|links|..] == [] && links[..|links|] == links;
    }

    /** One attempt to push the new links. */
    method Attempt(w: nat, url: Url, filteredUrls: seq<Url>, i: nat, ok: bool, ghost s: State, ghost steps0: seq<Step>)
      returns (added: bool, ghost steps: seq<Step>)
      requires Follows(s, steps0) && filteredUrls != [] && IsAt(w, Pushing(url, filteredUrls, i))
      modifies this, queue, storage, drl
      ensures Follows(s, steps) && added == ok
      ensures IsAt(w, if ok then Leaving(url, false)
                      else if i < 3 then Pushing(url, filteredUrls, i + 1)
                      else Leaving(url, true))
      ensures Alone() ==>
                && drl.limits == old(drl.limits) && state.calls == old(state.calls) && pagesCrawled == old(pagesCrawled)
                && queue.items == old(queue.items) + if ok then filteredUrls else []
    {
      hide Follows, Alone;
      var addedCount;
      addedCount, steps := PushOnce(w, url, filteredUrls, i, ok, s, steps0);
      if addedCount.Some? {
        steps := LetOthersRun(w, s, steps);
        steps := CountAdded(w, url, addedCount.value, s, steps);
      }
      added := addedCount.Some?;
    }

    method PushOnce(w: nat, url: Url, filteredUrls: seq<Url>, i: nat, ok: bool, ghost s: State, ghost steps0: seq<Step>)
      returns (addedCount: Option<nat>, ghost steps: seq<Step>)
      requires Follows(s, steps0) && filteredUrls != [] && IsAt(w, Pushing(url, filteredUrls, i))
      modifies this`state, queue
      ensures Follows(s, steps) && addedCount == if ok then Some(|filteredUrls|) else None
      ensures IsAt(w, if ok then Adding(url, |filteredUrls|)
                      else if i < 3 then Pushing(url, filteredUrls, i + 1)
                      else Leaving(url, true))
      ensures queue.items == old(queue.items) + (if ok then filteredUrls else []) && state.calls == old(state.calls)
    {
      hide IsRun, Final, AllDropped;
      addedCount := queue.PushBulk(filteredUrls, ok);
      steps := Pair(w, PushBulk(ok), s, steps0);
    }

    method CountAdded(w: nat, url: Url, n: nat, ghost s: State, ghost steps0: seq<Step>)
      returns (ghost steps: seq<Step>)
      requires Follows(s, steps0) && IsAt(w, Adding(url, n))
      modifies this`activeTasks, this`state
      ensures Follows(s, steps) && IsAt(w, Leaving(url, false)) && state.calls == old(state.calls)
      ensures activeTasks == FetchAdd(old(activeTasks), n)
    {
      hide IsRun, Final, FetchAdd;
      activeTasks := FetchAdd(activeTasks, n);
      steps := Pair(w, AddTasks, s, steps0);
    }

    /** Pushes the new links, with three attempts, and adds them to the counter. */
    method PushFiltered(w: nat, url: Url, filteredUrls: seq<Url>, a: Answers, ghost s: State, ghost steps0: seq<Step>)
      returns (pushFailed: bool, ghost steps: seq<Step>)
      requires Follows(s, steps0) && filteredUrls != [] && IsAt(w, Pushing(url, filteredUrls, 1))
      modifies this, queue, storage, drl
      ensures Follows(s, steps) && IsAt(w, Leaving(url, pushFailed))
      ensures pushFailed <==> !a.pushOk(1) && !a.pushOk(2) && !a.pushOk(3)
      ensures Alone() ==>
                && drl.limits == old(drl.limits) && state.calls == old(state.calls) && pagesCrawled == old(pagesCrawled)
                && queue.items == old(queue.items) + if a.Pushes() then filteredUrls else []
    {
      hide Follows, Alone;
      steps := steps0;
      for i := 1 to 4
        invariant Follows(s, steps) && IsAt(w, if i < 4 then Pushing(url, filteredUrls, i) else Leaving(url, true))
        invariant forall j :: 1 <= j < i ==> !a.pushOk(j)
        invariant Alone() ==>
                    && drl.limits == old(drl.limits) && state.calls == old(state.calls)
                    && pagesCrawled == old(pagesCrawled)
                    && queue.items == old(queue.items)
      {
        steps := LetOthersRun(w, s, steps);
        var added;
        added, steps := Attempt(w, url, filteredUrls, i, a.pushOk(i), s, steps);
        if added {
          return false, steps;
        }
      }
      return true, steps;
    }
  }
}

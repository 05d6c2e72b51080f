/** The one consumer of the event stream: it stores what workers found, pushes sitemaps, and acknowledges. */
module StreamConsumption {
  import opened Wrappers
  import opened Selections
  import opened Simhash
  import opened CrawlProtocol
  import opened ContentDeduplication
  import opened TaskQueues
  import opened SeenFilter
  import opened Database
  import opened Storage
  import opened StorageService

  /** An entry of the stream: what its payload, if it has one, decodes to. */
  datatype Entry = NoPayload | Undecodable | Event(data: ParsedData)

  /** What the surroundings answer while an entry is handled. */
  datatype Surroundings = Surroundings(
    storage: Storage.Answers,
    parse: string -> Option<Url>,
    pushOk: (nat, nat) -> bool,  // whether attempt i to push sitemap n succeeds
    ackOk: bool)
  {
    predicate Pushes(n: nat) {
      pushOk(n, 1) || pushOk(n, 2) || pushOk(n, 3)
    }
  }

  /** The positions set in the filter once it was asked about `sitemaps`. */
  function BitsAfter(bits: set<nat>, hashes: Url -> set<nat>, sitemaps: seq<string>, a: Surroundings): set<nat> {
    if sitemaps == [] then bits
    else
      var n := |sitemaps| - 1;
      var u := a.parse(sitemaps[n]);
      BitsAfter(bits, hashes, sitemaps[..n], a) + if u.Some? then hashes(u.value) else {}
  }

  /** The sitemaps pushed: those that parse, that the filter reports as new, and that one of three attempts takes. */
  function Pushed(bits: set<nat>, hashes: Url -> set<nat>, sitemaps: seq<string>, a: Surroundings): seq<Url> {
    if sitemaps == [] then []
    else
      var n := |sitemaps| - 1;
      var u := a.parse(sitemaps[n]);
      Pushed(bits, hashes, sitemaps[..n], a)
      + if u.Some? && !(hashes(u.value) <= BitsAfter(bits, hashes, sitemaps[..n], a)) && a.Pushes(n) then [u.value]
        else []
  }

  /** Set are the positions set before and those of all sitemaps that parse. */
  lemma {:induction false} BitsAfterExactly(bits: set<nat>, hashes: Url -> set<nat>, sitemaps: seq<string>,
                                            a: Surroundings, p: nat)
    ensures p in BitsAfter(bits, hashes, sitemaps, a) <==>
            || p in bits
            || exists k :: 0 <= k < |sitemaps| && a.parse(sitemaps[k]).Some? && p in hashes(a.parse(sitemaps[k]).value)
  {
    if sitemaps != [] {
      BitsAfterExactly(bits, hashes, sitemaps[..|sitemaps| - 1], a, p);
    }
  }

  function PickSitemap(bits: set<nat>, hashes: Url -> set<nat>, sitemaps: seq<string>, a: Surroundings)
    : nat -> Option<Url>
  {
    (k: nat) =>
      if k < |sitemaps| && a.parse(sitemaps[k]).Some?
         && !(hashes(a.parse(sitemaps[k]).value) <= BitsAfter(bits, hashes, sitemaps[..k], a))
         && (a.pushOk(k, 1) || a.pushOk(k, 2) || a.pushOk(k, 3))
      then a.parse(sitemaps[k]) else None
  }

  /**
   The URLs pushed are, in order, those of the sitemaps that parse, of which then not all positions are set,
   and of which one of three attempts to push succeeds.
   */
  lemma {:induction false} PushedExactly(bits: set<nat>, hashes: Url -> set<nat>, sitemaps: seq<string>,
                                         a: Surroundings)
    returns (at: seq<nat>)
    ensures Selects(Pushed(bits, hashes, sitemaps, a), at, 0, |sitemaps|, PickSitemap(bits, hashes, sitemaps, a))
  {
    hide Selects, BitsAfter;
    var pick := PickSitemap(bits, hashes, sitemaps, a);
    if sitemaps == [] {
      at := [];
      SelectsNothing(0, pick);
    } else {
      var n := |sitemaps| - 1;
      var before := Pushed(bits, hashes, sitemaps[..n], a);
      at := PushedExactly(bits, hashes, sitemaps[..n], a);
      assert forall k :: 0 <= k < n ==> sitemaps[..n][..k] == sitemaps[..k];
      SelectsAlike(before, at, 0, n, PickSitemap(bits, hashes, sitemaps[..n], a), pick);
      SelectsOneMore(before, at, 0, n, pick);
      if pick(n).Some? {
        at := at + [n];
      } else {
        assert Pushed(bits, hashes, sitemaps, a) == before;
      }
    }
  }

  /** A URL that was recorded is not pushed, and no URL is pushed twice. */
  lemma {:induction false} PushedAreNew(bits: set<nat>, hashes: Url -> set<nat>, sitemaps: seq<string>, a: Surroundings)
    ensures NoRepeats(Pushed(bits, hashes, sitemaps, a))
    ensures forall u :: u in Pushed(bits, hashes, sitemaps, a) ==> !(hashes(u) <= bits)
    ensures forall u :: u in Pushed(bits, hashes, sitemaps, a) ==> hashes(u) <= BitsAfter(bits, hashes, sitemaps, a)
    ensures bits <= BitsAfter(bits, hashes, sitemaps, a)
  {
    if sitemaps != [] {
      PushedAreNew(bits, hashes, sitemaps[..|sitemaps| - 1], a);
    }
  }

  /** Each entry delivered was processed once, and only entries processed without an error are acknowledged. */
  ghost predicate GoodHistory(processed: seq<nat>, succeeded: set<nat>, acked: set<nat>, delivered: nat) {
    && NoRepeats(processed) && (forall n: nat :: n in processed <==> n < delivered)
    && acked <= succeeded && (forall n :: n in succeeded ==> n in processed)
  }

  lemma HistoryGrows(processed: seq<nat>, succeeded: set<nat>, acked: set<nat>, n: nat, ok: bool)
    requires GoodHistory(processed, succeeded, acked, n)
    ensures GoodHistory(processed + [n], succeeded + (if ok then {n} else {}), acked, n + 1)
  {
    assert n !in processed;
  }

  /** The steps of the crawl's protocol that the storage service takes. */
  predicate IsStorageStep(step: Step) {
    step.StorageInsert? || step.StoragePush?
  }

  predicate AllByStorage(steps: seq<Step>) {
    forall i :: 0 <= i < |steps| ==> IsStorageStep(steps[i])
  }

  lemma NoneByOthers()
    ensures AllByStorage([])
  {
  }

  class StreamConsumer {
    const storage: CrawlerStorage
    const queue: TaskQueue
    const stream: seq<Entry>       // the stream, up to any point of interest
    var delivered: nat             // entries are delivered once, in order
    ghost var processed: seq<nat>  // history: the entries processed, in order
    ghost var succeeded: set<nat>  // history: those processed without an error
    var acked: set<nat>
    ghost var state: State         // the state of the crawl's protocol that the queue and the filter stand for

    ghost predicate AckedPageIsIndexed(n: nat)
      requires n < |stream|
      reads storage.dedup
    {
      stream[n].Event? ==> IsIndexed(storage.dedup.hasher, storage.dedup.hashes, stream[n].data)
    }

    /** The protocol is where the queue and the filter are, and the storage service is about to push `pushing`. */
    ghost predicate InProtocol(pushing: Option<Url>)
      reads this`state, storage.seenUrls, queue
    {
      && storage.seenUrls.Valid()
      && state.queue == queue.items && state.seen == storage.seenUrls.inserted && state.storage == pushing
    }

    /** What holds between any two entries, however the run went before. */
    ghost predicate Valid()
      reads this, storage, storage.db, storage.domainCache, storage.dedup, storage.seenUrls, queue
    {
      && storage.Valid() && storage.shared.consumer.Idle? && InProtocol(None)
      && delivered <= |stream|
      && GoodHistory(processed, succeeded, acked, delivered)
      && (forall n :: n in acked ==> n < |stream| && AckedPageIsIndexed(n))
    }

    constructor (storage: CrawlerStorage, queue: TaskQueue, stream: seq<Entry>, ghost state: State)
      requires storage.Valid() && storage.shared.consumer.Idle? && storage.seenUrls.Valid()
      requires state.queue == queue.items && state.seen == storage.seenUrls.inserted && state.storage.None?
      ensures Valid() && acked == {} && delivered == 0 && this.state == state
      ensures this.storage == storage && this.queue == queue && this.stream == stream
    {
      this.storage, this.queue, this.stream := storage, queue, stream;
      delivered, acked, processed, succeeded := 0, {}, [], {};
      this.state := state;
    }

    /** An entry without a payload counts as processed. */
    method ProcessStreamEntry(entry: Entry, a: Surroundings) returns (r: Result<seq<string>>)
      requires storage.Valid() && storage.shared.consumer.Idle?
      modifies storage`savedCounter, storage`shared, storage`accesses, storage.db, storage.domainCache, storage.dedup
      ensures storage.Valid() && storage.shared.consumer.Idle?
      ensures entry.NoPayload? ==> r == Success([]) && storage.View() == old(storage.View())
      ensures entry.Undecodable? ==> r == Failure(SerdeError) && storage.View() == old(storage.View())
      ensures old(storage.dedup.hashes) <= storage.dedup.hashes
      ensures entry.Event? && r.Success? ==> IsIndexed(storage.dedup.hasher, storage.dedup.hashes, entry.data)
      ensures entry.Event? && storage.Alone() ==>
                (storage.View(), r) ==
                AfterEvent(storage.lib, storage.dedup.hasher, old(storage.View()), entry.data, a.storage)
    {
      hide AfterEvent, IsIndexed;
      match entry {
        case NoPayload => return Success([]);
        case Undecodable => return Failure(SerdeError);
        case Event(data) =>
          ghost var actions;
          r, actions := storage.SaveParsedData(data, a.storage);
      }
    }

    /** Pairs what the code just did with the storage service's step of the protocol. */
    ghost method Pair(step: Step, s: State, steps: seq<Step>) returns (steps': seq<Step>)
      requires IsStorageStep(step) && Enabled(state, step)
      requires IsRun(s, steps) && Final(s, steps) == state && AllByStorage(steps)
      modifies this`state
      ensures state == Next(old(state), step)
      ensures IsRun(s, steps') && Final(s, steps') == state && AllByStorage(steps')
    {
      hide IsRun, Final, Enabled, Next;
      RunExtended(s, steps, step);
      steps' := steps + [step];
      state := Next(state, step);
    }

    /** Pushes the sitemaps that the seen filter does not know, each with three attempts. */
    method PushSitemaps(sitemaps: seq<string>, a: Surroundings) returns (ghost steps: seq<Step>)
      requires InProtocol(None)
      modifies this`state, storage.seenUrls, queue
      ensures InProtocol(None) && IsRun(old(state), steps) && Final(old(state), steps) == state && AllByStorage(steps)
      ensures state.queue == queue.items && state.seen == storage.seenUrls.inserted && state.storage.None?
      ensures storage.seenUrls.bits == BitsAfter(old(storage.seenUrls.bits), storage.seenUrls.hashes, sitemaps, a)
      ensures queue.items == old(queue.items) + Pushed(old(storage.seenUrls.bits), storage.seenUrls.hashes, sitemaps, a)
    {
      hide IsRun, Final;
      ghost var s := state;
      NoSteps(s);
      steps := [];
      for n := 0 to |sitemaps|
        invariant InProtocol(None) && IsRun(s, steps) && Final(s, steps) == state && AllByStorage(steps)
        invariant storage.seenUrls.bits ==
                    BitsAfter(old(storage.seenUrls.bits), storage.seenUrls.hashes, sitemaps[..n], a)
        invariant queue.items == old(queue.items)
                  + Pushed(old(storage.seenUrls.bits), storage.seenUrls.hashes, sitemaps[..n], a)
      {
        assert sitemaps[..n + 1][..n] == sitemaps[..n];
        var u := a.parse(sitemaps[n]);
        if u.Some? {
          steps := PushSitemap(u.value, n, a, s, steps);
        }
      }
      assert sitemaps[..|sitemaps|] == sitemaps;
    }

    /** Pushes one sitemap if the seen filter does not know it. */
    method PushSitemap(u: Url, n: nat, a: Surroundings, ghost s: State, ghost steps0: seq<Step>)
      returns (ghost steps: seq<Step>)
      requires InProtocol(None) && IsRun(s, steps0) && Final(s, steps0) == state && AllByStorage(steps0)
      modifies this`state, storage.seenUrls, queue
      ensures InProtocol(None) && IsRun(s, steps) && Final(s, steps) == state && AllByStorage(steps)
      ensures storage.seenUrls.bits == old(storage.seenUrls.bits) + storage.seenUrls.hashes(u)
      ensures var known := storage.seenUrls.hashes(u) <= old(storage.seenUrls.bits);
              queue.items == old(queue.items) + if !known && a.Pushes(n) then [u] else []
    {
      hide IsRun, Final, AllByStorage;
      var known := storage.InsertUrlInSeenUrls(u);
      steps := Pair(StorageInsert(u, if known then Seen else Fresh), s, steps0);
      if !known {
        PushWithRetries(u, n, a);
        steps := Pair(StoragePush(a.Pushes(n)), s, steps);
      }
    }

    method PushWithRetries(u: Url, n: nat, a: Surroundings)
      modifies queue
      ensures queue.items == old(queue.items) + if a.Pushes(n) then [u] else []
    {
      for i := 1 to 4
        invariant queue.items == old(queue.items)
        invariant forall j :: 1 <= j < i ==> !a.pushOk(n, j)
      {
        queue.Push(u, a.pushOk(n, i));
        if a.pushOk(n, i) {
          break;
        }
      }
    }

    /** Processes the next entry, which is not delivered again. */
    method ProcessNext(a: Surroundings) returns (r: Result<seq<string>>)
      requires Valid() && delivered < |stream|
      modifies this`delivered, this`processed, this`succeeded
      modifies storage`savedCounter, storage`shared, storage`accesses, storage.db, storage.domainCache, storage.dedup
      ensures Valid() && delivered == old(delivered) + 1
      ensures processed == old(processed) + [old(delivered)]
      ensures succeeded == old(succeeded) + if r.Success? then {old(delivered)} else {}
      ensures old(storage.dedup.hashes) <= storage.dedup.hashes
      ensures r.Success? ==> AckedPageIsIndexed(old(delivered))
      ensures stream[old(delivered)].Event? && storage.Alone() ==>
                var event := stream[old(delivered)].data;
                (storage.View(), r) ==
                AfterEvent(storage.lib, storage.dedup.hasher, old(storage.View()), event, a.storage)
    {
      hide GoodHistory, AfterEvent, InProtocol, IsIndexed, CrawlerStorage.Valid, CrawlerStorage.Alone;
      var n := delivered;
      delivered := delivered + 1;
      r := ProcessStreamEntry(stream[n], a);
      IndexedStays(storage.dedup.hasher, old(storage.dedup.hashes), storage.dedup.hashes);
      processed := processed + [n];
      if r.Success? {
        succeeded := succeeded + {n};
      }
      HistoryGrows(old(processed), old(succeeded), acked, n, r.Success?);
      assert succeeded == old(succeeded) + (if r.Success? then {n} else {});
    }

    /** The next entry: an error leaves it unacknowledged. */
    method HandleNext(a: Surroundings) returns (ok: bool, ghost sitemaps: seq<string>, ghost steps: seq<Step>)
      requires Valid() && delivered < |stream|
      modifies this, storage`savedCounter, storage`shared, storage`accesses, storage.db, storage.domainCache,
               storage.dedup
      modifies storage.seenUrls, queue
      ensures Valid() && delivered == old(delivered) + 1
      ensures IsRun(old(state), steps) && Final(old(state), steps) == state && AllByStorage(steps)
      ensures processed == old(processed) + [old(delivered)]
      ensures succeeded == old(succeeded) + if ok then {old(delivered)} else {}
      ensures acked == old(acked) + if ok && a.ackOk then {old(delivered)} else {}
      ensures old(storage.dedup.hashes) <= storage.dedup.hashes
      ensures !ok ==> queue.items == old(queue.items) && storage.seenUrls.bits == old(storage.seenUrls.bits)
      ensures ok ==>
                queue.items == old(queue.items)
                               + Pushed(old(storage.seenUrls.bits), storage.seenUrls.hashes, sitemaps, a)
      ensures stream[old(delivered)].Event? && storage.Alone() ==>
                var event := stream[old(delivered)].data;
                var (after, r) := AfterEvent(storage.lib, storage.dedup.hasher, old(storage.View()), event, a.storage);
                storage.View() == after && ok == r.Success? && (ok ==> sitemaps == r.value)
    {
      hide AfterEvent, Pushed, BitsAfter, IsRun, Final, AllByStorage, InProtocol, IsIndexed, CrawlerStorage.Valid,
           CrawlerStorage.Alone;
      NoSteps(state);
      steps := [];
      assert AllByStorage(steps) by { NoneByOthers(); }
      var r := ProcessNext(a);
      ok := r.Success?;
      sitemaps := if ok then r.value else [];
      if ok {
        steps := PushSitemaps(r.value, a);
        if a.ackOk {
          acked := acked + {delivered - 1};
        }
      }
    }

    /**
     The entries of a reply of the stream, one after the other: an error does not keep the next from being
     processed.
     */
    method HandleReply(count: nat, answers: nat -> Surroundings)
      requires Valid() && delivered + count <= |stream|
      modifies this, storage`savedCounter, storage`shared, storage`accesses, storage.db, storage.domainCache,
               storage.dedup
      modifies storage.seenUrls, queue
      ensures Valid() && delivered == old(delivered) + count
      ensures processed == old(processed) + seq(count, i => old(delivered) + i)
      ensures old(succeeded) <= succeeded
      ensures acked == old(acked)
                       + set n | old(delivered) <= n < delivered && n in succeeded
                                 && answers(n - old(delivered)).ackOk
      ensures old(storage.dedup.hashes) <= storage.dedup.hashes
    {
      hide AfterEvent, Pushed, BitsAfter, IsRun, Final, AllByStorage, InProtocol, IsIndexed, CrawlerStorage.Valid,
           CrawlerStorage.Alone;
      for i := 0 to count
        invariant Valid() && delivered == old(delivered) + i
        invariant processed == old(processed) + seq(i, j => old(delivered) + j)
        invariant old(succeeded) <= succeeded && forall n :: n in succeeded ==> n < delivered
        invariant acked ==
                    old(acked)
                    + set n | old(delivered) <= n < delivered && n in succeeded
                              && answers(n - old(delivered)).ackOk
        invariant old(storage.dedup.hashes) <= storage.dedup.hashes
      {
        var _, _, _ := HandleNext(answers(i));
      }
    }
  }

  /** The index only grows, so what is near it stays near. */
  lemma IndexedStays(hasher: Hasher, hashes: seq<u64>, more: seq<u64>)
    requires hashes <= more
    ensures forall event :: IsIndexed(hasher, hashes, event) ==> IsIndexed(hasher, more, event)
  {
    forall t | Near(hashes, t, 3)
      ensures Near(more, t, 3)
    {
      var h :| h in hashes && HammingDistance(h, t) <= 3;
      assert h in more;
    }
  }
}

/**
 The rate limiter with one caller at a time: no other way to space the requests, from each other and
 from the access last recorded, grants more of them.
 */
module LimiterOptimality {
  import opened RateLimiting

  /** Requests at the times `times`, one after the other: which are granted, and the map they leave. */
  function Serve(limits: Limits, domain: string, times: seq<nat>, defaultDelay: nat): (r: (Limits, seq<bool>))
    requires Requests(times, defaultDelay)
    ensures |r.1| == |times|
  {
    if times == [] then (limits, [])
    else
      var now := times[|times| - 1];
      var (limits', granted) := Serve(limits, domain, times[..|times| - 1], defaultDelay);
      (Acquired(limits', domain, now, defaultDelay),
       granted + [Grants(EntryOr(limits', domain, now, defaultDelay), now)])
  }

  /** Request times in order, none before the clock has run for a delay. */
  predicate Requests(times: seq<nat>, d: nat) {
    && (forall i :: 0 <= i < |times| ==> d <= times[i])
    && (forall i, j :: 0 <= i <= j < |times| ==> times[i] <= times[j])
  }

  lemma RequestsOfPrefix(limits: Limits, domain: string, times: seq<nat>, picked: seq<bool>, n: nat, d: nat)
    requires |picked| == |times| && n <= |times| && Requests(times, d)
    ensures Requests(times[..n], d)
    ensures SpacedSelection(times, picked, d) ==> SpacedSelection(times[..n], picked[..n], d)
    ensures NotTooEarly(limits, domain, times, picked, d) ==> NotTooEarly(limits, domain, times[..n], picked[..n], d)
  {
  }

  /** A selection of the requests in which any two are at least `d` apart. */
  predicate SpacedSelection(times: seq<nat>, picked: seq<bool>, d: nat)
    requires |picked| == |times|
  {
    forall i, j :: 0 <= i < j < |times| && picked[i] && picked[j] ==> times[i] + d <= times[j]
  }

  /** The domain is new to the limiter, or has the delay `d`. */
  predicate HasDelay(limits: Limits, domain: string, d: nat) {
    domain in limits ==> limits[domain].delay == d
  }

  /** No pick comes less than `d` after the access that the limiter has on record. */
  predicate NotTooEarly(limits: Limits, domain: string, times: seq<nat>, picked: seq<bool>, d: nat)
    requires |picked| == |times|
  {
    domain in limits ==> forall i :: 0 <= i < |times| && picked[i] ==> limits[domain].lastAccessed + d <= times[i]
  }

  function Count(picked: seq<bool>): nat {
    if picked == [] then 0 else Count(picked[..|picked| - 1]) + if picked[|picked| - 1] then 1 else 0
  }

  lemma {:induction false} CountExactly(picked: seq<bool>)
    ensures Count(picked) == |set i | 0 <= i < |picked| && picked[i]|
  {
    if picked != [] {
      var n := |picked| - 1;
      CountExactly(picked[..n]);
      var before, all := set i | 0 <= i < n && picked[..n][i], set i | 0 <= i < |picked| && picked[i];
      assert all == before + if picked[n] then {n} else {};
    }
  }

  /** The position of the last request picked. */
  function LastPicked(picked: seq<bool>): (i: nat)
    requires Count(picked) > 0
    ensures i < |picked| && picked[i]
    ensures forall j :: i < j < |picked| ==> !picked[j]
  {
    if picked[|picked| - 1] then |picked| - 1 else LastPicked(picked[..|picked| - 1])
  }

  /** The limiter's entry remembers its last grant, and a new domain is granted its first request. */
  lemma {:induction false} ServeRemembersLastGrant(limits: Limits, domain: string, times: seq<nat>, d: nat)
    requires Requests(times, d) && HasDelay(limits, domain, d)
    ensures var (after, granted) := Serve(limits, domain, times, d);
            if Count(granted) > 0 then domain in after && after[domain] == DomainState(d, times[LastPicked(granted)])
            else if domain in limits then domain in after && after[domain] == limits[domain]
            else times == [] && domain !in after
  {
    if times != [] {
      var n := |times| - 1;
      var (after, granted) := Serve(limits, domain, times[..n], d);
      ServeRemembersLastGrant(limits, domain, times[..n], d);
      var all := Serve(limits, domain, times, d).1;
      assert all[..n] == granted;
    }
  }

  /** A grant comes at least `d` after the one before, or, if there is none, after the access on record. */
  lemma GrantIsSpaced(limits: Limits, domain: string, times: seq<nat>, d: nat)
    requires times != [] && Requests(times, d) && HasDelay(limits, domain, d)
    ensures var n := |times| - 1;
            var before, ok := Serve(limits, domain, times[..n], d).1, Serve(limits, domain, times, d).1[n];
            && (ok && Count(before) > 0 ==> times[LastPicked(before)] + d <= times[n])
            && (ok && Count(before) == 0 && d > 0 && domain in limits ==> limits[domain].lastAccessed + d <= times[n])
  {
    hide Count, LastPicked;
    var n := |times| - 1;
    ServeRemembersLastGrant(limits, domain, times[..n], d);
    var before := Serve(limits, domain, times[..n], d).1;
    if Count(before) > 0 {
      assert times[..n][LastPicked(before)] <= times[n];
    }
  }

  lemma OneMorePick(times: seq<nat>, picked: seq<bool>, ok: bool, d: nat)
    requires 0 < |times| == |picked| + 1 && Requests(times, d) && SpacedSelection(times[..|picked|], picked, d)
    requires ok && Count(picked) > 0 ==> times[LastPicked(picked)] + d <= times[|picked|]
    ensures SpacedSelection(times, picked + [ok], d)
  {
    hide Count, LastPicked;
    forall i | 0 <= i < |picked| && picked[i] && ok
      ensures times[i] + d <= times[|picked|]
    {
      CountsPicked(picked, i);
      assert i <= LastPicked(picked);
    }
  }

  /** The limiter's own grants are such a selection. */
  lemma {:induction false} GreedyIsSpaced(limits: Limits, domain: string, times: seq<nat>, d: nat)
    requires Requests(times, d) && HasDelay(limits, domain, d)
    ensures SpacedSelection(times, Serve(limits, domain, times, d).1, d)
  {
    hide Count, LastPicked, Grants, Acquired, EntryOr, Requests, HasDelay;
    if times != [] {
      var n := |times| - 1;
      var all := Serve(limits, domain, times, d).1;
      RequestsOfPrefix(limits, domain, times, all, n, d);
      var granted := Serve(limits, domain, times[..n], d).1;
      GreedyIsSpaced(limits, domain, times[..n], d);
      GrantIsSpaced(limits, domain, times, d);
      OneMorePick(times, granted, all[n], d);
      assert all == granted + [all[n]];
    }
  }

  lemma {:induction false} GreedyIsNotTooEarly(limits: Limits, domain: string, times: seq<nat>, d: nat)
    requires d > 0 && Requests(times, d) && HasDelay(limits, domain, d)
    ensures NotTooEarly(limits, domain, times, Serve(limits, domain, times, d).1, d)
  {
    hide Count, LastPicked, Grants, Acquired, EntryOr, HasDelay;
    if times != [] && domain in limits {
      var n := |times| - 1;
      var granted, all := Serve(limits, domain, times[..n], d).1, Serve(limits, domain, times, d).1;
      GreedyIsNotTooEarly(limits, domain, times[..n], d);
      GrantIsSpaced(limits, domain, times, d);
      assert all == granted + [all[n]];
      if Count(granted) > 0 {
        assert times[..n][LastPicked(granted)] <= times[n];
      }
    }
  }

  lemma {:induction false} CountsPicked(picked: seq<bool>, i: nat)
    requires i < |picked| && picked[i]
    ensures Count(picked) > 0
  {
    if i < |picked| - 1 {
      CountsPicked(picked[..|picked| - 1], i);
    }
  }

  /** `granted` is no fewer than `picked`, and if it is as many then its last is no later. */
  ghost predicate Ahead(times: seq<nat>, granted: seq<bool>, picked: seq<bool>)
    requires |granted| == |picked| == |times|
  {
    && Count(picked) <= Count(granted)
    && (Count(picked) == Count(granted) > 0 ==> times[LastPicked(granted)] <= times[LastPicked(picked)])
  }

  lemma OneMoreRequest(times: seq<nat>, granted: seq<bool>, picked: seq<bool>, d: nat, ok: bool, pick: bool, now: nat)
    requires |granted| == |picked| == |times| && Ahead(times, granted, picked)
    requires forall i :: 0 <= i < |times| ==> times[i] <= now
    requires pick && Count(picked) > 0 ==> times[LastPicked(picked)] + d <= now
    requires pick && Count(granted) == 0 ==> ok
    requires Count(granted) > 0 && times[LastPicked(granted)] + d <= now ==> ok
    ensures Ahead(times + [now], granted + [ok], picked + [pick])
  {
    var times', granted', picked' := times + [now], granted + [ok], picked + [pick];
    assert granted'[..|times|] == granted && picked'[..|times|] == picked;
    assert Count(granted') == Count(granted) + if ok then 1 else 0;
    assert Count(picked') == Count(picked) + if pick then 1 else 0;
  }

  /** At any point, the limiter has granted at least as many requests as a spaced selection has picked. */
  lemma {:induction false} GreedyStaysAhead(limits: Limits, domain: string, times: seq<nat>, picked: seq<bool>, d: nat)
    requires |picked| == |times| && Requests(times, d) && HasDelay(limits, domain, d)
    requires SpacedSelection(times, picked, d) && NotTooEarly(limits, domain, times, picked, d)
    ensures Ahead(times, Serve(limits, domain, times, d).1, picked)
  {
    hide Ahead, Count, LastPicked, SpacedSelection;
    if times == [] {
      AheadOfNothing(picked);
    } else {
      var n := |times| - 1;
      var init, before := times[..n], picked[..n];
      RequestsOfPrefix(limits, domain, times, picked, n, d);
      var (after, granted) := Serve(limits, domain, init, d);
      GreedyStaysAhead(limits, domain, init, before, d);
      ServeRemembersLastGrant(limits, domain, init, d);
      PickedIsSpaced(times, picked, d);
      var ok := Grants(EntryOr(after, domain, times[n], d), times[n]);
      OneMoreRequest(init, granted, before, d, ok, picked[n], times[n]);
      Unsnoc(times);
      Unsnoc(picked);
    }
  }

  lemma PickedIsSpaced(times: seq<nat>, picked: seq<bool>, d: nat)
    requires 0 < |picked| == |times| && SpacedSelection(times, picked, d)
    ensures var n := |times| - 1;
            picked[n] && Count(picked[..n]) > 0 ==> times[..n][LastPicked(picked[..n])] + d <= times[n]
  {
    var n := |times| - 1;
    if Count(picked[..n]) > 0 {
      assert picked[LastPicked(picked[..n])];
    }
  }

  lemma Unsnoc<T>(s: seq<T>)
    requires s != []
    ensures s == s[..|s| - 1] + [s[|s| - 1]]
  {
  }

  lemma AheadOfNothing(picked: seq<bool>)
    requires picked == []
    ensures Ahead([], [], picked)
  {
  }

  /** The position of the pick number `k`, counted from 0. */
  function Kth(picked: seq<bool>, k: nat): (i: nat)
    requires k < Count(picked)
    ensures i < |picked| && picked[i] && Count(picked[..i]) == k
  {
    var n := |picked| - 1;
    if k < Count(picked[..n]) then
      var i := Kth(picked[..n], k);
      assert picked[..n][..i] == picked[..i];
      i
    else n
  }

  lemma {:induction false} ServeOfPrefix(limits: Limits, domain: string, times: seq<nat>, i: nat, d: nat)
    requires i <= |times| && Requests(times, d)
    ensures Serve(limits, domain, times, d).1[..i] == Serve(limits, domain, times[..i], d).1
  {
    if i == |times| {
      assert times[..i] == times;
    } else {
      var n := |times| - 1;
      ServeOfPrefix(limits, domain, times[..n], i, d);
      assert times[..n][..i] == times[..i];
    }
  }

  lemma {:induction false} CountIsMonotone(picked: seq<bool>, i: nat, j: nat)
    requires i <= j <= |picked|
    ensures Count(picked[..i]) <= Count(picked[..j])
  {
    if i < j {
      CountIsMonotone(picked, i, j - 1);
      assert picked[..j][..j - 1] == picked[..j - 1];
    }
  }

  lemma KthIsWithin(granted: seq<bool>, picked: seq<bool>, k: nat)
    requires |granted| == |picked| && k < Count(picked) <= Count(granted)
    requires var i := Kth(picked, k); Count(picked[..i + 1]) <= Count(granted[..i + 1])
    ensures Kth(granted, k) <= Kth(picked, k)
  {
    var i, g := Kth(picked, k), Kth(granted, k);
    assert picked[..i + 1][..i] == picked[..i];
    if i < g {
      CountIsMonotone(granted, i + 1, g);
    }
  }

  lemma KthIsNoLater(limits: Limits, domain: string, times: seq<nat>, picked: seq<bool>, d: nat, k: nat)
    requires |picked| == |times| && Requests(times, d) && HasDelay(limits, domain, d)
    requires SpacedSelection(times, picked, d) && NotTooEarly(limits, domain, times, picked, d)
    requires k < Count(picked) <= Count(Serve(limits, domain, times, d).1)
    ensures Kth(Serve(limits, domain, times, d).1, k) <= Kth(picked, k)
  {
    hide Count, Kth, LastPicked, Serve, SpacedSelection, NotTooEarly, Requests, HasDelay;
    var i := Kth(picked, k);
    RequestsOfPrefix(limits, domain, times, picked, i + 1, d);
    GreedyStaysAhead(limits, domain, times[..i + 1], picked[..i + 1], d);
    ServeOfPrefix(limits, domain, times, i + 1, d);
    KthIsWithin(Serve(limits, domain, times, d).1, picked, k);
  }

  /**
   For a domain with a fixed delay, new to the limiter or not, the limiter grants as many requests as
   any selection of them spaced by the delay, from each other and from the access on record, and its
   k-th grant is never later than the k-th of the selection.
   */
  lemma GreedyIsOptimal(limits: Limits, domain: string, times: seq<nat>, picked: seq<bool>, d: nat)
    requires |picked| == |times| && Requests(times, d) && HasDelay(limits, domain, d)
    requires SpacedSelection(times, picked, d) && NotTooEarly(limits, domain, times, picked, d)
    ensures var granted := Serve(limits, domain, times, d).1;
            && Count(picked) <= Count(granted)
            && forall k: nat :: k < Count(picked) ==> Kth(granted, k) <= Kth(picked, k)
  {
    hide Count, Kth, LastPicked, Serve, SpacedSelection, NotTooEarly, Requests, HasDelay;
    GreedyStaysAhead(limits, domain, times, picked, d);
    forall k: nat | k < Count(picked)
      ensures Kth(Serve(limits, domain, times, d).1, k) <= Kth(picked, k)
    {
      KthIsNoLater(limits, domain, times, picked, d, k);
    }
  }
}

/** Waiting for releases to converge (charts/release.go). */
module Waiting {
  import opened Text
  import opened Manifests
  import opened Phase
  import opened Backends
  import opened Rollout

  /* A poll that found a release converged. */
  predicate SeenConverged(e: Event, release: string) {
    e.Polled? && e.release == release && AllConverged(e.states)
  }

  /* At least one service, and every one of them converged. */
  predicate AllConverged(states: seq<ServiceState>) {
    states != [] && forall i :: 0 <= i < |states| ==> Finished(states[i])
  }

  predicate SeenWedged(e: Event) {
    e.Polled? && exists i :: 0 <= i < |e.states| && GivenUp(e.states[i])
  }

  /* The last polling round: one poll per release, in order, each converged. */
  ghost predicate RoundConverged(trace: seq<Event>, releases: seq<string>) {
    && |releases| <= |trace|
    && forall i :: 0 <= i < |releases| ==> SeenConverged(trace[|trace| - |releases| + i], releases[i])
  }

  /* Only polls were added, and none of them saw a wedged service. */
  ghost predicate PolledOnly(before: seq<Event>, after: seq<Event>) {
    && |before| <= |after| && after[..|before|] == before
    && forall i :: |before| <= i < |after| ==> after[i].Polled? && !SeenWedged(after[i])
  }

  ghost predicate OnlyPolls(before: seq<Event>, after: seq<Event>) {
    before <= after && forall i :: |before| <= i < |after| ==> after[i].Polled?
  }

  /* One polling round. It stops at the first release with a wedged service. */
  method PollRound(b: Backend, releases: seq<string>) returns (wedged: bool, pending: seq<string>)
    modifies b`clock, b`trace
    ensures b.clock >= old(b.clock)
    ensures !wedged ==> PolledOnly(old(b.trace), b.trace) && (pending == [] <==> RoundConverged(b.trace, releases))
    ensures !wedged ==> |b.trace| == |old(b.trace)| + |releases|
    ensures wedged ==> releases != [] && |old(b.trace)| < |b.trace|
    ensures wedged ==> PolledOnly(old(b.trace), b.trace[..|b.trace| - 1])
                       && SeenWedged(b.trace[|b.trace| - 1])
  {
    pending := [];
    for i := 0 to |releases|
      invariant b.clock >= old(b.clock) && |b.trace| == |old(b.trace)| + i
      invariant PolledOnly(old(b.trace), b.trace)
      invariant pending == [] <==> forall k :: 0 <= k < i ==> SeenConverged(b.trace[|old(b.trace)| + k], releases[k])
    {
      ghost var was := b.trace;
      var states := b.StackServices(releases[i]);
      var phase, culprit := Rollup(states);
      assert b.trace[..|b.trace| - 1] == was;
      if phase == Wedged {
        return true, [];
      }
      if phase != Phase.Converged {
        pending := pending + [releases[i]];
      }
      assert phase == Phase.Converged <==> SeenConverged(b.trace[|was|], releases[i]);
    }
    return false, pending;
  }

  /* Waits until one round finds every release converged. It ends: each round moves the clock towards
     the deadline. No wedged service is ever waited out. */
  method WaitWave(b: Backend, releases: seq<string>, timeout: int) returns (r: Waited)
    modifies b`clock, b`trace, b`mishaps
    ensures b.mishaps >= old(b.mishaps)
    ensures b.clock >= old(b.clock) && OnlyPolls(old(b.trace), b.trace)
    ensures r != GaveUp ==> PolledOnly(old(b.trace), b.trace)
    ensures r == Settled <==> RoundConverged(b.trace, releases)
    ensures r == Settled ==> |b.trace| >= |old(b.trace)| + |releases|
    ensures r == Cancelled <==> b.mishaps > old(b.mishaps)
    ensures r == TimedOut ==> b.clock >= old(b.clock) + if timeout <= 0 then 300_000_000_000 else timeout
    ensures r == GaveUp ==> |old(b.trace)| < |b.trace| && PolledOnly(old(b.trace), b.trace[..|b.trace| - 1])
                            && SeenWedged(b.trace[|b.trace| - 1])
  {
    var deadline := b.clock + Patience(timeout);
    while true
      invariant b.clock >= old(b.clock) && PolledOnly(old(b.trace), b.trace) && b.mishaps == old(b.mishaps)
      decreases if b.clock < deadline then deadline - b.clock else 0
    {
      ghost var was := b.trace;
      var wedged, pending := PollRound(b, releases);
      PolledOnlyTwice(old(b.trace), was, if wedged then b.trace[..|b.trace| - 1] else b.trace);
      if wedged {
        ghost var polls := b.trace[..|b.trace| - 1];
        assert old(b.trace) <= polls && forall i :: |old(b.trace)| <= i < |polls| ==> polls[i].Polled?;
        WedgedRound(b.trace, releases);
        return GaveUp;
      }
      if pending == [] {
        return Settled;
      }
      if !(b.clock < deadline) {
        return TimedOut;
      }
      var cancelled := b.Sleep();
      if cancelled {
        return Cancelled;
      }
    }
  }

  lemma WedgedRound(trace: seq<Event>, releases: seq<string>)
    requires trace != [] && SeenWedged(trace[|trace| - 1]) && releases != []
    ensures !RoundConverged(trace, releases)
  {
    if RoundConverged(trace, releases) {
      var e, n := trace[|trace| - 1], |releases| - 1;
      assert SeenConverged(trace[|trace| - |releases| + n], releases[n]);
      var i :| 0 <= i < |e.states| && GivenUp(e.states[i]);
      GivenUpNotFinished(e.states[i]);
    }
  }

  lemma PolledOnlyTwice(a: seq<Event>, b: seq<Event>, c: seq<Event>)
    requires PolledOnly(a, b) && PolledOnly(b, c)
    ensures PolledOnly(a, c)
  {
    assert c[..|a|] == c[..|b|][..|a|];
    forall i | |a| <= i < |c| ensures c[i].Polled? && !SeenWedged(c[i]) {
      if i < |b| { assert c[i] == c[..|b|][i]; }
    }
  }
}

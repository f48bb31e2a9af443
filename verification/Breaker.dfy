/**
  The circuit breaker of a pool member: blacklisting after failures and one probing permit once
  the deadline has passed.
 */
module Breaker {

  datatype Breaker = Breaker(failures: nat, blacklisted: bool, until: nat, halfOpen: bool)

  const Closed := Breaker(0, false, 0, false)

  predicate Trips(b: Breaker, threshold: nat) {
    b.halfOpen || b.failures + 1 >= threshold
  }

  function Failed(b: Breaker, threshold: nat, now: nat, duration: nat): Breaker {
    if Trips(b, threshold) then Breaker(0, true, now + duration, false) else b.(failures := b.failures + 1)
  }

  function Banned(b: Breaker, now: nat, duration: nat): Breaker {
    Breaker(0, true, now + duration, false)
  }

  predicate Available(b: Breaker, now: nat) {
    !b.blacklisted || (b.until <= now && !b.halfOpen)
  }

  function Acquired(b: Breaker, now: nat): Breaker {
    if b.blacklisted && Available(b, now) then b.(halfOpen := true) else b
  }

  // The state every pool instance shares for one member.
  class SharedMemberState {
    var failures: nat
    var blacklisted: bool
    var blacklistedUntil: nat
    var halfOpen: bool

    constructor ()
      ensures State() == Closed
    {
      failures, blacklisted, blacklistedUntil, halfOpen := 0, false, 0, false;
    }

    function State(): Breaker
      reads this
    {
      Breaker(failures, blacklisted, blacklistedUntil, halfOpen)
    }

    method RecordFailure(threshold: nat, now: nat, duration: nat) returns (count: nat, tripped: bool)
      modifies this
      ensures State() == Failed(old(State()), threshold, now, duration)
      ensures tripped == Trips(old(State()), threshold)
      ensures count == if old(halfOpen) then 0 else old(failures) + 1
      ensures old(halfOpen) ==> tripped && State() == Breaker(0, true, now + duration, false)
      ensures !old(halfOpen) && count >= threshold ==> tripped && State() == Breaker(0, true, now + duration, false)
      ensures !old(halfOpen) && count < threshold ==> !tripped && State() == old(State()).(failures := count)
    {
      tripped := halfOpen;
      halfOpen := false;
      if tripped {
        failures := 0;
      } else {
        failures := failures + 1;
      }
      count := failures;
      if tripped || failures >= threshold {
        tripped := true;
        failures := 0;
        blacklisted := true;
        blacklistedUntil := now + duration;
      }
    }

    method RecordSuccess() returns (wasBlacklisted: bool)
      modifies this
      ensures State() == Closed && wasBlacklisted == (old(blacklisted) || old(halfOpen))
    {
      wasBlacklisted := blacklisted || halfOpen;
      failures, blacklisted, blacklistedUntil, halfOpen := 0, false, 0, false;
    }

    method ForceRelease()
      modifies this
      ensures State() == Closed
    {
      failures, blacklisted, blacklistedUntil, halfOpen := 0, false, 0, false;
    }

    method Blacklist(now: nat, duration: nat)
      modifies this
      ensures State() == Banned(old(State()), now, duration)
    {
      blacklisted := true;
      blacklistedUntil := now + duration;
      halfOpen := false;
      failures := 0;
    }

    method TryAcquire(now: nat) returns (granted: bool)
      modifies this
      ensures granted == Available(old(State()), now) && State() == Acquired(old(State()), now)
    {
      if !blacklisted {
        return true;
      }
      if now < blacklistedUntil || halfOpen {
        return false;
      }
      halfOpen := true;
      granted := true;
    }
  }

  // ---- every trace ----

  datatype Event = Acquire(now: nat) | Failure(now: nat) | Success | Release | Ban(now: nat, duration: nat)

  function Step(b: Breaker, e: Event, threshold: nat, duration: nat): Breaker {
    match e
    case Acquire(now) => Acquired(b, now)
    case Failure(now) => Failed(b, threshold, now, duration)
    case Success => Closed
    case Release => Closed
    case Ban(now, d) => Banned(b, now, d)
  }

  function After(events: seq<Event>, threshold: nat, duration: nat): Breaker {
    if events == [] then Closed
    else Step(After(events[..|events| - 1], threshold, duration), events[|events| - 1], threshold, duration)
  }

  lemma {:induction false} BreakerInvariant(events: seq<Event>, threshold: nat, duration: nat)
    requires threshold > 0
    ensures var b := After(events, threshold, duration); (b.halfOpen ==> b.blacklisted) && b.failures < threshold
  {
    if events != [] {
      BreakerInvariant(events[..|events| - 1], threshold, duration);
    }
  }

  // The i-th event is a permit given to a blacklisted member.
  ghost predicate Permit(events: seq<Event>, i: nat, threshold: nat, duration: nat)
    requires i < |events|
  {
    var b := After(events[..i], threshold, duration);
    events[i].Acquire? && b.blacklisted && Available(b, events[i].now)
  }

  lemma {:induction false} HalfOpenStays(events: seq<Event>, i: nat, j: nat, threshold: nat, duration: nat)
    requires i < j <= |events| && Permit(events, i, threshold, duration)
    requires forall k :: i < k < j ==> events[k].Acquire?
    ensures var b := After(events[..j], threshold, duration); b.blacklisted && b.halfOpen
  {
    assert events[..j][..j - 1] == events[..j - 1];
    if i + 1 < j {
      HalfOpenStays(events, i, j - 1, threshold, duration);
    }
  }

  // Between two permits there is a success, a failure, a release or a ban.
  lemma OnePermitAtATime(events: seq<Event>, i: nat, j: nat, threshold: nat, duration: nat)
    requires i < j < |events| && Permit(events, i, threshold, duration) && Permit(events, j, threshold, duration)
    ensures exists k :: i < k < j && !events[k].Acquire?
  {
    if forall k :: i < k < j ==> events[k].Acquire? {
      HalfOpenStays(events, i, j, threshold, duration);
    }
  }

  // The probe that was let through fails: the member is blacklisted anew, and once the new deadline
  // has passed the next one to ask has the permit.
  lemma ProbeFails(events: seq<Event>, threshold: nat, duration: nat, now: nat, later: nat)
    requires After(events, threshold, duration).halfOpen
    ensures var b := After(events + [Failure(now)], threshold, duration);
            && b.blacklisted && b.until == now + duration && !b.halfOpen && b.failures == 0
            && (Available(b, later) <==> now + duration <= later)
    ensures now + duration <= later ==> Permit(events + [Failure(now), Acquire(later)], |events| + 1, threshold, duration)
  {
    AfterOneMore(events, Failure(now), threshold, duration);
    assert (events + [Failure(now), Acquire(later)])[..|events| + 1] == events + [Failure(now)];
  }

  function FailuresAt(nows: seq<nat>): seq<Event> {
    seq(|nows|, i requires 0 <= i < |nows| => Failure(nows[i]))
  }

  // Of failures in a row, the one that makes the threshold blacklists the member and none before it.
  lemma {:induction false} ThresholdTrips(events: seq<Event>, nows: seq<nat>, threshold: nat, duration: nat)
    requires After(events, threshold, duration) == Closed && 0 < |nows| <= threshold
    ensures After(events + FailuresAt(nows), threshold, duration) ==
            if |nows| < threshold then Breaker(|nows|, false, 0, false)
            else Breaker(0, true, nows[|nows| - 1] + duration, false)
  {
    var init, all := nows[..|nows| - 1], events + FailuresAt(nows);
    assert all[..|all| - 1] == events + FailuresAt(init);
    if init == [] {
      assert events + FailuresAt(init) == events;
    } else {
      ThresholdTrips(events, init, threshold, duration);
    }
  }

  // The i-th event blacklists the member until a deadline.
  ghost predicate Blacklists(events: seq<Event>, i: nat, threshold: nat, duration: nat, deadline: nat)
    requires i < |events|
  {
    || (events[i].Ban? && deadline == events[i].now + events[i].duration)
    || (events[i].Failure? && Trips(After(events[..i], threshold, duration), threshold) && deadline == events[i].now + duration)
  }

  // An event that neither ends a blacklisting nor starts one.
  ghost predicate Neutral(events: seq<Event>, k: nat, threshold: nat, duration: nat)
    requires k < |events|
  {
    events[k].Acquire? || (events[k].Failure? && !Trips(After(events[..k], threshold, duration), threshold))
  }

  lemma {:induction false} DeadlineStays(events: seq<Event>, i: nat, j: nat, threshold: nat, duration: nat, deadline: nat)
    requires i < j <= |events| && Blacklists(events, i, threshold, duration, deadline)
    requires forall k :: i < k < j ==> Neutral(events, k, threshold, duration)
    ensures var b := After(events[..j], threshold, duration); b.blacklisted && b.until == deadline
  {
    assert events[..j][..j - 1] == events[..j - 1];
    if i + 1 < j {
      assert Neutral(events, j - 1, threshold, duration);
      DeadlineStays(events, i, j - 1, threshold, duration, deadline);
    }
  }

  // No permit is given before the deadline the last blacklisting set.
  lemma NoPermitBeforeDeadline(events: seq<Event>, i: nat, j: nat, threshold: nat, duration: nat, deadline: nat)
    requires i < j < |events| && Blacklists(events, i, threshold, duration, deadline)
    requires forall k :: i < k < j ==> Neutral(events, k, threshold, duration)
    requires events[j].Acquire? && events[j].now < deadline
    ensures !Available(After(events[..j], threshold, duration), events[j].now)
  {
    DeadlineStays(events, i, j, threshold, duration, deadline);
  }

  // ---- exactly when a member is available ----

  function Deadline(e: Event, duration: nat): nat
    requires e.Ban? || e.Failure?
  {
    e.now + if e.Ban? then e.duration else duration
  }

  predicate Clears(e: Event) {
    e.Success? || e.Release?
  }

  // The k-th event decides: it is the last that ended a blacklisting or started one.
  ghost predicate Decides(events: seq<Event>, k: nat, threshold: nat, duration: nat) {
    && k < |events| && !Neutral(events, k, threshold, duration)
    && forall m :: k < m < |events| ==> Neutral(events, m, threshold, duration)
  }

  // Nobody has asked since the k-th event after its deadline, and so nobody holds the permit.
  ghost predicate NotAsked(events: seq<Event>, k: nat, deadline: nat)
  {
    forall m :: k < m < |events| && events[m].Acquire? ==> events[m].now < deadline
  }

  // What the deciding event says of the time.
  ghost predicate Lets(events: seq<Event>, k: nat, duration: nat, now: nat)
    requires k < |events| && (Clears(events[k]) || events[k].Ban? || events[k].Failure?)
  {
    Clears(events[k]) || (Deadline(events[k], duration) <= now && NotAsked(events, k, Deadline(events[k], duration)))
  }

  lemma NeutralPrefix(events: seq<Event>, k: nat, threshold: nat, duration: nat)
    requires k < |events| - 1
    ensures Neutral(events[..|events| - 1], k, threshold, duration) == Neutral(events, k, threshold, duration)
  {
    assert events[..|events| - 1][..k] == events[..k];
  }

  lemma {:induction false} StateSince(events: seq<Event>, k: nat, threshold: nat, duration: nat)
    requires Decides(events, k, threshold, duration)
    ensures var b := After(events, threshold, duration);
            if Clears(events[k]) then !b.blacklisted && !b.halfOpen
            else b.blacklisted && b.until == Deadline(events[k], duration) && (b.halfOpen <==> !NotAsked(events, k, Deadline(events[k], duration)))
  {
    var last := |events| - 1;
    var init := events[..last];
    assert init == events[..last];
    if k < last {
      NeutralPrefix(events, k, threshold, duration);
      forall m | k < m < last ensures Neutral(init, m, threshold, duration) { NeutralPrefix(events, m, threshold, duration); }
      StateSince(init, k, threshold, duration);
      assert Neutral(events, last, threshold, duration);
      if !Clears(events[k]) {
        var deadline := Deadline(events[k], duration);
        assert NotAsked(events, k, deadline) <==> NotAsked(init, k, deadline) && (events[last].Acquire? ==> events[last].now < deadline);
      }
    }
  }

  lemma {:induction false} NeverDecided(events: seq<Event>, threshold: nat, duration: nat)
    requires forall k :: 0 <= k < |events| ==> Neutral(events, k, threshold, duration)
    ensures var b := After(events, threshold, duration); !b.blacklisted && !b.halfOpen
  {
    if events != [] {
      var last := |events| - 1;
      forall k | 0 <= k < last ensures Neutral(events[..last], k, threshold, duration) { NeutralPrefix(events, k, threshold, duration); }
      NeverDecided(events[..last], threshold, duration);
      assert Neutral(events, last, threshold, duration);
    }
  }

  lemma {:induction false} SomeDecides(events: seq<Event>, n: nat, threshold: nat, duration: nat) returns (k: nat)
    requires n <= |events| && forall m :: n <= m < |events| ==> Neutral(events, m, threshold, duration)
    ensures k == |events| ==> forall m :: 0 <= m < |events| ==> Neutral(events, m, threshold, duration)
    ensures k == |events| || Decides(events, k, threshold, duration)
  {
    if n == 0 {
      k := |events|;
    } else if Neutral(events, n - 1, threshold, duration) {
      k := SomeDecides(events, n - 1, threshold, duration);
    } else {
      k := n - 1;
    }
  }

  // After any trace a member is available exactly if nothing blacklisted it, or the last event that
  // counts cleared it, or that event's deadline has passed and nobody has asked since it had.
  lemma AvailableExactly(events: seq<Event>, threshold: nat, duration: nat, now: nat)
    ensures Available(After(events, threshold, duration), now) <==>
            forall k {:trigger Decides(events, k, threshold, duration)} :: Decides(events, k, threshold, duration) ==> Lets(events, k, duration, now)
  {
    var k := SomeDecides(events, |events|, threshold, duration);
    if k == |events| {
      NeverDecided(events, threshold, duration);
    } else {
      StateSince(events, k, threshold, duration);
      OneDecides(events, k, threshold, duration);
    }
  }

  lemma OneDecides(events: seq<Event>, k: nat, threshold: nat, duration: nat)
    requires Decides(events, k, threshold, duration)
    ensures forall m {:trigger Decides(events, m, threshold, duration)} :: Decides(events, m, threshold, duration) ==> m == k
  {
  }

  // A manual blacklisting ends before its deadline exactly if something later decides: a success, a
  // release, or a tripping failure or a ban whose own deadline has passed, with nobody having asked
  // since that.
  lemma BanEndsEarly(events: seq<Event>, i: nat, threshold: nat, duration: nat, now: nat)
    requires i < |events| && events[i].Ban? && now < events[i].now + events[i].duration
    ensures Available(After(events, threshold, duration), now) <==>
            exists k {:trigger Decides(events, k, threshold, duration)} ::
              i < k && Decides(events, k, threshold, duration) && Lets(events, k, duration, now)
  {
    AvailableExactly(events, threshold, duration, now);
    var k := SomeDecides(events, |events|, threshold, duration);
    assert !Neutral(events, i, threshold, duration);
    OneDecides(events, k, threshold, duration);
  }

  function Failures(ban: nat, n: nat): seq<Event> {
    if n == 0 then [Ban(0, ban)] else Failures(ban, n - 1) + [Failure(0)]
  }

  lemma {:induction false} FailuresAre(ban: nat, n: nat)
    ensures var events := Failures(ban, n);
            |events| == n + 1 && events[0] == Ban(0, ban) && forall m :: 0 < m <= n ==> events[m] == Failure(0)
  {
    if n > 0 {
      FailuresAre(ban, n - 1);
    }
  }

  lemma AfterOneMore(events: seq<Event>, e: Event, threshold: nat, duration: nat)
    ensures After(events + [e], threshold, duration) == Step(After(events, threshold, duration), e, threshold, duration)
  {
    assert (events + [e])[..|events|] == events;
  }

  lemma {:induction false} FailuresTrip(ban: nat, n: nat, threshold: nat, duration: nat)
    requires n <= threshold && 0 < threshold
    ensures After(Failures(ban, n), threshold, duration) ==
            if n < threshold then Breaker(n, true, ban, false) else Breaker(0, true, duration, false)
  {
    hide After;
    if n == 0 {
      AfterOneMore([], Ban(0, ban), threshold, duration);
      assert [] + [Ban(0, ban)] == [Ban(0, ban)];
    } else {
      FailuresTrip(ban, n - 1, threshold, duration);
      AfterOneMore(Failures(ban, n - 1), Failure(0), threshold, duration);
    }
  }

  // The last event counts, not the latest deadline: whatever the threshold, enough failures of
  // connections still open cut a longer ban short.
  lemma FailureShortensBan(threshold: nat, duration: nat, ban: nat)
    requires 0 < threshold && duration < ban
    ensures var events := Failures(ban, threshold);
            && events[0] == Ban(0, ban) && (forall m :: 0 < m < |events| ==> events[m] == Failure(0))
            && Available(After(events, threshold, duration), duration)
  {
    FailuresAre(ban, threshold);
    FailuresTrip(ban, threshold, threshold, duration);
  }
}

/** The handoff quota of core/host/session_handoff.go: a pruned sliding window that answers as the full history
    would. */
module HandoffLimiter {

  /** Instants in nanoseconds; `HOUR` is the window of the quota. */
  type Instant = int

  const HOUR: int := 3_600_000_000_000

  const SECOND: int := 1_000_000_000

  const AGENT_PER_HOUR: nat := 3

  datatype Verdict = Granted | Busy | Quota

  /** The grants of `times` that still count at `now`. */
  function Recent(times: seq<Instant>, now: Instant): seq<Instant> {
    if times == [] then []
    else (if now - times[0] >= HOUR then [] else [times[0]]) + Recent(times[1..], now)
  }

  /** Everything that happened to a limiter: the grants of each tree, in order, and the releases. */
  datatype History = History(grants: map<string, seq<Instant>>, released: map<string, nat>)

  const NOTHING := History(map[], map[])

  function GrantsOf(h: History, tree: string): seq<Instant> {
    if tree in h.grants then h.grants[tree] else []
  }

  function ReleasesOf(h: History, tree: string): nat {
    if tree in h.released then h.released[tree] else 0
  }

  /** What the full history answers: one handoff at a time, and three grants an hour. */
  function FullVerdict(h: History, tree: string, now: Instant): Verdict {
    if |GrantsOf(h, tree)| > ReleasesOf(h, tree) then Busy
    else if |Recent(GrantsOf(h, tree), now)| >= AGENT_PER_HOUR then Quota
    else Granted
  }

  function Stored(granted: map<string, seq<Instant>>, tree: string): seq<Instant> {
    if tree in granted then granted[tree] else []
  }

  /** How the stored list and flag of a tree relate to its history: the list is what still counted at `last`, and the
      tree is in flight when one grant more was given than released; grants are in order, and no four fall within an
      hour. */
  ghost predicate TreeInv(times: seq<Instant>, released: nat, stored: seq<Instant>, inFlight: bool, last: Instant) {
    && stored == Recent(times, last)
    && |stored| <= AGENT_PER_HOUR
    && |times| == released + (if inFlight then 1 else 0)
    && Ordered(times, last)
    && Spaced(times)
  }

  class Limiter {
    var inFlight: set<string>
    var granted: map<string, seq<Instant>>
    ghost var history: History
    ghost var last: Instant

    ghost predicate Valid()
      reads this
    {
      && (forall tree :: tree in granted ==> granted[tree] != [])
      && (forall tree :: TreeInv(GrantsOf(history, tree), ReleasesOf(history, tree), Stored(granted, tree),
                                 tree in inFlight, last))
    }

    constructor (start: Instant)
      ensures Valid() && history == NOTHING && last == start
    {
      inFlight, granted := {}, map[];
      history, last := NOTHING, start;
    }

    /** Drops the grants that no longer count, and the trees left with none. */
    method ForgetIdle(now: Instant)
      modifies this`granted
      ensures forall tree :: Stored(granted, tree) == Recent(Stored(old(granted), tree), now)
      ensures forall tree, t ::
                t in Stored(granted, tree) <==> t in Stored(old(granted), tree) && now - t < 60 * 60 * SECOND
      ensures forall tree :: tree in granted ==> granted[tree] != []
    {
      assert Recent([], now) == [];
      forall tree, t
        ensures t in Recent(Stored(granted, tree), now)
                <==> t in Stored(granted, tree) && now - t < 60 * 60 * SECOND
      {
        RecentHolds(Stored(granted, tree), now, t);
      }
      hide Recent;
      var todo := granted.Keys;
      while todo != {}
        invariant todo <= granted.Keys <= old(granted).Keys
        invariant forall tree :: tree in todo ==> granted[tree] == old(granted)[tree]
        invariant forall tree :: tree in old(granted) && tree !in todo ==>
                    if Recent(old(granted)[tree], now) != []
                    then tree in granted && granted[tree] == Recent(old(granted)[tree], now)
                    else tree !in granted
        decreases |todo|
      {
        var tree :| tree in todo;
        var recent := DeleteOld(granted[tree], now);
        if |recent| == 0 {
          granted := granted - {tree};
        } else {
          granted := granted[tree := recent];
        }
        todo := todo - {tree};
      }
    }

    method DeleteOld(times: seq<Instant>, now: Instant) returns (recent: seq<Instant>)
      ensures recent == Recent(times, now)
    {
      recent := [];
      for index := 0 to |times|
        invariant recent + Recent(times[index..], now) == Recent(times, now)
      {
        RecentStep(times, index, now);
        if now - times[index] < HOUR {
          recent := recent + [times[index]];
        }
      }
    }

    /** Answers as the full history would, and records a grant. The clock does not run backwards. */
    method Acquire(tree: string, now: Instant) returns (verdict: Verdict)
      requires Valid() && last <= now
      modifies this
      ensures Valid()
      ensures verdict == FullVerdict(old(history), tree, now)
      ensures verdict == Busy <==> |GrantsOf(old(history), tree)| > ReleasesOf(old(history), tree)
      ensures verdict == Quota <==>
                && |GrantsOf(old(history), tree)| <= ReleasesOf(old(history), tree)
                && ThreeWithinTheHour(GrantsOf(old(history), tree), now)
      ensures history == if verdict.Granted?
                         then old(history).(grants := old(history).grants[tree := GrantsOf(old(history), tree) + [now]])
                         else old(history)
      ensures old(last) <= last <= now && (verdict.Granted? ==> last == now)
    {
      hide Recent, TreeInv, FullVerdict, ThreeWithinTheHour;
      VerdictOfState(history, tree, Stored(granted, tree), tree in inFlight, last, now);
      if tree in inFlight {
        return Busy;
      }
      ghost var before := granted;
      ForgetIdle(now);
      AllAge(history, before, granted, inFlight, last, now);
      last := now;
      var times := Stored(granted, tree);
      if |times| >= AGENT_PER_HOUR {
        return Quota;
      }
      TreeGrants(GrantsOf(history, tree), ReleasesOf(history, tree), times, now);
      granted := granted[tree := times + [now]];
      inFlight := inFlight + {tree};
      history := history.(grants := history.grants[tree := GrantsOf(history, tree) + [now]]);
      return Granted;
    }

    /** The closure a grant returns; it is called once. */
    method Release(tree: string)
      requires Valid() && tree in inFlight
      modifies this
      ensures Valid() && last == old(last)
      ensures history == old(history).(released := old(history).released[tree := ReleasesOf(old(history), tree) + 1])
    {
      hide Recent, Ordered, Spaced;
      inFlight := inFlight - {tree};
      history := history.(released := history.released[tree := ReleasesOf(history, tree) + 1]);
    }
  }

  // ---------------------------------------------------------------- pruning

  lemma RecentStep(times: seq<Instant>, index: nat, now: Instant)
    requires index < |times|
    ensures Recent(times[index..], now)
            == (if now - times[index] >= HOUR then [] else [times[index]]) + Recent(times[index + 1..], now)
  {
    assert times[index..][1..] == times[index + 1..];
  }

  lemma {:induction false} RecentHolds(times: seq<Instant>, now: Instant, t: Instant)
    ensures t in Recent(times, now) <==> t in times && now - t < 60 * 60 * SECOND
  {
    if times != [] {
      RecentHolds(times[1..], now, t);
      assert times == [times[0]] + times[1..];
    }
  }

  lemma {:induction false} PruningTwice(times: seq<Instant>, earlier: Instant, now: Instant)
    requires earlier <= now
    ensures Recent(Recent(times, earlier), now) == Recent(times, now)
  {
    if times != [] {
      PruningTwice(times[1..], earlier, now);
      if earlier - times[0] < HOUR {
        var kept := Recent(times, earlier);
        assert kept[0] == times[0] && kept[1..] == Recent(times[1..], earlier);
      } else {
        assert Recent(times, earlier) == Recent(times[1..], earlier);
      }
    }
  }

  /** Pruning at one instant never changes what counts at another exactly when the clock has not run backwards. */
  lemma PruningNeedsMonotoneClock(earlier: Instant, now: Instant)
    ensures (forall times :: Recent(Recent(times, earlier), now) == Recent(times, now)) <==> earlier <= now
  {
    if earlier <= now {
      forall times
        ensures Recent(Recent(times, earlier), now) == Recent(times, now)
      {
        PruningTwice(times, earlier, now);
      }
    } else {
      var times := [earlier - HOUR];
      assert times[1..] == [];
      assert Recent(times, earlier) == [] && Recent(times, now) == times;
      assert Recent(Recent(times, earlier), now) != Recent(times, now);
    }
  }

  lemma {:induction false} RecentShrinks(times: seq<Instant>, now: Instant)
    ensures |Recent(times, now)| <= |times|
  {
    if times != [] {
      RecentShrinks(times[1..], now);
    }
  }

  lemma {:induction false} RecentSnoc(times: seq<Instant>, at: Instant, now: Instant)
    requires now - at < HOUR
    ensures Recent(times + [at], now) == Recent(times, now) + [at]
  {
    if times == [] {
      assert times + [at] == [at];
    } else {
      assert (times + [at])[1..] == times[1..] + [at];
      RecentSnoc(times[1..], at, now);
    }
  }

  // ---------------------------------------------------------------- what the quota guarantees

  /** The grants of `times` within the hour that begins at `from`. */
  function InHourFrom(times: seq<Instant>, from: Instant): nat {
    if times == [] then 0
    else InHourFrom(times[1..], from) + (if from <= times[0] < from + HOUR then 1 else 0)
  }

  ghost predicate Ordered(times: seq<Instant>, last: Instant) {
    && (forall i, j :: 0 <= i <= j < |times| ==> times[i] <= times[j])
    && (forall i :: 0 <= i < |times| ==> times[i] <= last)
  }

  /** No four grants within an hour. */
  ghost predicate Spaced(times: seq<Instant>) {
    forall i, j :: 0 <= i && j == i + AGENT_PER_HOUR && j < |times| ==> times[j] - times[i] >= HOUR
  }

  lemma {:induction false} AllRecent(times: seq<Instant>, now: Instant)
    requires forall i :: 0 <= i < |times| ==> now - times[i] < HOUR
    ensures Recent(times, now) == times
  {
    if times != [] {
      AllRecent(times[1..], now);
    }
  }

  lemma {:induction false} NotRecent(times: seq<Instant>, now: Instant, i: nat)
    requires Ordered(times, now) && i < |times| - |Recent(times, now)|
    ensures now - times[i] >= HOUR
  {
    var front, back := times[..i], times[i..];
    assert times == front + back;
    if now - times[i] < HOUR {
      RecentConcat(front, back, now);
      AllRecent(back, now);
      RecentShrinks(front, now);
    }
  }

  lemma {:induction false} NoneRecent(times: seq<Instant>, now: Instant)
    requires forall i :: 0 <= i < |times| ==> now - times[i] >= HOUR
    ensures Recent(times, now) == []
  {
    if times != [] {
      NoneRecent(times[1..], now);
    }
  }

  lemma LastAreRecent(times: seq<Instant>, now: Instant, i: nat)
    requires Ordered(times, now) && |times| - |Recent(times, now)| <= i < |times|
    ensures now - times[i] < HOUR
  {
    var front, back := times[..i + 1], times[i + 1..];
    assert times == front + back;
    if now - times[i] >= HOUR {
      RecentConcat(front, back, now);
      NoneRecent(front, now);
      RecentShrinks(back, now);
    }
  }

  /** Three of these instants lie within the hour before `now`. */
  ghost predicate ThreeWithinTheHour(times: seq<Instant>, now: Instant) {
    exists i, j, k ::
      && 0 <= i < j < k < |times|
      && now - times[i] < 60 * 60 * SECOND && now - times[j] < 60 * 60 * SECOND && now - times[k] < 60 * 60 * SECOND
  }

  lemma QuotaIsThree(times: seq<Instant>, last: Instant, now: Instant)
    requires Ordered(times, last) && last <= now
    ensures |Recent(times, now)| >= AGENT_PER_HOUR <==> ThreeWithinTheHour(times, now)
  {
    hide Recent;
    var count := |times|;
    RecentShrinks(times, now);
    if |Recent(times, now)| >= AGENT_PER_HOUR {
      LastAreRecent(times, now, count - 3);
      LastAreRecent(times, now, count - 2);
      LastAreRecent(times, now, count - 1);
      assert now - times[count - 3] < 60 * 60 * SECOND && now - times[count - 2] < 60 * 60 * SECOND
          && now - times[count - 1] < 60 * 60 * SECOND;
    }
    if ThreeWithinTheHour(times, now) {
      var i, j, k :|
        && 0 <= i < j < k < count
        && now - times[i] < 60 * 60 * SECOND && now - times[j] < 60 * 60 * SECOND && now - times[k] < 60 * 60 * SECOND;
      if i < count - |Recent(times, now)| {
        NotRecent(times, now, i);
      }
    }
  }

  lemma {:induction false} RecentConcat(front: seq<Instant>, back: seq<Instant>, now: Instant)
    ensures Recent(front + back, now) == Recent(front, now) + Recent(back, now)
  {
    if front == [] {
      assert front + back == back;
    } else {
      assert (front + back)[1..] == front[1..] + back;
      RecentConcat(front[1..], back, now);
    }
  }

  lemma TreeAges(times: seq<Instant>, released: nat, stored: seq<Instant>, inFlight: bool, last: Instant, now: Instant)
    requires TreeInv(times, released, stored, inFlight, last) && last <= now
    ensures TreeInv(times, released, Recent(stored, now), inFlight, now)
  {
    PruningTwice(times, last, now);
    RecentShrinks(stored, now);
  }

  /** What is stored of a tree is enough to answer as the full history does. */
  lemma VerdictOfState(h: History, tree: string, stored: seq<Instant>, inFlight: bool, last: Instant, now: Instant)
    requires TreeInv(GrantsOf(h, tree), ReleasesOf(h, tree), stored, inFlight, last) && last <= now
    ensures FullVerdict(h, tree, now)
         == if inFlight then Busy else if |Recent(stored, now)| >= AGENT_PER_HOUR then Quota else Granted
    ensures FullVerdict(h, tree, now) == Busy <==> |GrantsOf(h, tree)| > ReleasesOf(h, tree)
    ensures FullVerdict(h, tree, now) == Quota <==>
              && |GrantsOf(h, tree)| <= ReleasesOf(h, tree)
              && ThreeWithinTheHour(GrantsOf(h, tree), now)
  {
    hide Recent, Spaced, ThreeWithinTheHour;
    QuotaIsThree(GrantsOf(h, tree), last, now);
    PruningTwice(GrantsOf(h, tree), last, now);
  }

  lemma AllAge(h: History, before: map<string, seq<Instant>>, after: map<string, seq<Instant>>, inFlight: set<string>,
               last: Instant, now: Instant)
    requires last <= now && forall tree :: Stored(after, tree) == Recent(Stored(before, tree), now)
    requires forall tree ::
               TreeInv(GrantsOf(h, tree), ReleasesOf(h, tree), Stored(before, tree), tree in inFlight, last)
    ensures forall tree :: TreeInv(GrantsOf(h, tree), ReleasesOf(h, tree), Stored(after, tree), tree in inFlight, now)
  {
    hide TreeInv, Recent;
    forall tree {
      TreeAges(GrantsOf(h, tree), ReleasesOf(h, tree), Stored(before, tree), tree in inFlight, last, now);
    }
  }

  lemma TreeGrants(times: seq<Instant>, released: nat, stored: seq<Instant>, now: Instant)
    requires TreeInv(times, released, stored, false, now) && |stored| < AGENT_PER_HOUR
    ensures TreeInv(times + [now], released, stored + [now], true, now)
  {
    hide Recent;
    var longer := times + [now];
    RecentSnoc(times, now, now);
    forall i, j | 0 <= i && j == i + AGENT_PER_HOUR && j < |longer|
      ensures longer[j] - longer[i] >= HOUR
    {
      if j == |times| {
        NotRecent(times, now, i);
      }
    }
  }

  lemma {:induction false} NoneAfter(times: seq<Instant>, from: Instant)
    requires forall i :: 0 <= i < |times| ==> times[i] >= from + HOUR
    ensures InHourFrom(times, from) == 0
  {
    if times != [] {
      NoneAfter(times[1..], from);
    }
  }

  lemma {:induction false} AtMostAll(times: seq<Instant>, from: Instant)
    ensures InHourFrom(times, from) <= |times|
  {
    if times != [] {
      AtMostAll(times[1..], from);
    }
  }

  lemma {:induction false} WindowSplits(front: seq<Instant>, back: seq<Instant>, from: Instant)
    ensures InHourFrom(front + back, from) == InHourFrom(front, from) + InHourFrom(back, from)
  {
    if front == [] {
      assert front + back == back;
    } else {
      assert (front + back)[1..] == front[1..] + back;
      WindowSplits(front[1..], back, from);
    }
  }

  /** Whatever hour is looked at, it holds at most three grants of a tree. */
  lemma {:induction false} AtMostThreeAnHour(times: seq<Instant>, last: Instant, from: Instant)
    requires Ordered(times, last) && Spaced(times)
    ensures InHourFrom(times, from) <= AGENT_PER_HOUR
  {
    if |times| <= AGENT_PER_HOUR {
      AtMostAll(times, from);
    } else if times[0] < from {
      AtMostThreeAnHour(times[1..], last, from);
    } else {
      var front, back := times[..AGENT_PER_HOUR], times[AGENT_PER_HOUR..];
      assert times == front + back && times[AGENT_PER_HOUR] - times[0] >= HOUR;
      WindowSplits(front, back, from);
      AtMostAll(front, from);
      NoneAfter(back, from);
    }
  }

  /** Over the life of a limiter: at most one handoff of a tree in flight, at most three grants in any hour, at most
      three instants stored, and from every grant an hour to the third after it. */
  lemma LimiterKeepsItsQuota(limiter: Limiter, tree: string, from: Instant)
    requires limiter.Valid()
    ensures var granted, released := |GrantsOf(limiter.history, tree)|, ReleasesOf(limiter.history, tree);
            released <= granted <= released + 1
    ensures InHourFrom(GrantsOf(limiter.history, tree), from) <= 3 && |Stored(limiter.granted, tree)| <= 3
    ensures var times := GrantsOf(limiter.history, tree);
            forall i, j :: 0 <= i && j == i + 3 && j < |times| ==> times[j] - times[i] >= 60 * 60 * SECOND
  {
    assert TreeInv(GrantsOf(limiter.history, tree), ReleasesOf(limiter.history, tree), Stored(limiter.granted, tree),
                   tree in limiter.inFlight, limiter.last);
    AtMostThreeAnHour(GrantsOf(limiter.history, tree), limiter.last, from);
  }
}

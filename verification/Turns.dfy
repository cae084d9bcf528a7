/** One item of a session's queue, as the pump takes it: the gate, the turn identity, what the bridge sends, how the
    turn ends, and every event fanned out on the way. */
module Turns {
  /** What an event is. A compaction reported by the bridge ends with its result or its error. */
  datatype Kind = Human | Reply | Abandoned | Status | Paused | Compacted | Progress | Other(name: string)

  datatype Event = Event(
    kind: Kind, done: bool, incarnation: string, turnID: string, agent: string,
    tokens: int, tokensIn: int, cacheRead: int, cacheCreate: int)

  datatype Origin = Host | Bridge

  /** An event fanned out: whose it is, and whether the gateways get it beside the tap. */
  datatype Entry = Entry(event: Event, origin: Origin, shown: bool)

  /** The daemon's own event of this kind. */
  function Say(kind: Kind): Entry {
    Entry(Event(kind, false, "", "", "", 0, 0, 0, 0), Host, false)
  }

  /** What `fanOut` stamps on an event: the session's identity with the turn in progress, or nothing. */
  datatype Context = Context(incarnation: string, agent: string, activeTurnID: string, saidElsewhere: bool)

  function Stamped(c: Context, e: Event): Event {
    if c.activeTurnID != "" then e.(incarnation := c.incarnation, turnID := c.activeTurnID, agent := c.agent)
    else e.(incarnation := "", turnID := "", agent := "")
  }

  function FannedOut(c: Context, entry: Entry): Entry {
    entry.(event := Stamped(c, entry.event), shown := !c.saidElsewhere)
  }

  function AllFannedOut(c: Context, entries: seq<Entry>): seq<Entry> {
    if entries == [] then []
    else AllFannedOut(c, entries[..|entries| - 1]) + [FannedOut(c, entries[|entries| - 1])]
  }

  lemma NothingFannedOut(c: Context)
    ensures AllFannedOut(c, []) == []
  {
  }

  lemma OneMoreFannedOut(c: Context, entries: seq<Entry>, entry: Entry)
    ensures AllFannedOut(c, entries + [entry]) == AllFannedOut(c, entries) + [FannedOut(c, entry)]
  {
    assert (entries + [entry])[..|entries|] == entries;
  }

  lemma {:induction false} FannedOutJoin(c: Context, xs: seq<Entry>, ys: seq<Entry>)
    ensures AllFannedOut(c, xs + ys) == AllFannedOut(c, xs) + AllFannedOut(c, ys)
    decreases |ys|
  {
    if ys == [] {
      assert xs + ys == xs;
    } else {
      var front, last := ys[..|ys| - 1], ys[|ys| - 1];
      FannedOutJoin(c, xs, front);
      OneMoreFannedOut(c, xs + front, last);
      assert xs + ys == xs + front + [last];
    }
  }

  lemma {:induction false} FannedOutAt(c: Context, entries: seq<Entry>)
    ensures |AllFannedOut(c, entries)| == |entries|
    ensures forall i :: 0 <= i < |entries| ==> AllFannedOut(c, entries)[i] == FannedOut(c, entries[i])
    decreases |entries|
  {
    if entries != [] {
      FannedOutAt(c, entries[..|entries| - 1]);
    }
  }

  /** Part of a log said in one turn: every event carries this identity, and the gateways get it or not. */
  ghost predicate Bears(log: seq<Entry>, start: nat, end: nat, incarnation: string, agent: string, turnID: string,
                        shown: bool) {
    && start <= end <= |log|
    && forall i :: start <= i < end ==>
         && log[i].event.incarnation == incarnation && log[i].event.agent == agent && log[i].event.turnID == turnID
         && log[i].shown == shown
  }

  lemma FannedOutBears(before: seq<Entry>, c: Context, entries: seq<Entry>, after: seq<Entry>)
    requires c.activeTurnID != ""
    ensures Bears(before + AllFannedOut(c, entries) + after, |before|, |before| + |entries|, c.incarnation, c.agent,
                  c.activeTurnID, !c.saidElsewhere)
  {
    FannedOutAt(c, entries);
    var log := before + AllFannedOut(c, entries) + after;
    assert forall i :: |before| <= i < |before| + |entries| ==> log[i] == AllFannedOut(c, entries)[i - |before|];
  }

  lemma FannedOutThen(before: seq<Entry>, between: seq<Entry>, after: seq<Entry>, c: Context, xs: seq<Entry>,
                      ys: seq<Entry>)
    requires between == before + AllFannedOut(c, xs) && after == between + AllFannedOut(c, ys)
    ensures after == before + AllFannedOut(c, xs + ys)
  {
    FannedOutJoin(c, xs, ys);
  }

  // ---------------------------------------------------------------- watching one turn from outside

  /** An observer of one input's events: first the human line, then one terminal, a finished reply or the daemon's
      `abandoned`. */
  datatype Phase = Unseen | Open | Closed | Broken

  predicate Opens(e: Entry) {
    e.origin == Host && e.event.kind == Human
  }

  predicate IsFinal(e: Event) {
    e.kind == Reply && e.done
  }

  predicate Closes(e: Entry) {
    IsFinal(e.event) || (e.origin == Host && e.event.kind == Abandoned)
  }

  function NextPhase(p: Phase, e: Entry): Phase {
    if Opens(e) then (if p == Unseen then Open else Broken)
    else if Closes(e) then (if p == Open then Closed else Broken)
    else p
  }

  function Follow(p: Phase, log: seq<Entry>): Phase {
    if log == [] then p else NextPhase(Follow(p, log[..|log| - 1]), log[|log| - 1])
  }

  lemma FollowOneMore(p: Phase, log: seq<Entry>, e: Entry)
    ensures Follow(p, log + [e]) == NextPhase(Follow(p, log), e)
  {
    assert (log + [e])[..|log|] == log;
  }

  lemma {:induction false} FollowJoin(p: Phase, xs: seq<Entry>, ys: seq<Entry>)
    ensures Follow(p, xs + ys) == Follow(Follow(p, xs), ys)
    decreases |ys|
  {
    if ys == [] {
      assert xs + ys == xs;
    } else {
      var front, last := ys[..|ys| - 1], ys[|ys| - 1];
      FollowJoin(p, xs, front);
      FollowOneMore(p, xs + front, last);
      assert xs + ys == xs + front + [last];
    }
  }

  /** Stamping changes nothing the observer looks at. */
  lemma {:induction false} FollowFannedOut(p: Phase, c: Context, entries: seq<Entry>)
    ensures Follow(p, AllFannedOut(c, entries)) == Follow(p, entries)
    decreases |entries|
  {
    if entries != [] {
      var front, last := entries[..|entries| - 1], entries[|entries| - 1];
      FollowFannedOut(p, c, front);
      FollowOneMore(p, AllFannedOut(c, front), FannedOut(c, last));
    }
  }

  // ---------------------------------------------------------------- the token guard

  function PromptSize(e: Event): int {
    e.tokensIn + e.cacheRead + e.cacheCreate
  }

  function Spent(e: Event): nat {
    (if e.tokens > 0 then e.tokens else 0) + (if e.tokensIn > 0 then e.tokensIn else 0)
  }

  /** What the gate's verdict allows a turn to spend. */
  datatype Allowance = Allowance(headroom: nat, capped: bool, cut: bool)

  const UNCAPPED := Allowance(0, false, false)

  predicate Over(headroom: nat, e: Event) {
    Spent(e) > 0 && Spent(e) >= headroom
  }

  predicate Trips(g: Allowance, e: Event) {
    g.capped && !g.cut && Over(g.headroom, e)
  }

  /** The guard after these events. */
  function Guarded(g: Allowance, frames: seq<Event>): Allowance {
    if frames == [] then g
    else
      var before := Guarded(g, frames[..|frames| - 1]);
      before.(cut := before.cut || Trips(before, frames[|frames| - 1]))
  }

  lemma {:induction false} CutOnceOver(g: Allowance, frames: seq<Event>)
    ensures Guarded(g, frames).headroom == g.headroom && Guarded(g, frames).capped == g.capped
    ensures Guarded(g, frames).cut
            <==> g.cut || (g.capped && exists i :: 0 <= i < |frames| && Over(g.headroom, frames[i]))
    decreases |frames|
  {
    if frames != [] {
      var front := frames[..|frames| - 1];
      CutOnceOver(g, front);
      assert forall i :: 0 <= i < |front| ==> frames[i] == front[i];
    }
  }

  /** A capped turn is interrupted at the first event over its headroom, and never again. */
  lemma TripsAtTheFirstOver(g: Allowance, frames: seq<Event>, i: nat)
    requires i < |frames| && !g.cut
    ensures Trips(Guarded(g, frames[..i]), frames[i]) <==>
            g.capped && Over(g.headroom, frames[i]) && forall j :: 0 <= j < i ==> !Over(g.headroom, frames[j])
  {
    CutOnceOver(g, frames[..i]);
    assert forall j :: 0 <= j < i ==> frames[..i][j] == frames[j];
  }

  class TokenGuard {
    const headroom: nat
    const capped: bool
    var cut: bool

    ghost function View(): Allowance
      reads this
    {
      Allowance(headroom, capped, cut)
    }

    constructor (g: Allowance)
      ensures View() == g
    {
      headroom, capped, cut := g.headroom, g.capped, g.cut;
    }

    /** Trips on an event that reports some tokens, negative counts not counted, and as many as are left. */
    method Check(e: Event) returns (over: bool)
      modifies this
      ensures over <==> Trips(old(View()), e)
      ensures var spent := (if e.tokens > 0 then e.tokens else 0) + (if e.tokensIn > 0 then e.tokensIn else 0);
              over <==> capped && !old(cut) && spent > 0 && spent >= headroom
      ensures View() == old(View()).(cut := old(cut) || over)
    {
      if !capped || cut {
        return false;
      }
      var spent := Spent(e);
      if spent == 0 || spent < headroom {
        return false;
      }
      cut := true;
      return true;
    }
  }

  // ---------------------------------------------------------------- what a turn says

  /** An unfinished event is passed on, and the one that trips the guard is followed by a notice. */
  function RelayedOne(g: Allowance, frame: Event): seq<Entry> {
    [Entry(frame, Bridge, false)] + if Trips(g, frame) then [Say(Status)] else []
  }

  /** What the turn's unfinished events make the session say. */
  function Relayed(g: Allowance, frames: seq<Event>): seq<Entry> {
    if frames == [] then []
    else
      var front, last := frames[..|frames| - 1], frames[|frames| - 1];
      Relayed(g, front) + RelayedOne(Guarded(g, front), last)
  }

  /** The last positive prompt size the bridge reported, or zero. */
  function LivePrompt(frames: seq<Event>): int {
    if frames == [] then 0
    else if PromptSize(frames[|frames| - 1]) > 0 then PromptSize(frames[|frames| - 1])
    else LivePrompt(frames[..|frames| - 1])
  }

  /** A turn's reading: the last positive prompt size of the events before its reply, or else the reply's own. */
  ghost predicate IsReading(feed: seq<Event>, n: nat, reading: int)
    requires n < |feed|
  {
    || (exists i ::
          && 0 <= i < n && feed[i].tokensIn + feed[i].cacheRead + feed[i].cacheCreate == reading > 0
          && forall j :: i < j < n ==> feed[j].tokensIn + feed[j].cacheRead + feed[j].cacheCreate <= 0)
    || (&& (forall j :: 0 <= j < n ==> feed[j].tokensIn + feed[j].cacheRead + feed[j].cacheCreate <= 0)
        && feed[n].tokensIn + feed[n].cacheRead + feed[n].cacheCreate == reading)
  }

  lemma {:induction false} LivePromptIsLast(frames: seq<Event>) returns (at: int)
    ensures -1 <= at < |frames|
    ensures if at >= 0 then PromptSize(frames[at]) == LivePrompt(frames) > 0 else LivePrompt(frames) == 0
    ensures forall j :: at < j < |frames| ==> PromptSize(frames[j]) <= 0
    decreases |frames|
  {
    hide PromptSize;
    at := |frames| - 1;
    if frames != [] && PromptSize(frames[at]) <= 0 {
      at := LivePromptIsLast(frames[..at]);
      assert forall j :: at < j < |frames| - 1 ==> frames[j] == frames[..|frames| - 1][j];
    }
  }

  lemma LiveIsReading(feed: seq<Event>, n: nat)
    requires n < |feed|
    ensures var live := LivePrompt(feed[..n]);
            IsReading(feed, n, if live > 0 then live else PromptSize(feed[n]))
  {
    var at := LivePromptIsLast(feed[..n]);
    assert forall j :: at < j < n ==> feed[..n][j] == feed[j];
    if at >= 0 {
      assert feed[at].tokensIn + feed[at].cacheRead + feed[at].cacheCreate == LivePrompt(feed[..n]);
    }
  }

  function Passed(frames: seq<Event>): seq<Entry> {
    if frames == [] then [] else Passed(frames[..|frames| - 1]) + [Entry(frames[|frames| - 1], Bridge, false)]
  }

  lemma PassedOneMore(frames: seq<Event>, frame: Event)
    ensures Passed(frames + [frame]) == Passed(frames) + [Entry(frame, Bridge, false)]
  {
    assert (frames + [frame])[..|frames|] == frames;
  }

  /** Every event is passed on once, in order; the only notice comes right after the first event over the headroom of a
      capped turn. */
  lemma {:induction false} RelayedExactly(g: Allowance, frames: seq<Event>, first: nat)
    requires !g.cut && first <= |frames|
    requires g.capped ==>
               && (forall j :: 0 <= j < first ==> !Over(g.headroom, frames[j]))
               && (first < |frames| ==> Over(g.headroom, frames[first]))
    ensures Relayed(g, frames) ==
            if g.capped && first < |frames|
            then Passed(frames[..first + 1]) + [Say(Status)] + Passed(frames[first + 1..])
            else Passed(frames)
    decreases |frames|
  {
    hide Over, Passed;
    if frames == [] {
      NothingPassed();
    } else {
      var front, last := frames[..|frames| - 1], frames[|frames| - 1];
      assert frames == front + [last];
      assert forall j :: 0 <= j < |front| ==> frames[j] == front[j];
      CutOnceOver(g, front);
      PassedOneMore(front, last);
      if first < |front| {
        RelayedExactly(g, front, first);
        assert frames[first + 1..] == front[first + 1..] + [last] && frames[..first + 1] == front[..first + 1];
        PassedOneMore(front[first + 1..], last);
      } else {
        RelayedExactly(g, front, |front|);
        if first == |front| {
          assert frames[..first + 1] == frames && frames[first + 1..] == [];
          NothingPassed();
        }
      }
    }
  }

  lemma NothingPassed()
    ensures Passed([]) == []
  {
  }

  /** How many events come before the finished reply, all of them if none is one: the bridge hung up, or the session
      stopped. */
  function BeforeFinal(feed: seq<Event>): (n: nat)
    ensures n <= |feed|
    ensures n < |feed| ==> feed[n].kind == Reply && feed[n].done
    ensures forall i :: 0 <= i < n ==> !(feed[i].kind == Reply && feed[i].done)
  {
    if feed == [] || IsFinal(feed[0]) then 0 else 1 + BeforeFinal(feed[1..])
  }

  /** `announces`: the reply's coordination says something; `paused`: the gate refuses the session from now on. */
  function Completion(reply: Event, announces: bool, paused: bool): seq<Entry> {
    (if announces then [Say(Status)] else []) + [Entry(reply, Bridge, false)] + (if paused then [Say(Paused)] else [])
  }

  /** What a turn says from its first event on, to the reply or to the end of the feed. */
  function Awaited(g: Allowance, feed: seq<Event>, announces: bool, paused: bool): seq<Entry> {
    var n := BeforeFinal(feed);
    Relayed(g, feed[..n]) + if n < |feed| then Completion(feed[n], announces, paused) else []
  }

  /** Only an input's turn is announced as abandoned. */
  function AbandonedBy(input: bool): seq<Entry> {
    if input then [Say(Abandoned)] else []
  }

  /** `reached`: the bridge took what the turn sends it first. */
  function AfterHuman(input: bool, reached: bool, g: Allowance, feed: seq<Event>, announces: bool,
                      paused: bool): seq<Entry> {
    if !reached then AbandonedBy(input)
    else Awaited(g, feed, announces, paused) + if BeforeFinal(feed) == |feed| then AbandonedBy(input) else []
  }

  /** All that the turn of an input that passed the gate says. */
  function Said(reached: bool, g: Allowance, feed: seq<Event>, announces: bool, paused: bool): seq<Entry> {
    [Say(Human)] + AfterHuman(true, reached, g, feed, announces, paused)
  }

  lemma OneMoreFrame(g: Allowance, feed: seq<Event>, i: nat)
    requires i < |feed|
    ensures Relayed(g, feed[..i + 1]) == Relayed(g, feed[..i]) + RelayedOne(Guarded(g, feed[..i]), feed[i])
    ensures Guarded(g, feed[..i + 1]) ==
            Guarded(g, feed[..i]).(cut := Guarded(g, feed[..i]).cut || Trips(Guarded(g, feed[..i]), feed[i]))
    ensures LivePrompt(feed[..i + 1]) == if PromptSize(feed[i]) > 0 then PromptSize(feed[i]) else LivePrompt(feed[..i])
  {
    assert feed[..i + 1][..i] == feed[..i] && feed[..i + 1][i] == feed[i];
  }

  lemma BeforeTheFirst(c: Context, g: Allowance, feed: seq<Event>)
    ensures Relayed(g, feed[..0]) == [] && AllFannedOut(c, []) == []
    ensures Guarded(g, feed[..0]) == g && LivePrompt(feed[..0]) == 0
  {
  }

  /** Where the feed is left: at its first finished reply, or at its end. */
  lemma AwaitedAt(g: Allowance, feed: seq<Event>, i: nat, announces: bool, paused: bool)
    requires i <= |feed| && (forall j :: 0 <= j < i ==> !IsFinal(feed[j])) && (i < |feed| ==> IsFinal(feed[i]))
    ensures BeforeFinal(feed) == i
    ensures Awaited(g, feed, announces, paused)
            == Relayed(g, feed[..i]) + if i < |feed| then Completion(feed[i], announces, paused) else []
  {
    assert BeforeFinal(feed) == i;
  }

  lemma {:induction false} RelayedIsQuiet(p: Phase, g: Allowance, frames: seq<Event>)
    requires forall i :: 0 <= i < |frames| ==> !IsFinal(frames[i])
    ensures Follow(p, Relayed(g, frames)) == p
    decreases |frames|
  {
    if frames != [] {
      var front, last := frames[..|frames| - 1], frames[|frames| - 1];
      RelayedIsQuiet(p, g, front);
      FollowJoin(p, Relayed(g, front), RelayedOne(Guarded(g, front), last));
      RelayedOneIsQuiet(p, Guarded(g, front), last);
    }
  }

  lemma RelayedOneIsQuiet(p: Phase, g: Allowance, frame: Event)
    requires !IsFinal(frame)
    ensures Follow(p, RelayedOne(g, frame)) == p
  {
    FollowSingle(p, Entry(frame, Bridge, false));
    FollowOneMore(p, [Entry(frame, Bridge, false)], Say(Status));
  }

  lemma FollowSingle(p: Phase, e: Entry)
    ensures Follow(p, [e]) == NextPhase(p, e)
  {
    FollowOneMore(p, [], e);
    assert [] + [e] == [e];
  }

  lemma CompletionCloses(reply: Event, announces: bool, paused: bool)
    requires IsFinal(reply)
    ensures Follow(Open, Completion(reply, announces, paused)) == Closed
  {
    var status, final := if announces then [Say(Status)] else [], Entry(reply, Bridge, false);
    FollowSingle(Open, Say(Status));
    FollowOneMore(Open, status, final);
    FollowOneMore(Open, status + [final], Say(Paused));
    assert status + [final] + [] == status + [final];
  }

  lemma AwaitedCloses(g: Allowance, feed: seq<Event>, announces: bool, paused: bool)
    ensures Follow(Open, Awaited(g, feed, announces, paused)) == if BeforeFinal(feed) < |feed| then Closed else Open
  {
    var n := BeforeFinal(feed);
    RelayedIsQuiet(Open, g, feed[..n]);
    if n < |feed| {
      FollowJoin(Open, Relayed(g, feed[..n]), Completion(feed[n], announces, paused));
      CompletionCloses(feed[n], announces, paused);
    } else {
      FollowJoin(Open, Relayed(g, feed[..n]), []);
    }
  }

  /** An input that passes the gate is followed by one human line and then exactly one terminal, whatever the bridge
      does: not reached, gone in the middle, or sending lines that look like the daemon's own, which are not counted as
      such. */
  lemma OneHumanOneTerminal(reached: bool, g: Allowance, feed: seq<Event>, announces: bool, paused: bool)
    ensures Follow(Unseen, Said(reached, g, feed, announces, paused)) == Closed
  {
    var rest := AfterHuman(true, reached, g, feed, announces, paused);
    FollowSingle(Unseen, Say(Human));
    FollowSingle(Open, Say(Abandoned));
    FollowJoin(Unseen, [Say(Human)], rest);
    if reached {
      AwaitedCloses(g, feed, announces, paused);
      FollowJoin(Open, Awaited(g, feed, announces, paused),
                 if BeforeFinal(feed) == |feed| then AbandonedBy(true) else []);
    }
  }

  // ---------------------------------------------------------------- an observer that goes by kind alone

  /** The same events as an observer sees them that cannot tell whose they are. */
  function Unattributed(log: seq<Entry>): seq<Entry> {
    if log == [] then []
    else Unattributed(log[..|log| - 1]) + [log[|log| - 1].(origin := Host)]
  }

  lemma {:induction false} UnattributedJoin(xs: seq<Entry>, ys: seq<Entry>)
    ensures Unattributed(xs + ys) == Unattributed(xs) + Unattributed(ys)
    decreases |ys|
  {
    if ys == [] {
      assert xs + ys == xs;
    } else {
      var front, last := ys[..|ys| - 1], ys[|ys| - 1];
      UnattributedJoin(xs, front);
      assert (xs + ys)[..|xs + ys| - 1] == xs + front;
    }
  }

  /** A line of the bridge that looks like one of the daemon's own. */
  predicate Lookalike(e: Event) {
    e.kind == Human || e.kind == Abandoned
  }

  /** How such an observer moves over the events of a turn. */
  function Watch(p: Phase, log: seq<Entry>): Phase {
    Follow(p, Unattributed(log))
  }

  lemma WatchJoin(p: Phase, xs: seq<Entry>, ys: seq<Entry>)
    ensures Watch(p, xs + ys) == Watch(Watch(p, xs), ys)
  {
    UnattributedJoin(xs, ys);
    FollowJoin(p, Unattributed(xs), Unattributed(ys));
  }

  lemma WatchSingle(p: Phase, e: Entry)
    ensures Watch(p, [e]) == NextPhase(p, e.(origin := Host))
  {
    assert [e][..0] == [];
    assert Unattributed([e]) == [] + [e.(origin := Host)] == [e.(origin := Host)];
    FollowSingle(p, e.(origin := Host));
  }

  lemma WatchNothing(p: Phase)
    ensures Watch(p, []) == p
  {
  }

  lemma WatchRelayedOne(p: Phase, g: Allowance, frame: Event)
    ensures Watch(p, RelayedOne(g, frame)) == NextPhase(p, Entry(frame, Host, false))
  {
    var status := if Trips(g, frame) then [Say(Status)] else [];
    WatchJoin(p, [Entry(frame, Bridge, false)], status);
    WatchSingle(p, Entry(frame, Bridge, false));
    WatchSingle(Watch(p, [Entry(frame, Bridge, false)]), Say(Status));
  }

  /** While the turn is open it stays open to such an observer exactly as long as no frame is a lookalike. */
  lemma {:induction false} WatchRelayed(g: Allowance, frames: seq<Event>)
    requires forall i :: 0 <= i < |frames| ==> !IsFinal(frames[i])
    ensures Watch(Open, Relayed(g, frames)) != Unseen
    ensures Watch(Open, Relayed(g, frames)) == Open <==> forall i :: 0 <= i < |frames| ==> !Lookalike(frames[i])
    decreases |frames|
  {
    if frames != [] {
      var front, last := frames[..|frames| - 1], frames[|frames| - 1];
      WatchRelayed(g, front);
      WatchJoin(Open, Relayed(g, front), RelayedOne(Guarded(g, front), last));
      WatchRelayedOne(Watch(Open, Relayed(g, front)), Guarded(g, front), last);
      assert forall i :: 0 <= i < |front| ==> frames[i] == front[i];
      if Watch(Open, Relayed(g, front)) != Open {
        assert exists i :: 0 <= i < |front| && Lookalike(front[i]);
      }
    }
  }

  lemma WatchCompletion(p: Phase, reply: Event, announces: bool, paused: bool)
    requires IsFinal(reply)
    ensures Watch(p, Completion(reply, announces, paused)) == if p == Open then Closed else Broken
  {
    hide Watch, Follow;
    var status, final := if announces then [Say(Status)] else [], [Entry(reply, Bridge, false)];
    var pause := if paused then [Say(Paused)] else [];
    var ended := if p == Open then Closed else Broken;
    WatchJoin(p, status + final, pause);
    WatchJoin(p, status, final);
    WatchNothing(p);
    WatchNothing(ended);
    WatchSingle(p, Say(Status));
    WatchSingle(p, final[0]);
    WatchSingle(ended, Say(Paused));
  }

  /** An observer that goes by kind alone sees one human line and then one terminal as well, exactly when the bridge
      sends no line that looks like the daemon's own before the turn ends. */
  lemma OneTerminalByKind(reached: bool, g: Allowance, feed: seq<Event>, announces: bool, paused: bool)
    ensures Watch(Unseen, Said(reached, g, feed, announces, paused)) == Closed
       <==> !reached || forall i :: 0 <= i < BeforeFinal(feed) ==> !Lookalike(feed[i])
  {
    hide Completion, Relayed, Guarded, Unattributed, Watch;
    var rest := AfterHuman(true, reached, g, feed, announces, paused);
    WatchJoin(Unseen, [Say(Human)], rest);
    WatchSingle(Unseen, Say(Human));
    if !reached {
      WatchSingle(Open, Say(Abandoned));
    } else {
      var n := BeforeFinal(feed);
      var relayed := Relayed(g, feed[..n]);
      var ending := if n < |feed| then Completion(feed[n], announces, paused) else [Say(Abandoned)];
      assert rest == relayed + ending;
      WatchJoin(Open, relayed, ending);
      WatchRelayed(g, feed[..n]);
      assert forall i :: 0 <= i < n ==> feed[..n][i] == feed[i];
      if n < |feed| {
        WatchCompletion(Watch(Open, relayed), feed[n], announces, paused);
      } else {
        WatchSingle(Watch(Open, relayed), Say(Abandoned));
      }
    }
  }

  // ---------------------------------------------------------------- the driver

  /** `origin` is the gateway an input came from, empty for a seed; `turnID` is empty unless the caller chose one. */
  datatype Item = Input(turnID: string, origin: string) | Pick | CompactNow

  /** `refused`: the budget is spent. Otherwise a cap and what is left under it. */
  datatype Verdict = Verdict(refused: bool, headroom: nat, capped: bool)

  predicate Outside(origin: string, gateways: seq<string>) {
    origin != "" && origin !in gateways
  }

  function Identified(item: Item, freshID: string): string
    requires item.Input?
  {
    if item.turnID == "" then freshID else item.turnID
  }

  /** What compacting says: never a human line, a reply or an abandoned turn. */
  predicate CompactingSays(entries: seq<Entry>) {
    forall e :: e in entries ==> e.origin == Host && (e.event.kind.Other? || e.event.kind == Status)
  }

  lemma {:induction false} CompactingIsQuiet(p: Phase, entries: seq<Entry>)
    requires CompactingSays(entries)
    ensures Follow(p, entries) == p
    decreases |entries|
  {
    if entries != [] {
      CompactingIsQuiet(p, entries[..|entries| - 1]);
      assert entries[|entries| - 1] in entries;
    }
  }

  /** The log that an input's round of the pump leaves, stamps and all, is one human line and then exactly one
      terminal; the compaction that may follow the turn adds neither. */
  lemma LoggedTurnIsClosed(before: seq<Entry>, after: seq<Entry>, c: Context, reached: bool, g: Allowance,
                           feed: seq<Event>, announces: bool, paused: bool, compacting: seq<Entry>)
    requires CompactingSays(compacting)
    requires after == before + AllFannedOut(c, Said(reached, g, feed, announces, paused))
                      + AllFannedOut(c.(activeTurnID := ""), compacting)
    ensures before <= after && Follow(Unseen, after[|before|..]) == Closed
  {
    hide FannedOut, Said, CompactingSays, NextPhase;
    var turn, rest := AllFannedOut(c, Said(reached, g, feed, announces, paused)),
        AllFannedOut(c.(activeTurnID := ""), compacting);
    assert after[|before|..] == turn + rest;
    FollowJoin(Unseen, turn, rest);
    FollowFannedOut(Unseen, c, Said(reached, g, feed, announces, paused));
    OneHumanOneTerminal(reached, g, feed, announces, paused);
    FollowFannedOut(Closed, c.(activeTurnID := ""), compacting);
    CompactingIsQuiet(Closed, compacting);
  }

  /** What a refused input leaves is neither. */
  lemma LoggedRefusalIsUnseen(before: seq<Entry>, after: seq<Entry>, c: Context)
    requires after == before + AllFannedOut(c, [Say(Paused), Say(Status)])
    ensures before <= after && Follow(Unseen, after[|before|..]) == Unseen
  {
    var refusal := [Say(Paused), Say(Status)];
    assert after[|before|..] == AllFannedOut(c, refusal);
    FollowFannedOut(Unseen, c, refusal);
    FollowSingle(Unseen, Say(Paused));
    FollowOneMore(Unseen, [Say(Paused)], Say(Status));
    assert [Say(Paused)] + [Say(Status)] == refusal;
  }

  class Driver {
    const incarnation: string
    const agent: string
    const gateways: seq<string>
    var turn: nat                // tokens in the one-slot channel
    var running: bool
    var activeTurnID: string
    var saidElsewhere: bool
    var turnReading: int
    var log: seq<Entry>          // what the tap got

    constructor (incarnation: string, agent: string, gateways: seq<string>)
      ensures this.incarnation == incarnation && this.agent == agent && this.gateways == gateways
      ensures turn == 0 && !running && activeTurnID == "" && !saidElsewhere && turnReading == 0 && log == []
    {
      this.incarnation, this.agent, this.gateways := incarnation, agent, gateways;
      turn, running, activeTurnID, saidElsewhere, turnReading, log := 0, false, "", false, 0, [];
    }

    ghost function InContext(): Context
      reads this
    {
      Context(incarnation, agent, activeTurnID, saidElsewhere)
    }

    /** The wait for the token is over. */
    method EnterTurn()
      requires turn == 0
      modifies this`turn, this`running
      ensures turn == 1 && running
    {
      turn := turn + 1;
      running := true;
    }

    method ClaimTurn() returns (ok: bool)
      requires turn <= 1
      modifies this`turn
      ensures ok <==> old(turn) == 0
      ensures turn == 1
    {
      if turn == 1 {
        return false;
      }
      turn := turn + 1;
      return true;
    }

    method ReleaseTurn()
      requires turn == 1
      modifies this`turn, this`running
      ensures turn == 0 && !running
    {
      running := false;
      turn := turn - 1;
    }

    /** An idle session is one with nothing queued and no turn in progress; `claimed` holds its token. */
    method ClaimIdle(queued: nat) returns (claimed: bool)
      requires turn <= 1
      modifies this`turn
      ensures claimed <==> queued == 0 && old(turn) == 0
      ensures turn == if claimed then 1 else old(turn)
    {
      if queued > 0 {
        return false;
      }
      claimed := ClaimTurn();
    }

    method FanOut(entry: Entry)
      modifies this`log
      ensures log == old(log) + [FannedOut(InContext(), entry)]
      ensures var identified := activeTurnID != "";
              var event := entry.event.(incarnation := if identified then incarnation else "",
                                        agent := if identified then agent else "", turnID := activeTurnID);
              log == old(log) + [Entry(event, entry.origin, !saidElsewhere)]
    {
      var event := entry.event;
      if activeTurnID != "" {
        event := event.(incarnation := incarnation, turnID := activeTurnID, agent := agent);
      } else {
        event := event.(incarnation := "", turnID := "", agent := "");
      }
      log := log + [Entry(event, entry.origin, !saidElsewhere)];
    }

    method FanOutAll(entries: seq<Entry>)
      modifies this`log
      ensures log == old(log) + AllFannedOut(InContext(), entries)
    {
      for i := 0 to |entries|
        invariant log == old(log) + AllFannedOut(InContext(), entries[..i])
      {
        FanOut(entries[i]);
        OneMoreFannedOut(InContext(), entries[..i], entries[i]);
        assert entries[..i] + [entries[i]] == entries[..i + 1];
      }
      assert entries[..|entries|] == entries;
    }

    method OutsideBoundGateways(origin: string) returns (outside: bool)
      ensures outside <==> Outside(origin, gateways)
    {
      if origin == "" {
        return false;
      }
      for i := 0 to |gateways|
        invariant forall j :: 0 <= j < i ==> gateways[j] != origin
      {
        if gateways[i] == origin {
          return false;
        }
      }
      return true;
    }

    /** The gate, the turn's identity and the human line. A refused input says why and leaves no identity behind. */
    method PrepareTurn(item: Item, verdict: Verdict, freshID: string) returns (guard: Allowance, ok: bool)
      requires !item.CompactNow? && activeTurnID == "" && freshID != ""
      modifies this`activeTurnID, this`saidElsewhere, this`log
      ensures saidElsewhere <==> item.Input? && item.origin != "" && item.origin !in gateways
      ensures ok <==> item.Pick? || !verdict.refused
      ensures activeTurnID == if item.Input? && ok then Identified(item, freshID) else ""
      ensures item.Input? && ok ==> activeTurnID == if item.turnID != "" then item.turnID else freshID
      ensures log == old(log)
              + AllFannedOut(InContext(),
                             if item.Pick? then [] else if ok then [Say(Human)] else [Say(Paused), Say(Status)])
      ensures ok ==> guard == if item.Pick? then UNCAPPED else Allowance(verdict.headroom, verdict.capped, false)
    {
      saidElsewhere := false;
      guard := UNCAPPED;
      if !item.Input? {
        activeTurnID := "";
        return guard, true;
      }
      saidElsewhere := OutsideBoundGateways(item.origin);
      if verdict.refused {
        FanOutAll([Say(Paused), Say(Status)]);
        return guard, false;
      }
      activeTurnID := if item.turnID == "" then freshID else item.turnID;
      FanOutAll([Say(Human)]);
      guard := Allowance(verdict.headroom, verdict.capped, false);
      ok := true;
    }

    method Abandon(item: Item)
      modifies this`log
      ensures log == old(log) + AllFannedOut(InContext(), AbandonedBy(item.Input?))
    {
      if !item.Input? {
        return;
      }
      FanOutAll([Say(Abandoned)]);
    }

    method CompleteTurn(reply: Event, live: int, announces: bool, paused: bool)
      modifies this`turnReading, this`log
      ensures turnReading == if live > 0 then live else reply.tokensIn + reply.cacheRead + reply.cacheCreate
      ensures var before, after := if announces then [Say(Status)] else [], if paused then [Say(Paused)] else [];
              log == old(log) + AllFannedOut(InContext(), before + [Entry(reply, Bridge, false)] + after)
    {
      hide AllFannedOut;
      turnReading := if live > 0 then live else PromptSize(reply);
      ghost var c := InContext();
      ghost var before, after := if announces then [Say(Status)] else [], if paused then [Say(Paused)] else [];
      NothingFannedOut(c);
      if announces {
        FanOutAll([Say(Status)]);
      }
      FanOutAll([Entry(reply, Bridge, false)]);
      if paused {
        FanOutAll([Say(Paused)]);
      }
      FannedOutJoin(c, before, [Entry(reply, Bridge, false)]);
      FannedOutJoin(c, before + [Entry(reply, Bridge, false)], after);
    }

    /** An event that does not end the turn. */
    method Relay(frame: Event, tokens: TokenGuard)
      modifies this`log, tokens
      ensures log == old(log) + AllFannedOut(InContext(), RelayedOne(old(tokens.View()), frame))
      ensures tokens.View() == old(tokens.View()).(cut := old(tokens.cut) || Trips(old(tokens.View()), frame))
    {
      ghost var c := InContext();
      FanOutAll([Entry(frame, Bridge, false)]);
      var over := tokens.Check(frame);
      if over {
        FanOutAll([Say(Status)]);
        FannedOutJoin(c, [Entry(frame, Bridge, false)], [Say(Status)]);
      }
    }

    /** `feed`: what the bridge sends until it hangs up or the session stops. */
    method AwaitTurn(guard: Allowance, feed: seq<Event>, announces: bool, paused: bool) returns (completed: bool)
      modifies this`turnReading, this`log
      ensures completed <==> BeforeFinal(feed) < |feed|
      ensures !completed ==> turnReading == old(turnReading)
      ensures completed ==> IsReading(feed, BeforeFinal(feed), turnReading)
      ensures log == old(log) + AllFannedOut(InContext(), Awaited(guard, feed, announces, paused))
    {
      hide AllFannedOut, Relayed, RelayedOne, Guarded, LivePrompt, Trips, IsReading;
      var tokens := new TokenGuard(guard);
      var live, i := 0, 0;
      ghost var c, said := InContext(), [];
      BeforeTheFirst(c, guard, feed);
      while i < |feed| && !IsFinal(feed[i])
        invariant 0 <= i <= |feed|
        invariant forall j :: 0 <= j < i ==> !IsFinal(feed[j])
        invariant fresh(tokens) && tokens.View() == Guarded(guard, feed[..i])
        invariant live == LivePrompt(feed[..i])
        invariant turnReading == old(turnReading)
        invariant said == Relayed(guard, feed[..i])
        invariant log == old(log) + AllFannedOut(c, said)
      {
        ghost var one, before := RelayedOne(tokens.View(), feed[i]), log;
        OneMoreFrame(guard, feed, i);
        Relay(feed[i], tokens);
        FannedOutThen(old(log), before, log, c, said, one);
        if PromptSize(feed[i]) > 0 {
          live := PromptSize(feed[i]);
        }
        said := said + one;
        i := i + 1;
      }
      AwaitedAt(guard, feed, i, announces, paused);
      if i == |feed| {
        assert said + [] == said;
        return false;
      }
      ghost var before := log;
      LiveIsReading(feed, i);
      CompleteTurn(feed[i], live, announces, paused);
      FannedOutThen(old(log), before, log, c, said, Completion(feed[i], announces, paused));
      return true;
    }

    /** `reached`: the bridge took the language and the event before it hung up. */
    method RunTurn(item: Item, guard: Allowance, reached: bool, feed: seq<Event>, announces: bool, paused: bool)
      modifies this`turnReading, this`log
      ensures log == old(log)
              + AllFannedOut(InContext(), AfterHuman(item.Input?, reached, guard, feed, announces, paused))
      ensures if reached && BeforeFinal(feed) < |feed| then IsReading(feed, BeforeFinal(feed), turnReading)
              else turnReading == old(turnReading)
    {
      hide Awaited, IsReading, AllFannedOut;
      NothingFannedOut(InContext());
      if !reached {
        Abandon(item);
        return;
      }
      var completed := AwaitTurn(guard, feed, announces, paused);
      FannedOutJoin(InContext(), Awaited(guard, feed, announces, paused),
                    if completed then [] else AbandonedBy(item.Input?));
      if !completed {
        Abandon(item);
      }
    }

    /** One round of the pump with an item it took from the queue, from the token to the token. */
    method TakeItem(item: Item, verdict: Verdict, freshID: string, reached: bool, feed: seq<Event>,
                    announces: bool, paused: bool, compacting: seq<Entry>)
      requires turn == 0 && activeTurnID == "" && freshID != "" && CompactingSays(compacting)
      modifies this
      ensures turn == 0 && !running && activeTurnID == ""
      ensures item.CompactNow? ==> log == old(log) + AllFannedOut(old(InContext()), compacting)
      ensures item.Input? && verdict.refused ==>
                log == old(log) + AllFannedOut(Context(incarnation, agent, "", Outside(item.origin, gateways)),
                                               [Say(Paused), Say(Status)])
      ensures item.Input? && !verdict.refused ==>
                var guard := Allowance(verdict.headroom, verdict.capped, false);
                Bears(log, |old(log)|, |old(log)| + |Said(reached, guard, feed, announces, paused)|, incarnation, agent,
                      if item.turnID != "" then item.turnID else freshID,
                      item.origin == "" || item.origin in gateways)
      ensures item.Input? && !verdict.refused ==>
                var c := Context(incarnation, agent, Identified(item, freshID), Outside(item.origin, gateways));
                var guard := Allowance(verdict.headroom, verdict.capped, false);
                log == old(log) + AllFannedOut(c, Said(reached, guard, feed, announces, paused))
                       + AllFannedOut(c.(activeTurnID := ""), compacting)
      ensures item.Input? ==>
                old(log) <= log && Follow(Unseen, log[|old(log)|..]) == if verdict.refused then Unseen else Closed
      ensures item.Pick? ==>
                var c := Context(incarnation, agent, "", false);
                log == old(log) + AllFannedOut(c, AfterHuman(false, reached, UNCAPPED, feed, announces, paused))
                    + AllFannedOut(c, compacting)
      ensures !item.CompactNow? && !(item.Input? && verdict.refused) ==>
                if reached && BeforeFinal(feed) < |feed| then IsReading(feed, BeforeFinal(feed), turnReading)
                else turnReading == 0
    {
      hide AllFannedOut, FannedOut, AfterHuman, Follow, CompactingSays, IsReading, Bears;
      EnterTurn();
      if item.CompactNow? {
        FanOutAll(compacting);
        ReleaseTurn();
        return;
      }
      var guard, ok := PrepareTurn(item, verdict, freshID);
      if !ok {
        LoggedRefusalIsUnseen(old(log), log, InContext());
        ReleaseTurn();
        return;
      }
      turnReading := 0;
      ghost var c := InContext();
      ghost var before, rest := log, AfterHuman(item.Input?, reached, guard, feed, announces, paused);
      RunTurn(item, guard, reached, feed, announces, paused);
      assert [] + rest == rest;
      FannedOutThen(old(log), before, log, c, if item.Input? then [Say(Human)] else [], rest);
      activeTurnID := "";
      FanOutAll(compacting);
      if item.Input? {
        LoggedTurnIsClosed(old(log), log, c, reached, guard, feed, announces, paused, compacting);
        FannedOutBears(old(log), c, Said(reached, guard, feed, announces, paused),
                       AllFannedOut(c.(activeTurnID := ""), compacting));
      }
      ReleaseTurn();
    }
  }
}

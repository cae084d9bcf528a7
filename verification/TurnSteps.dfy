/** A round of the pump that nobody disturbs, step by step: it says exactly what the driver's own method says. */
module TurnSteps {
  import opened Prelude
  import opened Turns
  import opened TurnRuns

  /** The state after some more actions. */
  function Runs(s: State, acts: seq<Action>): State
    decreases |acts|
  {
    if acts == [] then s else Runs(if Enabled(s, acts[0]) then Step(s, acts[0]) else s, acts[1..])
  }

  lemma {:induction false} RunsJoin(s: State, xs: seq<Action>, ys: seq<Action>)
    ensures Runs(s, xs + ys) == Runs(Runs(s, xs), ys)
    decreases |xs|
  {
    hide Enabled, Step;
    if xs == [] {
      assert xs + ys == ys;
    } else {
      assert (xs + ys)[1..] == xs[1..] + ys;
      RunsJoin(if Enabled(s, xs[0]) then Step(s, xs[0]) else s, xs[1..], ys);
    }
  }

  lemma {:induction false} RunContinues(session: Session, schedule: seq<Action>, acts: seq<Action>)
    ensures Run(session, schedule + acts) == Runs(Run(session, schedule), acts)
    decreases |acts|
  {
    hide Enabled, Step;
    if acts == [] {
      assert schedule + acts == schedule;
    } else {
      var next := schedule + [acts[0]];
      assert next[..|schedule|] == schedule;
      RunContinues(session, next, acts[1..]);
      assert schedule + acts == next + acts[1..];
    }
  }

  lemma OneStep(s: State, a: Action)
    requires Enabled(s, a)
    ensures Runs(s, [a]) == Step(s, a)
  {
    assert [a][1..] == [];
  }

  /** One action more. */
  lemma Then(s: State, acts: seq<Action>, a: Action)
    requires Enabled(Runs(s, acts), a)
    ensures Runs(s, acts + [a]) == Step(Runs(s, acts), a)
  {
    RunsJoin(s, acts, [a]);
    OneStep(Runs(s, acts), a);
  }

  lemma LoggedJoin(c: Context, xs: seq<Entry>, ys: seq<Entry>, input: Option<nat>)
    ensures LoggedAll(c, xs + ys, input) == LoggedAll(c, xs, input) + LoggedAll(c, ys, input)
  {
  }

  /** What a pump with its turn's identity says next, given where it stands afterwards and what the link is. */
  function Saying(s: State, pump: Pump, entries: seq<Entry>): State {
    s.(pump := pump, log := s.log + LoggedAll(InContext(s.session, s.speech), entries, Current(s)))
  }

  lemma SayingTwice(s: State, one: Pump, xs: seq<Entry>, two: Pump, ys: seq<Entry>)
    requires Current(s.(pump := one)) == Current(s)
    ensures Saying(Saying(s, one, xs), two, ys) == Saying(s, two, xs + ys)
  {
    LoggedJoin(InContext(s.session, s.speech), xs, ys, Current(s));
  }

  /** What the events of this input's turn are stamped with. */
  function ContextOf(session: Session, item: Item, freshID: string): Context
    requires item.Input?
  {
    Context(session.incarnation, session.agent, if item.turnID == "" then freshID else item.turnID,
            Outside(item.origin, session.gateways))
  }

  /** What a turn offers the bridge first. */
  function Facing(session: Session, item: Item, g: Allowance): Pump {
    if session.greets then Greeting(item, g) else Sending(item, g)
  }

  /** The bridge offers nothing yet, and is there. */
  predicate Quiet(link: Link) {
    link.offer.None? && !link.closed
  }

  // ---------------------------------------------------------------- single steps of a turn

  lemma OfferStep(s: State, e: Event)
    requires Quiet(s.link)
    ensures Enabled(s, Offer(e)) && Step(s, Offer(e)) == s.(link := s.link.(offer := Some(e)))
  {
    assert s.log + [] == s.log;
  }

  lemma RelayStep(s: State, e: Event)
    requires s.pump.Awaiting? && s.link.offer == Some(e) && !IsFinal(e)
    ensures Enabled(s, Relay)
    ensures Step(s, Relay) == Saying(s, TurnRuns.Relayed(s.pump.item, s.pump.guard, e), [Entry(e, Bridge, false)])
            .(link := s.link.(offer := None))
  {
    hide IsFinal, Trips;
  }

  lemma CeilingStep(s: State)
    requires s.pump.Ceiling?
    ensures Enabled(s, SayCeiling)
    ensures Step(s, SayCeiling) == Saying(s, Awaiting(s.pump.item, s.pump.guard), [Say(Status)])
  {
  }

  lemma FinalStep(s: State, e: Event)
    requires s.pump.Awaiting? && s.link.offer == Some(e) && IsFinal(e)
    ensures Enabled(s, Final)
    ensures Step(s, Final) == s.(pump := Completing(s.pump.item, e), link := s.link.(offer := None))
  {
    assert s.log + [] == s.log;
  }

  lemma AnnounceStep(s: State)
    requires s.pump.Completing?
    ensures Enabled(s, Announce(Say(Status))) && Step(s, Announce(Say(Status))) == Saying(s, s.pump, [Say(Status)])
  {
  }

  lemma ReplyStep(s: State, paused: bool)
    requires s.pump.Completing?
    ensures Enabled(s, SayReply(paused))
    ensures Step(s, SayReply(paused))
         == Saying(s, Ended(s.pump.item), [Entry(s.pump.reply, Bridge, false)] + if paused then [Say(Paused)] else [])
  {
  }

  lemma HangUpStep(s: State)
    ensures Enabled(s, HangUp) && Step(s, HangUp) == s.(link := s.link.(hangup := true))
  {
    assert s.log + [] == s.log;
  }

  lemma AbandonStep(s: State)
    requires (s.pump.Greeting? || s.pump.Sending? || s.pump.Awaiting?) && s.link.hangup
    ensures Enabled(s, Abandon(HungUp))
    ensures Step(s, Abandon(HungUp))
         == Saying(s, Ended(s.pump.item), AbandonedBy(s.pump.item.Input?)).(link := s.link.(hangup := false))
  {
  }

  lemma PopStep(s: State)
    requires s.pump == Idle && s.queue != []
    ensures Enabled(s, Pop)
    ensures Step(s, Pop) == s.(queue := s.queue[1..], items := s.items + [s.queue[0]], pump := Waiting(s.queue[0]))
  {
    assert s.log + [] == s.log;
  }

  lemma EnterStep(s: State)
    requires s.pump.Waiting? && s.lock.turn == 0
    ensures Enabled(s, Enter)
    ensures Step(s, Enter) == s.(pump := Entered(s.pump.item), lock := s.lock.(turn := 1))
  {
    assert s.log + [] == s.log;
  }

  lemma MarkStep(s: State)
    requires s.pump.Entered?
    ensures Enabled(s, MarkRunning)
    ensures Step(s, MarkRunning) == s.(pump := Running(s.pump.item), lock := s.lock.(running := true))
  {
    assert s.log + [] == s.log;
  }

  lemma PassStep(s: State, freshID: string, g: Allowance)
    requires s.pump.Running? && s.pump.item.Input? && freshID != "" && s.items != [] && !g.cut
    ensures Enabled(s, Pass(freshID, g.headroom, g.capped))
    ensures var c := ContextOf(s.session, s.pump.item, freshID);
            Step(s, Pass(freshID, g.headroom, g.capped))
            == s.(pump := TurnRuns.Identified(s.pump.item, g), speech := Speech(c.activeTurnID, c.saidElsewhere),
                  gate := s.gate.(turns := s.gate.turns[|s.items| - 1 := Turn(c.activeTurnID, c.saidElsewhere)]))
  {
    assert s.log + [] == s.log;
  }

  lemma RefuseStep(s: State)
    requires s.pump.Running? && s.pump.item.Input? && s.items != [] && s.speech.activeTurnID == ""
    ensures Enabled(s, Refuse)
    ensures var outside := Outside(s.pump.item.origin, s.session.gateways);
            Step(s, Refuse)
            == s.(pump := Refusing, speech := Speech("", outside),
                  gate := s.gate.(refused := s.gate.refused + {|s.items| - 1}),
                  log := s.log + LoggedAll(Context(s.session.incarnation, s.session.agent, "", outside),
                                           [Say(Paused), Say(Status)], None))
  {
  }

  lemma HumanStep(s: State)
    requires s.pump.Identified?
    ensures Enabled(s, SayHuman)
    ensures Step(s, SayHuman) == Saying(s, Starting(s.pump.item, s.pump.guard), [Say(Human)])
  {
  }

  lemma DropStep(s: State)
    requires s.pump.Starting?
    ensures Enabled(s, DropStale)
    ensures Step(s, DropStale) == s.(pump := Facing(s.session, s.pump.item, s.pump.guard),
                                     link := s.link.(hangup := false))
  {
    assert s.log + [] == s.log;
  }

  lemma ReadsStep(s: State)
    ensures Enabled(s, BridgeReads) && Step(s, BridgeReads) == s.(link := s.link.(reading := true))
  {
    assert s.log + [] == s.log;
  }

  lemma SendStep(s: State)
    requires (s.pump.Greeting? || s.pump.Sending?) && s.link.reading
    ensures Enabled(s, Send)
    ensures Step(s, Send) == s.(link := s.link.(reading := false),
                                pump := if s.pump.Greeting? then Sending(s.pump.item, s.pump.guard)
                                        else Awaiting(s.pump.item, s.pump.guard))
  {
    assert s.log + [] == s.log;
  }

  lemma ClearStep(s: State)
    requires s.pump.Ended?
    ensures Enabled(s, Clear)
    ensures Step(s, Clear) == s.(pump := Compacting(s.session.bridgeStages), speech := s.speech.(activeTurnID := ""))
  {
    assert s.log + [] == s.log;
  }

  lemma IdleStep(s: State)
    requires s.pump.Compacting? || s.pump.Refusing?
    ensures Enabled(s, MarkIdle) && Step(s, MarkIdle) == s.(pump := Releasing, lock := s.lock.(running := false))
  {
    assert s.log + [] == s.log;
  }

  lemma BackStep(s: State)
    requires s.pump.Releasing? && s.lock.turn == 1
    ensures Enabled(s, GiveBack) && Step(s, GiveBack) == s.(pump := Idle, lock := s.lock.(turn := 0))
  {
    assert s.log + [] == s.log;
  }

  // ---------------------------------------------------------------- a turn, from the feed to its end

  /** An event that does not end the turn is offered and passed on. */
  lemma FrameSteps(s: State, item: Item, g: Allowance, frame: Event) returns (acts: seq<Action>)
    requires s.pump == Awaiting(item, g) && Quiet(s.link) && !IsFinal(frame)
    ensures Runs(s, acts) == Saying(s, Awaiting(item, Guarded(g, [frame])), RelayedOne(g, frame))
  {
    hide Step, Enabled, Runs, Trips, IsFinal, LoggedAll;
    assert [frame][..0] == [];
    OfferStep(s, frame);
    OneStep(s, Offer(frame));
    RelayStep(Runs(s, [Offer(frame)]), frame);
    Then(s, [Offer(frame)], Relay);
    acts := [Offer(frame)] + [Relay];
    var passed := Saying(s, TurnRuns.Relayed(item, g, frame), [Entry(frame, Bridge, false)]);
    assert s.link.(offer := Some(frame)).(offer := None) == s.link;
    assert Runs(s, acts) == passed;
    if Trips(g, frame) {
      CeilingStep(passed);
      Then(s, acts, SayCeiling);
      acts := acts + [SayCeiling];
      SayingTwice(s, passed.pump, [Entry(frame, Bridge, false)], Awaiting(item, g.(cut := true)), [Say(Status)]);
    } else {
      assert [Entry(frame, Bridge, false)] + [] == [Entry(frame, Bridge, false)];
    }
  }

  lemma {:induction false} FramesSteps(s: State, item: Item, g: Allowance, frames: seq<Event>)
    returns (acts: seq<Action>)
    requires s.pump == Awaiting(item, g) && Quiet(s.link) && forall i :: 0 <= i < |frames| ==> !IsFinal(frames[i])
    ensures Runs(s, acts) == Saying(s, Awaiting(item, Guarded(g, frames)), Turns.Relayed(g, frames))
    decreases |frames|
  {
    hide Runs, IsFinal, RelayedOne, LoggedAll;
    if frames == [] {
      acts := [];
      NothingSaid(s);
    } else {
      var front, last := frames[..|frames| - 1], frames[|frames| - 1];
      acts := FramesSteps(s, item, g, front);
      var mid := Saying(s, Awaiting(item, Guarded(g, front)), Turns.Relayed(g, front));
      var more := FrameSteps(mid, item, Guarded(g, front), last);
      RunsJoin(s, acts, more);
      acts := acts + more;
      GuardedOneMore(g, front, last);
      SayingTwice(s, mid.pump, Turns.Relayed(g, front), Awaiting(item, Guarded(g, frames)),
                  RelayedOne(Guarded(g, front), last));
    }
  }

  lemma NothingSaid(s: State)
    ensures Runs(s, []) == s == Saying(s, s.pump, [])
  {
  }

  lemma GuardedOneMore(g: Allowance, front: seq<Event>, last: Event)
    ensures Guarded(g, front + [last]) == Guarded(Guarded(g, front), [last])
  {
    assert (front + [last])[..|front|] == front && [last][..0] == [];
  }

  lemma AnnounceSteps(s: State, announces: bool) returns (acts: seq<Action>)
    requires s.pump.Completing?
    ensures Runs(s, acts) == Saying(s, s.pump, if announces then [Say(Status)] else [])
  {
    hide Step, Enabled, Runs, LoggedAll;
    NothingSaid(s);
    acts := [];
    if announces {
      AnnounceStep(s);
      OneStep(s, Announce(Say(Status)));
      acts := [Announce(Say(Status))];
    }
  }

  lemma FinalSteps(s: State, item: Item, g: Allowance, reply: Event) returns (acts: seq<Action>)
    requires s.pump == Awaiting(item, g) && Quiet(s.link) && IsFinal(reply)
    ensures Runs(s, acts) == s.(pump := Completing(item, reply))
  {
    hide Step, Enabled, Runs, IsFinal;
    OfferStep(s, reply);
    OneStep(s, Offer(reply));
    FinalStep(Runs(s, [Offer(reply)]), reply);
    Then(s, [Offer(reply)], Final);
    acts := [Offer(reply)] + [Final];
    assert s.link.(offer := Some(reply)).(offer := None) == s.link;
  }

  /** The finished reply, what its coordination says before it, and the pause after it. */
  lemma ReplySteps(s: State, item: Item, g: Allowance, reply: Event, announces: bool, paused: bool)
    returns (acts: seq<Action>)
    requires s.pump == Awaiting(item, g) && Quiet(s.link) && IsFinal(reply)
    ensures Runs(s, acts) == Saying(s, Ended(item), Completion(reply, announces, paused))
  {
    hide Step, Enabled, Runs, IsFinal, LoggedAll, Quiet;
    acts := FinalSteps(s, item, g, reply);
    var completing := s.(pump := Completing(item, reply));
    var status := if announces then [Say(Status)] else [];
    var last := [Entry(reply, Bridge, false)] + if paused then [Say(Paused)] else [];
    var more := AnnounceSteps(completing, announces);
    RunsJoin(s, acts, more);
    acts := acts + more;
    ReplyStep(Runs(s, acts), paused);
    Then(s, acts, SayReply(paused));
    acts := acts + [SayReply(paused)];
    SayingTwice(completing, completing.pump, status, Ended(item), last);
    assert status + last == Completion(reply, announces, paused);
  }

  /** A feed without a finished reply ends in a hangup, and so does a bridge that takes nothing. */
  lemma HangupSteps(s: State, item: Item, g: Allowance) returns (acts: seq<Action>)
    requires s.pump in [Greeting(item, g), Sending(item, g), Awaiting(item, g)] && !s.link.hangup
    ensures Runs(s, acts) == Saying(s, Ended(item), AbandonedBy(item.Input?))
  {
    hide Step, Enabled, Runs, LoggedAll;
    HangUpStep(s);
    OneStep(s, HangUp);
    AbandonStep(Runs(s, [HangUp]));
    Then(s, [HangUp], Abandon(HungUp));
    acts := [HangUp] + [Abandon(HungUp)];
    assert s.link.(hangup := true).(hangup := false) == s.link;
  }

  /** From the moment the bridge took the input to the end of the turn. */
  lemma FeedSteps(s: State, item: Item, g: Allowance, feed: seq<Event>, announces: bool, paused: bool)
    returns (acts: seq<Action>)
    requires s.pump == Awaiting(item, g) && Quiet(s.link) && !s.link.hangup
    ensures Runs(s, acts) == Saying(s, Ended(item), AfterHuman(item.Input?, true, g, feed, announces, paused))
  {
    hide Runs, Completion, LoggedAll;
    var n := BeforeFinal(feed);
    var relayed := Turns.Relayed(g, feed[..n]);
    acts := FramesSteps(s, item, g, feed[..n]);
    var mid := Saying(s, Awaiting(item, Guarded(g, feed[..n])), relayed);
    var more;
    var ending := if n < |feed| then Completion(feed[n], announces, paused) else AbandonedBy(item.Input?);
    if n < |feed| {
      more := ReplySteps(mid, item, Guarded(g, feed[..n]), feed[n], announces, paused);
    } else {
      more := HangupSteps(mid, item, Guarded(g, feed[..n]));
    }
    RunsJoin(s, acts, more);
    acts := acts + more;
    SayingTwice(s, mid.pump, relayed, Ended(item), ending);
    assert relayed + ending == AfterHuman(item.Input?, true, g, feed, announces, paused);
  }

  // ---------------------------------------------------------------- a whole round

  /** An input is taken and waits for the gate. */
  function Taken(s: State): State
    requires s.queue != []
  {
    s.(queue := s.queue[1..], items := s.items + [s.queue[0]], pump := Running(s.queue[0]),
       lock := s.lock.(turn := 1, running := true))
  }

  lemma TakingSteps(s: State) returns (acts: seq<Action>)
    requires s.pump == Idle && s.queue != [] && s.lock.turn == 0
    ensures Runs(s, acts) == Taken(s)
  {
    hide Step, Enabled, Runs;
    PopStep(s);
    OneStep(s, Pop);
    EnterStep(Runs(s, [Pop]));
    Then(s, [Pop], Enter);
    MarkStep(Runs(s, [Pop] + [Enter]));
    Then(s, [Pop] + [Enter], MarkRunning);
    acts := [Pop] + [Enter] + [MarkRunning];
  }

  /** It passes the gate, and the host says the human line. */
  function Begun(s: State, freshID: string, g: Allowance): State
    requires s.pump.Running? && s.pump.item.Input? && s.items != []
  {
    var c, n := ContextOf(s.session, s.pump.item, freshID), |s.items| - 1;
    s.(pump := Facing(s.session, s.pump.item, g), speech := Speech(c.activeTurnID, c.saidElsewhere),
       link := s.link.(hangup := false),
       gate := s.gate.(turns := s.gate.turns[n := Turn(c.activeTurnID, c.saidElsewhere)]),
       log := s.log + LoggedAll(c, [Say(Human)], Some(n)))
  }

  lemma BeginningSteps(s: State, freshID: string, g: Allowance) returns (acts: seq<Action>)
    requires s.pump.Running? && s.pump.item.Input? && freshID != "" && s.items != [] && !g.cut
    ensures Runs(s, acts) == Begun(s, freshID, g)
  {
    hide Step, Enabled, Runs, LoggedAll;
    PassStep(s, freshID, g);
    OneStep(s, Pass(freshID, g.headroom, g.capped));
    acts := [Pass(freshID, g.headroom, g.capped)];
    HumanStep(Runs(s, acts));
    Then(s, acts, SayHuman);
    acts := acts + [SayHuman];
    DropStep(Runs(s, acts));
    Then(s, acts, DropStale);
    acts := acts + [DropStale];
  }

  lemma SendingSteps(s: State, item: Item, g: Allowance) returns (acts: seq<Action>)
    requires s.pump == Sending(item, g)
    ensures Runs(s, acts) == s.(pump := Awaiting(item, g), link := s.link.(reading := false))
  {
    hide Step, Enabled, Runs;
    ReadsStep(s);
    OneStep(s, BridgeReads);
    SendStep(Runs(s, [BridgeReads]));
    Then(s, [BridgeReads], Send);
    acts := [BridgeReads] + [Send];
  }

  /** The bridge takes what it is offered. */
  lemma ReachingSteps(s: State, item: Item, g: Allowance) returns (acts: seq<Action>)
    requires s.pump in [Greeting(item, g), Sending(item, g)]
    ensures Runs(s, acts) == s.(pump := Awaiting(item, g), link := s.link.(reading := false))
  {
    hide Step, Enabled, Runs;
    if s.pump.Sending? {
      acts := SendingSteps(s, item, g);
    } else {
      ReadsStep(s);
      OneStep(s, BridgeReads);
      SendStep(Runs(s, [BridgeReads]));
      Then(s, [BridgeReads], Send);
      var more := SendingSteps(Runs(s, [BridgeReads] + [Send]), item, g);
      RunsJoin(s, [BridgeReads] + [Send], more);
      acts := [BridgeReads] + [Send] + more;
    }
  }

  /** What follows the human line, and the end of the turn. */
  lemma FollowingSteps(s: State, item: Item, g: Allowance, reached: bool, feed: seq<Event>, announces: bool,
                       paused: bool) returns (acts: seq<Action>, link: Link)
    requires s.pump in [Greeting(item, g), Sending(item, g)] && Quiet(s.link) && !s.link.hangup
    ensures Runs(s, acts) == Saying(s, Ended(item), AfterHuman(item.Input?, reached, g, feed, announces, paused))
            .(link := link)
  {
    hide Step, Enabled, Runs, LoggedAll, AfterHuman;
    if reached {
      acts := ReachingSteps(s, item, g);
      link := s.link.(reading := false);
      var more := FeedSteps(Runs(s, acts), item, g, feed, announces, paused);
      RunsJoin(s, acts, more);
      acts := acts + more;
    } else {
      acts := HangupSteps(s, item, g);
      link := s.link;
      NotReached(item.Input?, g, feed, announces, paused);
    }
  }

  lemma NotReached(input: bool, g: Allowance, feed: seq<Event>, announces: bool, paused: bool)
    ensures AfterHuman(input, false, g, feed, announces, paused) == AbandonedBy(input)
  {
  }

  lemma ReleasingSteps(s: State) returns (acts: seq<Action>)
    requires s.pump.Ended? && s.lock.turn == 1
    ensures Runs(s, acts) == s.(pump := Idle, lock := s.lock.(turn := 0, running := false),
                                speech := s.speech.(activeTurnID := ""))
  {
    hide Step, Enabled, Runs;
    ClearStep(s);
    OneStep(s, Clear);
    IdleStep(Runs(s, [Clear]));
    Then(s, [Clear], MarkIdle);
    BackStep(Runs(s, [Clear] + [MarkIdle]));
    Then(s, [Clear] + [MarkIdle], GiveBack);
    acts := [Clear] + [MarkIdle] + [GiveBack];
  }

  /** The turn of an input that passed the gate, as steps. */
  lemma TurnIsItsSteps(s: State, freshID: string, g: Allowance, reached: bool, feed: seq<Event>, announces: bool,
                       paused: bool) returns (acts: seq<Action>)
    requires s.pump == Idle && s.queue != [] && s.queue[0].Input? && s.lock.turn == 0 && Quiet(s.link)
    requires freshID != "" && !g.cut
    ensures var next := Runs(s, acts);
            && next.pump == Idle && next.lock == s.lock.(turn := 0, running := false) && next.speech.activeTurnID == ""
            && next.queue == s.queue[1..] && next.items == s.items + [s.queue[0]]
            && next.log == s.log + LoggedAll(ContextOf(s.session, s.queue[0], freshID),
                                             Said(reached, g, feed, announces, paused), Some(|s.items|))
  {
    hide Step, Enabled, Runs, LoggedAll, AfterHuman;
    var item := s.queue[0];
    var c := ContextOf(s.session, item, freshID);
    acts := TakingSteps(s);
    var more := BeginningSteps(Taken(s), freshID, g);
    RunsJoin(s, acts, more);
    acts := acts + more;
    var begun := Begun(Taken(s), freshID, g);
    var link;
    more, link := FollowingSteps(begun, item, g, reached, feed, announces, paused);
    RunsJoin(s, acts, more);
    acts := acts + more;
    var after := AfterHuman(true, reached, g, feed, announces, paused);
    var ended := Saying(begun, Ended(item), after).(link := link);
    more := ReleasingSteps(ended);
    RunsJoin(s, acts, more);
    acts := acts + more;
    LoggedJoin(c, [Say(Human)], after, Some(|s.items|));
  }

  /** What a refused input leaves, as steps. */
  lemma RefusalIsItsSteps(s: State) returns (acts: seq<Action>)
    requires s.pump == Idle && s.queue != [] && s.queue[0].Input? && s.lock.turn == 0 && s.speech.activeTurnID == ""
    ensures var next, item := Runs(s, acts), s.queue[0];
            var c := Context(s.session.incarnation, s.session.agent, "", Outside(item.origin, s.session.gateways));
            && next.pump == Idle && next.lock == s.lock.(turn := 0, running := false) && next.speech.activeTurnID == ""
            && next.queue == s.queue[1..] && next.items == s.items + [item]
            && next.log == s.log + LoggedAll(c, [Say(Paused), Say(Status)], None)
  {
    hide Step, Enabled, Runs, LoggedAll;
    acts := TakingSteps(s);
    RefuseStep(Taken(s));
    Then(s, acts, Refuse);
    acts := acts + [Refuse];
    IdleStep(Runs(s, acts));
    Then(s, acts, MarkIdle);
    acts := acts + [MarkIdle];
    BackStep(Runs(s, acts));
    Then(s, acts, GiveBack);
    acts := acts + [GiveBack];
  }

  /** In any run, an idle pump with an input before it and a bridge that is there can make the very turn that the
      driver's method makes: the same lines with the same stamps, the token and the identity given back. */
  lemma RoundIsItsSteps(session: Session, schedule: seq<Action>, freshID: string, g: Allowance, reached: bool,
                        feed: seq<Event>, announces: bool, paused: bool) returns (more: seq<Action>)
    requires var s := Run(session, schedule);
             s.pump == Idle && s.queue != [] && s.queue[0].Input? && s.lock.turn == 0 && Quiet(s.link)
    requires freshID != "" && !g.cut
    ensures var s, next := Run(session, schedule), Run(session, schedule + more);
            && next.pump == Idle && next.lock.turn == 0 && !next.lock.running && next.speech.activeTurnID == ""
            && next.log == s.log + LoggedAll(ContextOf(session, s.queue[0], freshID),
                                             Said(reached, g, feed, announces, paused), Some(|s.items|))
  {
    hide Run, Runs, LoggedAll, Said;
    SessionStays(session, schedule);
    more := TurnIsItsSteps(Run(session, schedule), freshID, g, reached, feed, announces, paused);
    RunContinues(session, schedule, more);
  }
}

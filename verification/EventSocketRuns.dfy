/** Every interleaving of publishers, readers, removals and shutdown over the subscribers of one event socket. A step
    is one region under priorityMu, one channel operation, or one region under the socket's mutex that does not
    block; a Publish holds that mutex across several steps. */
module EventSocketRuns {
  import opened Prelude
  import opened EventSocket

  type Id = nat

  /** Where the goroutine that serves a subscriber stands. */
  datatype Reader =
    | Checking   // at the head of next, about to look at the priority list
    | Receiving  // found it empty, at the channel receive
    | Writing    // next answered with a line
    | Leaving    // next answered false, or the write failed
    | Gone

  /** A subscriber, where its reader stands, and what happened to it so far; `dropped` counts the ordinary lines that
      found the channel full or were taken out of it to make room. */
  datatype Sub = Sub(
    lanes: Lanes,
    reader: Reader,
    coordinationSent: seq<Line>,
    coordinationGot: seq<Line>,
    plainSent: seq<Line>,
    plainGot: seq<Line>,
    dropped: nat,
    ended: bool)

  const NEWCOMER := Sub(Lanes([], [], false), Checking, [], [], [], [], 0, false)

  /** How far enqueuePriority has come, once the line is in the priority list. */
  datatype Stage = Signalling | Draining | Resignalling

  /** The holder of the socket's mutex, when it is a Publish: who is still to be served, and who is being served. */
  datatype Publisher =
    | Idle
    | Publishing(line: Line, coordination: bool, todo: set<Id>, at: Option<(Id, Stage)>)

  datatype State = State(subs: map<Id, Sub>, live: set<Id>, closed: bool, publisher: Publisher)

  const INITIAL := State(map[], {}, false, Idle)

  datatype Action =
    | Add(id: Id)
    | Begin(line: Line, coordination: bool)
    | Visit(id: Id)
    | Signal
    | Drain
    | Resignal
    | Finish
    | Check(id: Id)
    | Receive(id: Id)
    | Wrote(id: Id, ok: bool)
    | Remove(id: Id)
    | CloseAll

  predicate Serving(s: State, stage: Stage) {
    && s.publisher.Publishing?
    && s.publisher.at.Some?
    && s.publisher.at.value.1 == stage
    && s.publisher.at.value.0 in s.subs
  }

  /** An action that is not enabled is one its goroutine would have to wait for. */
  predicate Enabled(s: State, a: Action) {
    match a
    case Add(id) => s.publisher.Idle? && id !in s.subs
    case Begin(_, _) => s.publisher.Idle?
    case Visit(id) => s.publisher.Publishing? && s.publisher.at.None? && id in s.publisher.todo && id in s.subs
    case Signal => Serving(s, Signalling)
    case Drain => Serving(s, Draining)
    case Resignal => Serving(s, Resignalling) && HasRoom(s.subs[s.publisher.at.value.0].lanes)
    case Finish => s.publisher.Publishing? && s.publisher.at.None? && s.publisher.todo == {}
    case Check(id) => id in s.subs && s.subs[id].reader == Checking
    case Receive(id) => id in s.subs && s.subs[id].reader == Receiving
        && (s.subs[id].lanes.ch != [] || s.subs[id].lanes.closed)
    case Wrote(id, _) => id in s.subs && s.subs[id].reader == Writing
    case Remove(id) => s.publisher.Idle? && id in s.subs && s.subs[id].reader == Leaving
    case CloseAll => s.publisher.Idle?
  }

  /** One line goes to one subscriber; for a coordination line this is only the append to its priority list. */
  function Visited(sub: Sub, line: Line, coordination: bool): Sub {
    if coordination
    then sub.(lanes := Prioritised(sub.lanes, line), coordinationSent := sub.coordinationSent + [line])
    else sub.(lanes := Offered(sub.lanes, line), plainSent := sub.plainSent + [line],
              dropped := sub.dropped + if HasRoom(sub.lanes) then 0 else 1)
  }

  /** The oldest token is taken out of a full channel. */
  function Evicted(sub: Sub): Sub {
    sub.(lanes := Drained(sub.lanes),
         dropped := sub.dropped + if sub.lanes.ch != [] && sub.lanes.ch[0].Carry? then 1 else 0)
  }

  function Checked(sub: Sub): Sub {
    if sub.lanes.priority == [] then sub.(reader := Receiving)
    else sub.(lanes := sub.lanes.(priority := sub.lanes.priority[1..]),
              reader := Writing,
              coordinationGot := sub.coordinationGot + [sub.lanes.priority[0]])
  }

  function Received(sub: Sub): Sub {
    if sub.lanes.ch == [] then sub.(reader := Leaving, ended := true)
    else
      match sub.lanes.ch[0]
      case Wake => sub.(lanes := Drained(sub.lanes), reader := Checking)
      case Carry(line) => sub.(lanes := Drained(sub.lanes), reader := Writing, plainGot := sub.plainGot + [line])
  }

  function Shut(sub: Sub): Sub {
    sub.(lanes := Closed(sub.lanes))
  }

  function Step(s: State, a: Action): State
    requires Enabled(s, a)
  {
    match a
    case Add(id) => if s.closed then s else s.(subs := s.subs[id := NEWCOMER], live := s.live + {id})
    case Begin(line, coordination) => s.(publisher := Publishing(line, coordination, s.live, None))
    case Visit(id) =>
      var p := s.publisher;
      s.(subs := s.subs[id := Visited(s.subs[id], p.line, p.coordination)],
         publisher := p.(todo := p.todo - {id}, at := if p.coordination then Some((id, Signalling)) else None))
    case Signal =>
      var id := s.publisher.at.value.0;
      var sub := s.subs[id];
      if HasRoom(sub.lanes)
      then s.(subs := s.subs[id := sub.(lanes := Signalled(sub.lanes))], publisher := s.publisher.(at := None))
      else s.(publisher := s.publisher.(at := Some((id, Draining))))
    case Drain =>
      var id := s.publisher.at.value.0;
      var sub := s.subs[id];
      s.(subs := s.subs[id := Evicted(sub)],
         publisher := s.publisher.(at := Some((id, Resignalling))))
    case Resignal =>
      var id := s.publisher.at.value.0;
      var sub := s.subs[id];
      s.(subs := s.subs[id := sub.(lanes := Signalled(sub.lanes))], publisher := s.publisher.(at := None))
    case Finish => s.(publisher := Idle)
    case Check(id) => s.(subs := s.subs[id := Checked(s.subs[id])])
    case Receive(id) => s.(subs := s.subs[id := Received(s.subs[id])])
    case Wrote(id, ok) => s.(subs := s.subs[id := s.subs[id].(reader := if ok then Checking else Leaving)])
    case Remove(id) =>
      var sub := if id in s.live then Shut(s.subs[id]) else s.subs[id];
      s.(subs := s.subs[id := sub.(reader := Gone)], live := s.live - {id})
    case CloseAll =>
      s.(subs := map id | id in s.subs :: if id in s.live then Shut(s.subs[id]) else s.subs[id],
         live := {}, closed := true)
  }

  /** The state after a schedule; an action that is not enabled leaves everything as it is. */
  function Run(schedule: seq<Action>): State {
    if schedule == [] then INITIAL
    else
      var s, a := Run(schedule[..|schedule| - 1]), schedule[|schedule| - 1];
      if Enabled(s, a) then Step(s, a) else s
  }

  // ---------------------------------------------------------------- in-order subsequences

  /** `part` is what is left of `whole` after leaving some of its elements out. */
  predicate Subsequence(part: seq<Line>, whole: seq<Line>)
    decreases |whole|
  {
    if part == [] then true
    else if whole == [] then false
    else
      var p, w := |part| - 1, |whole| - 1;
      (part[p] == whole[w] && Subsequence(part[..p], whole[..w])) || Subsequence(part, whole[..w])
  }

  lemma SubsequenceGrows(part: seq<Line>, whole: seq<Line>, line: Line)
    requires Subsequence(part, whole)
    ensures Subsequence(part + [line], whole + [line]) && Subsequence(part, whole + [line])
  {
    var longer := whole + [line];
    assert longer[..|longer| - 1] == whole;
    assert (part + [line])[..|part|] == part;
  }

  lemma {:induction false} SubsequenceLoses(front: seq<Line>, line: Line, back: seq<Line>, whole: seq<Line>)
    requires Subsequence(front + [line] + back, whole)
    ensures Subsequence(front + back, whole)
    decreases |whole|
  {
    var part := front + [line] + back;
    var p, w := |part| - 1, |whole| - 1;
    if front + back == [] {
    } else if Subsequence(part, whole[..w]) {
      SubsequenceLoses(front, line, back, whole[..w]);
      SubsequenceGrows(front + back, whole[..w], whole[w]);
      assert whole == whole[..w] + [whole[w]];
    } else if back == [] {
      assert part[..p] == front && front + back == front;
      SubsequenceGrows(front, whole[..w], whole[w]);
      assert whole == whole[..w] + [whole[w]];
    } else {
      var b := |back| - 1;
      assert part[..p] == front + [line] + back[..b];
      SubsequenceLoses(front, line, back[..b], whole[..w]);
      assert (front + back)[..|front + back| - 1] == front + back[..b];
    }
  }

  /** The ordinary lines in a channel, in order. */
  function Carried(ch: seq<Token>): seq<Line> {
    if ch == [] then []
    else (match ch[0] case Wake => [] case Carry(line) => [line]) + Carried(ch[1..])
  }

  lemma {:induction false} CarriedSnoc(ch: seq<Token>, token: Token)
    ensures Carried(ch + [token]) == Carried(ch) + Carried([token])
  {
    if ch == [] {
      assert ch + [token] == [token];
    } else {
      assert (ch + [token])[1..] == ch[1..] + [token];
      CarriedSnoc(ch[1..], token);
    }
  }

  // ---------------------------------------------------------------- the invariant

  /** A publisher has put a line in this subscriber's priority list and not yet sent the wake token for it. */
  predicate MidEnqueue(s: State, id: Id) {
    s.publisher.Publishing? && s.publisher.at.Some? && s.publisher.at.value.0 == id
  }

  /** How many lines were published to a subscriber. */
  function Sent(sub: Sub): nat {
    |sub.plainSent| + |sub.coordinationSent|
  }

  /** What holds of a subscriber; `registered` and `mid` say whether the socket still knows it and is serving it. */
  ghost predicate SubInv(sub: Sub, registered: bool, mid: bool) {
    && (registered <==> !sub.lanes.closed)
    && |sub.lanes.ch| <= SUBSCRIBER_BUFFER
    && sub.coordinationGot + sub.lanes.priority == sub.coordinationSent
    && Subsequence(sub.plainGot + Carried(sub.lanes.ch), sub.plainSent)
    && |sub.plainSent| == |sub.plainGot| + |Carried(sub.lanes.ch)| + sub.dropped
    && |sub.lanes.ch| + (if mid then 1 else 0) <= Sent(sub)
    && (sub.dropped > 0 ==> Sent(sub) > SUBSCRIBER_BUFFER)
    && (sub.reader == Receiving && sub.lanes.priority != [] ==> sub.lanes.ch != [] || mid)
    && (sub.ended ==> sub.lanes.priority == [] && sub.lanes.closed && (sub.reader == Leaving || sub.reader == Gone))
  }

  /** What the publisher is about. */
  ghost predicate PublisherInv(s: State) {
    && s.live <= s.subs.Keys
    && (s.closed ==> s.live == {})
    && (s.publisher.Publishing? ==> s.publisher.todo <= s.live)
    && (s.publisher.Publishing? && s.publisher.at.Some? ==>
          && s.publisher.at.value.0 in s.live
          && (s.publisher.at.value.1 == Resignalling ==> HasRoom(s.subs[s.publisher.at.value.0].lanes))
          && (s.publisher.at.value.1 == Draining ==> Sent(s.subs[s.publisher.at.value.0]) > SUBSCRIBER_BUFFER))
  }

  ghost predicate Inv(s: State) {
    && PublisherInv(s)
    && (forall id :: id in s.subs ==> SubInv(s.subs[id], id in s.live, MidEnqueue(s, id)))
  }

  lemma VisitedKeeps(sub: Sub, line: Line, coordination: bool)
    requires SubInv(sub, true, false)
    ensures SubInv(Visited(sub, line, coordination), true, coordination)
  {
    if coordination {
      assert sub.coordinationGot + (sub.lanes.priority + [line]) == sub.coordinationSent + [line];
    } else {
      SubsequenceGrows(sub.plainGot + Carried(sub.lanes.ch), sub.plainSent, line);
      CarriedSnoc(sub.lanes.ch, Carry(line));
      assert Carried([Carry(line)]) == [line];
      assert sub.plainGot + (Carried(sub.lanes.ch) + [line]) == sub.plainGot + Carried(sub.lanes.ch) + [line];
    }
  }

  lemma SignalledKeeps(sub: Sub)
    requires SubInv(sub, true, true) && HasRoom(sub.lanes)
    ensures SubInv(sub.(lanes := Signalled(sub.lanes)), true, false)
  {
    CarriedSnoc(sub.lanes.ch, Wake);
    assert Carried([Wake]) == [];
    assert Carried(sub.lanes.ch) + [] == Carried(sub.lanes.ch);
  }

  lemma DrainedKeeps(sub: Sub)
    requires SubInv(sub, true, true) && Sent(sub) > SUBSCRIBER_BUFFER
    ensures SubInv(Evicted(sub), true, true)
  {
    if sub.lanes.ch != [] && sub.lanes.ch[0].Carry? {
      var line, others := sub.lanes.ch[0].line, Carried(sub.lanes.ch[1..]);
      assert sub.plainGot + Carried(sub.lanes.ch) == sub.plainGot + [line] + others;
      SubsequenceLoses(sub.plainGot, line, others, sub.plainSent);
    } else if sub.lanes.ch != [] {
      assert Carried(sub.lanes.ch) == Carried(sub.lanes.ch[1..]);
    }
  }

  lemma CheckedKeeps(sub: Sub, registered: bool, mid: bool)
    requires SubInv(sub, registered, mid) && sub.reader == Checking
    ensures SubInv(Checked(sub), registered, mid)
  {
    if sub.lanes.priority != [] {
      var line, others := sub.lanes.priority[0], sub.lanes.priority[1..];
      assert sub.coordinationGot + [line] + others == sub.coordinationGot + sub.lanes.priority;
    }
  }

  lemma ReceivedKeeps(sub: Sub, registered: bool, mid: bool)
    requires SubInv(sub, registered, mid) && sub.reader == Receiving
    requires sub.lanes.ch != [] || sub.lanes.closed
    requires mid ==> registered
    ensures SubInv(Received(sub), registered, mid)
  {
    if sub.lanes.ch != [] && sub.lanes.ch[0].Carry? {
      assert sub.plainGot + Carried(sub.lanes.ch) == sub.plainGot + [sub.lanes.ch[0].line] + Carried(sub.lanes.ch[1..]);
    } else if sub.lanes.ch != [] {
      assert Carried(sub.lanes.ch) == Carried(sub.lanes.ch[1..]);
    }
  }

  lemma NewcomerKeeps()
    ensures SubInv(NEWCOMER, true, false)
  {
  }

  lemma StepKeepsPublisher(s: State, a: Action)
    requires Inv(s) && Enabled(s, a)
    ensures PublisherInv(Step(s, a))
  {
    hide Subsequence, Carried;
  }

  lemma WroteKeeps(sub: Sub, registered: bool, mid: bool, ok: bool)
    requires SubInv(sub, registered, mid) && sub.reader == Writing
    ensures SubInv(sub.(reader := if ok then Checking else Leaving), registered, mid)
  {
  }

  /** Leaving the socket, or being shut down with it. */
  lemma ShutKeeps(sub: Sub, registered: bool, leaves: bool)
    requires SubInv(sub, registered, false) && (leaves ==> sub.reader == Leaving)
    ensures var shut := if registered then Shut(sub) else sub;
            SubInv(if leaves then shut.(reader := Gone) else shut, false, false)
  {
  }

  lemma StepKeepsSub(s: State, a: Action, id: Id)
    requires Inv(s) && Enabled(s, a) && id in s.subs
    ensures var next := Step(s, a); id in next.subs && SubInv(next.subs[id], id in next.live, MidEnqueue(next, id))
  {
    hide SubInv, Subsequence, Carried;
    var sub, registered, mid := s.subs[id], id in s.live, MidEnqueue(s, id);
    assert SubInv(sub, registered, mid);
    match a
    case Visit(at) => if id == at { VisitedKeeps(sub, s.publisher.line, s.publisher.coordination); }
    case Signal => if id == s.publisher.at.value.0 && HasRoom(sub.lanes) { SignalledKeeps(sub); }
    case Drain => if id == s.publisher.at.value.0 { DrainedKeeps(sub); }
    case Resignal => if id == s.publisher.at.value.0 { SignalledKeeps(sub); }
    case Check(at) => if id == at { CheckedKeeps(sub, registered, mid); }
    case Receive(at) => if id == at { ReceivedKeeps(sub, registered, mid); }
    case Wrote(at, ok) => if id == at { WroteKeeps(sub, registered, mid, ok); }
    case Remove(at) => if id == at { ShutKeeps(sub, registered, true); }
    case CloseAll => ShutKeeps(sub, registered, false);
    case _ =>
  }

  lemma StepKeeps(s: State, a: Action)
    requires Inv(s) && Enabled(s, a)
    ensures Inv(Step(s, a))
  {
    hide SubInv, Subsequence, Carried;
    var next := Step(s, a);
    StepKeepsPublisher(s, a);
    NewcomerKeeps();
    forall id | id in next.subs
      ensures SubInv(next.subs[id], id in next.live, MidEnqueue(next, id))
    {
      if id in s.subs {
        StepKeepsSub(s, a, id);
      }
    }
  }

  /** The invariant holds after every schedule. */
  lemma {:induction false} RunKeeps(schedule: seq<Action>)
    ensures Inv(Run(schedule))
    decreases |schedule|
  {
    if schedule != [] {
      var s, a := Run(schedule[..|schedule| - 1]), schedule[|schedule| - 1];
      RunKeeps(schedule[..|schedule| - 1]);
      if Enabled(s, a) {
        StepKeeps(s, a);
      }
    }
  }

  // ---------------------------------------------------------------- what the protocol is for

  /** Coordination lines are neither lost, repeated nor reordered: those returned and those queued are those
      published. */
  lemma CoordinationIsLossless(schedule: seq<Action>, id: Id)
    requires id in Run(schedule).subs
    ensures var sub := Run(schedule).subs[id]; sub.coordinationGot + sub.lanes.priority == sub.coordinationSent
  {
    RunKeeps(schedule);
  }

  /** No lost wakeup: a reader that has to wait has nothing queued, or a publisher is about to wake it. */
  lemma NoLostWakeup(schedule: seq<Action>, id: Id)
    requires var s := Run(schedule); id in s.subs && s.subs[id].reader == Receiving && !Enabled(s, Receive(id))
    ensures var s := Run(schedule); s.subs[id].lanes.priority == [] || MidEnqueue(s, id)
  {
    hide Run, Subsequence, Carried;
    RunKeeps(schedule);
  }

  /** When next is about to answer false, the subscriber is closed and every coordination line published to it was
      returned, and so it stays. */
  lemma EndedMeansDelivered(schedule: seq<Action>, id: Id)
    requires id in Run(schedule).subs
    requires Run(schedule).subs[id].ended
             || (Enabled(Run(schedule), Receive(id)) && Run(schedule).subs[id].lanes.ch == [])
    ensures var sub := Run(schedule).subs[id]; sub.lanes.closed && sub.coordinationGot == sub.coordinationSent
    ensures Enabled(Run(schedule), Receive(id)) && Run(schedule).subs[id].lanes.ch == []
            ==> Step(Run(schedule), Receive(id)).subs[id].ended
  {
    hide Run, Subsequence, Carried;
    RunKeeps(schedule);
    assert SubInv(Run(schedule).subs[id], id in Run(schedule).live, MidEnqueue(Run(schedule), id));
  }

  /** Ordinary lines may be dropped, but those that arrive do so in the order they were published. */
  lemma PlainLinesInOrder(schedule: seq<Action>, id: Id)
    requires id in Run(schedule).subs
    ensures var sub := Run(schedule).subs[id]; Subsequence(sub.plainGot + Carried(sub.lanes.ch), sub.plainSent)
  {
    RunKeeps(schedule);
  }

  /** An ordinary line is lost in two ways only: it finds the channel full, or it is the oldest token when a full
      channel has to make room for a wake token. */
  lemma DroppedExactly(s: State, a: Action, id: Id)
    requires Enabled(s, a) && id in s.subs && (a.Add? ==> a.id != id)
    ensures var sub := s.subs[id];
            && id in Step(s, a).subs
            && (Step(s, a).subs[id].dropped == sub.dropped + 1
                <==> || (a == Visit(id) && !s.publisher.coordination && |sub.lanes.ch| >= 256)
                     || (a == Drain && s.publisher.at.value.0 == id && sub.lanes.ch != [] && sub.lanes.ch[0] != Wake))
            && sub.dropped <= Step(s, a).subs[id].dropped <= sub.dropped + 1
  {
  }

  lemma {:induction false} WholeSubsequence(part: seq<Line>, whole: seq<Line>)
    requires Subsequence(part, whole)
    ensures |part| <= |whole| && (|part| == |whole| ==> part == whole)
    decreases |whole|
  {
    if part != [] {
      var p, w := |part| - 1, |whole| - 1;
      if part[p] == whole[w] && Subsequence(part[..p], whole[..w]) {
        WholeSubsequence(part[..p], whole[..w]);
        assert part == part[..p] + [part[p]] && whole == whole[..w] + [whole[w]];
      } else {
        WholeSubsequence(part, whole[..w]);
      }
    }
  }

  /** Every ordinary line published is returned, still in the channel, or one of those dropped; with none dropped all
      arrive, in order, and none is dropped among the first 256 lines. */
  lemma PlainLinesAreAccountedFor(schedule: seq<Action>, id: Id)
    requires id in Run(schedule).subs
    ensures var sub := Run(schedule).subs[id];
            && |sub.plainSent| == |sub.plainGot| + |Carried(sub.lanes.ch)| + sub.dropped
            && (sub.dropped == 0 ==> sub.plainGot + Carried(sub.lanes.ch) == sub.plainSent)
            && (|sub.plainSent| + |sub.coordinationSent| <= 256 ==> sub.dropped == 0)
  {
    RunKeeps(schedule);
    var sub := Run(schedule).subs[id];
    WholeSubsequence(sub.plainGot + Carried(sub.lanes.ch), sub.plainSent);
  }

  /** No channel overflows, and no token is ever sent to a closed one. */
  lemma SendsAreSafe(schedule: seq<Action>, id: Id)
    requires id in Run(schedule).subs
    ensures var s := Run(schedule);
            && |s.subs[id].lanes.ch| <= SUBSCRIBER_BUFFER
            && (MidEnqueue(s, id) || (s.publisher.Publishing? && id in s.publisher.todo) ==> !s.subs[id].lanes.closed)
  {
    RunKeeps(schedule);
  }

  // ---------------------------------------------------------------- a publish always completes

  predicate ByPublisher(a: Action) {
    a.Visit? || a.Signal? || a.Drain? || a.Resignal? || a.Finish?
  }

  /** An upper bound on the steps the publisher still has to take. */
  function Work(p: Publisher): nat {
    match p
    case Idle => 0
    case Publishing(_, _, todo, at) => 1 + 4 * |todo| + WorkAt(at)
  }

  function WorkAt(at: Option<(Id, Stage)>): nat {
    match at
    case None => 0
    case Some(serving) =>
      match serving.1
      case Signalling => 3
      case Draining => 2
      case Resignalling => 1
  }

  lemma PublisherCanMove(s: State) returns (a: Action)
    requires Inv(s) && s.publisher.Publishing?
    ensures ByPublisher(a) && Enabled(s, a)
  {
    var p := s.publisher;
    if p.at.Some? {
      a := match p.at.value.1 case Signalling => Signal case Draining => Drain case Resignalling => Resignal;
    } else if p.todo == {} {
      a := Finish;
    } else {
      var id :| id in p.todo;
      a := Visit(id);
    }
  }

  lemma PublisherAdvances(s: State, a: Action)
    requires Enabled(s, a) && ByPublisher(a)
    ensures Work(Step(s, a).publisher) < Work(s.publisher)
  {
    if a.Visit? {
      var p := s.publisher;
      assert p.todo == (p.todo - {a.id}) + {a.id};
      assert |p.todo| == |p.todo - {a.id}| + 1;
    }
  }

  /** Whatever the readers do, a Publish that holds the mutex has an enabled next step, the unconditional wake
      included. */
  lemma PublishNeverBlocks(schedule: seq<Action>)
    requires Run(schedule).publisher.Publishing?
    ensures exists own :: ByPublisher(own) && Enabled(Run(schedule), own)
  {
    RunKeeps(schedule);
    var own := PublisherCanMove(Run(schedule));
  }

  /** Each step of a Publish brings it closer to its end, and no step of anyone else holds it back. */
  lemma PublishFinishes(schedule: seq<Action>, a: Action)
    requires Enabled(Run(schedule), a) && Run(schedule).publisher.Publishing?
    ensures var s := Run(schedule);
            if ByPublisher(a) then Work(Step(s, a).publisher) < Work(s.publisher)
            else Step(s, a).publisher == s.publisher
  {
    if ByPublisher(a) {
      PublisherAdvances(Run(schedule), a);
    }
  }

  lemma OneMore(schedule: seq<Action>, a: Action)
    requires Enabled(Run(schedule), a)
    ensures Run(schedule + [a]) == Step(Run(schedule), a)
  {
    assert (schedule + [a])[..|schedule|] == schedule;
  }

  lemma PublisherStaysOrEnds(s: State, a: Action)
    requires Enabled(s, a) && ByPublisher(a)
    ensures Step(s, a).publisher.Publishing? || Step(s, a).publisher.Idle?
  {
  }

  /** A Publish can always complete by its own steps alone, within a bound, without any reader taking anything. */
  lemma {:induction false} PublishCanComplete(schedule: seq<Action>) returns (more: seq<Action>)
    requires Run(schedule).publisher.Publishing?
    ensures (forall a :: a in more ==> ByPublisher(a)) && |more| <= Work(Run(schedule).publisher)
    ensures Run(schedule + more).publisher.Idle?
    decreases Work(Run(schedule).publisher)
  {
    hide Run, Enabled, Step, Inv, Work, ByPublisher;
    var s := Run(schedule);
    RunKeeps(schedule);
    var a := PublisherCanMove(s);
    PublishFinishes(schedule, a);
    PublisherStaysOrEnds(s, a);
    OneMore(schedule, a);
    more := [a];
    if Run(schedule + [a]).publisher.Publishing? {
      var rest := PublishCanComplete(schedule + [a]);
      more := [a] + rest;
      assert schedule + more == schedule + [a] + rest;
    }
  }

  // ---------------------------------------------------------------- the operations, undisturbed

  /** Serving a coordination line to a subscriber, with no step of anyone else between, is the operation that the
      subscriber's method is proved against. */
  lemma EnqueueIsItsSteps(schedule: seq<Action>, id: Id) returns (more: seq<Action>)
    requires var s := Run(schedule); Enabled(s, Visit(id)) && s.publisher.coordination
    ensures forall a :: a in more ==> ByPublisher(a)
    ensures var s, next := Run(schedule), Run(schedule + more);
            && id in next.subs && next.publisher.Publishing? && next.publisher.at.None?
            && next.subs[id].lanes == Enqueued(s.subs[id].lanes, s.publisher.line)
            && forall other :: other in s.subs && other != id ==>
                 other in next.subs && next.subs[other] == s.subs[other]
  {
    hide Run, Inv, SubInv, Subsequence;
    var s := Run(schedule);
    SendsAreSafe(schedule, id);
    OneMore(schedule, Visit(id));
    OneMore(schedule + [Visit(id)], Signal);
    more := [Visit(id), Signal];
    assert schedule + more == schedule + [Visit(id)] + [Signal];
    if !HasRoom(s.subs[id].lanes) {
      OneMore(schedule + more, Drain);
      OneMore(schedule + more + [Drain], Resignal);
      assert schedule + (more + [Drain, Resignal]) == schedule + more + [Drain] + [Resignal];
      more := more + [Drain, Resignal];
    }
  }

  predicate ByReader(a: Action, id: Id) {
    a == Check(id) || a == Receive(id)
  }

  /** A whole next of one reader, likewise: it stands where the answer puts it. */
  lemma {:induction false} NextIsItsSteps(schedule: seq<Action>, id: Id) returns (more: seq<Action>)
    requires id in Run(schedule).subs && Run(schedule).subs[id].reader == Checking
    ensures forall a :: a in more ==> ByReader(a, id)
    ensures id in Run(schedule + more).subs
    ensures var sub, next := Run(schedule).subs[id], Run(schedule + more).subs[id];
            var (lanes, answer) := Taken(sub.lanes);
            && next.lanes == lanes
            && match answer
               case Got(line) =>
                 && next.reader == Writing
                 && (next.coordinationGot, next.plainGot)
                    == (if sub.lanes.priority != [] then (sub.coordinationGot + [line], sub.plainGot)
                        else (sub.coordinationGot, sub.plainGot + [line]))
               case Ended => next.reader == Leaving && next.ended
               case Waiting => next.reader == Receiving && !Enabled(Run(schedule + more), Receive(id))
    decreases |Run(schedule).subs[id].lanes.ch|
  {
    hide Run, Inv, SubInv;
    var sub := Run(schedule).subs[id];
    OneMore(schedule, Check(id));
    more := [Check(id)];
    if sub.lanes.priority == [] && (sub.lanes.ch != [] || sub.lanes.closed) {
      OneMore(schedule + more, Receive(id));
      assert schedule + (more + [Receive(id)]) == schedule + more + [Receive(id)];
      more := more + [Receive(id)];
      if sub.lanes.ch != [] && sub.lanes.ch[0] == Wake {
        var rest := NextIsItsSteps(schedule + more, id);
        assert schedule + (more + rest) == schedule + more + rest;
        more := more + rest;
      }
    }
  }
}

/** Every interleaving of the pump with those who submit items and those who claim the idle session to rewind or undo
    it. Taking the token, marking the session as running, the gate, each event fanned out, and giving the token back
    are separate steps. */
module TurnRuns {
  import opened Prelude
  import opened Turns

  /** Where the pump stands. The stages from `Identified` to `Ended` are a turn; for an input they are the turn of
      that input. In `Greeting`, `Sending` and `Asking` it offers the bridge something, in `Awaiting` and `Listening`
      it waits for something from the bridge. */
  datatype Pump =
    | Idle
    | Waiting(item: Item)                          // holds the item, waits for the token
    | Entered(item: Item)                          // has the token
    | Running(item: Item)                          // marked as running, before the gate
    | Identified(item: Item, guard: Allowance)     // past the gate, the human line not said yet
    | Starting(item: Item, guard: Allowance)       // a hangup from before the turn not dropped yet
    | Greeting(item: Item, guard: Allowance)       // tells the bridge the language
    | Sending(item: Item, guard: Allowance)
    | Awaiting(item: Item, guard: Allowance)
    | Ceiling(item: Item, guard: Allowance)        // the guard tripped, its notice not said yet
    | Completing(item: Item, reply: Event)
    | Ended(item: Item)                            // the terminal is said
    | Compacting(left: nat)                        // so many of its stages may still ask the bridge
    | Asking(left: nat)
    | Listening(left: nat)
    | Refusing                                     // the gate refused the item
    | Releasing                                    // no longer marked as running, still has the token
    | Stopped(held: Option<Item>)

  /** What the pump shares with the bridge and with whoever ends the session: the one-slot hangup signal, whether the
      session is cancelled, whether the bridge is ready to take something, what it offers, and whether its feed is
      closed. */
  datatype Link = Link(hangup: bool, cancelled: bool, reading: bool, offer: Option<Event>, closed: bool)

  /** Why a wait for the bridge ends without it. */
  datatype Why = HungUp | Cancelled | FeedClosed

  /** Someone who asks for the idle session: saw an empty queue, holds the token, was told it is busy, or gave the
      token back. */
  datatype Claimer = Looked | Holds | Busy | Gone

  datatype Turn = Turn(id: string, outside: bool)

  /** An event, and the input whose turn was in progress when it was fanned out. */
  datatype Logged = Logged(entry: Entry, input: Option<nat>)

  /** The one-slot channel, the flag beside it, and those who want its token. */
  datatype Lock = Lock(turn: nat, running: bool, claimers: seq<Claimer>)

  /** What `fanOut` reads. */
  datatype Speech = Speech(activeTurnID: string, saidElsewhere: bool)

  /** The inputs that passed the gate, and those it refused. An input is known by its place among the items taken. */
  datatype Gate = Gate(turns: map<nat, Turn>, refused: set<nat>)

  /** `greets`: the bridge is told the language before each turn; `bridgeStages`: how many compaction stages ask the
      bridge. */
  datatype Session = Session(incarnation: string, agent: string, gateways: seq<string>, greets: bool, bridgeStages: nat)

  /** `items` are the items taken from the queue, in order. */
  datatype State = State(
    session: Session, queue: seq<Item>, items: seq<Item>, pump: Pump, lock: Lock, link: Link,
    speech: Speech, gate: Gate, log: seq<Logged>)

  function Started(session: Session): State {
    State(session, [], [], Idle, Lock(0, false, []), Link(false, false, false, None, false), Speech("", false),
          Gate(map[], {}), [])
  }

  datatype Action =
    // the pump's own steps
    | Notice(entry: Entry)          // a gateway could not deliver a compaction notice
    | Pop
    | Enter
    | MarkRunning
    | CompactNow
    | Refuse
    | Pass(freshID: string, headroom: nat, capped: bool)
    | SayHuman
    | DropStale
    | Send
    | Relay
    | SayCeiling
    | Final
    | Announce(entry: Entry)        // what a reply's coordination says
    | SayReply(paused: bool)
    | Abandon(why: Why)
    | Clear
    | Compact(entry: Entry)
    | AskBridge
    | Hear(detail: bool)
    | GiveUp(why: Why)
    | MarkIdle
    | GiveBack
    | Stop
    // everybody else's
    | Submit(item: Item)
    | BridgeReads
    | BridgeLeaves
    | HangUp
    | Offer(event: Event)
    | Withdraw
    | CloseFeed
    | Cancel
    | Look
    | Claim(claimer: nat)
    | Unclaim(claimer: nat)

  /** A step the pump takes itself. */
  predicate Own(a: Action) {
    && !a.Submit? && !a.BridgeReads? && !a.BridgeLeaves? && !a.HangUp? && !a.Offer? && !a.Withdraw? && !a.CloseFeed?
    && !a.Cancel? && !a.Look? && !a.Claim? && !a.Unclaim?
  }

  /** The daemon's own lines beside the human line and the terminals. */
  predicate Plain(e: Entry) {
    e.origin == Host && (e.event.kind.Status? || e.event.kind.Paused? || e.event.kind.Other?)
  }

  /** A wait for the bridge is over for this reason; only one that receives notices a closed feed. */
  predicate Over(link: Link, why: Why, receiving: bool) {
    match why
    case HungUp => link.hangup
    case Cancelled => link.cancelled
    case FeedClosed => receiving && link.closed
  }

  predicate Offering(p: Pump) {
    p.Greeting? || p.Sending? || p.Asking?
  }

  predicate Receiving(p: Pump) {
    p.Awaiting? || p.Listening?
  }

  /** An action that is not enabled is one its goroutine would have to wait for. */
  predicate Enabled(s: State, a: Action) {
    var pump, link := s.pump, s.link;
    match a
    case Notice(entry) => pump == Idle && Plain(entry)
    case Pop => pump == Idle && s.queue != []
    case Enter => pump.Waiting? && s.lock.turn == 0
    case MarkRunning => pump.Entered?
    case CompactNow => pump.Running? && pump.item.CompactNow?
    case Refuse => pump.Running? && pump.item.Input?
    case Pass(freshID, _, _) => pump.Running? && !pump.item.CompactNow? && freshID != ""
    case SayHuman => pump.Identified?
    case DropStale => pump.Starting?
    case Send => Offering(pump) && link.reading
    case Relay => pump.Awaiting? && link.offer.Some? && !IsFinal(link.offer.value)
    case SayCeiling => pump.Ceiling?
    case Final => pump.Awaiting? && link.offer.Some? && IsFinal(link.offer.value)
    case Announce(entry) => pump.Completing? && Plain(entry)
    case SayReply(_) => pump.Completing?
    case Abandon(why) => (pump.Greeting? || pump.Sending? || pump.Awaiting?) && Over(link, why, pump.Awaiting?)
    case Clear => pump.Ended?
    case Compact(entry) => pump.Compacting? && Plain(entry)
    case AskBridge => pump.Compacting? && pump.left > 0
    case Hear(_) => pump.Listening? && link.offer.Some?
    case GiveUp(why) => (pump.Asking? || pump.Listening?) && Over(link, why, pump.Listening?)
    case MarkIdle => pump.Compacting? || pump.Refusing?
    case GiveBack => pump.Releasing? && s.lock.turn > 0
    case Stop => (pump == Idle || pump.Waiting?) && link.cancelled
    case Submit(_) => |s.queue| < QUEUE_CAPACITY
    case Offer(_) => link.offer.None? && !link.closed
    case CloseFeed => link.offer.None?
    case Claim(claimer) => claimer < |s.lock.claimers| && s.lock.claimers[claimer] == Looked
    case Unclaim(claimer) => claimer < |s.lock.claimers| && s.lock.claimers[claimer] == Holds && s.lock.turn > 0
    case _ => true
  }

  // ---------------------------------------------------------------- what a step does to each part of the state

  /** The turn after an event that does not end it. */
  function Relayed(item: Item, guard: Allowance, e: Event): Pump {
    if Trips(guard, e) then Ceiling(item, guard.(cut := true)) else Awaiting(item, guard)
  }

  function PumpAfter(s: State, a: Action): Pump
    requires Enabled(s, a)
  {
    var pump := s.pump;
    match a
    case Pop => Waiting(s.queue[0])
    case Enter => Entered(pump.item)
    case MarkRunning => Running(pump.item)
    case CompactNow => Compacting(s.session.bridgeStages)
    case Refuse => Refusing
    case Pass(_, headroom, capped) =>
      if pump.item.Input? then Identified(pump.item, Allowance(headroom, capped, false))
      else Starting(pump.item, UNCAPPED)
    case SayHuman => Starting(pump.item, pump.guard)
    case DropStale => if s.session.greets then Greeting(pump.item, pump.guard) else Sending(pump.item, pump.guard)
    case Send =>
      if pump.Greeting? then Sending(pump.item, pump.guard)
      else if pump.Sending? then Awaiting(pump.item, pump.guard)
      else Listening(pump.left)
    case Relay => Relayed(pump.item, pump.guard, s.link.offer.value)
    case SayCeiling => Awaiting(pump.item, pump.guard)
    case Final => Completing(pump.item, s.link.offer.value)
    case SayReply(_) => Ended(pump.item)
    case Abandon(_) => Ended(pump.item)
    case Clear => Compacting(s.session.bridgeStages)
    case AskBridge => Asking(pump.left - 1)
    case Hear(_) => if s.link.offer.value.kind.Compacted? then Compacting(pump.left) else pump
    case GiveUp(_) => Compacting(pump.left)
    case MarkIdle => Releasing
    case GiveBack => Idle
    case Stop => Stopped(if pump.Waiting? then Some(pump.item) else None)
    case _ => pump
  }

  function LockAfter(s: State, a: Action): Lock
    requires Enabled(s, a)
  {
    var lock := s.lock;
    match a
    case Enter => lock.(turn := lock.turn + 1)
    case MarkRunning => lock.(running := true)
    case MarkIdle => lock.(running := false)
    case GiveBack => lock.(turn := lock.turn - 1)
    case Look => lock.(claimers := lock.claimers + [if s.queue == [] then Looked else Busy])
    case Claim(claimer) =>
      if lock.turn == 0 then Lock(lock.turn + 1, lock.running, lock.claimers[claimer := Holds])
      else lock.(claimers := lock.claimers[claimer := Busy])
    case Unclaim(claimer) => Lock(lock.turn - 1, lock.running, lock.claimers[claimer := Gone])
    case _ => lock
  }

  /** A receive takes what is offered, a send uses up the bridge's readiness, a noticed hangup is gone. */
  function LinkAfter(s: State, a: Action): Link
    requires Enabled(s, a)
  {
    var link := s.link;
    match a
    case DropStale => link.(hangup := false)
    case Abandon(why) => link.(hangup := link.hangup && why != HungUp)
    case GiveUp(why) => link.(hangup := link.hangup && why != HungUp)
    case Send => link.(reading := false)
    case Relay => link.(offer := None)
    case Final => link.(offer := None)
    case Hear(_) => link.(offer := None)
    case BridgeReads => link.(reading := true)
    case BridgeLeaves => link.(reading := false)
    case HangUp => link.(hangup := true)
    case Offer(event) => link.(offer := Some(event))
    case Withdraw => link.(offer := None)
    case CloseFeed => link.(closed := true)
    case Cancel => link.(cancelled := true)
    case _ => link
  }

  function SpeechAfter(s: State, a: Action): Speech
    requires Enabled(s, a)
  {
    match a
    case Refuse => s.speech.(saidElsewhere := Outside(s.pump.item.origin, s.session.gateways))
    case Pass(freshID, _, _) =>
      if s.pump.item.Input?
      then Speech(Turns.Identified(s.pump.item, freshID), Outside(s.pump.item.origin, s.session.gateways))
      else Speech("", false)
    case Clear => s.speech.(activeTurnID := "")
    case _ => s.speech
  }

  function GateAfter(s: State, a: Action): Gate
    requires Enabled(s, a)
  {
    if s.items == [] then s.gate
    else
      match a
      case Refuse => s.gate.(refused := s.gate.refused + {|s.items| - 1})
      case Pass(_, _, _) =>
        if s.pump.item.Input? then
          s.gate.(turns := s.gate.turns[|s.items| - 1 :=
                                        Turn(SpeechAfter(s, a).activeTurnID, SpeechAfter(s, a).saidElsewhere)])
        else s.gate
      case _ => s.gate
  }

  /** What a step says. */
  function Says(s: State, a: Action): seq<Entry>
    requires Enabled(s, a)
  {
    match a
    case Notice(entry) => [entry]
    case Refuse => [Say(Paused), Say(Status)]
    case SayHuman => [Say(Human)]
    case Relay => [Entry(s.link.offer.value, Bridge, false)]
    case SayCeiling => [Say(Status)]
    case Announce(entry) => [entry]
    case SayReply(paused) => [Entry(s.pump.reply, Bridge, false)] + if paused then [Say(Paused)] else []
    case Abandon(_) => if s.pump.item.Input? then [Say(Abandoned)] else []
    case Compact(entry) => [entry]
    case Hear(detail) => if detail && s.link.offer.value.kind.Progress? then [Say(Status)] else []
    case _ => []
  }

  predicate InTurn(p: Pump) {
    p.Identified? || p.Starting? || p.Greeting? || p.Sending? || p.Awaiting? || p.Ceiling? || p.Completing? || p.Ended?
  }

  predicate InCompaction(p: Pump) {
    p.Compacting? || p.Asking? || p.Listening?
  }

  predicate HasToken(p: Pump) {
    p.Entered? || p.Running? || InTurn(p) || InCompaction(p) || p.Refusing? || p.Releasing?
  }

  /** The input whose turn is in progress. */
  function Current(s: State): Option<nat> {
    if InTurn(s.pump) && s.pump.item.Input? && |s.items| > 0 then Some(|s.items| - 1) else None
  }

  function InContext(session: Session, speech: Speech): Context {
    Context(session.incarnation, session.agent, speech.activeTurnID, speech.saidElsewhere)
  }

  function LoggedAll(c: Context, entries: seq<Entry>, input: Option<nat>): seq<Logged> {
    seq(|entries|, i requires 0 <= i < |entries| => Logged(FannedOut(c, entries[i]), input))
  }

  /** The context an event is said in: at the gate the origin is known and the identity is not. */
  function SaidIn(s: State, a: Action): Context
    requires Enabled(s, a)
  {
    InContext(s.session, if a.Refuse? then SpeechAfter(s, a) else s.speech)
  }

  function Step(s: State, a: Action): State
    requires Enabled(s, a)
  {
    State(s.session,
          if a.Submit? then s.queue + [a.item] else if a.Pop? then s.queue[1..] else s.queue,
          if a.Pop? then s.items + [s.queue[0]] else s.items,
          PumpAfter(s, a), LockAfter(s, a), LinkAfter(s, a), SpeechAfter(s, a), GateAfter(s, a),
          s.log + LoggedAll(SaidIn(s, a), Says(s, a), Current(s)))
  }

  function Run(session: Session, schedule: seq<Action>): State {
    if schedule == [] then Started(session)
    else
      var s, a := Run(session, schedule[..|schedule| - 1]), schedule[|schedule| - 1];
      if Enabled(s, a) then Step(s, a) else s
  }

  // ---------------------------------------------------------------- the invariant

  function Count(held: bool): nat {
    if held then 1 else 0
  }

  /** One token at most; the pump's or one claimer's. The session is marked as running only by a pump that has it. */
  ghost predicate TokenInv(pump: Pump, lock: Lock) {
    && lock.turn <= 1
    && lock.turn == Count(HasToken(pump)) + multiset(lock.claimers)[Holds]
    && (lock.running <==> pump.Running? || InTurn(pump) || InCompaction(pump) || pump.Refusing?)
  }

  predicate Undecided(p: Pump) {
    p.Waiting? || p.Entered? || p.Running?
  }

  /** The item the pump works on is the last one taken; what it completes is a finished reply. */
  ghost predicate ItemInv(items: seq<Item>, pump: Pump) {
    && (Undecided(pump) || InTurn(pump) ==> items != [] && items[|items| - 1] == pump.item)
    && (pump.Completing? ==> IsFinal(pump.reply))
    && (pump.Identified? ==> pump.item.Input?)
  }

  /** Whether the gate has ruled on the last item taken. */
  predicate LastRuled(p: Pump) {
    !Undecided(p) && !(p.Stopped? && p.held.Some?)
  }

  /** How many of the items taken the gate is done with. */
  function Ruled(items: seq<Item>, pump: Pump): int {
    if LastRuled(pump) then |items| else |items| - 1
  }

  /** The gate ruled on exactly the first `ruled` items' inputs, on each once. */
  ghost predicate GateInv(session: Session, items: seq<Item>, gate: Gate, ruled: int) {
    && ruled <= |items|
    && (forall n :: n in gate.turns ==> n < ruled && n !in gate.refused && items[n].Input? && gate.turns[n].id != ""
                                        && (items[n].turnID != "" ==> gate.turns[n].id == items[n].turnID)
                                        && gate.turns[n].outside == Outside(items[n].origin, session.gateways))
    && (forall n :: n in gate.refused ==> n < ruled && items[n].Input?)
    && (forall n: nat :: n < ruled && items[n].Input? ==> n in gate.turns || n in gate.refused)
  }

  /** The stored turn id is set exactly during the turn of an input, and is that turn's. */
  ghost predicate IdentityInv(current: Option<nat>, speech: Speech, gate: Gate) {
    match current
    case Some(n) => n in gate.turns && gate.turns[n] == Turn(speech.activeTurnID, speech.saidElsewhere)
    case None => speech.activeTurnID == ""
  }

  predicate Stamp(e: Event, incarnation: string, turnID: string, agent: string) {
    e.incarnation == incarnation && e.turnID == turnID && e.agent == agent
  }

  /** An event carries the whole identity of the input in progress, or nothing at all. */
  ghost predicate LoggedInv(session: Session, gate: Gate, l: Logged) {
    match l.input
    case Some(n) =>
      && n in gate.turns
      && Stamp(l.entry.event, session.incarnation, gate.turns[n].id, session.agent)
          && l.entry.shown == !gate.turns[n].outside
    case None => Stamp(l.entry.event, "", "", "") && Sayable(None, l.entry)
  }

  /** The human line and `abandoned` are said only in the turn of an input. */
  predicate Sayable(current: Option<nat>, entry: Entry) {
    current.Some? || !(entry.origin == Host && (entry.event.kind == Human || entry.event.kind == Abandoned))
  }

  /** What an observer of input `n` has seen. */
  function Seen(log: seq<Logged>, n: nat): Phase {
    if log == [] then Unseen
    else
      var before, last := Seen(log[..|log| - 1], n), log[|log| - 1];
      if last.input == Some(n) then NextPhase(before, last.entry) else before
  }

  /** What an observer of the input in progress should have seen. */
  function DueNow(pump: Pump): Phase {
    if pump.Identified? then Unseen else if pump.Ended? then Closed else Open
  }

  function Due(current: Option<nat>, pump: Pump, gate: Gate, n: nat): Phase {
    if current == Some(n) then DueNow(pump) else if n in gate.turns then Closed else Unseen
  }

  ghost predicate PhaseInv(s: State) {
    forall n: nat :: Seen(s.log, n) == Due(Current(s), s.pump, s.gate, n)
  }

  ghost predicate LogInv(session: Session, gate: Gate, log: seq<Logged>) {
    forall i :: 0 <= i < |log| ==> LoggedInv(session, gate, log[i])
  }

  ghost predicate Inv(s: State) {
    && TokenInv(s.pump, s.lock)
    && ItemInv(s.items, s.pump)
    && GateInv(s.session, s.items, s.gate, Ruled(s.items, s.pump))
    && IdentityInv(Current(s), s.speech, s.gate)
    && LogInv(s.session, s.gate, s.log)
    && PhaseInv(s)
    && (s.pump.Stopped? ==> s.link.cancelled)
  }

  lemma ClaimerKeepsToken(s: State, a: Action)
    requires TokenInv(s.pump, s.lock) && Enabled(s, a) && (a.Look? || a.Claim? || a.Unclaim?)
    ensures TokenInv(s.pump, LockAfter(s, a))
  {
    hide HasToken;
  }

  lemma StepKeepsToken(s: State, a: Action)
    requires TokenInv(s.pump, s.lock) && Enabled(s, a)
    ensures TokenInv(PumpAfter(s, a), LockAfter(s, a))
  {
    if a.Look? || a.Claim? || a.Unclaim? {
      ClaimerKeepsToken(s, a);
    } else {
      assert LockAfter(s, a).claimers == s.lock.claimers;
    }
  }

  lemma StepKeepsItem(s: State, a: Action)
    requires ItemInv(s.items, s.pump) && Enabled(s, a)
    ensures ItemInv(Step(s, a).items, PumpAfter(s, a))
  {
    hide LockAfter, LinkAfter, SpeechAfter, GateAfter, Says, SaidIn, LoggedAll, Plain;
  }

  lemma StepRules(s: State, a: Action)
    requires ItemInv(s.items, s.pump) && Enabled(s, a)
    ensures Ruled(Step(s, a).items, PumpAfter(s, a))
            == Ruled(s.items, s.pump) + Count(a.Refuse? || a.Pass? || a.CompactNow?)
  {
    hide LockAfter, LinkAfter, SpeechAfter, GateAfter, Says, SaidIn, LoggedAll, Plain, Over;
  }

  lemma StepKeepsGate(s: State, a: Action)
    requires ItemInv(s.items, s.pump) && GateInv(s.session, s.items, s.gate, Ruled(s.items, s.pump)) && Enabled(s, a)
    ensures GateInv(s.session, Step(s, a).items, GateAfter(s, a), Ruled(Step(s, a).items, PumpAfter(s, a)))
  {
    hide LockAfter, LinkAfter, Says, SaidIn, LoggedAll, Plain, Over;
    StepRules(s, a);
  }

  lemma StepKeepsIdentity(s: State, a: Action)
    requires ItemInv(s.items, s.pump) && IdentityInv(Current(s), s.speech, s.gate) && Enabled(s, a)
    ensures IdentityInv(Current(Step(s, a)), SpeechAfter(s, a), GateAfter(s, a))
  {
    hide LockAfter, LinkAfter, Says, SaidIn, LoggedAll, Plain, IsFinal, Over, Trips, Outside;
  }

  /** No ruling is ever taken back. */
  lemma StepKeepsTurns(s: State, a: Action)
    requires Inv(s) && Enabled(s, a)
    ensures forall n :: n in s.gate.turns ==> n in GateAfter(s, a).turns && GateAfter(s, a).turns[n] == s.gate.turns[n]
  {
  }

  lemma SaidIsStamped(s: State, a: Action, entry: Entry)
    requires Inv(s) && Enabled(s, a) && Sayable(Current(s), entry)
    ensures LoggedInv(s.session, s.gate, Logged(FannedOut(SaidIn(s, a), entry), Current(s)))
  {
  }

  lemma SaysOnlySayable(s: State, a: Action, i: nat)
    requires Inv(s) && Enabled(s, a) && i < |Says(s, a)|
    ensures Sayable(Current(s), Says(s, a)[i])
  {
  }

  lemma StepKeepsLog(s: State, a: Action)
    requires Inv(s) && Enabled(s, a)
    ensures LogInv(s.session, GateAfter(s, a), Step(s, a).log)
  {
    var next := Step(s, a);
    StepKeepsTurns(s, a);
    forall i | 0 <= i < |next.log|
      ensures LoggedInv(s.session, GateAfter(s, a), next.log[i])
    {
      if i < |s.log| {
        assert LoggedInv(s.session, s.gate, next.log[i]);
      } else {
        SaysOnlySayable(s, a, i - |s.log|);
        SaidIsStamped(s, a, Says(s, a)[i - |s.log|]);
      }
    }
  }

  /** How an observer of `n` moves while these are said. */
  lemma {:induction false} SeenAll(log: seq<Logged>, c: Context, entries: seq<Entry>, input: Option<nat>, n: nat)
    ensures Seen(log + LoggedAll(c, entries, input), n)
            == if input == Some(n) then Follow(Seen(log, n), entries) else Seen(log, n)
    decreases |entries|
  {
    var all := log + LoggedAll(c, entries, input);
    if entries == [] {
      assert all == log;
    } else {
      SeenAll(log, c, entries[..|entries| - 1], input, n);
      assert all[..|all| - 1] == log + LoggedAll(c, entries[..|entries| - 1], input);
    }
  }

  lemma FollowFew(p: Phase, said: seq<Entry>)
    requires |said| <= 2
    ensures Follow(p, said)
            == if said == [] then p
               else if |said| == 1 then NextPhase(p, said[0])
               else NextPhase(NextPhase(p, said[0]), said[1])
  {
    if |said| == 1 {
      FollowSingle(p, said[0]);
      assert said == [said[0]];
    } else if |said| == 2 {
      FollowSingle(p, said[0]);
      FollowOneMore(p, [said[0]], said[1]);
      assert said == [said[0]] + [said[1]];
    }
  }

  lemma StepStaysOrClears(s: State, a: Action)
    requires Enabled(s, a) && Current(s).Some?
    ensures Current(Step(s, a)) == if a.Clear? then None else Current(s)
  {
    hide LockAfter, LinkAfter, SpeechAfter, GateAfter, Says, SaidIn, LoggedAll, Plain, Over;
  }

  lemma StepFollows(s: State, a: Action)
    requires ItemInv(s.items, s.pump) && Enabled(s, a) && Current(s).Some?
    ensures Follow(DueNow(s.pump), Says(s, a)) == if a.Clear? then Closed else DueNow(PumpAfter(s, a))
  {
    FollowFew(DueNow(s.pump), Says(s, a));
  }

  lemma StepBegins(s: State, a: Action)
    requires ItemInv(s.items, s.pump) && Enabled(s, a) && Current(s).None? && Current(Step(s, a)).Some?
    ensures a.Pass? && PumpAfter(s, a).Identified? && Current(Step(s, a)).value == Ruled(s.items, s.pump)
  {
    hide LockAfter, LinkAfter, SpeechAfter, GateAfter, Says, SaidIn, LoggedAll, Plain, Over;
  }

  lemma OthersStay(s: State, a: Action, n: nat)
    requires Inv(s) && Enabled(s, a) && Current(s) != Some(n) && Current(Step(s, a)) != Some(n)
    ensures n in GateAfter(s, a).turns <==> n in s.gate.turns
  {
  }

  lemma StepKeepsPhase(s: State, a: Action, n: nat)
    requires Inv(s) && Enabled(s, a)
    ensures Seen(Step(s, a).log, n) == Due(Current(Step(s, a)), PumpAfter(s, a), GateAfter(s, a), n)
  {
    assert Seen(s.log, n) == Due(Current(s), s.pump, s.gate, n);
    SeenAll(s.log, SaidIn(s, a), Says(s, a), Current(s), n);
    if Current(s) == Some(n) {
      StepFollows(s, a);
      StepStaysOrClears(s, a);
      StepKeepsTurns(s, a);
    } else if Current(Step(s, a)) == Some(n) {
      if Current(s).Some? {
        StepStaysOrClears(s, a);
      } else {
        StepBegins(s, a);
      }
    } else {
      OthersStay(s, a, n);
    }
  }

  lemma StepKeeps(s: State, a: Action)
    requires Inv(s) && Enabled(s, a)
    ensures Inv(Step(s, a))
  {
    StepKeepsToken(s, a);
    StepKeepsItem(s, a);
    StepKeepsGate(s, a);
    StepKeepsIdentity(s, a);
    StepKeepsLog(s, a);
    forall n: nat
      ensures Seen(Step(s, a).log, n) == Due(Current(Step(s, a)), PumpAfter(s, a), GateAfter(s, a), n)
    {
      StepKeepsPhase(s, a, n);
    }
  }

  /** The invariant holds after every schedule. */
  lemma {:induction false} RunKeeps(session: Session, schedule: seq<Action>)
    ensures Inv(Run(session, schedule))
    decreases |schedule|
  {
    if schedule != [] {
      var s, a := Run(session, schedule[..|schedule| - 1]), schedule[|schedule| - 1];
      RunKeeps(session, schedule[..|schedule| - 1]);
      if Enabled(s, a) {
        StepKeeps(s, a);
      }
    }
  }

  // ---------------------------------------------------------------- what the session guarantees

  /** Every input that passed the gate has had one human line and then exactly one terminal, unless it is the one
      whose turn is in progress, which has no terminal before its turn ends; a refused input, and one the gate has
      not seen, have had neither. */
  lemma OneHumanThenOneTerminal(session: Session, schedule: seq<Action>, n: nat)
    ensures var s := Run(session, schedule);
            Seen(s.log, n) == if Current(s) == Some(n) then DueNow(s.pump)
                              else if n in s.gate.turns then Closed
                              else Unseen
  {
    RunKeeps(session, schedule);
    var s := Run(session, schedule);
    assert Seen(s.log, n) == Due(Current(s), s.pump, s.gate, n);
  }

  /** Every input taken from the queue is ruled on once, unless the pump is on its way to the gate with it, or the
      session was cancelled and the pump stopped with it. */
  lemma RuledOnce(session: Session, schedule: seq<Action>, n: nat)
    requires n < |Run(session, schedule).items| && Run(session, schedule).items[n].Input?
    ensures var s := Run(session, schedule);
            && !(n in s.gate.turns && n in s.gate.refused)
            && (n in s.gate.turns || n in s.gate.refused
                || (n == |s.items| - 1 && (Undecided(s.pump) || (s.pump.Stopped? && s.link.cancelled))))
  {
    RunKeeps(session, schedule);
  }

  lemma TwoHold(claimers: seq<Claimer>, i: nat, j: nat)
    requires i < j < |claimers| && claimers[i] == Holds && claimers[j] == Holds
    ensures multiset(claimers)[Holds] >= 2
  {
    assert claimers == claimers[..j] + claimers[j..];
    assert claimers[..j][i] == Holds && claimers[j..][0] == Holds;
    assert Holds in multiset(claimers[..j]) && Holds in multiset(claimers[j..]);
  }

  /** The pump and the claimers exclude one another: while somebody rewinds or undoes, nobody else does, no turn is
      in progress, and the session is not marked as running. */
  lemma OneHolder(session: Session, schedule: seq<Action>, i: nat)
    requires i < |Run(session, schedule).lock.claimers| && Run(session, schedule).lock.claimers[i] == Holds
    ensures var s := Run(session, schedule);
            && !HasToken(s.pump) && !s.lock.running && s.speech.activeTurnID == ""
            && forall j :: 0 <= j < |s.lock.claimers| && j != i ==> s.lock.claimers[j] != Holds
  {
    RunKeeps(session, schedule);
    var claimers := Run(session, schedule).lock.claimers;
    assert Holds in multiset(claimers);
    forall j | 0 <= j < |claimers| && j != i
      ensures claimers[j] != Holds
    {
      if claimers[j] == Holds {
        TwoHold(claimers, if i < j then i else j, if i < j then j else i);
      }
    }
  }

  /** Giving the token back never waits: it is there. And only the holder of the token marks the session as running. */
  lemma GivingBackNeverWaits(session: Session, schedule: seq<Action>, i: nat)
    ensures var s := Run(session, schedule);
            && (s.pump.Releasing? ==> Enabled(s, GiveBack))
            && (i < |s.lock.claimers| && s.lock.claimers[i] == Holds ==> Enabled(s, Unclaim(i)))
            && (s.lock.running ==> HasToken(s.pump))
  {
    RunKeeps(session, schedule);
    var s := Run(session, schedule);
    if i < |s.lock.claimers| && s.lock.claimers[i] == Holds {
      assert Holds in multiset(s.lock.claimers);
    }
  }

  /** Every event carries all three identity fields of the input whose turn is in progress, whatever fields it came
      with, or none; the turn's id is the one the input came with, if it came with one; and the gateways see a turn's
      events exactly when its input did not come from outside them. */
  lemma AllOrNoIdentity(session: Session, schedule: seq<Action>, i: nat)
    requires i < |Run(session, schedule).log|
    ensures var s := Run(session, schedule);
            var e := s.log[i].entry;
            match s.log[i].input
            case None => Stamp(e.event, "", "", "")
            case Some(n) =>
              && n in s.gate.turns && s.gate.turns[n].id != ""
                  && Stamp(e.event, session.incarnation, s.gate.turns[n].id, session.agent)
              && n < |s.items| && s.items[n].Input?
              && (s.items[n].turnID != "" ==> e.event.turnID == s.items[n].turnID)
              && e.shown == (s.items[n].origin == "" || s.items[n].origin in session.gateways)
  {
    RunKeeps(session, schedule);
    SessionStays(session, schedule);
    var s := Run(session, schedule);
    assert LoggedInv(s.session, s.gate, s.log[i]);
  }

  lemma {:induction false} SessionStays(session: Session, schedule: seq<Action>)
    ensures Run(session, schedule).session == session
    decreases |schedule|
  {
    if schedule != [] {
      SessionStays(session, schedule[..|schedule| - 1]);
    }
  }

  // ---------------------------------------------------------------- when the token is not given back

  /** The pump offers something the bridge does not take, or waits for something the bridge does not send, and nobody
      hung up, cancelled the session or closed the feed. */
  predicate LeftToTheBridge(pump: Pump, link: Link) {
    && !link.hangup && !link.cancelled
    && if Offering(pump) then !link.reading else Receiving(pump) && link.offer.None? && !link.closed
  }

  /** How far the pump is from giving the token back. */
  function Left(p: Pump, stages: nat): nat {
    match p
    case Idle => 0
    case Stopped(_) => 0
    case Releasing => 1
    case Refusing => 2
    case Compacting(left) => 2 + 3 * left
    case Listening(left) => 3 + 3 * left
    case Asking(left) => 4 + 3 * left
    case Ended(_) => 3 + 3 * stages
    case Completing(_, _) => 4 + 3 * stages
    case Awaiting(_, _) => 5 + 3 * stages
    case Ceiling(_, _) => 6 + 3 * stages
    case Sending(_, _) => 7 + 3 * stages
    case Greeting(_, _) => 8 + 3 * stages
    case Starting(_, _) => 9 + 3 * stages
    case Identified(_, _) => 10 + 3 * stages
    case Running(_) => 11 + 3 * stages
    case Entered(_) => 12 + 3 * stages
    case Waiting(_) => 13 + 3 * stages
  }

  /** Outside the waits for the bridge the pump goes on by itself. */
  lemma GoesOnByItself(s: State) returns (a: Action)
    requires TokenInv(s.pump, s.lock) && HasToken(s.pump) && !Offering(s.pump) && !Receiving(s.pump)
    ensures Own(a) && !a.AskBridge? && Enabled(s, a)
            && Left(PumpAfter(s, a), s.session.bridgeStages) < Left(s.pump, s.session.bridgeStages)
  {
    a := match s.pump
    case Entered(_) => MarkRunning
    case Running(item) => if item.CompactNow? then Action.CompactNow else Pass("id", 0, false)
    case Identified(_, _) => SayHuman
    case Starting(_, _) => DropStale
    case Ceiling(_, _) => SayCeiling
    case Completing(_, _) => SayReply(false)
    case Ended(_) => Clear
    case Compacting(_) => MarkIdle
    case Refusing => MarkIdle
    case _ => GiveBack;
  }

  /** A hangup whose signal is still there, or a cancellation, ends every wait for the bridge. */
  lemma LeavesTheBridge(s: State) returns (a: Action)
    requires (Offering(s.pump) || Receiving(s.pump)) && (s.link.hangup || s.link.cancelled)
    ensures Own(a) && Enabled(s, a)
            && Left(PumpAfter(s, a), s.session.bridgeStages) < Left(s.pump, s.session.bridgeStages)
  {
    var why := if s.link.hangup then HungUp else Cancelled;
    a := if s.pump.Asking? || s.pump.Listening? then GiveUp(why) else Abandon(why);
  }

  lemma TakesWhatTheBridgeOffers(s: State) returns (a: Action)
    requires (Offering(s.pump) || Receiving(s.pump)) && !s.link.hangup && !s.link.cancelled
             && !LeftToTheBridge(s.pump, s.link)
    ensures Own(a) && Enabled(s, a)
  {
    a := if Offering(s.pump) then Send
    else if s.link.offer.None? then (if s.pump.Awaiting? then Abandon(FeedClosed) else GiveUp(FeedClosed))
    else if s.pump.Listening? then Hear(false)
    else if IsFinal(s.link.offer.value) then Final else Relay;
  }

  lemma NothingOfItsOwn(s: State, a: Action)
    requires LeftToTheBridge(s.pump, s.link) && Own(a)
    ensures !Enabled(s, a)
  {
  }

  /** A pump with the token has no step of its own exactly when it is left to the bridge: connected and silent, gone
      before the turn began, or never there. */
  lemma BlockedExactly(session: Session, schedule: seq<Action>)
    requires HasToken(Run(session, schedule).pump)
    ensures (forall a :: Own(a) ==> !Enabled(Run(session, schedule), a))
            <==> LeftToTheBridge(Run(session, schedule).pump, Run(session, schedule).link)
  {
    hide Enabled, PumpAfter, Left, Own;
    RunKeeps(session, schedule);
    var s := Run(session, schedule);
    if LeftToTheBridge(s.pump, s.link) {
      forall a | Own(a)
        ensures !Enabled(s, a)
      {
        NothingOfItsOwn(s, a);
      }
    } else {
      var a;
      if !Offering(s.pump) && !Receiving(s.pump) {
        a := GoesOnByItself(s);
      } else if s.link.hangup || s.link.cancelled {
        a := LeavesTheBridge(s);
      } else {
        a := TakesWhatTheBridgeOffers(s);
      }
    }
  }

  /** What a waiting pump waits for: what it offers is taken, what it waits for is sent or its feed is closed, somebody
      hangs up, or the session is cancelled. */
  predicate Wakes(pump: Pump, a: Action) {
    a.HangUp? || a.Cancel? || if Offering(pump) then a.BridgeReads? else a.Offer? || a.CloseFeed?
  }

  /** Exactly that ends such a wait, and nothing moves the pump meanwhile. */
  lemma UnblockedExactly(s: State, a: Action)
    requires LeftToTheBridge(s.pump, s.link) && Enabled(s, a)
    ensures PumpAfter(s, a) == s.pump
    ensures !LeftToTheBridge(PumpAfter(s, a), LinkAfter(s, a)) <==> Wakes(s.pump, a)
  {
    if Own(a) {
      NothingOfItsOwn(s, a);
      assert false;
    }
    assert PumpAfter(s, a) == s.pump;
  }

  /** A pump left to the bridge stays where it is, with the token, for as long as what it waits for does not happen,
      whatever else does. */
  lemma {:induction false} StaysLeftToTheBridge(session: Session, schedule: seq<Action>, more: seq<Action>)
    requires LeftToTheBridge(Run(session, schedule).pump, Run(session, schedule).link)
    requires forall a :: a in more ==> !Wakes(Run(session, schedule).pump, a)
    ensures Run(session, schedule + more).pump == Run(session, schedule).pump
    ensures LeftToTheBridge(Run(session, schedule + more).pump, Run(session, schedule + more).link)
    decreases |more|
  {
    hide Enabled, PumpAfter, LinkAfter, LeftToTheBridge, Wakes;
    if more == [] {
      assert schedule + more == schedule;
    } else {
      var front, last := more[..|more| - 1], more[|more| - 1];
      StaysLeftToTheBridge(session, schedule, front);
      assert schedule + more == schedule + front + [last];
      assert (schedule + front + [last])[..|schedule + front|] == schedule + front;
      if Enabled(Run(session, schedule + front), last) {
        UnblockedExactly(Run(session, schedule + front), last);
      }
    }
  }

  /** A hangup from before the turn is lost: with it or without it, the turn begins left to the bridge exactly when
      nobody reads and the session is not cancelled. */
  lemma StaleHangupIsLost(s: State)
    requires Enabled(s, DropStale)
    ensures !LinkAfter(s, DropStale).hangup
    ensures LeftToTheBridge(PumpAfter(s, DropStale), LinkAfter(s, DropStale)) <==> !s.link.reading && !s.link.cancelled
  {
  }

  lemma OneMore(session: Session, schedule: seq<Action>, a: Action)
    requires Enabled(Run(session, schedule), a)
    ensures Run(session, schedule + [a]) == Step(Run(session, schedule), a)
  {
    assert (schedule + [a])[..|schedule|] == schedule;
  }

  /** An input is taken from the queue, with the token. */
  lemma IsTaken(session: Session) returns (schedule: seq<Action>)
    ensures Run(session, schedule).pump == Entered(Input("id", ""))
    ensures Run(session, schedule).link == Link(false, false, false, None, false)
  {
    hide Says, SaidIn, LoggedAll, GateAfter, SpeechAfter;
    var item := Input("id", "");
    OneMore(session, [], Submit(item));
    schedule := [] + [Submit(item)];
    OneMore(session, schedule, Pop);
    schedule := schedule + [Pop];
    OneMore(session, schedule, Enter);
    schedule := schedule + [Enter];
  }

  /** It reaches the point where its turn is about to begin, while nobody reads at the other end. */
  lemma ReachesItsTurn(session: Session) returns (schedule: seq<Action>)
    ensures Run(session, schedule).pump == Starting(Input("id", ""), UNCAPPED)
    ensures Run(session, schedule).link == Link(false, false, false, None, false)
  {
    hide Says, SaidIn, LoggedAll, GateAfter, SpeechAfter, LockAfter;
    schedule := IsTaken(session);
    OneMore(session, schedule, MarkRunning);
    schedule := schedule + [MarkRunning];
    OneMore(session, schedule, Pass("id", 0, false));
    schedule := schedule + [Pass("id", 0, false)];
    OneMore(session, schedule, SayHuman);
    schedule := schedule + [SayHuman];
  }

  /** A turn that begins without a bridge, and keeps the token until one reads, somebody hangs up or the session is
      cancelled. */
  lemma NobodyReads(session: Session) returns (schedule: seq<Action>)
    ensures HasToken(Run(session, schedule).pump)
    ensures LeftToTheBridge(Run(session, schedule).pump, Run(session, schedule).link)
    ensures forall more: seq<Action> :: (forall a :: a in more ==> !a.BridgeReads? && !a.HangUp? && !a.Cancel?) ==>
              HasToken(Run(session, schedule + more).pump)
  {
    schedule := ReachesItsTurn(session);
    OneMore(session, schedule, DropStale);
    schedule := schedule + [DropStale];
    BeginsOffering(session, schedule);
  }

  /** The same after a hangup: the bridge went away just before the turn began. */
  lemma HungUpBeforeItsTurn(session: Session) returns (schedule: seq<Action>)
    ensures HangUp in schedule && HasToken(Run(session, schedule).pump)
    ensures LeftToTheBridge(Run(session, schedule).pump, Run(session, schedule).link)
    ensures forall more: seq<Action> :: (forall a :: a in more ==> !a.BridgeReads? && !a.HangUp? && !a.Cancel?) ==>
              HasToken(Run(session, schedule + more).pump)
  {
    schedule := ReachesItsTurn(session);
    OneMore(session, schedule, HangUp);
    schedule := schedule + [HangUp];
    OneMore(session, schedule, DropStale);
    schedule := schedule + [DropStale];
    BeginsOffering(session, schedule);
  }

  lemma BeginsOffering(session: Session, schedule: seq<Action>)
    requires Offering(Run(session, schedule).pump)
    requires LeftToTheBridge(Run(session, schedule).pump, Run(session, schedule).link)
    ensures forall more: seq<Action> :: (forall a :: a in more ==> !a.BridgeReads? && !a.HangUp? && !a.Cancel?) ==>
              HasToken(Run(session, schedule + more).pump)
  {
    hide Run;
    forall more: seq<Action> | forall a :: a in more ==> !a.BridgeReads? && !a.HangUp? && !a.Cancel?
      ensures HasToken(Run(session, schedule + more).pump)
    {
      StaysLeftToTheBridge(session, schedule, more);
    }
  }

  /** The pump does not need the bridge any more: the session is cancelled, a hangup is there for a turn that began, or
      its part with the bridge is over. */
  predicate Freed(pump: Pump, link: Link) {
    || link.cancelled
    || (link.hangup && (Offering(pump) || Receiving(pump) || pump.Ceiling?))
    || pump.Completing? || pump.Ended? || pump.Compacting? || pump.Refusing? || pump.Releasing?
  }

  lemma MovesTowardsTheEnd(s: State) returns (a: Action)
    requires TokenInv(s.pump, s.lock) && HasToken(s.pump) && Freed(s.pump, s.link)
    ensures Own(a) && Enabled(s, a)
            && Left(PumpAfter(s, a), s.session.bridgeStages) < Left(s.pump, s.session.bridgeStages)
    ensures PumpAfter(s, a) == Idle || (HasToken(PumpAfter(s, a)) && Freed(PumpAfter(s, a), LinkAfter(s, a)))
  {
    if !Offering(s.pump) && !Receiving(s.pump) {
      a := GoesOnByItself(s);
    } else {
      a := LeavesTheBridge(s);
    }
  }

  /** A freed pump can end its turn, or its compaction, by steps of its own alone, whatever the bridge does. */
  lemma {:induction false} FreedTurnCanEnd(session: Session, schedule: seq<Action>) returns (more: seq<Action>)
    requires HasToken(Run(session, schedule).pump)
    requires Freed(Run(session, schedule).pump, Run(session, schedule).link)
    ensures forall a :: a in more ==> Own(a)
    ensures |more| <= Left(Run(session, schedule).pump, session.bridgeStages)
    ensures Run(session, schedule + more).pump == Idle
    decreases Left(Run(session, schedule).pump, session.bridgeStages)
  {
    hide Enabled, PumpAfter, LinkAfter, Left, Own, HasToken, Freed, Run;
    RunKeeps(session, schedule);
    SessionStays(session, schedule);
    var a := MovesTowardsTheEnd(Run(session, schedule));
    OneMore(session, schedule, a);
    more := [a];
    if Run(session, schedule + [a]).pump != Idle {
      var rest := FreedTurnCanEnd(session, schedule + [a]);
      more := [a] + rest;
      assert schedule + more == schedule + [a] + rest;
    }
  }

  /** Once the session is cancelled the pump can end wherever it is. */
  lemma CancelledTurnCanEnd(session: Session, schedule: seq<Action>) returns (more: seq<Action>)
    requires HasToken(Run(session, schedule).pump) && Run(session, schedule).link.cancelled
    ensures forall a :: a in more ==> Own(a)
    ensures |more| <= Left(Run(session, schedule).pump, session.bridgeStages)
    ensures Run(session, schedule + more).pump == Idle
  {
    hide Run, HasToken, Left;
    more := FreedTurnCanEnd(session, schedule);
  }

  /** A hangup that comes once the turn, or a compaction's part with the bridge, began lets the pump end. */
  lemma HungUpTurnCanEnd(session: Session, schedule: seq<Action>) returns (more: seq<Action>)
    requires Run(session, schedule).link.hangup
    requires var pump := Run(session, schedule).pump; Offering(pump) || Receiving(pump) || pump.Ceiling?
    ensures forall a :: a in more ==> Own(a)
    ensures |more| <= Left(Run(session, schedule).pump, session.bridgeStages)
    ensures Run(session, schedule + more).pump == Idle
  {
    hide Run, Left;
    more := FreedTurnCanEnd(session, schedule);
  }

  /** The queue never holds more than its capacity. */
  lemma {:induction false} QueueIsBounded(session: Session, schedule: seq<Action>)
    ensures |Run(session, schedule).queue| <= 64
    decreases |schedule|
  {
    if schedule != [] {
      QueueIsBounded(session, schedule[..|schedule| - 1]);
    }
  }
}

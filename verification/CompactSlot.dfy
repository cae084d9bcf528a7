/** Manual compaction: requests from many callers merge into one waiting request, whose item travels through the
    session's bounded queue to the pump. The request itself stays in the slot `compactWaiting` until the pump takes
    its instruction. */
module CompactSlot {
  import opened Prelude

  /** What a merge leaves in the waiting request. */
  function Merged(instruction: string, later: string): string {
    if later != "" then later else instruction
  }

  /** The last non-empty instruction, or none. */
  function LastGiven(given: seq<string>): string {
    if given == [] then ""
    else if given[|given| - 1] != "" then given[|given| - 1]
    else LastGiven(given[..|given| - 1])
  }

  lemma MergedIsLast(given: seq<string>, later: string)
    ensures LastGiven(given + [later]) == Merged(LastGiven(given), later)
  {
    assert (given + [later])[..|given|] == given;
  }

  lemma {:induction false} LastGivenAt(given: seq<string>) returns (at: int)
    ensures -1 <= at < |given| && forall j :: at < j < |given| ==> given[j] == ""
    ensures if at >= 0 then given[at] == LastGiven(given) != "" else LastGiven(given) == ""
    decreases |given|
  {
    at := |given| - 1;
    if given != [] && given[at] == "" {
      at := LastGivenAt(given[..at]);
      assert forall j :: at < j < |given| - 1 ==> given[j] == given[..|given| - 1][j];
    }
  }

  // ---------------------------------------------------------------- the slot and its requests

  class Request {
    var instruction: string
    var done: bool
    var queued: bool

    constructor (instruction: string)
      ensures this.instruction == instruction && !done && !queued
    {
      this.instruction, done, queued := instruction, false, false;
    }
  }

  class Slot {
    var waiting: Request?

    constructor ()
      ensures waiting == null
    {
      waiting := null;
    }

    /** The locked region of `requestCompaction`: join the waiting request, or become it. */
    method Register(instruction: string) returns (request: Request, merged: bool)
      modifies this, if waiting == null then {} else {waiting}
      ensures waiting == request
      ensures merged <==> old(waiting) != null
      ensures merged ==> request == old(waiting)
                         && request.instruction == (if instruction == "" then old(waiting.instruction) else instruction)
                         && request.done == old(waiting.done) && request.queued == old(waiting.queued)
      ensures !merged ==> fresh(request) && request.instruction == instruction && !request.done && !request.queued
    {
      if waiting != null {
        if instruction != "" {
          waiting.instruction := instruction;
        }
        request, merged := waiting, true;
        return;
      }
      request := new Request(instruction);
      waiting, merged := request, false;
    }

    /** `clearCompactWaiting`: only the caller's own request is cleared. */
    method Clear(request: Request)
      modifies this
      ensures waiting == if old(waiting) == request then null else old(waiting)
    {
      if waiting == request {
        waiting := null;
      }
    }

    /** The rest of `requestCompaction` for the caller that registered, once its item was sent or timed out. */
    method Conclude(request: Request, sent: bool)
      modifies this, request
      ensures waiting == if !sent && old(waiting) == request then null else old(waiting)
      ensures request.queued == sent && request.done && request.instruction == old(request.instruction)
    {
      request.queued := sent;
      if !sent {
        Clear(request);
      }
      request.done := true;
    }

    /** `takeCompactInstruction` */
    method Take() returns (instruction: string)
      modifies this
      ensures waiting == null
      ensures instruction == if old(waiting) == null then "" else old(waiting.instruction)
    {
      if waiting == null {
        return "";
      }
      instruction := waiting.instruction;
      waiting := null;
    }
  }

  // ---------------------------------------------------------------- every interleaving of callers and pump

  /** Where the caller that registered a request stands. */
  datatype Stage =
    | Registered    // in the slot, its item not sent yet
    | TimedOut      // the queue had no room in time, the slot not cleared yet
    | Cleared       // the slot cleared, those who merged not told yet
    | Refused       // everybody is told the queue is full
    | Sent          // its item is in the queue or beyond, nobody is told yet
    | Accepted      // everybody is told the compaction is queued
  {
    predicate Delivered() {
      Sent? || Accepted?
    }
  }

  /** A request, with every instruction it was given, in order. */
  datatype Asked = Asked(instruction: string, given: seq<string>, stage: Stage)

  /** The queue carries a bare `compact_now` and no request; `request` only records whose send it was. */
  datatype Item = CompactNow(request: nat) | Other

  /** The pump: between items, holding one while it waits for the turn token, inside the turn with it, or stopped,
      perhaps holding one. */
  datatype Pump = Idle | Holding(item: Item) | Inside(item: Item) | Working | Stopped(left: seq<Item>)

  datatype Caller = Waiting(request: nat) | Answered(request: nat, merged: bool, accepted: bool)

  /** What one run of a compaction found in the slot and used. */
  datatype Taken = Taken(item: nat, found: Option<nat>, instruction: string)

  datatype State = State(
    asked: seq<Asked>, slot: Option<nat>, queue: seq<Item>, pump: Pump, callers: seq<Caller>, taken: seq<Taken>)

  const INITIAL := State([], None, [], Idle, [], [])

  datatype Action =
    | Ask(instruction: string)
    | Send(request: nat)
    | TimeOut(request: nat)
    | Clear(request: nat)
    | Tell(request: nat)
    | Answer(caller: nat)
    | SendOther
    | Pop
    | Enter
    | Take
    | Finish
    | Stop

  predicate At(s: State, request: nat, stage: Stage) {
    request < |s.asked| && s.asked[request].stage == stage
  }

  predicate Enabled(s: State, a: Action) {
    match a
    case Ask(_) => true
    case Send(request) => At(s, request, Registered) && |s.queue| < QUEUE_CAPACITY
    case TimeOut(request) => At(s, request, Registered)
    case Clear(request) => At(s, request, TimedOut)
    case Tell(request) => At(s, request, Cleared) || At(s, request, Sent)
    case Answer(caller) =>
      caller < |s.callers| && s.callers[caller].Waiting?
      && (At(s, s.callers[caller].request, Refused) || At(s, s.callers[caller].request, Accepted))
    case SendOther => |s.queue| < QUEUE_CAPACITY
    case Pop => s.pump == Idle && s.queue != []
    case Enter => s.pump.Holding?
    case Take => s.pump.Inside? && s.pump.item.CompactNow?
    case Finish => s.pump == Working || (s.pump.Inside? && s.pump.item.Other?)
    case Stop => s.pump == Idle || s.pump.Holding?
  }

  function Staged(s: State, request: nat, stage: Stage): State
    requires request < |s.asked|
  {
    s.(asked := s.asked[request := s.asked[request].(stage := stage)])
  }

  function Step(s: State, a: Action): State
    requires Enabled(s, a)
  {
    match a
    case Ask(instruction) =>
      if s.slot.Some? then
        if s.slot.value < |s.asked| then
          var r := s.asked[s.slot.value];
          s.(asked := s.asked[s.slot.value :=
                              r.(instruction := Merged(r.instruction, instruction), given := r.given + [instruction])],
             callers := s.callers + [Waiting(s.slot.value)])
        else s
      else s.(asked := s.asked + [Asked(instruction, [instruction], Registered)], slot := Some(|s.asked|))
    case Send(request) => Staged(s, request, Sent).(queue := s.queue + [CompactNow(request)])
    case TimeOut(request) => Staged(s, request, TimedOut)
    case Clear(request) => Staged(s, request, Cleared).(slot := if s.slot == Some(request) then None else s.slot)
    case Tell(request) =>
      var accepted := s.asked[request].stage == Sent;
      Staged(s, request, if accepted then Accepted else Refused)
        .(callers := s.callers + [Answered(request, false, accepted)])
    case Answer(caller) =>
      var request := s.callers[caller].request;
      s.(callers := s.callers[caller := Answered(request, true, s.asked[request].stage == Accepted)])
    case SendOther => s.(queue := s.queue + [Other])
    case Pop => s.(queue := s.queue[1..], pump := Holding(s.queue[0]))
    case Enter => s.(pump := Inside(s.pump.item))
    case Take =>
      var instruction := if s.slot.Some? && s.slot.value < |s.asked| then s.asked[s.slot.value].instruction else "";
      s.(slot := None, pump := Working, taken := s.taken + [Taken(s.pump.item.request, s.slot, instruction)])
    case Finish => s.(pump := Idle)
    case Stop => s.(pump := Stopped(if s.pump.Holding? then [s.pump.item] else []))
  }

  function Run(schedule: seq<Action>): State {
    if schedule == [] then INITIAL
    else
      var s, a := Run(schedule[..|schedule| - 1]), schedule[|schedule| - 1];
      if Enabled(s, a) then Step(s, a) else s
  }

  // ---------------------------------------------------------------- items on their way

  /** The items queued, held, or not yet taken, first the pump's. */
  function OnTheWay(s: State): seq<Item> {
    match s.pump
    case Holding(item) => [item] + s.queue
    case Inside(item) => [item] + s.queue
    case Stopped(left) => left + s.queue
    case _ => s.queue
  }

  /** Whose `compact_now` items these are, in order. */
  function Compacts(items: seq<Item>): seq<nat> {
    if items == [] then []
    else (match items[0] case CompactNow(request) => [request] case Other => []) + Compacts(items[1..])
  }

  lemma {:induction false} CompactsJoin(xs: seq<Item>, ys: seq<Item>)
    ensures Compacts(xs + ys) == Compacts(xs) + Compacts(ys)
    decreases |xs|
  {
    if xs == [] {
      assert xs + ys == ys;
    } else {
      CompactsJoin(xs[1..], ys);
      assert (xs + ys)[1..] == xs[1..] + ys && (xs + ys)[0] == xs[0];
    }
  }

  lemma CompactsOfOne(item: Item)
    ensures Compacts([item]) == match item case CompactNow(request) => [request] case Other => []
  {
    assert [item][1..] == [];
  }

  /** How many runs took this request's item. */
  function Times(taken: seq<Taken>, request: nat): nat {
    if taken == [] then 0
    else Times(taken[..|taken| - 1], request) + if taken[|taken| - 1].item == request then 1 else 0
  }

  lemma TimesOneMore(taken: seq<Taken>, t: Taken, request: nat)
    ensures Times(taken + [t], request) == Times(taken, request) + if t.item == request then 1 else 0
  {
    assert (taken + [t])[..|taken|] == taken;
  }

  // ---------------------------------------------------------------- the invariant

  /** What is on its way is the slot's request once it is sent, and nothing else. */
  function Expected(s: State): seq<nat> {
    if s.slot.Some? && s.slot.value < |s.asked| && s.asked[s.slot.value].stage.Delivered() then [s.slot.value] else []
  }

  ghost predicate SlotInv(s: State) {
    && (s.slot.Some? ==> s.slot.value < |s.asked|)
    && Compacts(OnTheWay(s)) == Expected(s)
  }

  /** A request is in the slot from its registration until it is cleared or taken, taken once, and knows its last
      instruction. */
  ghost predicate AskedInv(r: Asked, inSlot: bool, times: nat) {
    && r.instruction == LastGiven(r.given)
    && (r.stage.Registered? || r.stage.TimedOut? ==> inSlot)
    && (r.stage.Cleared? || r.stage.Refused? ==> !inSlot)
    && times == (if r.stage.Delivered() && !inSlot then 1 else 0)
  }

  ghost predicate RequestsInv(s: State) {
    forall i: nat :: i < |s.asked| ==> AskedInv(s.asked[i], s.slot == Some(i), Times(s.taken, i))
  }

  ghost predicate TakenInv(s: State, t: Taken) {
    t.item < |s.asked| && t.found == Some(t.item) && t.instruction == LastGiven(s.asked[t.item].given)
        && s.slot != t.found
  }

  ghost predicate CallerInv(s: State, c: Caller) {
    c.request < |s.asked| && (c.Answered? ==> s.asked[c.request].stage == if c.accepted then Accepted else Refused)
  }

  ghost predicate Inv(s: State) {
    && SlotInv(s)
    && RequestsInv(s)
    && (forall t :: t in s.taken ==> TakenInv(s, t))
    && (forall c :: c in s.callers ==> CallerInv(s, c))
  }

  /** A new item joins at the back. */
  lemma Appended(s: State, item: Item)
    ensures Compacts(OnTheWay(s.(queue := s.queue + [item]))) == Compacts(OnTheWay(s)) + Compacts([item])
  {
    assert OnTheWay(s.(queue := s.queue + [item])) == OnTheWay(s) + [item];
    CompactsJoin(OnTheWay(s), [item]);
  }

  /** The item the pump is inside with is the slot's request. */
  lemma InsideIsTheSlot(s: State)
    requires SlotInv(s) && Enabled(s, Take)
    ensures s.slot == Some(s.pump.item.request) && s.slot.value < |s.asked| && s.asked[s.slot.value].stage.Delivered()
    ensures Compacts(s.queue) == []
  {
    CompactsJoin([s.pump.item], s.queue);
    CompactsOfOne(s.pump.item);
    assert Expected(s)[0] == s.pump.item.request;
    assert |Compacts(s.queue)| == 0;
  }

  lemma SendKeepsSlot(s: State, request: nat)
    requires SlotInv(s) && RequestsInv(s) && Enabled(s, Send(request))
    ensures SlotInv(Step(s, Send(request)))
  {
    assert AskedInv(s.asked[request], s.slot == Some(request), Times(s.taken, request));
    assert Expected(s) == [];
    Appended(s, CompactNow(request));
    CompactsOfOne(CompactNow(request));
    assert OnTheWay(Step(s, Send(request))) == OnTheWay(s.(queue := s.queue + [CompactNow(request)]));
  }

  lemma SendOtherKeepsSlot(s: State)
    requires SlotInv(s) && Enabled(s, SendOther)
    ensures SlotInv(Step(s, SendOther))
  {
    Appended(s, Other);
    CompactsOfOne(Other);
  }

  lemma FinishKeepsSlot(s: State)
    requires SlotInv(s) && Enabled(s, Finish)
    ensures SlotInv(Step(s, Finish))
  {
    if s.pump.Inside? {
      CompactsJoin([Other], s.queue);
      CompactsOfOne(Other);
    }
  }

  /** A step of the pump towards its item, or of a caller beside the queue, moves no item. */
  lemma BesideKeepsSlot(s: State, a: Action)
    requires SlotInv(s) && RequestsInv(s) && Enabled(s, a)
    requires a.Ask? || a.TimeOut? || a.Clear? || a.Tell? || a.Answer? || a.Pop? || a.Enter? || a.Stop?
    ensures SlotInv(Step(s, a))
  {
    hide Compacts, Times, LastGiven, Merged;
    assert OnTheWay(Step(s, a)) == OnTheWay(s);
    if a.TimeOut? || a.Clear? {
      assert AskedInv(s.asked[a.request], s.slot == Some(a.request), Times(s.taken, a.request));
    }
    assert Expected(Step(s, a)) == Expected(s);
  }

  lemma StepKeepsSlot(s: State, a: Action)
    requires Inv(s) && Enabled(s, a)
    ensures SlotInv(Step(s, a))
  {
    match a
    case Send(request) => SendKeepsSlot(s, request);
    case SendOther => SendOtherKeepsSlot(s);
    case Take => InsideIsTheSlot(s);
    case Finish => FinishKeepsSlot(s);
    case _ => BesideKeepsSlot(s, a);
  }

  lemma StepKeepsRequest(s: State, a: Action, i: nat)
    requires Inv(s) && Enabled(s, a) && i < |s.asked|
    ensures i < |Step(s, a).asked|
    ensures AskedInv(Step(s, a).asked[i], Step(s, a).slot == Some(i), Times(Step(s, a).taken, i))
  {
    assert AskedInv(s.asked[i], s.slot == Some(i), Times(s.taken, i));
    match a {
      case Ask(instruction) =>
        MergedIsLast(s.asked[i].given, instruction);
      case Take =>
        InsideIsTheSlot(s);
        var t := Step(s, a).taken[|s.taken|];
        TimesOneMore(s.taken, t, i);
      case _ =>
    }
  }

  /** A request nobody registered yet was never taken. */
  lemma {:induction false} NeverTaken(s: State, taken: seq<Taken>)
    requires forall t :: t in taken ==> TakenInv(s, t)
    ensures Times(taken, |s.asked|) == 0
    decreases |taken|
  {
    if taken != [] {
      assert TakenInv(s, taken[|taken| - 1]);
      NeverTaken(s, taken[..|taken| - 1]);
    }
  }

  lemma RegisteredRequest(s: State, instruction: string)
    requires Inv(s) && s.slot == None
    ensures AskedInv(Asked(instruction, [instruction], Registered), true, Times(s.taken, |s.asked|))
  {
    NeverTaken(s, s.taken);
    MergedIsLast([], instruction);
    assert [] + [instruction] == [instruction];
  }

  lemma StepKeepsRequests(s: State, a: Action)
    requires Inv(s) && Enabled(s, a)
    ensures RequestsInv(Step(s, a))
  {
    var next := Step(s, a);
    if a.Ask? && s.slot == None {
      RegisteredRequest(s, a.instruction);
    } else {
      assert |next.asked| == |s.asked|;
    }
    forall i: nat | i < |s.asked|
      ensures i < |next.asked| && AskedInv(next.asked[i], next.slot == Some(i), Times(next.taken, i))
    {
      StepKeepsRequest(s, a, i);
    }
  }

  lemma StepKeepsTaken(s: State, a: Action, t: Taken)
    requires Inv(s) && Enabled(s, a) && t in Step(s, a).taken
    ensures TakenInv(Step(s, a), t)
  {
    if t in s.taken {
      assert TakenInv(s, t);
    } else {
      InsideIsTheSlot(s);
      assert AskedInv(s.asked[t.item], s.slot == Some(t.item), Times(s.taken, t.item));
    }
  }

  lemma StepKeepsCaller(s: State, a: Action, c: Caller)
    requires Inv(s) && Enabled(s, a) && c in Step(s, a).callers
    ensures CallerInv(Step(s, a), c)
  {
    if c in s.callers {
      assert CallerInv(s, c);
    } else if a.Answer? {
      assert CallerInv(s, s.callers[a.caller]);
    }
  }

  /** The invariant holds after every schedule. */
  lemma {:induction false} RunKeeps(schedule: seq<Action>)
    ensures Inv(Run(schedule))
    decreases |schedule|
  {
    if schedule != [] {
      var s, a := Run(schedule[..|schedule| - 1]), schedule[|schedule| - 1];
      RunKeeps(schedule[..|schedule| - 1]);
      if Enabled(s, a) {
        StepKeepsSlot(s, a);
        StepKeepsRequests(s, a);
        forall t | t in Step(s, a).taken
          ensures TakenInv(Step(s, a), t)
        {
          StepKeepsTaken(s, a, t);
        }
        forall c | c in Step(s, a).callers
          ensures CallerInv(Step(s, a), c)
        {
          StepKeepsCaller(s, a, c);
        }
      }
    }
  }

  // ---------------------------------------------------------------- what the protocol guarantees

  /** At most one `compact_now` is queued or not yet taken. */
  lemma OneOnTheWay(schedule: seq<Action>)
    ensures |Compacts(OnTheWay(Run(schedule)))| <= 1
  {
    RunKeeps(schedule);
  }

  /** The pump never finds the slot empty: it finds the request whose item it took from the queue. */
  lemma TakeFindsItsRequest(schedule: seq<Action>)
    requires Enabled(Run(schedule), Take)
    ensures Run(schedule).slot == Some(Run(schedule).pump.item.request)
  {
    RunKeeps(schedule);
    InsideIsTheSlot(Run(schedule));
  }

  /** How many items of this request there are or were: on the way, or taken. */
  function ItemsOf(s: State, request: nat): nat {
    multiset(Compacts(OnTheWay(s)))[request] + Times(s.taken, request)
  }

  /** A caller told that its compaction is queued has exactly one item, on its way or taken; one told the queue is
      full has none. */
  lemma AnswersAreExact(schedule: seq<Action>, caller: Caller)
    requires caller in Run(schedule).callers && caller.Answered?
    ensures ItemsOf(Run(schedule), caller.request) == if caller.accepted then 1 else 0
  {
    var s := Run(schedule);
    RunKeeps(schedule);
    assert CallerInv(s, caller);
    assert AskedInv(s.asked[caller.request], s.slot == Some(caller.request), Times(s.taken, caller.request));
  }

  /** Everyone who joined one request hears the same answer. */
  lemma MergedAnswersAgree(schedule: seq<Action>, one: Caller, other: Caller)
    requires one in Run(schedule).callers && other in Run(schedule).callers && one.Answered? && other.Answered?
    requires one.request == other.request
    ensures one.accepted == other.accepted
  {
    RunKeeps(schedule);
    assert CallerInv(Run(schedule), one) && CallerInv(Run(schedule), other);
  }

  /** Every compaction that ran used the last non-empty instruction its request was ever given: nothing joined it
      afterwards. */
  lemma LastInstructionIsUsed(schedule: seq<Action>, t: Taken)
    requires t in Run(schedule).taken
    ensures t.item < |Run(schedule).asked|
    ensures var given := Run(schedule).asked[t.item].given;
            if t.instruction == "" then forall i :: 0 <= i < |given| ==> given[i] == ""
            else exists i ::
                   0 <= i < |given| && given[i] == t.instruction && forall j :: i < j < |given| ==> given[j] == ""
  {
    RunKeeps(schedule);
    assert TakenInv(Run(schedule), t);
    var at := LastGivenAt(Run(schedule).asked[t.item].given);
  }

  /** How far a request's own caller is from telling everybody. */
  function Left(stage: Stage): nat {
    match stage
    case Registered => 3
    case TimedOut => 2
    case Cleared => 1
    case Sent => 1
    case Refused => 0
    case Accepted => 0
  }

  /** Nobody who merged waits for anything but the caller it joined, which always has a step of its own towards the
      answer, whatever the queue and the pump do; once it has answered, so can they. */
  lemma MergedCallersAreAnswered(schedule: seq<Action>, caller: nat) returns (a: Action)
    requires caller < |Run(schedule).callers| && Run(schedule).callers[caller].Waiting?
    ensures var s := Run(schedule);
            var request := s.callers[caller].request;
            && Enabled(s, a) && request < |s.asked|
            && if Left(s.asked[request].stage) == 0 then a == Answer(caller) && caller < |Step(s, a).callers|
                && Step(s, a).callers[caller].Answered?
               else
                 && request < |Step(s, a).asked| && Left(Step(s, a).asked[request].stage) < Left(s.asked[request].stage)
                 && (a.TimeOut? || a.Clear? || a.Tell?)
  {
    RunKeeps(schedule);
    var s := Run(schedule);
    assert CallerInv(s, s.callers[caller]);
    var request := s.callers[caller].request;
    a := match s.asked[request].stage
    case Registered => TimeOut(request)
    case TimedOut => Clear(request)
    case Cleared => Tell(request)
    case Sent => Tell(request)
    case _ => Answer(caller);
  }

  lemma OneMore(schedule: seq<Action>, a: Action)
    requires Enabled(Run(schedule), a)
    ensures Run(schedule + [a]) == Step(Run(schedule), a)
  {
    assert (schedule + [a])[..|schedule|] == schedule;
  }

  lemma AnswerKeepsCallers(s: State, a: Action, caller: nat)
    requires Enabled(s, a) && caller < |s.callers| && !a.Answer?
    ensures caller < |Step(s, a).callers| && Step(s, a).callers[caller] == s.callers[caller]
  {
  }

  /** A merged caller can be answered within three steps of the caller it joined and one of its own. */
  lemma {:induction false} MergedCallerGetsAnswer(schedule: seq<Action>, caller: nat) returns (more: seq<Action>)
    requires caller < |Run(schedule).callers| && Run(schedule).callers[caller].Waiting?
    requires Run(schedule).callers[caller].request < |Run(schedule).asked|
    ensures |more| <= Left(Run(schedule).asked[Run(schedule).callers[caller].request].stage) + 1 <= 4
    ensures forall a :: a in more ==> a.TimeOut? || a.Clear? || a.Tell? || a == Answer(caller)
    ensures caller < |Run(schedule + more).callers| && Run(schedule + more).callers[caller].Answered?
    decreases Left(Run(schedule).asked[Run(schedule).callers[caller].request].stage)
  {
    hide Run, Enabled, Step;
    var a := MergedCallersAreAnswered(schedule, caller);
    OneMore(schedule, a);
    more := [a];
    if a != Answer(caller) {
      AnswerKeepsCallers(Run(schedule), a, caller);
      var rest := MergedCallerGetsAnswer(schedule + [a], caller);
      more := [a] + rest;
      assert schedule + more == schedule + [a] + rest;
    }
  }

  /** How often a caller that did not merge was told about this request. */
  function Told(callers: seq<Caller>, request: nat): nat {
    multiset(callers)[Answered(request, false, true)] + multiset(callers)[Answered(request, false, false)]
  }

  function ToldSoFar(s: State, request: nat): nat {
    if request < |s.asked| && Left(s.asked[request].stage) == 0 then 1 else 0
  }

  /** A step that tells nobody adds no answer of a registering caller. */
  lemma StepTellsNobody(s: State, a: Action, request: nat)
    requires Enabled(s, a) && !a.Tell?
    ensures Told(Step(s, a).callers, request) == Told(s.callers, request)
  {
    hide OnTheWay, Compacts, Times, LastGiven, Merged;
  }

  /** It closes no request. */
  lemma StepClosesNothing(s: State, a: Action, request: nat)
    requires Inv(s) && Enabled(s, a) && !a.Tell?
    ensures ToldSoFar(Step(s, a), request) == ToldSoFar(s, request)
  {
    hide OnTheWay, Compacts, Times, LastGiven, Merged;
  }

  lemma StepTells(s: State, a: Action, request: nat)
    requires Inv(s) && Enabled(s, a) && Told(s.callers, request) == ToldSoFar(s, request)
    ensures Told(Step(s, a).callers, request) == ToldSoFar(Step(s, a), request)
  {
    hide OnTheWay, Compacts, Times, LastGiven, Merged;
    if !a.Tell? {
      StepTellsNobody(s, a, request);
      StepClosesNothing(s, a, request);
    }
  }

  /** Of all who asked for one compaction exactly one is told that it did not merge: the caller that registered it,
      once it answered. */
  lemma {:induction false} OneDidNotMerge(schedule: seq<Action>, request: nat)
    ensures Told(Run(schedule).callers, request) == ToldSoFar(Run(schedule), request)
    decreases |schedule|
  {
    if schedule != [] {
      var s, a := Run(schedule[..|schedule| - 1]), schedule[|schedule| - 1];
      OneDidNotMerge(schedule[..|schedule| - 1], request);
      RunKeeps(schedule[..|schedule| - 1]);
      if Enabled(s, a) {
        StepTells(s, a, request);
      }
    }
  }

  lemma {:induction false} QueueIsBounded(schedule: seq<Action>)
    ensures |Run(schedule).queue| <= 64
    decreases |schedule|
  {
    if schedule != [] {
      QueueIsBounded(schedule[..|schedule| - 1]);
    }
  }

  // ---------------------------------------------------------------- a session that stops

  lemma StoppedStays(s: State, a: Action)
    requires s.pump.Stopped? && Enabled(s, a)
    ensures Step(s, a).pump == s.pump && Step(s, a).taken == s.taken
  {
  }

  lemma {:induction false} StoppedTakesNothing(schedule: seq<Action>, more: seq<Action>)
    requires Run(schedule).pump.Stopped?
    ensures Run(schedule + more).pump == Run(schedule).pump && Run(schedule + more).taken == Run(schedule).taken
    decreases |more|
  {
    if more == [] {
      assert schedule + more == schedule;
    } else {
      var front, last := more[..|more| - 1], more[|more| - 1];
      StoppedTakesNothing(schedule, front);
      assert schedule + more == schedule + front + [last];
      assert (schedule + front + [last])[..|schedule + front|] == schedule + front;
      if Enabled(Run(schedule + front), last) {
        StoppedStays(Run(schedule + front), last);
      }
    }
  }

  /** How much the pump has to do before it took everything queued. */
  function Ahead(s: State): nat {
    4 * |s.queue| + match s.pump case Holding(_) => 3 case Inside(_) => 2 case Working => 1 case _ => 0
  }

  /** A request that is in the slot and sent is on the way. */
  lemma SentIsOnTheWay(s: State, request: nat)
    requires Inv(s) && request < |s.asked| && s.asked[request].stage.Delivered() && Times(s.taken, request) == 0
    ensures s.slot == Some(request) && Compacts(OnTheWay(s)) == [request]
  {
    assert AskedInv(s.asked[request], s.slot == Some(request), Times(s.taken, request));
  }

  /** The pump's next step while something is on the way: it takes the slot's request, or gets nearer to it. */
  lemma PumpAdvances(s: State, request: nat) returns (a: Action)
    requires Inv(s) && !s.pump.Stopped? && s.slot == Some(request) && Compacts(OnTheWay(s)) == [request]
    ensures Enabled(s, a) && Step(s, a).asked == s.asked
    ensures if a.Take? then Step(s, a).taken == s.taken + [Taken(request, s.slot, s.asked[request].instruction)]
            else Step(s, a).taken == s.taken && !Step(s, a).pump.Stopped? && Ahead(Step(s, a)) < Ahead(s)
  {
    a := match s.pump
    case Idle => Pop
    case Holding(_) => Enter
    case Inside(item) => if item.CompactNow? then Take else Finish
    case _ => Finish;
    if a == Take {
      InsideIsTheSlot(s);
    }
  }

  /** A pump that was not stopped can take an accepted request, whatever is queued before it. */
  lemma {:induction false} CanBeTaken(schedule: seq<Action>, request: nat) returns (more: seq<Action>)
    requires !Run(schedule).pump.Stopped? && request < |Run(schedule).asked|
    requires Run(schedule).asked[request].stage.Delivered() && Times(Run(schedule).taken, request) == 0
    ensures Times(Run(schedule + more).taken, request) == 1
    decreases Ahead(Run(schedule))
  {
    hide Run, Enabled, Step, OnTheWay, Compacts, Inv, Times;
    var s := Run(schedule);
    RunKeeps(schedule);
    SentIsOnTheWay(s, request);
    var a := PumpAdvances(s, request);
    OneMore(schedule, a);
    more := [a];
    if a.Take? {
      TimesOneMore(s.taken, Taken(request, s.slot, s.asked[request].instruction), request);
    } else {
      var rest := CanBeTaken(schedule + [a], request);
      more := [a] + rest;
      assert schedule + more == schedule + [a] + rest;
    }
  }

  /** A compaction that was accepted can still run if and only if it already did or the pump has not stopped. */
  lemma AcceptedRunsUnlessStopped(schedule: seq<Action>, caller: Caller)
    requires caller in Run(schedule).callers && caller.Answered? && caller.accepted
    ensures (exists more :: Times(Run(schedule + more).taken, caller.request) == 1)
       <==> Times(Run(schedule).taken, caller.request) == 1 || !Run(schedule).pump.Stopped?
  {
    hide Step, Enabled, OnTheWay, Compacts;
    var s, request := Run(schedule), caller.request;
    RunKeeps(schedule);
    assert CallerInv(s, caller);
    assert AskedInv(s.asked[request], s.slot == Some(request), Times(s.taken, request));
    assert schedule + [] == schedule;
    if Times(s.taken, request) != 1 {
      if s.pump.Stopped? {
        forall more: seq<Action>
          ensures Times(Run(schedule + more).taken, request) != 1
        {
          StoppedTakesNothing(schedule, more);
        }
      } else {
        var more := CanBeTaken(schedule, request);
      }
    }
  }

  /** And whoever is told so after the stop, by joining it, is told of a compaction that never runs: its one item
      stays on the way. */
  lemma AcceptedThenStopped(schedule: seq<Action>, more: seq<Action>, caller: Caller)
    requires Run(schedule).pump.Stopped? && Times(Run(schedule).taken, caller.request) == 0
    requires caller in Run(schedule + more).callers && caller.Answered? && caller.accepted
    ensures Times(Run(schedule + more).taken, caller.request) == 0
    ensures Compacts(OnTheWay(Run(schedule + more))) == [caller.request]
  {
    StoppedTakesNothing(schedule, more);
    RunKeeps(schedule + more);
    var s := Run(schedule + more);
    assert CallerInv(s, caller);
    SentIsOnTheWay(s, caller.request);
  }

  /** Such a compaction: its caller is told that it is queued, the session stops, and it never runs. */
  lemma AcceptedNeverRuns(instruction: string) returns (schedule: seq<Action>)
    ensures Answered(0, false, true) in Run(schedule).callers
    ensures forall more :: Times(Run(schedule + more).taken, 0) == 0
  {
    OneMore([], Ask(instruction));
    schedule := [] + [Ask(instruction)];
    OneMore(schedule, Send(0));
    schedule := schedule + [Send(0)];
    OneMore(schedule, Tell(0));
    schedule := schedule + [Tell(0)];
    OneMore(schedule, Stop);
    schedule := schedule + [Stop];
    assert Run(schedule).pump.Stopped? && Run(schedule).taken == [];
    forall more: seq<Action>
      ensures Times(Run(schedule + more).taken, 0) == 0
    {
      StoppedTakesNothing(schedule, more);
    }
  }

  // ---------------------------------------------------------------- a request that nobody disturbs

  /** The steps of one request in a row do what the slot's own methods do: with nothing waiting its item is queued if
      there is room, and otherwise the slot is cleared again; either way its caller is told. With a request waiting it
      joins that one. */
  lemma RequestIsItsSteps(schedule: seq<Action>, instruction: string) returns (more: seq<Action>)
    ensures var s, next := Run(schedule), Run(schedule + more);
            var fits, own := |s.queue| < 64, |s.asked|;
            s.slot.None? ==>
              && |next.asked| == own + 1 && next.asked[..own] == s.asked && next.asked[own].instruction == instruction
              && next.slot == (if fits then Some(own) else None)
              && next.queue == s.queue + (if fits then [CompactNow(own)] else [])
              && next.callers == s.callers + [Answered(own, false, fits)]
              && next.pump == s.pump
    ensures var s, next := Run(schedule), Run(schedule + more);
            s.slot.Some? ==>
              && s.slot.value < |s.asked| == |next.asked|
              && next.slot == s.slot && next.queue == s.queue && next.pump == s.pump
              && next.callers == s.callers + [Waiting(s.slot.value)]
              && next.asked[s.slot.value].instruction
                 == (if instruction == "" then s.asked[s.slot.value].instruction else instruction)
              && forall i :: 0 <= i < |s.asked| && i != s.slot.value ==> next.asked[i] == s.asked[i]
  {
    hide Run;
    var s := Run(schedule);
    var own := |s.asked|;
    RunKeeps(schedule);
    OneMore(schedule, Ask(instruction));
    more := [Ask(instruction)];
    if s.slot.None? {
      more := Concluded(schedule + more, own);
      assert schedule + ([Ask(instruction)] + more) == schedule + [Ask(instruction)] + more;
      more := [Ask(instruction)] + more;
    }
  }

  lemma TwoMore(schedule: seq<Action>, one: Action, two: Action)
    requires Enabled(Run(schedule), one) && Enabled(Step(Run(schedule), one), two)
    ensures Run(schedule + [one, two]) == Step(Step(Run(schedule), one), two)
  {
    OneMore(schedule, one);
    OneMore(schedule + [one], two);
    assert schedule + [one, two] == schedule + [one] + [two];
  }

  /** The steps that follow the registration. */
  lemma Concluded(schedule: seq<Action>, own: nat) returns (more: seq<Action>)
    requires At(Run(schedule), own, Registered) && Run(schedule).slot == Some(own)
    ensures var s, next := Run(schedule), Run(schedule + more);
            var fits := |s.queue| < 64;
            && next.asked == s.asked[own := s.asked[own].(stage := if fits then Accepted else Refused)]
            && next.slot == (if fits then s.slot else None)
            && next.queue == s.queue + (if fits then [CompactNow(own)] else [])
            && next.callers == s.callers + [Answered(own, false, fits)] && next.pump == s.pump
  {
    hide Run;
    if |Run(schedule).queue| < 64 {
      more := [Send(own), Tell(own)];
      TwoMore(schedule, Send(own), Tell(own));
    } else {
      TwoMore(schedule, TimeOut(own), Clear(own));
      OneMore(schedule + [TimeOut(own), Clear(own)], Tell(own));
      more := [TimeOut(own), Clear(own), Tell(own)];
      assert schedule + more == schedule + [TimeOut(own), Clear(own)] + [Tell(own)];
    }
  }
}

/** Every interleaving of registrations, answers, timeouts and releases over the approval table. Looking a request
    up, sending to its one-slot channel, remembering an answer, receiving it and releasing the request are separate
    steps. */
module ApprovalRuns {
  import opened Prelude
  import opened Approvals

  type Id = nat

  /** Where the goroutine that asked stands: waiting, decided but still registered, or released. */
  datatype Asker = Waiting | Decided(decision: Decision) | Released(decision: Decision)

  /** A registered request, its channel, the answer its asker received, and every answer its channel accepted, in
      order. */
  datatype Asked = Asked(session: string, slot: Option<Scope>, taken: Option<Scope>, accepted: seq<Scope>, asker: Asker)

  /** Where an operator's answer stands: the request was found, or the answer was accepted and is to be remembered. */
  datatype Settler = Found(id: Id, scope: Scope) | Remembering(id: Id, scope: Scope) | Settled

  /** `kept` are the answers that stored a grant or a rule. */
  datatype State = State(requests: map<Id, Asked>, table: set<Id>, settlers: seq<Settler>, kept: set<(Id, Scope)>)

  const INITIAL := State(map[], {}, [], {})

  datatype Action =
    | Register(id: Id, session: string)
    | GiveUp(id: Id)                      // nobody answered in time, or the caller went away
    | Take(id: Id)
    | Release(id: Id)
    | LookUp(id: Id, scope: Scope)
    | Deliver(settler: nat)
    | Remember(settler: nat, stored: bool)

  predicate Enabled(s: State, a: Action) {
    match a
    case Register(id, _) => id !in s.requests
    case GiveUp(id) => id in s.requests && s.requests[id].asker == Waiting
    case Take(id) => id in s.requests && s.requests[id].asker == Waiting && s.requests[id].slot.Some?
    case Release(id) => id in s.requests && s.requests[id].asker.Decided?
    case LookUp(id, _) => true
    case Deliver(settler) => settler < |s.settlers| && s.settlers[settler].Found?
        && s.settlers[settler].id in s.requests
    case Remember(settler, _) => settler < |s.settlers| && s.settlers[settler].Remembering?
  }

  function OfSession(s: State, session: string): set<Id> {
    set id | id in s.table && id in s.requests && s.requests[id].session == session
  }

  function Step(s: State, a: Action): State
    requires Enabled(s, a)
  {
    match a
    case Register(id, session) =>
      if Admission(|s.table|, |OfSession(s, session)|).Some? then s
      else s.(requests := s.requests[id := Asked(session, None, None, [], Waiting)], table := s.table + {id})
    case GiveUp(id) => s.(requests := s.requests[id := s.requests[id].(asker := Decided(Denied))])
    case Take(id) =>
      var r := s.requests[id];
      s.(requests := s.requests[id := r.(slot := None, taken := r.slot, asker := Decided(DecisionOf(r.slot.value)))])
    case Release(id) =>
      var r := s.requests[id];
      s.(requests := s.requests[id := r.(asker := Released(r.asker.decision))], table := s.table - {id})
    case LookUp(id, scope) =>
      s.(settlers := s.settlers + [if id in s.table then Found(id, scope) else Settled])
    case Deliver(settler) =>
      var id, scope := s.settlers[settler].id, s.settlers[settler].scope;
      var r := s.requests[id];
      if r.slot.Some? then s.(settlers := s.settlers[settler := Settled])
      else s.(requests := s.requests[id := r.(slot := Sent(r.slot, scope), accepted := r.accepted + [scope])],
              settlers := s.settlers[settler :=
                            if DecisionOf(scope) == Allowed then Remembering(id, scope) else Settled])
    case Remember(settler, stored) =>
      var id, scope := s.settlers[settler].id, s.settlers[settler].scope;
      s.(kept := if stored && Lasting(scope) then s.kept + {(id, scope)} else s.kept,
         settlers := s.settlers[settler := Settled])
  }

  function Run(schedule: seq<Action>): State {
    if schedule == [] then INITIAL
    else
      var s, a := Run(schedule[..|schedule| - 1]), schedule[|schedule| - 1];
      if Enabled(s, a) then Step(s, a) else s
  }

  // ---------------------------------------------------------------- the invariant

  function Count<T>(slot: Option<T>): nat {
    if slot.Some? then 1 else 0
  }

  /** A channel accepts an answer only while its slot is empty, and only the asker empties it, once: the answers
      accepted are the one taken, first, and the one in the slot, last. */
  ghost predicate AskedInv(r: Asked, registered: bool) {
    && (registered <==> !r.asker.Released?)
    && |r.accepted| == Count(r.taken) + Count(r.slot)
    && (r.taken.Some? ==>
          && r.accepted[0] == r.taken.value && !r.asker.Waiting?
          && r.asker.decision == DecisionOf(r.taken.value))
    && (r.slot.Some? ==> r.accepted[|r.accepted| - 1] == r.slot.value)
    && (r.taken.None? && !r.asker.Waiting? ==> r.asker.decision == Denied)
  }

  /** At most forty requests in the table, at most eight of one session. */
  ghost predicate TableInv(s: State) {
    && s.table <= s.requests.Keys
    && |s.table| <= IN_ALL
    && forall session :: |OfSession(s, session)| <= PER_SESSION
  }

  ghost predicate RequestsInv(s: State) {
    forall id :: id in s.requests ==> AskedInv(s.requests[id], id in s.table)
  }

  /** An answer on its way was found for a request; one being remembered was accepted, and allows. */
  ghost predicate SettlerInv(s: State, settler: Settler) {
    && (settler.Found? ==> settler.id in s.requests)
    && (settler.Remembering? ==> Allowing(s, settler.id, settler.scope))
  }

  ghost predicate Inv(s: State) {
    && TableInv(s)
    && RequestsInv(s)
    && (forall i :: 0 <= i < |s.settlers| ==> SettlerInv(s, s.settlers[i]))
    && (forall entry :: entry in s.kept ==> Allowing(s, entry.0, entry.1) && Lasting(entry.1))
  }

  /** The request's channel accepted this allowing answer. */
  predicate Allowing(s: State, id: Id, scope: Scope) {
    id in s.requests && scope in s.requests[id].accepted && DecisionOf(scope) == Allowed
  }

  /** Every request of `s` is one of `next`, and every answer its channel had accepted is still accepted. */
  ghost predicate Extends(s: State, next: State) {
    forall id :: id in s.requests ==> id in next.requests && s.requests[id].accepted <= next.requests[id].accepted
  }

  lemma AllowingStays(s: State, next: State, id: Id, scope: Scope)
    requires Extends(s, next) && Allowing(s, id, scope)
    ensures Allowing(next, id, scope)
  {
    var i :| 0 <= i < |s.requests[id].accepted| && s.requests[id].accepted[i] == scope;
    assert next.requests[id].accepted[i] == scope;
  }

  /** What settlers and kept answers rely on survives a step that only accepts more. */
  lemma ExtendedKeeps(s: State, next: State)
    requires Inv(s) && Extends(s, next)
    ensures forall settler :: SettlerInv(s, settler) ==> SettlerInv(next, settler)
    ensures forall entry :: entry in s.kept ==> Allowing(next, entry.0, entry.1)
  {
    forall settler | SettlerInv(s, settler)
      ensures SettlerInv(next, settler)
    {
      if settler.Remembering? {
        AllowingStays(s, next, settler.id, settler.scope);
      }
    }
    forall entry | entry in s.kept
      ensures Allowing(next, entry.0, entry.1)
    {
      AllowingStays(s, next, entry.0, entry.1);
    }
  }

  /** A step that leaves the table alone and keeps every request's session leaves the bounds alone. */
  lemma SameTable(s: State, next: State)
    requires TableInv(s) && next.table == s.table && s.requests.Keys == next.requests.Keys
    requires forall id :: id in s.requests ==> next.requests[id].session == s.requests[id].session
    ensures TableInv(next)
  {
    forall session
      ensures |OfSession(next, session)| <= PER_SESSION
    {
      assert OfSession(next, session) == OfSession(s, session);
    }
  }

  /** One request more of a session that had room leaves every session within its limit. */
  lemma RegisteredOfSession(s: State, next: State, id: Id, r: Asked, other: string)
    requires TableInv(s) && id !in s.requests && |OfSession(s, r.session)| < PER_SESSION
    requires next.table == s.table + {id} && next.requests == s.requests[id := r]
    ensures |OfSession(next, other)| <= PER_SESSION
  {
    if other == r.session {
      assert OfSession(next, other) == OfSession(s, other) + {id};
    } else {
      assert OfSession(next, other) == OfSession(s, other);
    }
  }

  lemma RegisterKeepsTable(s: State, id: Id, session: string)
    requires TableInv(s) && Enabled(s, Register(id, session))
    ensures TableInv(Step(s, Register(id, session)))
  {
    var next := Step(s, Register(id, session));
    if next.requests != s.requests {
      forall other
        ensures |OfSession(next, other)| <= PER_SESSION
      {
        RegisteredOfSession(s, next, id, next.requests[id], other);
      }
    }
  }

  lemma ReleaseKeepsTable(s: State, id: Id)
    requires TableInv(s) && Enabled(s, Release(id))
    ensures TableInv(Step(s, Release(id)))
  {
    var next := Step(s, Release(id));
    forall session
      ensures |OfSession(next, session)| <= PER_SESSION
    {
      assert OfSession(next, session) == OfSession(s, session) - {id};
    }
  }

  lemma StepKeepsTable(s: State, a: Action)
    requires TableInv(s) && Enabled(s, a)
    ensures TableInv(Step(s, a))
  {
    match a
    case Register(id, session) => RegisterKeepsTable(s, id, session);
    case Release(id) => ReleaseKeepsTable(s, id);
    case _ => SameTable(s, Step(s, a));
  }

  lemma DeliverKeepsRequest(s: State, settler: nat, id: Id)
    requires Enabled(s, Deliver(settler)) && id in s.requests && AskedInv(s.requests[id], id in s.table)
    ensures id in Step(s, Deliver(settler)).requests && AskedInv(Step(s, Deliver(settler)).requests[id], id in s.table)
    ensures s.requests[id].accepted <= Step(s, Deliver(settler)).requests[id].accepted
  {
  }

  lemma StepKeepsRequest(s: State, a: Action, id: Id)
    requires TableInv(s) && Enabled(s, a) && id in s.requests && AskedInv(s.requests[id], id in s.table)
    ensures id in Step(s, a).requests && AskedInv(Step(s, a).requests[id], id in Step(s, a).table)
    ensures s.requests[id].accepted <= Step(s, a).requests[id].accepted
  {
    if a.Deliver? {
      DeliverKeepsRequest(s, a.settler, id);
    }
  }

  lemma StepKeepsRequests(s: State, a: Action)
    requires TableInv(s) && RequestsInv(s) && Enabled(s, a)
    ensures RequestsInv(Step(s, a)) && Extends(s, Step(s, a))
  {
    forall id | id in s.requests
      ensures id in Step(s, a).requests && AskedInv(Step(s, a).requests[id], id in Step(s, a).table)
      ensures s.requests[id].accepted <= Step(s, a).requests[id].accepted
    {
      StepKeepsRequest(s, a, id);
    }
    forall id | id in Step(s, a).requests && id !in s.requests
      ensures AskedInv(Step(s, a).requests[id], id in Step(s, a).table)
    {
      assert a.Register? && a.id == id;
    }
  }

  lemma StepKeepsSettlers(s: State, a: Action)
    requires Inv(s) && Enabled(s, a) && Extends(s, Step(s, a))
    ensures forall i :: 0 <= i < |Step(s, a).settlers| ==> SettlerInv(Step(s, a), Step(s, a).settlers[i])
    ensures forall entry :: entry in Step(s, a).kept ==> Allowing(Step(s, a), entry.0, entry.1) && Lasting(entry.1)
  {
    var next := Step(s, a);
    ExtendedKeeps(s, next);
    if a.Deliver? || a.Remember? {
      assert SettlerInv(s, s.settlers[a.settler]);
    }
  }

  /** The invariant holds after every schedule. */
  lemma {:induction false} RunKeeps(schedule: seq<Action>)
    ensures Inv(Run(schedule))
    decreases |schedule|
  {
    if schedule == [] {
      assert forall session :: OfSession(INITIAL, session) == {};
    } else {
      var s, a := Run(schedule[..|schedule| - 1]), schedule[|schedule| - 1];
      RunKeeps(schedule[..|schedule| - 1]);
      if Enabled(s, a) {
        StepKeepsTable(s, a);
        StepKeepsRequests(s, a);
        StepKeepsSettlers(s, a);
      }
    }
  }

  // ---------------------------------------------------------------- what the table guarantees

  /** At most forty requests wait in all, and at most eight of one session. */
  lemma WaitingIsBounded(schedule: seq<Action>, session: string)
    ensures |Run(schedule).table| <= IN_ALL && |OfSession(Run(schedule), session)| <= PER_SESSION
  {
    RunKeeps(schedule);
  }

  /** A wait that ended in allow was ended by the first answer, and that answer allows; any other end is a denial. */
  lemma AllowedByTheFirstAnswer(schedule: seq<Action>, id: Id)
    requires id in Run(schedule).requests && !Run(schedule).requests[id].asker.Waiting?
    ensures var r := Run(schedule).requests[id];
            r.asker.decision == Allowed
            <==> r.taken.Some? && r.accepted != [] && r.taken.value == r.accepted[0] && r.accepted[0] != Deny
  {
    RunKeeps(schedule);
  }

  /** What stored a grant or a rule was an accepted answer that allows for the session or always; a denial stores
      nothing, and neither does an answer that allows once. */
  lemma OnlyAllowsAreKept(schedule: seq<Action>, id: Id, scope: Scope)
    requires (id, scope) in Run(schedule).kept
    ensures var s := Run(schedule); id in s.requests && scope in s.requests[id].accepted && Lasting(scope)
  {
    RunKeeps(schedule);
  }

  /** How many answers of a request are accepted: none or one, and a second exactly when one is delivered after the
      asker took the first. */
  lemma SecondAnswerAfterTheFirstIsTaken(schedule: seq<Action>, id: Id)
    requires id in Run(schedule).requests
    ensures var r := Run(schedule).requests[id];
            |r.accepted| <= 2 && (|r.accepted| == 2 <==> r.taken.Some? && r.slot.Some?)
  {
    RunKeeps(schedule);
  }

  /** The guard: a delivery is accepted beside an earlier answer exactly when the asker has taken that one and the
      slot is empty again. */
  lemma AcceptedBesideTheFirst(schedule: seq<Action>, settler: nat)
    requires Enabled(Run(schedule), Deliver(settler))
    ensures var s := Run(schedule);
            var id := s.settlers[settler].id;
            var before, after := s.requests[id], Step(s, Deliver(settler)).requests[id];
            |after.accepted| == 2 && |before.accepted| == 1 <==> before.taken.Some? && before.slot.None?
  {
    RunKeeps(schedule);
  }

  // ---------------------------------------------------------------- what is stored against the decision

  /** The asker received this answer of those its channel accepted. */
  predicate IsTaken(r: Asked, i: nat) {
    i == 0 && r.taken.Some?
  }

  /** The tool call was allowed, as an accepted lasting answer says, exactly when that answer is the one the asker
      took, or it came beside a taken one that allows as well. Otherwise the call was denied although a grant or a
      rule may be stored: the asker took a refusal, or took nothing. */
  lemma AgreesExactly(schedule: seq<Action>, id: Id, i: nat)
    requires id in Run(schedule).requests && !Run(schedule).requests[id].asker.Waiting?
    requires i < |Run(schedule).requests[id].accepted| && Lasting(Run(schedule).requests[id].accepted[i])
    ensures var r := Run(schedule).requests[id];
            r.asker.decision == Allowed <==> IsTaken(r, i) || (i > 0 && DecisionOf(r.accepted[0]) == Allowed)
  {
    RunKeeps(schedule);
    assert AskedInv(Run(schedule).requests[id], id in Run(schedule).table);
  }

  lemma DecidedStep(s: State, a: Action, id: Id)
    requires Enabled(s, a) && id in s.requests && !s.requests[id].asker.Waiting?
    ensures id in Step(s, a).requests && !Step(s, a).requests[id].asker.Waiting?
    ensures Step(s, a).requests[id].taken == s.requests[id].taken
    ensures Step(s, a).requests[id].asker.decision == s.requests[id].asker.decision
  {
  }

  /** A decided asker takes nothing any more. */
  lemma {:induction false} DecidedStays(schedule: seq<Action>, id: Id, more: seq<Action>)
    requires id in Run(schedule).requests && !Run(schedule).requests[id].asker.Waiting?
    ensures id in Run(schedule + more).requests && !Run(schedule + more).requests[id].asker.Waiting?
    ensures Run(schedule + more).requests[id].taken == Run(schedule).requests[id].taken
    ensures Run(schedule + more).requests[id].asker.decision == Run(schedule).requests[id].asker.decision
    decreases |more|
  {
    hide Enabled, Step;
    if more == [] {
      assert schedule + more == schedule;
    } else {
      var front, last := more[..|more| - 1], more[|more| - 1];
      DecidedStays(schedule, id, front);
      assert schedule + more == schedule + front + [last];
      assert (schedule + front + [last])[..|schedule + front|] == schedule + front;
      if Enabled(Run(schedule + front), last) {
        DecidedStep(Run(schedule + front), last, id);
      }
    }
  }

  /** The guard when an answer is delivered: it can still become the one the asker takes exactly while the asker
      waits. */
  lemma CanStillBeTaken(schedule: seq<Action>, settler: nat)
    requires Enabled(Run(schedule), Deliver(settler))
    requires Run(schedule).requests[Run(schedule).settlers[settler].id].slot.None?
    ensures var before := Run(schedule);
            var id := before.settlers[settler].id;
            (exists more :: var s := Run(schedule + [Deliver(settler)] + more);
               id in s.requests && IsTaken(s.requests[id], |before.requests[id].accepted|))
            <==> before.requests[id].asker == Waiting
  {
    var before, next := Run(schedule), schedule + [Deliver(settler)];
    var id := before.settlers[settler].id;
    RunKeeps(schedule);
    assert AskedInv(before.requests[id], id in before.table);
    OneMore(schedule, Deliver(settler));
    if before.requests[id].asker == Waiting {
      OneMore(next, Take(id));
      assert IsTaken(Run(next + [Take(id)]).requests[id], 0);
    } else {
      forall more: seq<Action>
        ensures id in Run(next + more).requests
                && !IsTaken(Run(next + more).requests[id], |before.requests[id].accepted|)
      {
        DecidedStays(next, id, more);
      }
    }
  }

  // ---------------------------------------------------------------- three runs that store against the decision

  lemma OneMore(schedule: seq<Action>, a: Action)
    requires Enabled(Run(schedule), a)
    ensures Run(schedule + [a]) == Step(Run(schedule), a)
  {
    assert (schedule + [a])[..|schedule|] == schedule;
  }

  lemma Registers(session: string) returns (schedule: seq<Action>)
    ensures Run(schedule) == State(map[0 := Asked(session, None, None, [], Waiting)], {0}, [], {})
  {
    assert OfSession(INITIAL, session) == {};
    OneMore([], Register(0, session));
    schedule := [] + [Register(0, session)];
  }

  /** Two operators find a waiting request. */
  lemma TwoFindIt(session: string, first: Scope) returns (schedule: seq<Action>)
    ensures Run(schedule)
            == State(map[0 := Asked(session, None, None, [], Waiting)], {0}, [Found(0, first), Found(0, Always)], {})
  {
    schedule := Registers(session);
    OneMore(schedule, LookUp(0, first));
    schedule := schedule + [LookUp(0, first)];
    OneMore(schedule, LookUp(0, Always));
    schedule := schedule + [LookUp(0, Always)];
  }

  /** The first of them answers and the asker takes the answer. */
  lemma FirstIsTaken(session: string, first: Scope) returns (schedule: seq<Action>)
    ensures var s := Run(schedule);
            && s.requests == map[0 := Asked(session, None, Some(first), [first], Decided(DecisionOf(first)))]
            && |s.settlers| == 2 && s.settlers[1] == Found(0, Always)
  {
    schedule := TwoFindIt(session, first);
    OneMore(schedule, Deliver(0));
    schedule := schedule + [Deliver(0)];
    assert [] + [first] == [first];
    assert Run(schedule).requests[0] == Asked(session, Some(first), None, [first], Waiting);
    assert Run(schedule).requests == map[0 := Asked(session, Some(first), None, [first], Waiting)];
    OneMore(schedule, Take(0));
    schedule := schedule + [Take(0)];
  }

  /** "Only the first answer can store" does not hold: two operators find the request, the asker takes the first
      answer, even a refusal, and the second answer, allow always, is still accepted and writes its rule. */
  lemma LateAnswerIsKept(session: string, first: Scope) returns (schedule: seq<Action>)
    ensures 0 in Run(schedule).requests && Run(schedule).requests[0].asker == Decided(DecisionOf(first))
    ensures Run(schedule).requests[0].accepted == [first, Always] && (0, Always) in Run(schedule).kept
  {
    schedule := FirstIsTaken(session, first);
    OneMore(schedule, Deliver(1));
    schedule := schedule + [Deliver(1)];
    OneMore(schedule, Remember(1, true));
    schedule := schedule + [Remember(1, true)];
  }

  lemma OneFindsIt(session: string) returns (schedule: seq<Action>)
    ensures Run(schedule) == State(map[0 := Asked(session, None, None, [], Waiting)], {0}, [Found(0, Always)], {})
  {
    schedule := Registers(session);
    OneMore(schedule, LookUp(0, Always));
    schedule := schedule + [LookUp(0, Always)];
  }

  /** The wait times out, and then the one answer arrives: the call is denied and the rule is written. */
  lemma AnswerAfterTheTimeoutIsKept(session: string) returns (schedule: seq<Action>)
    ensures 0 in Run(schedule).requests && Run(schedule).requests[0].asker == Decided(Denied)
    ensures Run(schedule).requests[0].taken == None && Run(schedule).requests[0].accepted == [Always]
    ensures (0, Always) in Run(schedule).kept
  {
    schedule := OneFindsIt(session);
    OneMore(schedule, GiveUp(0));
    schedule := schedule + [GiveUp(0)];
    OneMore(schedule, Deliver(0));
    schedule := schedule + [Deliver(0)];
    assert [] + [Always] == [Always];
    OneMore(schedule, Remember(0, true));
    schedule := schedule + [Remember(0, true)];
  }

  /** The answer is in the slot when the wait times out, and the asker does not look at it any more. */
  lemma AnswerLeftInTheSlotIsKept(session: string) returns (schedule: seq<Action>)
    ensures 0 in Run(schedule).requests && Run(schedule).requests[0].asker == Decided(Denied)
    ensures Run(schedule).requests[0].taken == None && Run(schedule).requests[0].accepted == [Always]
    ensures (0, Always) in Run(schedule).kept
  {
    schedule := OneFindsIt(session);
    OneMore(schedule, Deliver(0));
    schedule := schedule + [Deliver(0)];
    assert [] + [Always] == [Always];
    OneMore(schedule, GiveUp(0));
    schedule := schedule + [GiveUp(0)];
    OneMore(schedule, Remember(0, true));
    schedule := schedule + [Remember(0, true)];
  }

  // ---------------------------------------------------------------- an answer that nobody disturbs

  /** The steps of one answer in a row do what the table's own method does: an empty slot is filled, and only then an
      allowing answer that outlives the request is kept; a request that is not registered gets nothing. */
  lemma SettleIsItsSteps(schedule: seq<Action>, id: Id, scope: Scope, stored: bool) returns (more: seq<Action>)
    ensures var s, next := Run(schedule), Run(schedule + more);
            && next.table == s.table && next.requests.Keys == s.requests.Keys
            && |next.settlers| == |s.settlers| + 1 && next.settlers[|s.settlers|] == Settled
            && (forall other :: other in s.requests && (other != id || id !in s.table) ==>
                  next.requests[other] == s.requests[other])
            && (id in s.table ==>
                  && id in s.requests && next.requests[id].asker == s.requests[id].asker
                  && next.requests[id].slot
                     == if s.requests[id].slot.Some? then s.requests[id].slot else Some(scope))
            && next.kept == if id in s.table && s.requests[id].slot.None? && stored
                               && (scope == Session || scope == Always)
                            then s.kept + {(id, scope)} else s.kept
  {
    hide Run;
    var s := Run(schedule);
    var settler := |s.settlers|;
    RunKeeps(schedule);
    OneMore(schedule, LookUp(id, scope));
    more := [LookUp(id, scope)];
    if id in s.table {
      assert id in s.requests;
      OneMore(schedule + more, Deliver(settler));
      assert schedule + (more + [Deliver(settler)]) == schedule + more + [Deliver(settler)];
      more := more + [Deliver(settler)];
      if s.requests[id].slot.None? && scope != Deny {
        OneMore(schedule + more, Remember(settler, stored));
        assert schedule + (more + [Remember(settler, stored)]) == schedule + more + [Remember(settler, stored)];
        more := more + [Remember(settler, stored)];
      }
    }
  }
}

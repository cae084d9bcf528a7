/** Any number of interleaved bufferBody calls on one budget. A read takes its bytes and giving back returns them,
    each at once; everything else a call does concerns only itself. */
module BodyBudgetRuns {
  import opened Prelude
  import opened BodyBudget

  datatype Phase =
    | Reading
    | Failing(why: Failure)   // what was taken is still to be given back
    | Refused(why: Failure)   // given back, and the error answered
    | Answered                // the body answered, its bytes still held
    | Served                  // the request served, its bytes given back

  /** `body` is what the request carries and `limit` its own limit; `source` and `room` are what its reader still
      has. */
  datatype Call = Call(
    body: seq<Chunk>, limit: nat, source: seq<Chunk>, room: nat,
    buffered: seq<Byte>, taken: nat, reported: nat, phase: Phase)

  datatype State = State(limit: nat, used: int, calls: seq<Call>)

  datatype Action =
    | Start(body: seq<Chunk>, limit: nat)
    | Read(call: nat)
    | GiveBack(call: nat)
    | Serve(call: nat)

  function Initial(limit: nat): State {
    State(limit, 0, [])
  }

  predicate InPhase(s: State, call: nat, phase: Phase) {
    call < |s.calls| && s.calls[call].phase == phase
  }

  predicate Enabled(s: State, a: Action) {
    match a
    case Start(_, _) => true
    case Read(call) => InPhase(s, call, Reading)
    case GiveBack(call) => call < |s.calls| && s.calls[call].phase.Failing?
    case Serve(call) => InPhase(s, call, Answered)
  }

  /** How much of the budget is free. */
  function FreeOf(s: State): nat {
    if s.used <= s.limit then s.limit - s.used else 0
  }

  /** Where a call stands after a read that left it this much. */
  function PhaseAfter(condition: Condition, buffered: nat, limit: nat): Phase {
    match condition
    case Fine => Reading
    case Error(why) => Failing(why)
    case Eof => if buffered > limit then Failing(TooLarge) else Answered
  }

  /** A call after one read, with this much of the budget free. */
  function AfterRead(c: Call, free: nat): Call {
    var (bytes, condition) := ReadAnswer(c.source, c.room, free);
    var phase := PhaseAfter(condition, |c.buffered + bytes|, c.limit);
    c.(source := SourceAfter(c.source, c.room), room := c.room - |NextRead(c.source, c.room).bytes|,
       buffered := c.buffered + bytes, taken := c.taken + |bytes|,
       reported := if phase == Answered then c.taken + |bytes| else c.reported, phase := phase)
  }

  function Step(s: State, a: Action): State
    requires Enabled(s, a)
  {
    match a
    case Start(body, limit) =>
      s.(calls := s.calls + [Call(body, limit, body, limit + 1, [], 0, 0, if body == [] then Answered else Reading)])
    case Read(call) =>
      var c, next := s.calls[call], AfterRead(s.calls[call], FreeOf(s));
      s.(used := s.used + (next.taken - c.taken), calls := s.calls[call := next])
    case GiveBack(call) =>
      var c := s.calls[call];
      s.(used := s.used - c.taken, calls := s.calls[call := c.(phase := Refused(c.phase.why))])
    case Serve(call) =>
      var c := s.calls[call];
      s.(used := s.used - c.reported, calls := s.calls[call := c.(phase := Served)])
  }

  function Run(limit: nat, schedule: seq<Action>): State {
    if schedule == [] then Initial(limit)
    else
      var s, a := Run(limit, schedule[..|schedule| - 1]), schedule[|schedule| - 1];
      if Enabled(s, a) then Step(s, a) else s
  }

  /** What a call holds of the budget. */
  function Held(call: Call): nat {
    match call.phase
    case Refused(_) => 0
    case Served => 0
    case _ => |call.buffered|
  }

  function TotalHeld(calls: seq<Call>): nat {
    if calls == [] then 0 else TotalHeld(calls[..|calls| - 1]) + Held(calls[|calls| - 1])
  }

  lemma {:induction false} TotalUpdated(calls: seq<Call>, i: nat, call: Call)
    requires i < |calls|
    ensures TotalHeld(calls[i := call]) == TotalHeld(calls) - Held(calls[i]) + Held(call)
  {
    hide Held;
    var last := |calls| - 1;
    var next := calls[i := call];
    if i == last {
      assert next[..last] == calls[..last];
    } else {
      assert next[..last] == calls[..last][i := call];
      TotalUpdated(calls[..last], i, call);
    }
  }

  /** What a call has gathered is the beginning of its body; while it may still read, the rest of the body is in its
      source. */
  ghost predicate Gathers(c: Call) {
    && c.buffered <= Content(c.body)
    && c.room + |c.buffered| == c.limit + 1
    && (c.room > 0 ==>
          && c.buffered + Content(c.source) == Content(c.body)
          && (EndsClean(c.source) <==> EndsClean(c.body)))
  }

  /** A call's own counters and its end: it holds what it gathered, never more than one byte past its limit; what it
      answers is the whole body, within its limit, and cleanly ended; a body refused as too large is, and one refused
      as broken is broken. */
  ghost predicate CallInv(c: Call) {
    && c.taken == |c.buffered| <= c.limit + 1
    && match c.phase
       case Reading => Gathers(c)
       case Answered => c.reported == |c.buffered| <= c.limit && c.buffered == Content(c.body) && EndsClean(c.body)
       case Served => c.reported == |c.buffered| <= c.limit && c.buffered == Content(c.body) && EndsClean(c.body)
       case Failing(why) => RightlyRefused(c, why)
       case Refused(why) => RightlyRefused(c, why)
  }

  ghost predicate RightlyRefused(c: Call, why: Failure) {
    match why
    case TooLarge => |Content(c.body)| > c.limit
    case SourceFailed => !EndsClean(c.body)
    case OverBudget => true
  }

  ghost predicate Inv(s: State) {
    && s.used == TotalHeld(s.calls)
    && 0 <= s.used <= s.limit
    && forall i :: 0 <= i < |s.calls| ==> CallInv(s.calls[i])
  }

  /** A read moves bytes from the front of the source to the end of what is gathered. */
  lemma ReadGathers(c: Call, free: nat)
    requires CallInv(c) && c.phase == Reading && c.room > 0 && c.source != [] && |c.source[0].bytes| <= c.room
    requires c.source[0].bytes == [] || |c.source[0].bytes| <= free
    ensures AfterRead(c, free).buffered == c.buffered + c.source[0].bytes && CallInv(AfterRead(c, free))
  {
    var chunk, rest := c.source[0], c.source[1..];
    assert Content(c.source) == chunk.bytes + (if chunk.More? then Content(rest) else []);
    assert c.buffered + chunk.bytes + (if chunk.More? then Content(rest) else []) == Content(c.body);
    if !chunk.More? {
      assert c.buffered + chunk.bytes + [] == c.buffered + chunk.bytes;
    }
  }

  lemma ReadKeepsCall(c: Call, free: nat)
    requires CallInv(c) && c.phase == Reading
    ensures CallInv(AfterRead(c, free))
    ensures AfterRead(c, free).taken == c.taken + |ReadAnswer(c.source, c.room, free).0|
    ensures |ReadAnswer(c.source, c.room, free).0| <= free
  {
    assert c.buffered + [] == c.buffered;
    if c.room > 0 && c.source != [] && |c.source[0].bytes| <= c.room
        && (c.source[0].bytes == [] || |c.source[0].bytes| <= free) {
      ReadGathers(c, free);
    } else if c.room > 0 && c.source != [] && |c.source[0].bytes| > c.room {
      assert c.buffered + c.source[0].bytes[..c.room] <= c.buffered + Content(c.source);
    }
  }

  lemma StartKeeps(s: State, a: Action)
    requires Inv(s) && Enabled(s, a) && a.Start?
    ensures Inv(Step(s, a)) && Step(s, a).limit == s.limit
  {
    hide AfterRead;
    var next := Step(s, a);
    assert next.calls[..|s.calls|] == s.calls;
    assert [] + Content(a.body) == Content(a.body);
  }

  lemma StepKeeps(s: State, a: Action)
    requires Inv(s) && Enabled(s, a)
    ensures Inv(Step(s, a)) && Step(s, a).limit == s.limit
  {
    if a.Start? {
      StartKeeps(s, a);
    } else {
      hide AfterRead, Content;
      TotalUpdated(s.calls, a.call, Step(s, a).calls[a.call]);
      if a.Read? {
        ReadKeepsCall(s.calls[a.call], FreeOf(s));
      }
    }
  }

  /** At every moment of every interleaving, the budget in use is exactly what the running and answered calls hold,
      and lies within its limit. */
  lemma {:induction false} UsedIsHeld(limit: nat, schedule: seq<Action>)
    ensures Inv(Run(limit, schedule)) && Run(limit, schedule).limit == limit
    decreases |schedule|
  {
    if schedule != [] {
      var s, a := Run(limit, schedule[..|schedule| - 1]), schedule[|schedule| - 1];
      UsedIsHeld(limit, schedule[..|schedule| - 1]);
      if Enabled(s, a) {
        StepKeeps(s, a);
      }
    }
  }

  /** Whatever the other calls do meanwhile, an answered body is the whole body, cleanly ended, within its limit, and
      reported with its length; one refused as too large is too large, and one refused as broken is broken. */
  lemma AnswersAreRight(limit: nat, schedule: seq<Action>, call: Call)
    requires call in Run(limit, schedule).calls
    ensures call.phase == Answered ==>
              && call.buffered == Content(call.body) && EndsClean(call.body)
              && |call.buffered| <= call.limit && call.reported == |call.buffered|
    ensures call.phase == Refused(TooLarge) ==> |Content(call.body)| > call.limit
    ensures call.phase == Refused(SourceFailed) ==> !EndsClean(call.body)
  {
    UsedIsHeld(limit, schedule);
    assert CallInv(call);
  }

  lemma {:induction false} IdleHoldsNothing(calls: seq<Call>)
    requires forall i :: 0 <= i < |calls| ==> calls[i].phase.Refused? || calls[i].phase == Served
    ensures TotalHeld(calls) == 0
  {
    if calls != [] {
      IdleHoldsNothing(calls[..|calls| - 1]);
    }
  }

  /** Nothing leaks: once every call was refused or served, the whole budget is free again. */
  lemma NothingLeaks(limit: nat, schedule: seq<Action>)
    requires forall call :: call in Run(limit, schedule).calls ==> call.phase.Refused? || call.phase == Served
    ensures Run(limit, schedule).used == 0
  {
    UsedIsHeld(limit, schedule);
    IdleHoldsNothing(Run(limit, schedule).calls);
  }

  /** A refusal for want of budget happens only when the bytes just read do not fit beside what the other calls and
      this one hold. */
  lemma RefusedOnlyWhenFull(limit: nat, schedule: seq<Action>, call: nat)
    requires Enabled(Run(limit, schedule), Read(call))
    ensures var s := Run(limit, schedule);
            var bytes := NextRead(s.calls[call].source, s.calls[call].room).bytes;
            InPhase(Step(s, Read(call)), call, Failing(OverBudget))
            <==> bytes != [] && TotalHeld(s.calls) + |bytes| > limit
  {
    UsedIsHeld(limit, schedule);
  }

  // ---------------------------------------------------------------- a call that nobody disturbs

  lemma OneMore(limit: nat, schedule: seq<Action>, a: Action)
    requires Enabled(Run(limit, schedule), a)
    ensures Run(limit, schedule + [a]) == Step(Run(limit, schedule), a)
  {
    assert (schedule + [a])[..|schedule|] == schedule;
  }

  predicate ByCall(a: Action, call: nat) {
    a == Read(call) || a == GiveBack(call)
  }

  /** Where a call stands once its reads gathered this. */
  function Finished(all: seq<Byte>, failure: Option<Failure>, limit: nat): Phase {
    if failure.Some? then Failing(failure.value) else if |all| > limit then Failing(TooLarge) else Answered
  }

  /** Reading on to the end gathers what reading the source as a whole gathers. */
  lemma {:induction false} ReadingEnds(limit: nat, schedule: seq<Action>, call: nat) returns (more: seq<Action>)
    requires InPhase(Run(limit, schedule), call, Reading)
    ensures forall a :: a in more ==> ByCall(a, call)
    ensures var s, next := Run(limit, schedule), Run(limit, schedule + more);
            var c := s.calls[call];
            var (all, failure) := Reads(c.source, c.room, FreeOf(s));
            && |next.calls| == |s.calls| && next.calls[call].phase == Finished(c.buffered + all, failure, c.limit)
            && next.calls[call].limit == c.limit && next.calls[call].buffered == c.buffered + all
            && forall i :: 0 <= i < |s.calls| && i != call ==> next.calls[i] == s.calls[i]
    decreases |Run(limit, schedule).calls[call].source|
  {
    hide Run, Reads, ReadAnswer, NextRead, SourceAfter, Inv;
    var s := Run(limit, schedule);
    var c := s.calls[call];
    UsedIsHeld(limit, schedule);
    OneRead(c.source, c.room, FreeOf(s));
    OneMore(limit, schedule, Read(call));
    more := [Read(call)];
    var bytes := ReadAnswer(c.source, c.room, FreeOf(s)).0;
    var next := Run(limit, schedule + more);
    assert next.calls[call].buffered == c.buffered + bytes;
    if next.calls[call].phase == Reading {
      FreeShrinks(limit, schedule, call);
      var rest := ReadingEnds(limit, schedule + more, call);
      assert schedule + (more + rest) == schedule + more + rest;
      var (others, failure) := Reads(next.calls[call].source, next.calls[call].room, FreeOf(next));
      assert c.buffered + bytes + others == c.buffered + (bytes + others);
      more := more + rest;
    } else {
      assert bytes + [] == bytes;
    }
  }

  lemma FreeShrinks(limit: nat, schedule: seq<Action>, call: nat)
    requires InPhase(Run(limit, schedule), call, Reading)
    ensures var s := Run(limit, schedule);
            var c := s.calls[call];
            var bytes := ReadAnswer(c.source, c.room, FreeOf(s)).0;
            |bytes| <= FreeOf(s) && FreeOf(Step(s, Read(call))) == FreeOf(s) - |bytes|
  {
    hide ReadAnswer, NextRead, SourceAfter;
    UsedIsHeld(limit, schedule);
    ReadKeepsCall(Run(limit, schedule).calls[call], FreeOf(Run(limit, schedule)));
  }

  /** A call that starts and goes on alone ends as the method does: the body is answered exactly when it ends cleanly,
      within its own limit and within what the others leave of the budget; otherwise all is given back. */
  lemma CallIsItsSteps(limit: nat, schedule: seq<Action>, body: seq<Chunk>, own: nat) returns (more: seq<Action>)
    ensures var s, next := Run(limit, schedule), Run(limit, schedule + more);
            var call := |s.calls|;
            var fits := EndsClean(body) && |Content(body)| <= own && TotalHeld(s.calls) + |Content(body)| <= limit;
            && |next.calls| == call + 1 && next.calls[..call] == s.calls
            && (if fits then next.calls[call].phase == Answered && next.calls[call].buffered == Content(body)
                else next.calls[call].phase.Refused?)
            && next.used == s.used + if fits then |Content(body)| else 0
  {
    hide Run, Reads, AfterRead, CallInv;
    var s := Run(limit, schedule);
    var call := |s.calls|;
    UsedIsHeld(limit, schedule);
    OneMore(limit, schedule, Start(body, own));
    more := [Start(body, own)];
    if body != [] {
      var started := Run(limit, schedule + more);
      var rest := ReadingEnds(limit, schedule + more, call);
      ReadsWhole(body, own + 1, FreeOf(started));
      assert forall all: seq<Byte> :: [] + all == all;
      assert schedule + (more + rest) == schedule + more + rest;
      more := more + rest;
      if Run(limit, schedule + more).calls[call].phase.Failing? {
        OneMore(limit, schedule + more, GiveBack(call));
        assert schedule + (more + [GiveBack(call)]) == schedule + more + [GiveBack(call)];
        more := more + [GiveBack(call)];
      }
    }
    UsedIsHeld(limit, schedule + more);
    var next := Run(limit, schedule + more);
    assert next.calls == s.calls + [next.calls[call]];
    AnswersAreRight(limit, schedule + more, next.calls[call]);
  }
}

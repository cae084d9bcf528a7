/** The join barrier of core/host/coordinator.go: two maps that must be a function of what happened. */
module Coordinator {
  import opened Prelude
  import opened Sessions

  /** What changes the join state: a worker reported to a lead, a lead's cohort was sealed or launched, a session was
      forgotten. */
  datatype Event = Reported(worker: string, lead: string) | Expected(lead: string, count: int) | Forgot(name: string)

  // ---------------------------------------------------------------- what the history says

  /** The worker reported to the lead, and neither was forgotten since. */
  ghost predicate StillReported(h: seq<Event>, lead: string, worker: string) {
    exists i :: 0 <= i < |h| && h[i] == Reported(worker, lead) && !ForgottenAfter(h, i, worker)
        && !ForgottenAfter(h, i, lead)
  }

  ghost predicate ForgottenAfter(h: seq<Event>, i: int, name: string) {
    exists j :: 0 <= i < j < |h| && h[j] == Forgot(name)
  }

  /** The last size given to the lead's cohort, if the lead was not forgotten since. */
  ghost predicate StillExpected(h: seq<Event>, lead: string, count: int) {
    exists i :: 0 <= i < |h| && h[i] == Expected(lead, count) && !ForgottenAfter(h, i, lead)
        && !ResizedAfter(h, i, lead)
  }

  ghost predicate ResizedAfter(h: seq<Event>, i: int, lead: string) {
    exists j :: 0 <= i < j < |h| && h[j].Expected? && h[j].lead == lead
  }

  // ---------------------------------------------------------------- what the maps do

  datatype Maps = Maps(reported: map<string, set<string>>, expected: map<string, int>)

  function ReportedTo(maps: Maps, lead: string): set<string> {
    if lead in maps.reported then maps.reported[lead] else {}
  }

  function AfterReport(maps: Maps, worker: string, lead: string): Maps {
    maps.(reported := maps.reported[lead := ReportedTo(maps, lead) + {worker}])
  }

  function AfterForget(maps: Maps, name: string): Maps {
    Maps(map lead | lead in maps.reported && lead != name && maps.reported[lead] - {name} != {}
           :: maps.reported[lead] - {name},
         map lead | lead in maps.expected && lead != name :: maps.expected[lead])
  }

  function After(maps: Maps, event: Event): Maps {
    match event
    case Reported(worker, lead) => AfterReport(maps, worker, lead)
    case Expected(lead, count) => maps.(expected := maps.expected[lead := count])
    case Forgot(name) => AfterForget(maps, name)
  }

  function Folded(h: seq<Event>): Maps {
    if h == [] then Maps(map[], map[]) else After(Folded(h[..|h| - 1]), h[|h| - 1])
  }

  lemma ReportedStep(h: seq<Event>, event: Event, lead: string, worker: string)
    ensures StillReported(h + [event], lead, worker)
       <==> event == Reported(worker, lead)
            || (StillReported(h, lead, worker) && event != Forgot(worker) && event != Forgot(lead))
  {
    var next := h + [event];
    if StillReported(h, lead, worker) && event != Forgot(worker) && event != Forgot(lead) {
      var i :| 0 <= i < |h| && h[i] == Reported(worker, lead) && !ForgottenAfter(h, i, worker)
          && !ForgottenAfter(h, i, lead);
      assert next[i] == h[i];
    }
    if event == Reported(worker, lead) {
      assert next[|h|] == Reported(worker, lead);
    }
    if StillReported(next, lead, worker) && event != Reported(worker, lead) {
      var i :| 0 <= i < |next| && next[i] == Reported(worker, lead) && !ForgottenAfter(next, i, worker)
          && !ForgottenAfter(next, i, lead);
      assert next[|h|] == event && h[i] == next[i];
      assert forall j :: 0 <= j < |h| ==> next[j] == h[j];
    }
  }

  lemma ExpectedStep(h: seq<Event>, event: Event, lead: string, count: int)
    ensures StillExpected(h + [event], lead, count)
       <==> event == Expected(lead, count)
            || (StillExpected(h, lead, count) && event != Forgot(lead) && !(event.Expected? && event.lead == lead))
  {
    var next := h + [event];
    if StillExpected(h, lead, count) && event != Forgot(lead) && !(event.Expected? && event.lead == lead) {
      var i :| 0 <= i < |h| && h[i] == Expected(lead, count) && !ForgottenAfter(h, i, lead)
          && !ResizedAfter(h, i, lead);
      assert next[i] == h[i];
    }
    if event == Expected(lead, count) {
      assert next[|h|] == Expected(lead, count);
    }
    if StillExpected(next, lead, count) && event != Expected(lead, count) {
      var i :| 0 <= i < |next| && next[i] == Expected(lead, count) && !ForgottenAfter(next, i, lead)
          && !ResizedAfter(next, i, lead);
      assert next[|h|] == event && h[i] == next[i];
      assert forall j :: 0 <= j < |h| ==> next[j] == h[j];
    }
  }

  /** After any history, the reported map holds exactly the standing reports, under no lead without one, and the
      expected map exactly the standing cohort sizes. */
  lemma {:induction false} MapsAreHistory(h: seq<Event>)
    ensures forall lead, worker :: worker in ReportedTo(Folded(h), lead) <==> StillReported(h, lead, worker)
    ensures forall lead :: lead in Folded(h).reported ==> Folded(h).reported[lead] != {}
    ensures forall lead, count ::
              (lead in Folded(h).expected && Folded(h).expected[lead] == count) <==> StillExpected(h, lead, count)
    decreases |h|
  {
    if h != [] {
      var before, event := h[..|h| - 1], h[|h| - 1];
      assert h == before + [event];
      MapsAreHistory(before);
      forall lead, worker
        ensures worker in ReportedTo(Folded(h), lead) <==> StillReported(h, lead, worker)
      {
        ReportedStep(before, event, lead, worker);
      }
      forall lead, count
        ensures (lead in Folded(h).expected && Folded(h).expected[lead] == count) <==> StillExpected(h, lead, count)
      {
        ExpectedStep(before, event, lead, count);
      }
    }
  }

  // ---------------------------------------------------------------- the coordinator

  datatype Error =
    | UnknownWorker
    | NoParent
    | CleanCheckFailed
    | Uncommitted
    | ParentNotFound
    | DeliveryTimeout
    | LeadNotFound
    | SealNotPositive
    | SealBelowCohort
    | UnknownAgent
    | NoTasks

  datatype Role = Lead | Worker

  /** CoordinationView. */
  datatype View = View(role: Role, lead: string, reported: nat, expected: int, complete: bool)

  /** The figures of the message a report sends to the lead. */
  datatype Note = Note(done: nat, total: int, isSealed: bool, complete: bool)

  /** How a worktree check ends. */
  datatype Check = Clean | Dirty | CheckFailed

  /** The first session of that name. */
  function Named(sessions: seq<Session>, name: string): Option<Session> {
    if sessions == [] then None
    else if sessions[0].name == name then Some(sessions[0])
    else Named(sessions[1..], name)
  }

  function Children(sessions: seq<Session>, parent: string): nat {
    if sessions == [] then 0
    else Children(sessions[..|sessions| - 1], parent) + (if sessions[|sessions| - 1].parent == parent then 1 else 0)
  }

  /** The indices of the sessions under this parent. */
  function Under(sessions: seq<Session>, parent: string): set<nat> {
    set i: nat | i < |sessions| && sessions[i].parent == parent
  }

  lemma {:induction false} ChildrenAreCounted(sessions: seq<Session>, parent: string)
    ensures Children(sessions, parent) == |Under(sessions, parent)|
    decreases |sessions|
  {
    if sessions != [] {
      var front, last := sessions[..|sessions| - 1], |sessions| - 1;
      ChildrenAreCounted(front, parent);
      assert Under(sessions, parent)
          == Under(front, parent) + (if sessions[last].parent == parent then {last} else {});
    }
  }

  /** The first session of that name. */
  method FindByName(sessions: seq<Session>, name: string) returns (r: Option<Session>)
    ensures r == Named(sessions, name)
    ensures r.None? ==> forall i :: 0 <= i < |sessions| ==> sessions[i].name != name
    ensures r.Some? ==>
              exists i ::
                && 0 <= i < |sessions| && sessions[i] == r.value && r.value.name == name
                && forall j :: 0 <= j < i ==> sessions[j].name != name
  {
    for idx := 0 to |sessions|
      invariant Named(sessions, name) == Named(sessions[idx..], name)
      invariant forall j :: 0 <= j < idx ==> sessions[j].name != name
    {
      if sessions[idx].name == name {
        return Some(sessions[idx]);
      }
    }
    return None;
  }

  /** How many sessions name this one as their parent. */
  method ChildCount(sessions: seq<Session>, parent: string) returns (count: nat)
    ensures count == Children(sessions, parent)
    ensures count == |set i: nat | i < |sessions| && sessions[i].parent == parent|
  {
    ChildrenAreCounted(sessions, parent);
    count := 0;
    for idx := 0 to |sessions|
      invariant count == Children(sessions[..idx], parent)
    {
      assert sessions[..idx + 1][..idx] == sessions[..idx];
      if sessions[idx].parent == parent {
        count := count + 1;
      }
    }
    assert sessions[..|sessions|] == sessions;
  }

  /** Takes a worker out of every lead's reports, and drops the leads left with none. */
  method WithoutWorker(reported: map<string, set<string>>, worker: string) returns (next: map<string, set<string>>)
    ensures next == map lead | lead in reported && reported[lead] - {worker} != {} :: reported[lead] - {worker}
  {
    next := reported;
    var todo := reported.Keys;
    while todo != {}
      invariant todo <= next.Keys <= reported.Keys
      invariant forall lead :: lead in todo ==> next[lead] == reported[lead]
      invariant forall lead :: lead in reported && lead !in todo ==>
                  if reported[lead] - {worker} != {}
                  then lead in next && next[lead] == reported[lead] - {worker}
                  else lead !in next
      decreases |todo|
    {
      var parent :| parent in todo;
      var workers := next[parent] - {worker};
      if |workers| == 0 {
        next := next - {parent};
      } else {
        next := next[parent := workers];
      }
      todo := todo - {parent};
    }
  }

  /** How many spawns succeed before the first that fails. */
  function Spawning(spawns: seq<Option<string>>): (n: nat)
    ensures n <= |spawns|
  {
    if spawns == [] || spawns[0].None? then 0 else 1 + Spawning(spawns[1..])
  }

  lemma {:induction false} SpawningAt(spawns: seq<Option<string>>, n: nat)
    requires n <= |spawns| && (forall i :: 0 <= i < n ==> spawns[i].Some?) && (n < |spawns| ==> spawns[n].None?)
    ensures Spawning(spawns) == n
    decreases |spawns|
  {
    if n > 0 {
      SpawningAt(spawns[1..], n - 1);
    }
  }

  lemma {:induction false} SpawningSucceeds(spawns: seq<Option<string>>)
    ensures forall i :: 0 <= i < Spawning(spawns) ==> spawns[i].Some?
    decreases |spawns|
  {
    if spawns != [] && spawns[0].Some? {
      SpawningSucceeds(spawns[1..]);
      assert forall i :: 0 < i < Spawning(spawns) ==> spawns[i] == spawns[1..][i - 1];
    }
  }

  /** The names of the first `n` spawns. */
  function NamesOf(spawns: seq<Option<string>>, n: nat): seq<string>
    requires n <= |spawns|
  {
    if n == 0 then [] else NamesOf(spawns, n - 1) + (if spawns[n - 1].Some? then [spawns[n - 1].value] else [])
  }

  /** What launching a cohort answers: the workers spawned before the first spawn that fails, or why it did not
      begin. */
  function Launched(sessions: seq<Session>, lead: string, agentKnown: bool, spawns: seq<Option<string>>)
    : (seq<string>, Result<(), Error>, bool)
  {
    if !agentKnown then ([], Err(UnknownAgent), false)
    else if Named(sessions, lead).None? then ([], Err(LeadNotFound), false)
    else if spawns == [] then ([], Err(NoTasks), false)
    else (NamesOf(spawns, Spawning(spawns)), Ok(()), Spawning(spawns) < |spawns|)
  }

  /** Spawns a worker per task until one spawn fails, and counts the children the lead had when it began. `spawns`
      says how each spawn would end. It leaves the coordinator alone. */
  method Launch(sessions: seq<Session>, lead: string, agentKnown: bool, spawns: seq<Option<string>>)
    returns (spawned: seq<string>, r: Result<(), Error>, failed: bool, preexisting: nat)
    ensures (spawned, r, failed) == Launched(sessions, lead, agentKnown, spawns)
    ensures r == if !agentKnown then Err(UnknownAgent)
                 else if forall i :: 0 <= i < |sessions| ==> sessions[i].name != lead then Err(LeadNotFound)
                 else if spawns == [] then Err(NoTasks)
                 else Ok(())
    ensures r.Ok? ==> preexisting == Children(sessions, lead)
    ensures r.Err? ==> spawned == [] && !failed
  {
    spawned, failed, preexisting := [], false, 0;
    if !agentKnown {
      return [], Err(UnknownAgent), false, 0;
    }
    var found := FindByName(sessions, lead);
    if found.None? {
      return [], Err(LeadNotFound), false, 0;
    }
    if |spawns| == 0 {
      return [], Err(NoTasks), false, 0;
    }
    preexisting := ChildCount(sessions, lead);
    var task := 0;
    while task < |spawns|
      invariant task <= |spawns| && !failed
      invariant forall i :: 0 <= i < task ==> spawns[i].Some?
      invariant spawned == NamesOf(spawns, task)
    {
      if spawns[task].None? {
        failed := true;
        break;
      }
      spawned := spawned + [spawns[task].value];
      task := task + 1;
    }
    SpawningAt(spawns, task);
    r := Ok(());
  }

  /** A cohort is launched up to the first spawn that fails, in order. */
  lemma LaunchedInOrder(sessions: seq<Session>, lead: string, agentKnown: bool, spawns: seq<Option<string>>)
    ensures var (spawned, r, failed) := Launched(sessions, lead, agentKnown, spawns);
            && |spawned| <= |spawns| && (forall i :: 0 <= i < |spawned| ==> spawns[i] == Some(spawned[i]))
            && (r.Ok? ==> if failed then |spawned| < |spawns| && spawns[|spawned|].None? else |spawned| == |spawns|)
  {
    SpawningSucceeds(spawns);
    SpawningStops(spawns);
    NamesInOrder(spawns, Spawning(spawns));
  }

  lemma {:induction false} SpawningStops(spawns: seq<Option<string>>)
    ensures Spawning(spawns) < |spawns| ==> spawns[Spawning(spawns)].None?
    decreases |spawns|
  {
    if spawns != [] && spawns[0].Some? {
      SpawningStops(spawns[1..]);
    }
  }

  lemma {:induction false} NamesInOrder(spawns: seq<Option<string>>, n: nat)
    requires n <= |spawns| && forall i :: 0 <= i < n ==> spawns[i].Some?
    ensures |NamesOf(spawns, n)| == n && forall i :: 0 <= i < n ==> spawns[i] == Some(NamesOf(spawns, n)[i])
  {
    if n > 0 {
      NamesInOrder(spawns, n - 1);
    }
  }

  class Coordinator {
    var reported: map<string, set<string>>
    var expected: map<string, int>
    ghost var history: seq<Event>

    ghost predicate Valid()
      reads this
    {
      Maps(reported, expected) == Folded(history)
    }

    constructor ()
      ensures Valid() && history == []
    {
      reported, expected, history := map[], map[], [];
    }

    /** Records a worker's report and says how far its lead's cohort is. Every refusal leaves the state alone; a
        report whose message could not be delivered is an error that stays recorded. */
    method Report(sessions: seq<Session>, worker: string, check: Check, delivered: bool)
      returns (r: Result<string, Error>, note: Option<Note>)
      requires Valid()
      modifies this
      ensures Valid()
      ensures var from := Named(sessions, worker);
              var refusal :=
                if from.None? then Some(UnknownWorker)
                else if from.value.parent == "" then Some(NoParent)
                else if check.CheckFailed? then Some(CleanCheckFailed)
                else if check.Dirty? then Some(Uncommitted)
                else if Named(sessions, from.value.parent).None? then Some(ParentNotFound)
                else None;
              if refusal.Some? then r == Err(refusal.value) && note.None? && history == old(history)
              else
                && history == old(history) + [Reported(worker, from.value.parent)]
                && r == (if delivered then Ok(from.value.parent) else Err(DeliveryTimeout))
                && note.Some? && note.value.done == |reported[from.value.parent]|
                && note.value.isSealed == (from.value.parent in expected)
                && note.value.total == (if note.value.isSealed then expected[from.value.parent]
                                        else Children(sessions, from.value.parent))
                && note.value.complete == (note.value.done >= note.value.total)
    {
      hide Named, Children;
      note := None;
      var from := FindByName(sessions, worker);
      if from.None? {
        return Err(UnknownWorker), None;
      }
      var lead := from.value.parent;
      if lead == "" {
        return Err(NoParent), None;
      }
      if check.CheckFailed? {
        return Err(CleanCheckFailed), None;
      }
      if !check.Clean? {
        return Err(Uncommitted), None;
      }
      var parent := FindByName(sessions, lead);
      if parent.None? {
        return Err(ParentNotFound), None;
      }
      assert history + [Reported(worker, lead)] != [] && (history + [Reported(worker, lead)])[..|history|] == history;
      if lead !in reported {
        reported := reported[lead := {}];
      }
      reported := reported[lead := reported[lead] + {worker}];
      history := history + [Reported(worker, lead)];
      var done := |reported[lead]|;
      var isSealed := lead in expected;
      var total: int;
      if isSealed {
        total := expected[lead];
      } else {
        total := ChildCount(sessions, lead);
      }
      note := Some(Note(done, total, isSealed, done >= total));
      if !delivered {
        return Err(DeliveryTimeout), note;
      }
      return Ok(lead), note;
    }

    /** The lead's cohort has this size from now on. */
    method Resize(lead: string, count: int)
      requires Valid()
      modifies this
      ensures Valid() && history == old(history) + [Expected(lead, count)] && reported == old(reported)
    {
      assert (history + [Expected(lead, count)])[..|history|] == history;
      expected := expected[lead := count];
      history := history + [Expected(lead, count)];
    }

    method Seal(sessions: seq<Session>, lead: string, count: int) returns (r: Result<string, Error>)
      requires Valid()
      modifies this
      ensures Valid()
      ensures r == if Named(sessions, lead).None? then Err(LeadNotFound)
                   else if count <= 0 then Err(SealNotPositive)
                   else if count < Children(sessions, lead) then Err(SealBelowCohort)
                   else Ok(lead)
      ensures history == if r.Ok? then old(history) + [Expected(lead, count)] else old(history)
    {
      hide Folded, Named, Children;
      var found := FindByName(sessions, lead);
      if found.None? {
        return Err(LeadNotFound);
      }
      if count <= 0 {
        return Err(SealNotPositive);
      }
      var cohort := ChildCount(sessions, lead);
      if count < cohort {
        return Err(SealBelowCohort);
      }
      Resize(lead, count);
      return Ok(lead);
    }

    /** A fan-out that nobody disturbs: launch, then expect the children there were plus those spawned. Other calls
        may come between the two, which is why each has a contract of its own. */
    method FanOut(sessions: seq<Session>, lead: string, agentKnown: bool, spawns: seq<Option<string>>)
      returns (spawned: seq<string>, r: Result<(), Error>, failed: bool)
      requires Valid()
      modifies this
      ensures Valid()
      ensures (spawned, r, failed) == Launched(sessions, lead, agentKnown, spawns)
      ensures r.Err? ==> spawned == [] && !failed
      ensures |spawned| <= |spawns| && forall i :: 0 <= i < |spawned| ==> spawns[i] == Some(spawned[i])
      ensures r.Ok? ==> if failed then |spawned| < |spawns| && spawns[|spawned|].None? else |spawned| == |spawns|
      ensures history == if spawned == [] then old(history)
                         else old(history) + [Expected(lead, Children(sessions, lead) + |spawned|)]
    {
      hide Folded, Named, Children, Launched;
      var preexisting;
      spawned, r, failed, preexisting := Launch(sessions, lead, agentKnown, spawns);
      LaunchedInOrder(sessions, lead, agentKnown, spawns);
      if |spawned| > 0 {
        Resize(lead, preexisting + |spawned|);
      }
    }

    /** Drops everything a session is known for, as a lead and as a worker, and the leads left without a report. */
    method Forget(name: string)
      requires Valid()
      modifies this
      ensures Valid() && history == old(history) + [Forgot(name)]
    {
      reported := reported - {name};
      expected := expected - {name};
      reported := WithoutWorker(reported, name);
      history := history + [Forgot(name)];
      assert history[..|old(history)|] == old(history);
      assert Maps(reported, expected) == AfterForget(old(Maps(reported, expected)), name);
    }

    /** What the operator sees of a session. */
    method CoordinationView(sessions: seq<Session>, name: string) returns (view: Option<View>)
      requires Valid()
      ensures view == if name in reported || name in expected
                      then Some(View(Lead, name, |ReportedTo(Maps(reported, expected), name)|,
                                     if name in expected then expected[name] else 0,
                                     name in expected && expected[name] > 0
                                     && |ReportedTo(Maps(reported, expected), name)| >= expected[name]))
                      else if Named(sessions, name).Some? && Named(sessions, name).value.parent != ""
                      then Some(View(Worker, Named(sessions, name).value.parent, 0, 0, false))
                      else None
    {
      var workers := if name in reported then reported[name] else {};
      var count := if name in expected then expected[name] else 0;
      if name in reported || name in expected {
        return Some(View(Lead, name, |workers|, count, count > 0 && |workers| >= count));
      }
      var found := FindByName(sessions, name);
      if found.Some? && found.value.parent != "" {
        return Some(View(Worker, found.value.parent, 0, 0, false));
      }
      return None;
    }
  }

  /** The barrier of a lead is complete exactly when its standing cohort size is positive and reached by distinct
      workers whose reports still stand. */
  lemma BarrierIsHistory(h: seq<Event>, lead: string, workers: set<string>)
    requires forall worker :: worker in workers <==> StillReported(h, lead, worker)
    ensures var maps := Folded(h);
            lead in maps.expected && maps.expected[lead] > 0 && |ReportedTo(maps, lead)| >= maps.expected[lead]
            <==> exists count :: StillExpected(h, lead, count) && 0 < count <= |workers|
  {
    MapsAreHistory(h);
    var maps := Folded(h);
    assert ReportedTo(maps, lead) == workers;
    if lead in maps.expected {
      assert StillExpected(h, lead, maps.expected[lead]);
    }
  }

  /** A session is shown as a lead exactly when a report to it or a cohort size of it stands. */
  lemma ShownAsLead(h: seq<Event>, lead: string)
    ensures lead in Folded(h).reported || lead in Folded(h).expected
       <==> (exists worker :: StillReported(h, lead, worker)) || (exists count :: StillExpected(h, lead, count))
  {
    MapsAreHistory(h);
    var maps := Folded(h);
    if lead in maps.reported {
      var worker :| worker in maps.reported[lead];
      assert StillReported(h, lead, worker);
    }
    if lead in maps.expected {
      assert StillExpected(h, lead, maps.expected[lead]);
    }
    if exists worker :: StillReported(h, lead, worker) {
      var worker :| StillReported(h, lead, worker);
      assert worker in ReportedTo(maps, lead);
    }
  }

  /** Forgetting a session leaves no trace of it, on either side of any report. */
  lemma ForgottenIsGone(h: seq<Event>, name: string)
    ensures forall other ::
              && !StillReported(h + [Forgot(name)], name, other)
              && !StillReported(h + [Forgot(name)], other, name)
    ensures forall count :: !StillExpected(h + [Forgot(name)], name, count)
    ensures forall lead, worker :: lead != name && worker != name ==>
              (StillReported(h + [Forgot(name)], lead, worker) <==> StillReported(h, lead, worker))
  {
    forall lead, worker
      ensures StillReported(h + [Forgot(name)], lead, worker)
              <==> StillReported(h, lead, worker) && worker != name && lead != name
    {
      ReportedStep(h, Forgot(name), lead, worker);
    }
    forall count
      ensures !StillExpected(h + [Forgot(name)], name, count)
    {
      ExpectedStep(h, Forgot(name), name, count);
    }
  }
}

/** Automatic compaction and its latch. After every turn the pump compares the context reading with a threshold that
    may be changed at any time, and compacts when it is crossed, unless an earlier compaction already did what it
    could. */
module AutoCompact {

  const PERCENT_SCALE := 100

  predicate Crossed(used: int, limit: int, percent: int) {
    used * PERCENT_SCALE >= percent * limit
  }

  /** How a compaction ended: refused or failed, done without a figure, or done with the tokens that remain. */
  datatype Outcome = Failed | Unmeasured | Measured(tokensAfter: int)

  /** The two fields the latch lives in. */
  datatype Gauge = Gauge(reading: int, spent: bool)

  // ---------------------------------------------------------------- what each operation does to the gauge

  /** A compaction that measured its result replaces the reading and sets the latch by the threshold in force when it
      settles. */
  function Settle(g: Gauge, outcome: Outcome, limit: int, percent: int): Gauge {
    match outcome
    case Measured(tokens) => Gauge(tokens, Crossed(tokens, limit, percent))
    case _ => g
  }

  predicate Starts(g: Gauge, limit: int, percent: int) {
    percent != 0 && g.reading != 0 && Crossed(g.reading, limit, percent) && !g.spent
  }

  /** The check after a turn; the threshold may have changed by the time the compaction settles. */
  function Check(g: Gauge, limit: int, percent: int, outcome: Outcome, limitAfter: int, percentAfter: int): Gauge {
    if percent == 0 || g.reading == 0 then g
    else if !Crossed(g.reading, limit, percent) then g.(spent := false)
    else if g.spent then g
    else Settle(g.(spent := true), outcome, limitAfter, percentAfter)
  }

  class Driver {
    var turnReading: int
    var compactSpent: bool

    ghost function View(): Gauge
      reads this
    {
      Gauge(turnReading, compactSpent)
    }

    constructor ()
      ensures View() == Gauge(0, false)
    {
      turnReading, compactSpent := 0, false;
    }

    /** A measured result becomes the reading, and the latch is set exactly when it is not below that many percent of
        the limit. */
    method SettleCompaction(outcome: Outcome, limit: int, percent: int)
      modifies this
      ensures View() == Settle(old(View()), outcome, limit, percent)
      ensures turnReading == if outcome.Measured? then outcome.tokensAfter else old(turnReading)
      ensures compactSpent <==>
                if outcome.Measured? then 100 * outcome.tokensAfter >= percent * limit else old(compactSpent)
    {
      if !outcome.Measured? {
        return;
      }
      turnReading := outcome.tokensAfter;
      compactSpent := Crossed(outcome.tokensAfter, limit, percent);
    }

    /** Manual and automatic compactions alike: a failure settles nothing. */
    method RunCompaction(outcome: Outcome, limit: int, percent: int)
      modifies this
      ensures View() == Settle(old(View()), outcome, limit, percent)
    {
      if outcome.Failed? {
        return;
      }
      SettleCompaction(outcome, limit, percent);
    }

    /** `ineffective`: the session is told that compacting did not get below the threshold. */
    method MaybeAutoCompact(limit: int, percent: int, outcome: Outcome, limitAfter: int, percentAfter: int)
      returns (started: bool, ineffective: bool)
      modifies this
      ensures View() == Check(old(View()), limit, percent, outcome, limitAfter, percentAfter)
      ensures started <==> Starts(old(View()), limit, percent)
      ensures started <==>
                && percent != 0 && old(turnReading) != 0 && !old(compactSpent)
                && 100 * old(turnReading) >= percent * limit
      ensures ineffective <==> started && outcome.Measured? && 100 * outcome.tokensAfter >= percent * limit
      ensures turnReading == if started && outcome.Measured? then outcome.tokensAfter else old(turnReading)
      ensures compactSpent <==>
                if started then outcome.Measured? ==> 100 * outcome.tokensAfter >= percentAfter * limitAfter
                else old(compactSpent)
                     && (percent == 0 || old(turnReading) == 0 || 100 * old(turnReading) >= percent * limit)
    {
      started, ineffective := false, false;
      if percent == 0 || turnReading == 0 {
        return;
      }
      if !Crossed(turnReading, limit, percent) {
        compactSpent := false;
        return;
      }
      if compactSpent {
        return;
      }
      compactSpent := true;
      RunCompaction(outcome, limitAfter, percentAfter);
      started := true;
      if !outcome.Measured? {
        return;
      }
      ineffective := Crossed(outcome.tokensAfter, limit, percent);
    }
  }

  // ---------------------------------------------------------------- the threshold

  /** A share of a limit, in whole tokens, rounded up. */
  function Threshold(limit: nat, percent: nat): nat {
    (percent * limit + 99) / 100
  }

  /** With an unspent latch a reading starts a compaction exactly from the threshold on, and the threshold lies within
      the limit: a full context always starts one, an empty one never. */
  lemma StartsFromTheThreshold(reading: nat, limit: nat, percent: nat)
    requires 0 < limit && 0 < percent <= 100
    ensures 0 < Threshold(limit, percent) <= limit
    ensures 100 * (Threshold(limit, percent) - 1) < percent * limit <= 100 * Threshold(limit, percent)
    ensures Starts(Gauge(reading, false), limit, percent) <==> Threshold(limit, percent) <= reading
    ensures Starts(Gauge(limit, false), limit, percent) && !Starts(Gauge(0, false), limit, percent)
  {
    var product := percent * limit;
    assert 0 < product <= 100 * limit;
    assert PERCENT_SCALE * reading == reading * PERCENT_SCALE;
  }

  // ---------------------------------------------------------------- whole runs of a session

  datatype Event =
    | TurnBegins
    | TurnCompletes(reading: int)
    | AfterTurn(limit: int, percent: int, outcome: Outcome, limitAfter: int, percentAfter: int)
    | Manual(outcome: Outcome, limit: int, percent: int)

  /** What a run shows: a reading compared with the threshold in force, a compaction's measured result compared
      likewise, and the start of an automatic compaction. */
  datatype Note =
    | Seen(tokens: int, limit: int, percent: int)
    | Result(tokens: int, limit: int, percent: int)
    | AutoStart

  function Next(g: Gauge, e: Event): Gauge {
    match e
    case TurnBegins => g.(reading := 0)
    case TurnCompletes(reading) => g.(reading := reading)
    case AfterTurn(limit, percent, outcome, limitAfter, percentAfter) =>
      Check(g, limit, percent, outcome, limitAfter, percentAfter)
    case Manual(outcome, limit, percent) => Settle(g, outcome, limit, percent)
  }

  function ResultOf(outcome: Outcome, limit: int, percent: int): seq<Note> {
    match outcome
    case Measured(tokens) => [Result(tokens, limit, percent)]
    case _ => []
  }

  function NotesOf(g: Gauge, e: Event): seq<Note> {
    match e
    case TurnBegins => []
    case TurnCompletes(_) => []
    case AfterTurn(limit, percent, outcome, limitAfter, percentAfter) =>
      if percent == 0 || g.reading == 0 then []
      else if Starts(g, limit, percent) then
        [Seen(g.reading, limit, percent), AutoStart] + ResultOf(outcome, limitAfter, percentAfter)
      else [Seen(g.reading, limit, percent)]
    case Manual(outcome, limit, percent) => ResultOf(outcome, limit, percent)
  }

  function Run(events: seq<Event>): Gauge {
    if events == [] then Gauge(0, false) else Next(Run(events[..|events| - 1]), events[|events| - 1])
  }

  function Notes(events: seq<Event>): seq<Note> {
    if events == [] then []
    else Notes(events[..|events| - 1]) + NotesOf(Run(events[..|events| - 1]), events[|events| - 1])
  }

  // ---------------------------------------------------------------- the latch as a property of the history

  /** A measurement below the threshold in force when it was taken. */
  predicate Below(n: Note) {
    !n.AutoStart? && !Crossed(n.tokens, n.limit, n.percent)
  }

  /** Nothing is to be gained by compacting again: an automatic start, or a compaction that ended above the
      threshold. */
  predicate Exhausts(n: Note) {
    n.AutoStart? || (n.Result? && Crossed(n.tokens, n.limit, n.percent))
  }

  predicate NoneBelow(notes: seq<Note>, from: nat) {
    forall k :: from <= k < |notes| ==> !Below(notes[k])
  }

  /** Something exhausted the session's room, and no measurement since was below the threshold. */
  ghost predicate Latched(notes: seq<Note>) {
    exists i: nat :: i < |notes| && Exhausts(notes[i]) && NoneBelow(notes, i)
  }

  lemma LatchedAfter(notes: seq<Note>, n: Note)
    ensures Latched(notes + [n]) <==> Exhausts(n) || (!Below(n) && Latched(notes))
  {
    var all := notes + [n];
    if Exhausts(n) {
      assert Exhausts(all[|notes|]) && NoneBelow(all, |notes|);
    }
    if !Below(n) && Latched(notes) {
      var i: nat :| i < |notes| && Exhausts(notes[i]) && NoneBelow(notes, i);
      assert Exhausts(all[i]) && NoneBelow(all, i);
    }
    if Latched(all) && !Exhausts(n) {
      var i: nat :| i < |all| && Exhausts(all[i]) && NoneBelow(all, i);
      assert i < |notes| && !Below(all[|notes|]);
      assert forall k :: i <= k < |notes| ==> notes[k] == all[k];
      assert Exhausts(notes[i]) && NoneBelow(notes, i);
    }
  }

  lemma SettleIsLatched(notes: seq<Note>, g: Gauge, outcome: Outcome, limit: int, percent: int)
    requires g.spent <==> Latched(notes)
    ensures Settle(g, outcome, limit, percent).spent <==> Latched(notes + ResultOf(outcome, limit, percent))
  {
    if outcome.Measured? {
      LatchedAfter(notes, Result(outcome.tokensAfter, limit, percent));
    } else {
      assert notes + [] == notes;
    }
  }

  lemma NextIsLatched(notes: seq<Note>, g: Gauge, e: Event)
    requires g.spent <==> Latched(notes)
    ensures Next(g, e).spent <==> Latched(notes + NotesOf(g, e))
  {
    assert notes + [] == notes;
    match e
    case Manual(outcome, limit, percent) => SettleIsLatched(notes, g, outcome, limit, percent);
    case AfterTurn(limit, percent, outcome, limitAfter, percentAfter) =>
      if percent != 0 && g.reading != 0 {
        var seen := Seen(g.reading, limit, percent);
        LatchedAfter(notes, seen);
        if Starts(g, limit, percent) {
          LatchedAfter(notes + [seen], AutoStart);
          assert notes + [seen] + [AutoStart] == notes + [seen, AutoStart];
          SettleIsLatched(notes + [seen, AutoStart], g.(spent := true), outcome, limitAfter, percentAfter);
          assert notes + NotesOf(g, e) == notes + [seen, AutoStart] + ResultOf(outcome, limitAfter, percentAfter);
        }
      }
    case _ =>
  }

  /** The one stored bit says what the whole history says. */
  lemma {:induction false} SpentIsLatched(events: seq<Event>)
    ensures Run(events).spent <==> Latched(Notes(events))
    decreases |events|
  {
    if events != [] {
      SpentIsLatched(events[..|events| - 1]);
      NextIsLatched(Notes(events[..|events| - 1]), Run(events[..|events| - 1]), events[|events| - 1]);
    }
  }

  /** A check starts a compaction exactly when a threshold is set, the last turn was measured and is at or over it,
      and the history has not exhausted the room. */
  lemma StartsExactly(events: seq<Event>, limit: int, percent: int)
    ensures Starts(Run(events), limit, percent) <==>
            && percent != 0 && Run(events).reading != 0
            && 100 * Run(events).reading >= percent * limit
            && !Latched(Notes(events))
  {
    SpentIsLatched(events);
  }

  /** Every automatic start happened while the history before it was not exhausted. */
  lemma {:induction false} StartsUnlatched(events: seq<Event>, j: nat)
    requires j < |Notes(events)| && Notes(events)[j].AutoStart?
    ensures !Latched(Notes(events)[..j])
    decreases |events|
  {
    var before, e := events[..|events| - 1], events[|events| - 1];
    if j < |Notes(before)| {
      StartsUnlatched(before, j);
      assert Notes(events)[..j] == Notes(before)[..j];
    } else {
      var g := Run(before);
      assert NotesOf(g, e)[j - |Notes(before)|].AutoStart?;
      assert e.AfterTurn? && Starts(g, e.limit, e.percent) && j == |Notes(before)| + 1;
      SpentIsLatched(before);
      LatchedAfter(Notes(before), Seen(g.reading, e.limit, e.percent));
      assert Notes(events)[..j] == Notes(before) + [Seen(g.reading, e.limit, e.percent)];
    }
  }

  /** Between an automatic compaction, or any compaction that ended above the threshold, and the next automatic one
      there is a measurement, a turn's or a compaction's, below the threshold in force when it was taken: an
      unmeasured, failed or ineffective compaction never starts another, whatever manual compactions happen
      meanwhile. */
  lemma MeasuredBelowBeforeTheNextStart(events: seq<Event>, i: nat, j: nat) returns (k: nat)
    requires i < j < |Notes(events)| && Notes(events)[j].AutoStart?
    requires match Notes(events)[i]
             case AutoStart => true
             case Result(tokens, limit, percent) => 100 * tokens >= percent * limit
             case Seen(_, _, _) => false
    ensures i < k < j
    ensures match Notes(events)[k]
            case AutoStart => false
            case Result(tokens, limit, percent) => 100 * tokens < percent * limit
            case Seen(tokens, limit, percent) => 100 * tokens < percent * limit
  {
    StartsUnlatched(events, j);
    var notes := Notes(events)[..j];
    assert Exhausts(notes[i]) && !NoneBelow(notes, i);
    k :| i <= k < j && Below(notes[k]);
  }
}

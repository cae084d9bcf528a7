/** The two-lane subscriber protocol of core/host/eventsocket.go: a lossy bounded channel of ordinary lines and a
    lossless list of coordination lines, joined only by wake tokens. */
module EventSocket {
  import opened Prelude

  type Line = string

  const SUBSCRIBER_BUFFER: nat := 256

  /** What travels through a subscriber's channel: an ordinary line, or the nil that only wakes the reader. */
  datatype Token = Wake | Carry(line: Line)

  /** What a subscriber holds. */
  datatype Lanes = Lanes(ch: seq<Token>, priority: seq<Line>, closed: bool)

  // ---------------------------------------------------------------- the atomic operations on one subscriber

  predicate HasRoom(lanes: Lanes) {
    |lanes.ch| < SUBSCRIBER_BUFFER
  }

  function Prioritised(lanes: Lanes, line: Line): Lanes {
    lanes.(priority := lanes.priority + [line])
  }

  function Signalled(lanes: Lanes): Lanes {
    lanes.(ch := lanes.ch + [Wake])
  }

  function Drained(lanes: Lanes): Lanes {
    if lanes.ch == [] then lanes else lanes.(ch := lanes.ch[1..])
  }

  function Offered(lanes: Lanes, line: Line): Lanes {
    if HasRoom(lanes) then lanes.(ch := lanes.ch + [Carry(line)]) else lanes
  }

  function Closed(lanes: Lanes): Lanes {
    lanes.(closed := true)
  }

  /** A whole enqueuePriority, undisturbed. */
  function Enqueued(lanes: Lanes, line: Line): Lanes {
    var queued := Prioritised(lanes, line);
    Signalled(if HasRoom(queued) then queued else Drained(queued))
  }

  datatype Answer = Got(line: Line) | Ended | Waiting

  /** A whole next, undisturbed: what it leaves and what it answers. */
  function Taken(lanes: Lanes): (Lanes, Answer)
    decreases |lanes.ch|
  {
    if lanes.priority != [] then (lanes.(priority := lanes.priority[1..]), Got(lanes.priority[0]))
    else if lanes.ch == [] then (lanes, if lanes.closed then Ended else Waiting)
    else
      match lanes.ch[0]
      case Wake => Taken(Drained(lanes))
      case Carry(line) => (Drained(lanes), Got(line))
  }

  predicate OnlyWakes(ch: seq<Token>) {
    forall i :: 0 <= i < |ch| ==> ch[i] == Wake
  }

  class Subscriber {
    var ch: seq<Token>
    var priority: seq<Line>
    var closed: bool

    constructor ()
      ensures Holds() == Lanes([], [], false)
    {
      ch, priority, closed := [], [], false;
    }

    function Holds(): Lanes
      reads this
    {
      Lanes(ch, priority, closed)
    }

    /** The line is queued and a wake token is in the channel, at the cost of at most one token; it never blocks. */
    method EnqueuePriority(line: Line)
      requires !closed && |ch| <= SUBSCRIBER_BUFFER
      modifies this
      ensures Holds() == Enqueued(old(Holds()), line)
      ensures priority == old(priority) + [line] && closed == old(closed) && |ch| <= SUBSCRIBER_BUFFER
      ensures ch == (if |old(ch)| < SUBSCRIBER_BUFFER then old(ch) else old(ch)[1..]) + [Wake]
    {
      priority := priority + [line];
      if |ch| < SUBSCRIBER_BUFFER {
        ch := ch + [Wake];
      } else {
        if ch != [] {
          ch := ch[1..];
        }
        assert |ch| < SUBSCRIBER_BUFFER;
        ch := ch + [Wake];
      }
    }

    /** The next line for this subscriber: the first coordination line, or else the first ordinary one, past any wake
        tokens; Waiting where the original blocks. */
    method Next() returns (answer: Answer)
      modifies this
      ensures (Holds(), answer) == Taken(old(Holds())) && closed == old(closed)
      ensures old(priority) != [] ==>
                answer == Got(old(priority)[0]) && priority == old(priority)[1..] && ch == old(ch)
      ensures old(priority) == [] ==> priority == []
      ensures old(priority) == [] && OnlyWakes(old(ch)) ==>
                ch == [] && answer == if closed then Ended else Waiting
      ensures old(priority) == [] && !OnlyWakes(old(ch)) ==>
                answer.Got? && exists n ::
                                 && 0 <= n < |old(ch)| && OnlyWakes(old(ch)[..n])
                                 && old(ch)[n] == Carry(answer.line) && ch == old(ch)[n + 1..]
    {
      ghost var skipped: nat := 0;
      while true
        invariant Taken(Holds()) == Taken(old(Holds())) && closed == old(closed) && priority == old(priority)
        invariant skipped <= |old(ch)| && ch == old(ch)[skipped..] && OnlyWakes(old(ch)[..skipped])
        invariant old(priority) != [] ==> skipped == 0
        decreases |ch|
      {
        if |priority| > 0 {
          answer := Got(priority[0]);
          priority := priority[1..];
          return;
        }
        if ch == [] {
          assert old(ch)[..skipped] == old(ch);
          return if closed then Ended else Waiting;
        }
        var token := ch[0];
        ch := ch[1..];
        if token != Wake {
          assert old(ch)[skipped] == Carry(token.line);
          return Got(token.line);
        }
        skipped := skipped + 1;
      }
    }
  }

  class Socket {
    var subs: set<Subscriber>
    var closed: bool

    constructor ()
      ensures subs == {} && !closed
    {
      subs, closed := {}, false;
    }

    /** Open and bounded channels for exactly the registered subscribers. */
    ghost predicate Valid()
      reads this, subs
    {
      && (forall sub :: sub in subs ==> !sub.closed && |sub.ch| <= SUBSCRIBER_BUFFER)
      && (closed ==> subs == {})
    }

    method Add() returns (sub: Option<Subscriber>)
      requires Valid()
      modifies this
      ensures Valid()
      ensures closed == old(closed) && (sub.None? <==> closed)
      ensures sub.None? ==> subs == old(subs)
      ensures sub.Some? ==>
                && fresh(sub.value) && subs == old(subs) + {sub.value}
                && sub.value.Holds() == Lanes([], [], false)
    {
      if closed {
        return None;
      }
      var fresh' := new Subscriber();
      subs := subs + {fresh'};
      return Some(fresh');
    }

    /** Every registered subscriber gets the line: a coordination line joins its list and leaves a wake token, an
        ordinary one joins its channel unless that is full. */
    method Publish(line: Line, coordination: bool)
      requires Valid()
      modifies subs
      ensures Valid()
      ensures forall sub :: sub in subs ==>
                sub.priority == old(sub.priority) + (if coordination then [line] else [])
      ensures forall sub :: sub in subs ==>
                if |old(sub.ch)| < SUBSCRIBER_BUFFER
                then sub.ch == old(sub.ch) + [if coordination then Wake else Carry(line)]
                else sub.ch == if coordination then old(sub.ch)[1..] + [Wake] else old(sub.ch)
    {
      var todo := subs;
      while todo != {}
        invariant todo <= subs && Valid()
        invariant forall sub :: sub in todo ==> sub.Holds() == old(sub.Holds())
        invariant forall sub :: sub in subs - todo ==>
                    && sub.priority == old(sub.priority) + (if coordination then [line] else [])
                    && if |old(sub.ch)| < SUBSCRIBER_BUFFER
                       then sub.ch == old(sub.ch) + [if coordination then Wake else Carry(line)]
                       else sub.ch == if coordination then old(sub.ch)[1..] + [Wake] else old(sub.ch)
        decreases |todo|
      {
        var sub :| sub in todo;
        if coordination {
          sub.EnqueuePriority(line);
        } else if |sub.ch| < SUBSCRIBER_BUFFER {
          sub.ch := sub.ch + [Carry(line)];
        }
        todo := todo - {sub};
      }
    }

    method Remove(sub: Subscriber)
      requires Valid()
      modifies this, sub
      ensures Valid()
      ensures subs == old(subs) - {sub} && closed == old(closed)
      ensures sub.closed == (old(sub.closed) || sub in old(subs))
      ensures sub.ch == old(sub.ch) && sub.priority == old(sub.priority)
    {
      if sub in subs {
        subs := subs - {sub};
        sub.closed := true;
      }
    }

    method CloseAll()
      requires Valid()
      modifies this, subs
      ensures Valid() && closed && subs == {}
      ensures forall sub :: sub in old(subs) ==>
                sub.closed && sub.ch == old(sub.ch) && sub.priority == old(sub.priority)
    {
      closed := true;
      ghost var all := subs;
      while subs != {}
        invariant closed && subs <= all == old(subs)
        invariant forall sub :: sub in subs ==> sub.Holds() == old(sub.Holds())
        invariant forall sub :: sub in all - subs ==>
                    sub.closed && sub.ch == old(sub.ch) && sub.priority == old(sub.priority)
        decreases |subs|
      {
        var sub :| sub in subs;
        subs := subs - {sub};
        sub.closed := true;
      }
    }
  }
}

/** The shared budget for buffered request bodies of core/keyproxy/budget.go. */
module BodyBudget {
  import opened Prelude

  type Byte = char

  datatype Failure = SourceFailed | OverBudget | TooLarge

  /** How one read of a body ends: with bytes and more to come, with its last bytes, or with bytes and an error. */
  datatype Chunk = More(bytes: seq<Byte>) | Last(bytes: seq<Byte>) | Broken(bytes: seq<Byte>)

  datatype Condition = Fine | Eof | Error(why: Failure)

  datatype Buffered = Buffered(body: seq<Byte>, held: nat) | Failed(why: Failure)

  class Budget {
    var used: nat
    const limit: nat

    ghost predicate Valid()
      reads this
    {
      used <= limit
    }

    constructor (limit: nat)
      ensures Valid() && used == 0 && this.limit == limit
    {
      used := 0;
      this.limit := limit;
    }

    /** Takes the bytes if they fit, and nothing otherwise. */
    method Take(size: nat) returns (ok: bool)
      requires Valid()
      modifies this
      ensures Valid()
      ensures ok <==> old(used) + size <= limit
      ensures used == old(used) + if ok then size else 0
    {
      if used + size > limit {
        return false;
      }
      used := used + size;
      return true;
    }

    method Give(size: nat)
      requires Valid() && size <= used
      modifies this
      ensures Valid() && used == old(used) - size
    {
      used := used - size;
    }
  }

  // ---------------------------------------------------------------- a body, and the reads that see it

  /** All the bytes of a body, whatever way it ends. */
  function Content(source: seq<Chunk>): seq<Byte> {
    if source == [] then []
    else source[0].bytes + (if source[0].More? then Content(source[1..]) else [])
  }

  predicate EndsClean(source: seq<Chunk>) {
    source == [] || source[0].Last? || (source[0].More? && EndsClean(source[1..]))
  }

  /** A body cut off after `room` bytes (io.LimitReader): what the next read sees. */
  function NextRead(source: seq<Chunk>, room: nat): Chunk {
    if room == 0 || source == [] then Last([])
    else if |source[0].bytes| > room then More(source[0].bytes[..room])
    else source[0]
  }

  /** What one read answers, with this much of the budget free: bytes that do not fit are not returned. */
  function ReadAnswer(source: seq<Chunk>, room: nat, free: nat): (seq<Byte>, Condition) {
    var next := NextRead(source, room);
    if next.bytes != [] && |next.bytes| > free then ([], Error(OverBudget))
    else (next.bytes, match next case More(_) => Fine case Last(_) => Eof case Broken(_) => Error(SourceFailed))
  }

  function SourceAfter(source: seq<Chunk>, room: nat): seq<Chunk> {
    if source == [] || room == 0 then source else source[1..]
  }

  class BudgetedReader {
    var source: seq<Chunk>
    var room: nat
    const budget: Budget
    var taken: nat

    constructor (source: seq<Chunk>, room: nat, budget: Budget)
      ensures this.source == source && this.room == room && this.budget == budget && taken == 0
    {
      this.source, this.room, this.budget, taken := source, room, budget, 0;
    }

    /** One read: the bytes it returns are taken from the budget. */
    method Read() returns (bytes: seq<Byte>, condition: Condition)
      requires budget.Valid()
      modifies this, budget
      ensures budget.Valid()
      ensures (bytes, condition) == ReadAnswer(old(source), old(room), budget.limit - old(budget.used))
      ensures taken == old(taken) + |bytes| && budget.used == old(budget.used) + |bytes|
      ensures room == old(room) - |NextRead(old(source), old(room)).bytes|
      ensures source == SourceAfter(old(source), old(room))
    {
      var next := NextRead(source, room);
      if source != [] && room > 0 {
        source := source[1..];
      }
      room := room - |next.bytes|;
      condition := match next case More(_) => Fine case Last(_) => Eof case Broken(_) => Error(SourceFailed);
      if |next.bytes| == 0 {
        return [], condition;
      }
      var ok := budget.Take(|next.bytes|);
      if !ok {
        return [], Error(OverBudget);
      }
      taken := taken + |next.bytes|;
      bytes := next.bytes;
    }
  }

  /** The reads that io.ReadAll makes: how it ends and what it gathered. */
  function Reads(source: seq<Chunk>, room: nat, free: nat): (seq<Byte>, Option<Failure>)
    decreases |source|
  {
    var next := NextRead(source, room);
    if next.bytes != [] && |next.bytes| > free then ([], Some(OverBudget))
    else
      match next
      case Last(bytes) => (bytes, None)
      case Broken(bytes) => (bytes, Some(SourceFailed))
      case More(bytes) =>
        var (others, failure) := Reads(source[1..], room - |bytes|, free - |bytes|);
        (bytes + others, failure)
  }

  /** What is still to come after a read that answered this. */
  function Remaining(condition: Condition, source: seq<Chunk>, room: nat, free: nat): (seq<Byte>, Option<Failure>) {
    match condition
    case Fine => Reads(source, room, free)
    case Eof => ([], None)
    case Error(why) => ([], Some(why))
  }

  lemma OneRead(source: seq<Chunk>, room: nat, free: nat)
    ensures var (bytes, condition) := ReadAnswer(source, room, free);
            var left, unread := SourceAfter(source, room), room - |NextRead(source, room).bytes|;
            var rest := Remaining(condition, left, unread, free - |bytes|);
            && Reads(source, room, free) == (bytes + rest.0, rest.1)
            && (condition == Fine ==> |left| < |source|)
  {
    var bytes := ReadAnswer(source, room, free).0;
    assert bytes + [] == bytes;
  }

  /** Reads until the body ends or fails (io.ReadAll). */
  method ReadAll(reader: BudgetedReader) returns (buffered: seq<Byte>, condition: Condition)
    requires reader.budget.Valid()
    modifies reader, reader.budget
    ensures reader.budget.Valid() && condition != Fine
    ensures reader.taken == old(reader.taken) + |buffered| && reader.budget.used == old(reader.budget.used) + |buffered|
    ensures (buffered, match condition case Error(why) => Some(why) case _ => None)
            == Reads(old(reader.source), old(reader.room), reader.budget.limit - old(reader.budget.used))
  {
    hide Reads, ReadAnswer, NextRead, SourceAfter;
    buffered, condition := [], Fine;
    ghost var whole := Reads(reader.source, reader.room, reader.budget.limit - reader.budget.used);
    while condition == Fine
      invariant reader.budget.Valid()
      invariant reader.taken == old(reader.taken) + |buffered|
                && reader.budget.used == old(reader.budget.used) + |buffered|
      invariant var rest := Remaining(condition, reader.source, reader.room, reader.budget.limit - reader.budget.used);
                buffered + rest.0 == whole.0 && rest.1 == whole.1
      decreases condition == Fine, |reader.source|
    {
      OneRead(reader.source, reader.room, reader.budget.limit - reader.budget.used);
      ghost var gathered := buffered;
      var bytes;
      bytes, condition := reader.Read();
      buffered := buffered + bytes;
      ghost var rest := Remaining(condition, reader.source, reader.room, reader.budget.limit - reader.budget.used);
      assert gathered + (bytes + rest.0) == buffered + rest.0;
    }
    assert buffered + [] == buffered;
  }

  /** Buffers a whole body while nobody else touches the budget. It succeeds exactly when the body ends cleanly
      within its own limit and within what the budget had free; it then holds as much as the body is long, and
      otherwise nothing. */
  method BufferBody(budget: Budget, body: seq<Chunk>, limit: nat) returns (r: Buffered)
    requires budget.Valid()
    modifies budget
    ensures budget.Valid()
    ensures r.Buffered? <==>
              && EndsClean(body) && |Content(body)| <= limit
              && |Content(body)| <= budget.limit - old(budget.used)
    ensures r.Buffered? ==> r.body == Content(body) && r.held == |r.body|
    ensures r == Failed(TooLarge) ==> |Content(body)| > limit
    ensures r == Failed(SourceFailed) ==> !EndsClean(body)
    ensures r == Failed(OverBudget) ==> |Content(body)| > budget.limit - old(budget.used)
    ensures budget.used == old(budget.used) + if r.Buffered? then r.held else 0
  {
    ReadsWhole(body, limit + 1, budget.limit - budget.used);
    if |body| == 0 {
      return Buffered([], 0);
    }
    var reader := new BudgetedReader(body, limit + 1, budget);
    var buffered, condition := ReadAll(reader);
    if condition.Error? {
      budget.Give(reader.taken);
      return Failed(condition.why);
    }
    if |buffered| > limit {
      budget.Give(reader.taken);
      return Failed(TooLarge);
    }
    return Buffered(buffered, reader.taken);
  }

  /** What reading gathers, said of the body as a whole. */
  lemma {:induction false} ReadsWhole(source: seq<Chunk>, room: nat, free: nat)
    ensures var (all, failure) := Reads(source, room, free);
            if EndsClean(source) && |Content(source)| < room && |Content(source)| <= free
            then failure == None && all == Content(source)
            else failure.Some? || |all| >= room
    ensures var (all, failure) := Reads(source, room, free);
            && (failure == None ==> |all| <= |Content(source)|)
            && (failure == Some(SourceFailed) ==> !EndsClean(source))
            && (failure == Some(OverBudget) ==> |Content(source)| > free)
            && failure != Some(TooLarge)
    decreases |source|
  {
    var next := NextRead(source, room);
    if next.More? && !(next.bytes != [] && |next.bytes| > free) {
      ReadsWhole(source[1..], room - |next.bytes|, free - |next.bytes|);
    }
  }
}

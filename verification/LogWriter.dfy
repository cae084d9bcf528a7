/** The rotating client log of client_log_writer.go, under every way its file operations can fail. */
module LogWriter {
  import opened Prelude

  type Byte = char

  datatype WriteError = RotationFailed | RotationStalled | WriteFailed | ShortWrite

  predicate IsSuffix(part: seq<Byte>, whole: seq<Byte>) {
    |part| <= |whole| && part == whole[|whole| - |part|..]
  }

  /** The two files, the rotated one and the current one, an absent file counting as empty. */
  datatype Files = Files(rotated: seq<Byte>, current: seq<Byte>)

  function Kept(files: Files): seq<Byte> {
    files.rotated + files.current
  }

  /** What one Write of `data` that reports `written` bytes may do to the files. */
  ghost predicate Wrote(limit: nat, before: Files, data: seq<Byte>, written: nat, after: Files) {
    && written <= |data|
    && IsSuffix(Kept(after), Kept(before) + data[..written])
    && (after.rotated == before.rotated || limit <= |after.rotated|)
    && (Kept(after) == Kept(before) + data[..written] || limit <= |after.rotated|)
    && (|after.current| <= limit || after.current == before.current)
  }

  lemma NothingWrote(limit: nat, files: Files, data: seq<Byte>)
    ensures Wrote(limit, files, data, 0, files)
  {
    assert Kept(files) + data[..0] == Kept(files);
  }

  lemma SuffixesChain(last: seq<Byte>, mid: seq<Byte>, first: seq<Byte>, more: seq<Byte>)
    requires IsSuffix(mid, first) && IsSuffix(last, mid + more)
    ensures IsSuffix(last, first + more)
  {
    var lost := first[..|first| - |mid|];
    assert first + more == lost + (mid + more);
  }

  /** Two writes in a row are one write of both. */
  lemma WroteAgain(limit: nat, before: Files, data: seq<Byte>, written: nat, mid: Files, count: nat, after: Files)
    requires Wrote(limit, before, data, written, mid) && Wrote(limit, mid, data[written..], count, after)
    ensures Wrote(limit, before, data, written + count, after)
  {
    var part := data[written..][..count];
    assert IsSuffix(Kept(after), Kept(mid) + part);
    assert data[..written + count] == data[..written] + part;
    assert Kept(before) + data[..written + count] == Kept(before) + data[..written] + part;
    SuffixesChain(Kept(after), Kept(mid), Kept(before) + data[..written], part);
  }

  /** One round of Write: perhaps a rotation of a full file, then bytes that fit. */
  lemma RoundWrote(limit: nat, before: Files, rest: seq<Byte>, rotated: bool, count: nat, after: Files)
    requires rotated ==> limit <= |before.current|
    requires var mid := if rotated then Files(before.current, []) else before;
             && count <= |rest| && (count > 0 ==> |mid.current| + count <= limit)
             && after == mid.(current := mid.current + rest[..count])
    ensures Wrote(limit, before, rest, count, after)
  {
    if rotated {
      assert Kept(after) == before.current + rest[..count];
      assert Kept(before) + rest[..count] == before.rotated + (before.current + rest[..count]);
    } else {
      assert Kept(after) == Kept(before) + rest[..count];
    }
  }

  /** The log's directory. Each operation may fail, which `failures` counts; `foreign` gathers what anyone else put at
      the path after a rename. */
  class Directory {
    var files: Files
    ghost var foreign: seq<Byte>
    ghost var failures: nat

    constructor (files: Files)
      ensures this.files == files && foreign == [] && failures == 0
    {
      this.files, foreign, failures := files, [], 0;
    }

    ghost method Count(ok: bool)
      modifies this`failures
      ensures failures == old(failures) + if ok then 0 else 1
    {
      failures := failures + if ok then 0 else 1;
    }

    /** Writing nothing is a failure, whatever it reports. */
    method Append(chunk: seq<Byte>) returns (count: nat, ok: bool)
      modifies this`files, this`failures
      ensures count <= |chunk|
      ensures files == old(files).(current := old(files).current + chunk[..count])
      ensures failures == old(failures) + if ok && count > 0 then 0 else 1
    {
      ok := *;
      count :| 0 <= count <= |chunk|;
      files := files.(current := files.current + chunk[..count]);
      Count(ok && count > 0);
    }

    method Rename() returns (ok: bool)
      modifies this
      ensures !ok ==> files == old(files) && foreign == old(foreign)
      ensures ok ==> files.rotated == old(files).current && foreign == old(foreign) + files.current
      ensures failures == old(failures) + if ok then 0 else 1
    {
      ok := *;
      if ok {
        var refilled: seq<Byte> := *;
        files := Files(files.current, refilled);
        foreign := foreign + refilled;
      }
      Count(ok);
    }

    /** Keeps the rotated file from the eyes of others. */
    method Restrict() returns (ok: bool)
      modifies this`failures
      ensures failures == old(failures) + if ok then 0 else 1
    {
      ok := *;
      Count(ok);
    }
  }

  class RotatingWriter {
    const limit: nat
    const directory: Directory
    var open: bool   // the handle writes to the current file; otherwise every use of it fails
    var size: nat

    /** A usable handle has the true size, and a handle that a failed rotation left unusable asks for another
        rotation. */
    ghost predicate Valid()
      reads this, directory
    {
      && 0 < limit
      && (if open then size == |directory.files.current| else limit <= size)
    }

    constructor (limit: nat, directory: Directory)
      requires 0 < limit
      ensures this.limit == limit && this.directory == directory && open && Valid()
    {
      this.limit, this.directory := limit, directory;
      open, size := true, |directory.files.current|;
    }

    /** The handle and the size are replaced together, or not at all. */
    method Open() returns (ok: bool)
      modifies this, directory`failures
      ensures if ok then open && size == |directory.files.current| else open == old(open) && size == old(size)
      ensures directory.failures == old(directory.failures) + if ok then 0 else 1
    {
      ok := *;
      if ok {
        open, size := true, |directory.files.current|;
      }
      directory.Count(ok);
    }

    /** A handle that is not open cannot be closed, which counts as no failure of its own. */
    method Close() returns (ok: bool)
      modifies this`open, directory`failures
      ensures ok ==> old(open) && !open
      ensures !old(open) ==> !open
      ensures directory.failures == old(directory.failures) + if ok || !old(open) then 0 else 1
    {
      ok := *;
      if !open {
        return false;
      }
      directory.Count(ok);
      if ok {
        open := false;
      } else {
        open := *;
      }
    }

    /** Moves the current file aside and starts another, or reports a failure; whatever fails, no byte of the current
        file is lost. */
    method Rotate() returns (ok: bool)
      requires Valid() && limit <= size
      modifies this, directory
      ensures Valid()
      ensures || (!ok && directory.files == old(directory.files) && directory.foreign == old(directory.foreign))
              || (&& limit <= |old(directory.files).current| && directory.files.rotated == old(directory.files).current
                  && directory.foreign == old(directory.foreign) + directory.files.current)
      ensures ok ==> open && old(open)
      ensures old(directory.failures) <= directory.failures
      ensures directory.failures == old(directory.failures) ==> open && ok == old(open)
    {
      var closed := Close();
      if !closed {
        var _ := Open();
        return false;
      }
      var renamed := directory.Rename();
      if !renamed {
        var _ := Open();
        return false;
      }
      var restricted := directory.Restrict();
      if !restricted {
        var _ := Open();
        return false;
      }
      ok := Open();
    }

    /** One round of the loop in Write: rotates if the current file is full, then writes as much of `rest` as still
        fits. */
    method WriteRound(rest: seq<Byte>) returns (count: nat, error: Option<WriteError>)
      requires Valid() && rest != []
      modifies this, directory
      ensures Valid()
      ensures count <= |rest| && (error.None? ==> count > 0)
      ensures old(directory.foreign) <= directory.foreign
      ensures directory.foreign == old(directory.foreign)
              ==> Wrote(limit, old(directory.files), rest, count, directory.files)
      ensures error == Some(RotationStalled) ==> |directory.foreign| > |old(directory.foreign)|
      ensures error == Some(ShortWrite) ==> |directory.files.current| < limit
      ensures old(directory.failures) <= directory.failures
      ensures old(open) && directory.failures == old(directory.failures) ==>
                open && (directory.foreign == old(directory.foreign) ==> error.None?)
      ensures !old(open) ==>
                && error == Some(RotationFailed) && count == 0
                && (directory.failures == old(directory.failures) ==> open)
    {
      ghost var before := directory.files;
      if size >= limit {
        var rotated := Rotate();
        if !rotated || size >= limit {
          if directory.foreign == old(directory.foreign) {
            RoundWrote(limit, before, rest, directory.files != before, 0, directory.files);
          }
          return 0, Some(if !rotated then RotationFailed else RotationStalled);
        }
      }
      assert open;
      ghost var mid := directory.files;
      var chunk := rest[..if |rest| < limit - size then |rest| else limit - size];
      var ok;
      count, ok := directory.Append(chunk);
      assert chunk[..count] == rest[..count];
      if directory.foreign == old(directory.foreign) {
        RoundWrote(limit, before, rest, mid != before, count, directory.files);
      }
      size := size + count;
      error := if !ok then Some(WriteFailed) else if count == 0 then Some(ShortWrite) else None;
    }

    /** Writes as much of `data` as it can, rotating whenever the current file is full. While no file operation fails
        and nobody else writes, it writes all of it; after a rotation that left no usable handle, one write is refused
        and, unless something fails again, the next goes on. */
    method Write(data: seq<Byte>) returns (written: nat, error: Option<WriteError>)
      requires Valid()
      modifies this, directory
      ensures Valid()
      ensures written <= |data| && (error.None? ==> written == |data|)
      ensures directory.foreign == old(directory.foreign)
              ==> Wrote(limit, old(directory.files), data, written, directory.files)
      ensures error == Some(RotationStalled) ==> directory.foreign != old(directory.foreign)
      ensures error == Some(ShortWrite) ==> |directory.files.current| < limit
      ensures old(open) && directory.failures == old(directory.failures) ==>
                open && (directory.foreign == old(directory.foreign) ==> error.None?)
      ensures !old(open) && data != [] ==>
                && error == Some(RotationFailed) && written == 0
                && (directory.failures == old(directory.failures) ==> open)
    {
      hide Wrote;
      NothingWrote(limit, directory.files, data);
      written, error := 0, None;
      while written < |data| && error.None?
        invariant Valid() && written <= |data|
        invariant old(directory.foreign) <= directory.foreign
        invariant directory.foreign == old(directory.foreign)
                  ==> Wrote(limit, old(directory.files), data, written, directory.files)
        invariant error == Some(RotationStalled) ==> |directory.foreign| > |old(directory.foreign)|
        invariant error == Some(ShortWrite) ==> |directory.files.current| < limit
        invariant old(directory.failures) <= directory.failures
        invariant old(open) && directory.failures == old(directory.failures) ==>
                    open && (directory.foreign == old(directory.foreign) ==> error.None?)
        invariant if error.None? && written == 0 then open == old(open) && directory.failures == old(directory.failures)
                  else !old(open) ==>
                         && error == Some(RotationFailed) && written == 0
                         && (directory.failures == old(directory.failures) ==> open)
        decreases error.None?, |data| - written
      {
        ghost var before, foreign := directory.files, directory.foreign;
        var count;
        count, error := WriteRound(data[written..]);
        if directory.foreign == old(directory.foreign) {
          assert foreign == old(directory.foreign);
          WroteAgain(limit, old(directory.files), data, written, before, count, directory.files);
        }
        written := written + count;
      }
    }
  }

  /** A limit that is not positive is refused, and so is a log that cannot be opened. */
  method OpenRotatingWriter(limit: int, directory: Directory) returns (writer: Option<RotatingWriter>)
    modifies directory`failures
    ensures writer.Some? <==> limit > 0 && directory.failures == old(directory.failures)
    ensures writer.Some?
            ==> fresh(writer.value) && writer.value.Valid() && writer.value.limit == limit
                && writer.value.directory == directory
  {
    if limit <= 0 {
      return None;
    }
    var ok: bool := *;
    directory.Count(ok);
    if !ok {
      return None;
    }
    var w := new RotatingWriter(limit, directory);
    return Some(w);
  }

  // ---------------------------------------------------------------- a whole life of the log

  /** One Write with what it reported and what it left. */
  datatype Call = Call(data: seq<Byte>, written: nat, after: Files)

  function Left(start: Files, calls: seq<Call>): Files {
    if calls == [] then start else calls[|calls| - 1].after
  }

  /** What the files held at the start, then every byte reported as written, in order. */
  function Everything(start: Files, calls: seq<Call>): seq<Byte> {
    if calls == [] then Kept(start)
    else Everything(start, calls[..|calls| - 1]) + Part(calls[|calls| - 1])
  }

  function Part(call: Call): seq<Byte> {
    if call.written <= |call.data| then call.data[..call.written] else call.data
  }

  /** A sequence of Writes, each starting from what the one before it left. */
  ghost predicate IsLife(limit: nat, start: Files, calls: seq<Call>) {
    calls == [] ||
    var before, last := calls[..|calls| - 1], calls[|calls| - 1];
    IsLife(limit, start, before) && Wrote(limit, Left(start, before), last.data, last.written, last.after)
  }

  /** The files hold the end of `all`: bytes are missing only off the far end, and only once the rotated file holds a
      full limit's worth. */
  ghost predicate HoldsTail(limit: nat, files: Files, all: seq<Byte>) {
    && IsSuffix(Kept(files), all)
    && (Kept(files) == all || limit <= |files.rotated|)
  }

  lemma WriteHoldsTail(limit: nat, mid: Files, all: seq<Byte>, call: Call)
    requires HoldsTail(limit, mid, all) && Wrote(limit, mid, call.data, call.written, call.after)
    ensures HoldsTail(limit, call.after, all + Part(call))
  {
    SuffixesChain(Kept(call.after), Kept(mid), all, Part(call));
  }

  /** Over any number of Writes, whatever failed in them, the two files hold the end of everything reported as
      written, nothing missing inside and nothing twice. */
  lemma {:induction false} LogKeepsTheTail(limit: nat, start: Files, calls: seq<Call>)
    requires IsLife(limit, start, calls)
    ensures HoldsTail(limit, Left(start, calls), Everything(start, calls))
    decreases |calls|
  {
    if calls != [] {
      var before, last := calls[..|calls| - 1], calls[|calls| - 1];
      LogKeepsTheTail(limit, start, before);
      WriteHoldsTail(limit, Left(start, before), Everything(start, before), last);
    }
  }

  /** No Write ever grew the current file past the limit. */
  lemma {:induction false} LogStaysSmall(limit: nat, start: Files, calls: seq<Call>)
    requires IsLife(limit, start, calls)
    ensures |Left(start, calls).current| <= limit || Left(start, calls).current == start.current
    decreases |calls|
  {
    if calls != [] {
      LogStaysSmall(limit, start, calls[..|calls| - 1]);
    }
  }
}

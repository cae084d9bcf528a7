/** The registered commands of core/cli/registry.go, and which one an argv addresses. */
module Registry {
  import opened Prelude
  import opened CommandLine

  /** The words of a path joined by spaces, the key under which it is registered. */
  function PathKey(path: seq<string>): string {
    Joined(path, " ")
  }

  lemma {:induction false} NoSpaceInKey(word: string, others: seq<string>)
    requires ' ' !in word
    ensures others == [] ==> ' ' !in PathKey([word] + others)
    ensures others != [] ==> Cut(PathKey([word] + others), ' ') == (word, PathKey(others), true)
  {
    assert ([word] + others)[1..] == others;
    if others != [] {
      CutUndoesJoin(word, ' ', PathKey(others));
      assert PathKey([word] + others) == word + [' '] + PathKey(others);
    }
  }

  /** Two paths whose words hold no space share a key only if they are the same path. */
  lemma {:induction false} KeysTellPathsApart(one: seq<string>, two: seq<string>)
    requires one != [] && two != []
    requires forall word :: word in one || word in two ==> ' ' !in word
    ensures PathKey(one) == PathKey(two) <==> one == two
  {
    hide Cut;
    assert one == [one[0]] + one[1..] && two == [two[0]] + two[1..];
    NoSpaceInKey(one[0], one[1..]);
    NoSpaceInKey(two[0], two[1..]);
    if PathKey(one) == PathKey(two) {
      if one[1..] != [] && two[1..] != [] {
        KeysTellPathsApart(one[1..], two[1..]);
      } else if one[1..] != [] || two[1..] != [] {
        CutFinds(PathKey(one), ' ');
        assert false;
      }
    }
  }

  lemma CutFinds(s: string, sep: char)
    ensures Cut(s, sep).2 <==> sep in s
  {
  }

  ghost predicate WellRegistered(cmds: seq<Cmd>) {
    && (forall i :: 0 <= i < |cmds| ==> cmds[i].path != [])
    && (forall i, j :: 0 <= i < j < |cmds| ==> PathKey(cmds[i].path) != PathKey(cmds[j].path))
  }

  /** `cmd` is the registered command whose path is the longest prefix of `args`. */
  ghost predicate Addressed(cmds: seq<Cmd>, args: seq<string>, cmd: Cmd) {
    && cmd in cmds
    && cmd.path <= args
    && forall other :: other in cmds && other.path <= args ==> |other.path| <= |cmd.path|
  }

  /** An argv addresses at most one command. */
  lemma AddressedIsUnique(cmds: seq<Cmd>, args: seq<string>, one: Cmd, two: Cmd)
    requires WellRegistered(cmds)
    requires Addressed(cmds, args, one) && Addressed(cmds, args, two)
    ensures one == two
  {
    var i :| 0 <= i < |cmds| && cmds[i] == one;
    var j :| 0 <= j < |cmds| && cmds[j] == two;
    assert one.path == args[..|one.path|] == two.path;
    assert PathKey(cmds[i].path) == PathKey(cmds[j].path);
  }

  class CommandRegistry {
    var cmds: seq<Cmd>

    ghost predicate Valid()
      reads this
    {
      WellRegistered(cmds)
    }

    constructor ()
      ensures Valid() && cmds == []
    {
      cmds := [];
    }

    /** Registers a command, or refuses an empty path and a path already taken, changing nothing. */
    method Add(cmd: Cmd) returns (r: Result<(), UsageError>)
      requires Valid()
      modifies this
      ensures Valid()
      ensures r.Ok? <==> cmd.path != [] && forall e :: e in old(cmds) ==> PathKey(e.path) != PathKey(cmd.path)
      ensures cmds == if r.Ok? then old(cmds) + [cmd] else old(cmds)
      ensures r == Err(EmptyPath) <==> cmd.path == []
    {
      if cmd.path == [] {
        return Err(EmptyPath);
      }
      for index := 0 to |cmds|
        invariant forall i :: 0 <= i < index ==> PathKey(cmds[i].path) != PathKey(cmd.path)
      {
        if PathKey(cmds[index].path) == PathKey(cmd.path) {
          return Err(DuplicateCommand);
        }
      }
      cmds := cmds + [cmd];
      return Ok(());
    }

    /** The command an argv addresses and the tokens left for it. */
    method Match(args: seq<string>) returns (r: Option<(Cmd, seq<string>)>)
      requires Valid()
      ensures r.Some? ==> Addressed(cmds, args, r.value.0) && args == r.value.0.path + r.value.1
      ensures r.None? ==> forall cmd :: cmd in cmds ==> !(cmd.path <= args)
    {
      var best: Option<Cmd> := None;
      var bestLen := 0;
      for index := 0 to |cmds|
        invariant best.None? ==> bestLen == 0
        invariant best.None? ==> forall i :: 0 <= i < index ==> !(cmds[i].path <= args)
        invariant best.Some? ==> best.value in cmds && best.value.path <= args && bestLen == |best.value.path|
        invariant forall i :: 0 <= i < index && cmds[i].path <= args ==> |cmds[i].path| <= bestLen
      {
        var cmd := cmds[index];
        if |cmd.path| > |args| || |cmd.path| <= bestLen {
          continue;
        }
        var prefixed := HasPrefix(args, cmd.path);
        if prefixed {
          best := Some(cmd);
          bestLen := |cmd.path|;
        }
      }
      if best.None? {
        return None;
      }
      return Some((best.value, args[bestLen..]));
    }

    method HasPrefix(args: seq<string>, path: seq<string>) returns (b: bool)
      requires |path| <= |args|
      ensures b <==> path <= args
    {
      for i := 0 to |path|
        invariant path[..i] == args[..i]
      {
        if args[i] != path[i] {
          return false;
        }
      }
      return true;
    }
  }
}

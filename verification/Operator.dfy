/** Rebuilding an argv for the daemon (core/host/operator.go) and what the daemon's parser makes of it. */
module Operator {
  import opened Prelude
  import opened CommandLine
  import opened Registry

  // ---------------------------------------------------------------- the forwarded argv

  predicate BareIn(param: Param, args: map<string, string>) {
    param.name in args && !param.valueRequired && args[param.name] == "true"
  }

  function Emitted(param: Param, args: map<string, string>): seq<string> {
    if param.name !in args then []
    else if BareIn(param, args) then ["--" + param.name]
    else ["--" + param.name, args[param.name]]
  }

  function Flags(params: seq<Param>, args: map<string, string>): seq<string> {
    if params == [] then [] else Emitted(params[0], args) + Flags(params[1..], args)
  }

  /** What follows the command's path in the forwarded argv. */
  function Forwarded(cmd: Cmd, input: Input): seq<string> {
    Flags(cmd.params, input.args) + (input.rest + JsonFlag(input.json))
  }

  lemma {:induction false} FlagsOfFront(params: seq<Param>, args: map<string, string>)
    requires params != []
    ensures Flags(params, args) == Flags(params[..|params| - 1], args) + Emitted(params[|params| - 1], args)
    decreases |params|
  {
    hide Emitted;
    var front := params[..|params| - 1];
    if front == [] {
      assert Flags(params[1..], args) == [];
    } else {
      FlagsOfFront(params[1..], args);
      assert params[1..][..|params| - 2] == front[1..] && front[0] == params[0];
    }
  }

  lemma OneMoreParam(params: seq<Param>, args: map<string, string>, index: nat)
    requires index < |params|
    ensures Flags(params[..index + 1], args) == Flags(params[..index], args) + Emitted(params[index], args)
  {
    FlagsOfFront(params[..index + 1], args);
    assert params[..index + 1][..index] == params[..index];
  }

  method ArgvOf(cmd: Cmd, input: Input) returns (argv: seq<string>)
    ensures argv == cmd.path + Forwarded(cmd, input)
  {
    argv := cmd.path;
    for index := 0 to |cmd.params|
      invariant argv == cmd.path + Flags(cmd.params[..index], input.args)
    {
      var param := cmd.params[index];
      OneMoreParam(cmd.params, input.args, index);
      if param.name !in input.args {
        continue;
      }
      var value := input.args[param.name];
      if !param.valueRequired && value == "true" {
        argv := argv + ["--" + param.name];
        continue;
      }
      argv := argv + ["--" + param.name, value];
    }
    assert cmd.params[..|cmd.params|] == cmd.params;
    argv := argv + input.rest;
    if input.json {
      argv := argv + ["--json"];
    }
  }

  // ---------------------------------------------------------------- which inputs survive

  /** No argument is called "json", and no value looks like a flag. */
  ghost predicate PlainValues(args: map<string, string>) {
    && "json" !in args
    && forall name :: name in args ==> !IsFlag(args[name])
  }

  /** The parser takes this parameter's flag without a value. */
  predicate Accepted(cmd: Cmd, param: Param) {
    var declared := Declared(cmd.params, param.name);
    declared.Some? && !declared.value.required && !declared.value.valueRequired
  }

  /** Every flag forwarded without a value is one the parser accepts without a value. */
  ghost predicate BareAccepted(cmd: Cmd, params: seq<Param>, args: map<string, string>) {
    forall param :: param in params && BareIn(param, args) ==> Accepted(cmd, param)
  }

  /** The last forwarded flag carries no value. */
  predicate EndsBare(params: seq<Param>, args: map<string, string>) {
    params != [] &&
    var last := params[|params| - 1];
    if last.name in args then BareIn(last, args) else EndsBare(params[..|params| - 1], args)
  }

  ghost predicate Forwardable(cmd: Cmd, input: Input) {
    && PlainValues(input.args)
    && BareAccepted(cmd, cmd.params, input.args)
    && (input.rest != [] ==> !EndsBare(cmd.params, input.args))
  }

  // ---------------------------------------------------------------- reading the flags back

  function Overlay(base: map<string, string>, params: seq<Param>, args: map<string, string>): map<string, string>
    decreases |params|
  {
    if params == [] then base
    else
      var name := params[0].name;
      Overlay(if name in args then base[name := args[name]] else base, params[1..], args)
  }

  lemma {:induction false} OverlayAt(base: map<string, string>, params: seq<Param>, args: map<string, string>,
                                     name: string)
    ensures var over := Overlay(base, params, args);
            if name in args && Declared(params, name).Some?
            then name in over && over[name] == args[name]
            else (name in over <==> name in base) && (name in over ==> over[name] == base[name])
    decreases |params|
  {
    if params != [] {
      var first := params[0].name;
      var next := if first in args then base[first := args[first]] else base;
      OverlayAt(next, params[1..], args, name);
    }
  }

  /** A value that follows its flag is read with it. */
  lemma PairRead(cmd: Cmd, name: string, value: string, tail: seq<string>, input: Input)
    requires Declared(cmd.params, name).Some? && '=' !in name && name != "json" && !IsFlag(value)
    ensures Tokens(cmd, ["--" + name, value] + tail, input)
         == Tokens(cmd, tail, input.(args := input.args[name := value]))
  {
    FlagArgParsesBack(cmd, name, value, tail, input);
  }

  /** A flag without a value, before another flag or at the end, is read as "true" or refused. */
  lemma BareRead(cmd: Cmd, name: string, tail: seq<string>, input: Input)
    requires Declared(cmd.params, name).Some? && '=' !in name && name != "json"
    requires tail == [] || IsFlag(tail[0])
    ensures Tokens(cmd, ["--" + name] + tail, input)
         == (var declared := Declared(cmd.params, name).value;
             if declared.required || declared.valueRequired then Err(FlagNeedsValue(name))
             else Tokens(cmd, tail, input.(args := input.args[name := "true"])))
  {
    var toks := ["--" + name] + tail;
    assert toks[0][2..] == name && toks[1..] == tail;
    assert toks[0] != "--json" by {
      assert "--json"[2..] == "json";
    }
  }

  lemma {:induction false} EndsBareOfTail(params: seq<Param>, args: map<string, string>)
    requires params != []
    ensures EndsBare(params[1..], args) ==> EndsBare(params, args)
    ensures BareIn(params[0], args) && Flags(params[1..], args) == [] ==> EndsBare(params, args)
    decreases |params|
  {
    var rest := params[1..];
    var last := params[|params| - 1];
    if rest != [] {
      var front := params[..|params| - 1];
      assert rest[|rest| - 1] == last && rest[..|rest| - 1] == front[1..];
      FlagsOfFront(rest, args);
      if last.name !in args {
        EndsBareOfTail(front, args);
      }
    }
  }

  lemma FlagsHead(params: seq<Param>, args: map<string, string>)
    ensures var flags := Flags(params, args); flags == [] || IsFlag(flags[0])
  {
  }

  /** One forwarded flag is read back, or refused for want of a value. */
  lemma EmittedRead(cmd: Cmd, param: Param, args: map<string, string>, after: seq<string>, input: Input)
    requires PlainValues(args) && param.name in args
    requires Declared(cmd.params, param.name).Some? && '=' !in param.name
    requires BareIn(param, args) ==> after == [] || IsFlag(after[0])
    ensures var read := Tokens(cmd, Emitted(param, args) + after, input);
            if BareIn(param, args) && !Accepted(cmd, param) then read.Err?
            else read == Tokens(cmd, after, input.(args := input.args[param.name := args[param.name]]))
  {
    hide Tokens;
    if BareIn(param, args) {
      BareRead(cmd, param.name, after, input);
    } else {
      PairRead(cmd, param.name, args[param.name], after, input);
    }
  }

  /** Forwarded flags are read back one by one, unless one of them is refused for want of a value. */
  lemma {:induction false} FlagsRead(cmd: Cmd, params: seq<Param>, args: map<string, string>, tail: seq<string>,
                                     input: Input)
    requires PlainValues(args)
    requires forall param :: param in params && param.name in args ==>
               Declared(cmd.params, param.name).Some? && '=' !in param.name
    requires tail == [] || IsFlag(tail[0]) || !EndsBare(params, args)
    ensures var read := Tokens(cmd, Flags(params, args) + tail, input);
            if BareAccepted(cmd, params, args)
            then read == Tokens(cmd, tail, input.(args := Overlay(input.args, params, args)))
            else read.Err?
    decreases |params|
  {
    hide Tokens, EndsBare, PlainValues;
    if params == [] {
      assert Flags(params, args) + tail == tail;
    } else {
      var param, others := params[0], params[1..];
      var after := Flags(others, args) + tail;
      assert Flags(params, args) + tail == Emitted(param, args) + after;
      EndsBareOfTail(params, args);
      FlagsHead(others, args);
      BareAcceptedOfTail(cmd, params, args);
      if param.name !in args {
        assert Emitted(param, args) + after == after;
        FlagsRead(cmd, others, args, tail, input);
      } else {
        assert param in params;
        FlagsRead(cmd, others, args, tail, input.(args := input.args[param.name := args[param.name]]));
        EmittedRead(cmd, param, args, after, input);
      }
    }
  }

  lemma BareAcceptedOfTail(cmd: Cmd, params: seq<Param>, args: map<string, string>)
    requires params != []
    ensures BareAccepted(cmd, params, args)
       <==> (BareIn(params[0], args) ==> Accepted(cmd, params[0])) && BareAccepted(cmd, params[1..], args)
  {
    hide BareIn, Accepted;
    assert params == [params[0]] + params[1..];
  }

  // ---------------------------------------------------------------- the boundary of the round trip

  lemma {:induction false} FlagTokens(params: seq<Param>, args: map<string, string>, tok: string)
    requires tok in Flags(params, args)
    ensures exists param ::
              && param in params && param.name in args
              && (tok == "--" + param.name || tok == args[param.name])
  {
    var param := params[0];
    if tok in Emitted(param, args) {
      assert param in params;
    } else {
      FlagTokens(params[1..], args, tok);
      var found :| found in params[1..] && found.name in args && (tok == "--" + found.name || tok == args[found.name]);
      assert found in params;
    }
  }

  /** The inline spelling of an argument appears in a forwarded argv only as the value of another argument. */
  lemma InlineIsForeign(cmd: Cmd, input: Input, name: string, value: string)
    requires Parseable(cmd, input)
    requires "--" + name + "=" + value in Forwarded(cmd, input)
    ensures exists other :: other in input.args && input.args[other] == "--" + name + "=" + value
  {
    var tok := "--" + name + "=" + value;
    assert IsFlag(tok) && tok[2 + |name|] == '=';
    assert tok !in JsonFlag(input.json) by {
      assert '=' !in "--json";
    }
    FlagTokens(cmd.params, input.args, tok);
    var param :| param in cmd.params && param.name in input.args
        && (tok == "--" + param.name || tok == input.args[param.name]);
    assert tok != "--" + param.name by {
      assert '=' !in "--" + param.name && '=' in tok;
    }
  }

  /** Some flag-like value is at least as long as every other. */
  lemma {:induction false} LongestFlagValue(args: map<string, string>, names: set<string>) returns (longest: string)
    requires names <= args.Keys && exists name :: name in names && IsFlag(args[name])
    ensures longest in names && IsFlag(args[longest])
    ensures forall name :: name in names && IsFlag(args[name]) ==> |args[name]| <= |args[longest]|
    decreases names
  {
    longest :| longest in names && IsFlag(args[longest]);
    var others := names - {longest};
    if exists name :: name in others && IsFlag(args[name]) {
      var best := LongestFlagValue(args, others);
      if |args[best]| > |args[longest]| {
        longest := best;
      }
    }
  }

  lemma NotPlainIsLost(cmd: Cmd, input: Input)
    requires Parseable(cmd, input) && !PlainValues(input.args)
    ensures Parsed(cmd, Forwarded(cmd, input)) != Ok(input)
  {
    var name := "json";
    if exists n :: n in input.args && IsFlag(input.args[n]) {
      name := LongestFlagValue(input.args, input.args.Keys);
    }
    var value := input.args[name];
    var inline := "--" + name + "=" + value;
    assert IsFlag(inline) && |inline| > |value|;
    assert forall other :: other in input.args ==> input.args[other] != inline;
    if inline in Forwarded(cmd, input) {
      InlineIsForeign(cmd, input, name, value);
      assert false;
    }
    NeverAssigned(cmd, Forwarded(cmd, input), NO_INPUT, name, value);
  }

  /** The flag that ends the forwarded flags, and what stands before it. */
  lemma {:induction false} LastBare(params: seq<Param>, args: map<string, string>)
    returns (front: seq<Param>, last: Param)
    requires EndsBare(params, args)
    ensures Flags(params, args) == Flags(front, args) + ["--" + last.name]
    ensures last in params && BareIn(last, args) && forall param :: param in front ==> param in params
    decreases |params|
  {
    var init := params[..|params| - 1];
    last := params[|params| - 1];
    FlagsOfFront(params, args);
    if last.name in args {
      front := init;
    } else {
      front, last := LastBare(init, args);
      assert Flags(params, args) == Flags(init, args) + [];
    }
  }

  /** A bare flag at the end swallows the first operand. */
  lemma SwallowedOperand(cmd: Cmd, input: Input)
    requires Parseable(cmd, input) && PlainValues(input.args)
    requires input.rest != [] && EndsBare(cmd.params, input.args)
    ensures Parsed(cmd, Forwarded(cmd, input)) != Ok(input)
  {
    hide Tokens;
    var front, last := LastBare(cmd.params, input.args);
    var flag, others := "--" + last.name, input.rest[1..] + JsonFlag(input.json);
    var tail := [flag, input.rest[0]] + others;
    assert Forwarded(cmd, input) == Flags(front, input.args) + tail;
    FlagsRead(cmd, front, input.args, tail, NO_INPUT);
    if BareAccepted(cmd, front, input.args) {
      var mid := NO_INPUT.(args := Overlay(map[], front, input.args));
      PairRead(cmd, last.name, input.rest[0], others, mid);
      var next := mid.(args := mid.args[last.name := input.rest[0]]);
      OperandsRead(cmd, input.rest[1..], input.json, next);
      assert |next.rest + input.rest[1..]| < |input.rest|;
    }
  }

  /** For every command and every input, distinct parameter names or not: the daemon's parser gives a forwarded input
      back unchanged exactly when some argv parses to that input and none of its flags is of a kind that forwarding
      loses. */
  lemma ForwardingIsExact(cmd: Cmd, input: Input)
    ensures Parsed(cmd, Forwarded(cmd, input)) == Ok(input) <==> Parseable(cmd, input) && Forwardable(cmd, input)
  {
    hide Tokens;
    var toks := Forwarded(cmd, input);
    if Parsed(cmd, toks) == Ok(input) {
      TokensKeepShape(cmd, toks, NO_INPUT);
    }
    if Parseable(cmd, input) {
      if !PlainValues(input.args) {
        NotPlainIsLost(cmd, input);
      } else if input.rest != [] && EndsBare(cmd.params, input.args) {
        SwallowedOperand(cmd, input);
      } else {
        var tail := input.rest + JsonFlag(input.json);
        FlagsRead(cmd, cmd.params, input.args, tail, NO_INPUT);
        OverlayRebuilds(cmd, input);
        OperandsRead(cmd, input.rest, input.json, NO_INPUT.(args := input.args));
        assert NO_INPUT.rest + input.rest == input.rest;
      }
    }
  }

  /** Such an input: `--name=--x` parses, and its forwarded form does not parse back. */
  lemma FlagLikeValueIsLost() returns (cmd: Cmd, input: Input)
    ensures Parsed(cmd, ["--name=--x"]) == Ok(input)
    ensures Parsed(cmd, Forwarded(cmd, input)) != Ok(input)
  {
    hide Tokens;
    cmd := Cmd(["run"], [Param("name", false, false)]);
    input := NO_INPUT.(args := map["name" := "--x"]);
    assert '=' !in "name" && Declared(cmd.params, "name").Some?;
    InlineRead(cmd, "name", "--x", [], NO_INPUT);
    assert "--" + "name" + "=" + "--x" == "--name=--x" && ["--name=--x"] + [] == ["--name=--x"];
    OperandsRead(cmd, [], false, input);
    assert [] + JsonFlag(false) == [];
    NothingMissing(cmd.params, input.args);
    assert IsFlag(input.args["name"]);
    ForwardingIsExact(cmd, input);
  }

  // ---------------------------------------------------------------- the range of the parser

  function InlineFlags(params: seq<Param>, args: map<string, string>): seq<string> {
    if params == [] then []
    else
      var name := params[0].name;
      (if name in args then ["--" + name + "=" + args[name]] else []) + InlineFlags(params[1..], args)
  }

  lemma {:induction false} InlineFlagsRead(cmd: Cmd, params: seq<Param>, args: map<string, string>, tail: seq<string>,
                                           input: Input)
    requires forall param :: param in params && param.name in args ==>
               Declared(cmd.params, param.name).Some? && '=' !in param.name
    ensures Tokens(cmd, InlineFlags(params, args) + tail, input)
         == Tokens(cmd, tail, input.(args := Overlay(input.args, params, args)))
    decreases |params|
  {
    hide Tokens;
    if params == [] {
      assert InlineFlags(params, args) + tail == tail;
    } else {
      var name, after := params[0].name, InlineFlags(params[1..], args) + tail;
      if name in args {
        assert InlineFlags(params, args) + tail == ["--" + name + "=" + args[name]] + after;
        InlineRead(cmd, name, args[name], after, input);
        InlineFlagsRead(cmd, params[1..], args, tail, input.(args := input.args[name := args[name]]));
      } else {
        assert InlineFlags(params, args) + tail == after;
        InlineFlagsRead(cmd, params[1..], args, tail, input);
      }
    }
  }

  /** Overlaying all declared parameters on nothing rebuilds the arguments. */
  lemma OverlayRebuilds(cmd: Cmd, input: Input)
    requires Parseable(cmd, input)
    ensures Overlay(map[], cmd.params, input.args) == input.args
  {
    var over := Overlay(map[], cmd.params, input.args);
    forall name
      ensures (name in over <==> name in input.args) && (name in over ==> over[name] == input.args[name])
    {
      OverlayAt(map[], cmd.params, input.args, name);
    }
  }

  /** An input is parseable exactly when some argv of the command parses to it. */
  lemma ParseableIsTheRange(cmd: Cmd, input: Input)
    ensures Parseable(cmd, input) <==> exists toks :: Parsed(cmd, toks) == Ok(input)
  {
    hide Tokens;
    if Parseable(cmd, input) {
      var tail := input.rest + JsonFlag(input.json);
      InlineFlagsRead(cmd, cmd.params, input.args, tail, NO_INPUT);
      OverlayRebuilds(cmd, input);
      OperandsRead(cmd, input.rest, input.json, NO_INPUT.(args := input.args));
      assert NO_INPUT.rest + input.rest == input.rest;
      assert Parsed(cmd, InlineFlags(cmd.params, input.args) + tail) == Ok(input);
    }
    if exists toks :: Parsed(cmd, toks) == Ok(input) {
      var toks :| Parsed(cmd, toks) == Ok(input);
      TokensKeepShape(cmd, toks, NO_INPUT);
    }
  }

  // ---------------------------------------------------------------- through the daemon's registry

  /** The daemon runs the same command on the same input exactly when, besides, no longer registered path opens the
      argv. */
  lemma ForwardedReachesItsCommand(cmds: seq<Cmd>, cmd: Cmd, input: Input)
    requires WellRegistered(cmds) && cmd in cmds
    ensures var argv := cmd.path + Forwarded(cmd, input);
            (exists ran ::
               && Addressed(cmds, argv, ran) && ran.path == cmd.path
               && Parsed(ran, argv[|ran.path|..]) == Ok(input))
            <==>
            && Parseable(cmd, input) && Forwardable(cmd, input)
            && (forall other :: other in cmds && other.path <= argv ==> |other.path| <= |cmd.path|)
  {
    var argv := cmd.path + Forwarded(cmd, input);
    assert argv[|cmd.path|..] == Forwarded(cmd, input);
    ForwardingIsExact(cmd, input);
    if exists ran :: Addressed(cmds, argv, ran) && ran.path == cmd.path
        && Parsed(ran, argv[|ran.path|..]) == Ok(input) {
      var ran :| Addressed(cmds, argv, ran) && ran.path == cmd.path && Parsed(ran, argv[|ran.path|..]) == Ok(input);
      assert Addressed(cmds, argv, cmd);
      AddressedIsUnique(cmds, argv, ran, cmd);
    }
    if forall other :: other in cmds && other.path <= argv ==> |other.path| <= |cmd.path| {
      assert cmd.path <= argv && Addressed(cmds, argv, cmd);
    }
  }
}

/** The argv parser and the command registry of core/cli/registry.go. */
module CommandLine {
  import opened Prelude

  datatype Param = Param(name: string, required: bool, valueRequired: bool)

  datatype Cmd = Cmd(path: seq<string>, params: seq<Param>)

  datatype Input = Input(args: map<string, string>, rest: seq<string>, json: bool)

  datatype UsageError =
    | UnknownFlag(name: string)
    | FlagNeedsValue(name: string)
    | MissingRequired(name: string)
    | EmptyPath
    | DuplicateCommand

  const NO_INPUT := Input(map[], [], false)

  predicate IsFlag(tok: string) {
    2 <= |tok| && tok[0] == '-' && tok[1] == '-'
  }

  /** The value of an argument, "" when it is absent (contracts.Input.Get). */
  function Get(input: Input, name: string): string {
    if name in input.args then input.args[name] else ""
  }

  /** The value of an argument, if it was given (contracts.Input.Lookup). */
  function Lookup(input: Input, name: string): Option<string> {
    if name in input.args then Some(input.args[name]) else None
  }

  // ---------------------------------------------------------------- parsing, as a function of the tokens

  /** The first declared parameter of that name. */
  function Declared(params: seq<Param>, name: string): Option<Param> {
    if params == [] then None
    else if params[0].name == name then Some(params[0])
    else Declared(params[1..], name)
  }

  lemma {:induction false} DeclaredIsMember(params: seq<Param>, name: string)
    requires Declared(params, name).Some?
    ensures Declared(params, name).value in params && Declared(params, name).value.name == name
  {
    if params[0].name != name {
      DeclaredIsMember(params[1..], name);
    }
  }

  /** What the flag at the head of `toks` does to `input`, and how many further tokens it takes. */
  function FlagRead(cmd: Cmd, toks: seq<string>, input: Input): (r: Result<(Input, nat), UsageError>)
    requires toks != [] && IsFlag(toks[0])
    ensures r.Ok? ==> r.value.1 < |toks|
  {
    var (name, inline, isInline) := Cut(toks[0][2..], '=');
    match Declared(cmd.params, name)
    case None => Err(UnknownFlag(name))
    case Some(param) =>
      if isInline then
        Ok((input.(args := input.args[name := inline]), 0))
      else if 1 < |toks| && !IsFlag(toks[1]) then
        Ok((input.(args := input.args[name := toks[1]]), 1))
      else if param.required || param.valueRequired then
        Err(FlagNeedsValue(name))
      else
        Ok((input.(args := input.args[name := "true"]), 0))
  }

  /** The tokens read from left to right onto `input`. */
  function Tokens(cmd: Cmd, toks: seq<string>, input: Input): Result<Input, UsageError>
    decreases |toks|
  {
    if toks == [] then Ok(input)
    else if toks[0] == "--json" then Tokens(cmd, toks[1..], input.(json := true))
    else if !IsFlag(toks[0]) then Tokens(cmd, toks[1..], input.(rest := input.rest + [toks[0]]))
    else
      match FlagRead(cmd, toks, input)
      case Err(e) => Err(e)
      case Ok((next, extra)) => Tokens(cmd, toks[1 + extra..], next)
  }

  function FirstMissing(params: seq<Param>, args: map<string, string>): Option<string> {
    if params == [] then None
    else if params[0].required && params[0].name !in args then Some(params[0].name)
    else FirstMissing(params[1..], args)
  }

  lemma {:induction false} NothingMissing(params: seq<Param>, args: map<string, string>)
    requires forall param :: param in params ==> !param.required
    ensures FirstMissing(params, args).None?
  {
    if params != [] {
      NothingMissing(params[1..], args);
    }
  }

  function Parsed(cmd: Cmd, toks: seq<string>): Result<Input, UsageError> {
    match Tokens(cmd, toks, NO_INPUT)
    case Err(e) => Err(e)
    case Ok(input) =>
      match FirstMissing(cmd.params, input.args)
      case Some(name) => Err(MissingRequired(name))
      case None => Ok(input)
  }

  // ---------------------------------------------------------------- parsing, as the loops that do it

  /** The first parameter of that name. */
  method FindParam(cmd: Cmd, name: string) returns (param: Option<Param>)
    ensures param == Declared(cmd.params, name)
    ensures param.None? ==> forall i :: 0 <= i < |cmd.params| ==> cmd.params[i].name != name
    ensures param.Some? ==> param.value.name == name && exists i ::
                              && 0 <= i < |cmd.params| && cmd.params[i] == param.value
                              && forall j :: 0 <= j < i ==> cmd.params[j].name != name
  {
    for index := 0 to |cmd.params|
      invariant Declared(cmd.params, name) == Declared(cmd.params[index..], name)
      invariant forall j :: 0 <= j < index ==> cmd.params[j].name != name
    {
      if cmd.params[index].name == name {
        return Some(cmd.params[index]);
      }
    }
    return None;
  }

  method ParseFlag(cmd: Cmd, rest: seq<string>, index: nat, input: Input) returns (r: Result<(Input, nat), UsageError>)
    requires index < |rest| && IsFlag(rest[index])
    ensures r == FlagRead(cmd, rest[index..], input)
  {
    var (name, inline, isInline) := Cut(rest[index][2..], '=');
    var param := FindParam(cmd, name);
    if param.None? {
      return Err(UnknownFlag(name));
    }
    if isInline {
      return Ok((input.(args := input.args[name := inline]), 0));
    }
    if index + 1 < |rest| && !IsFlag(rest[index + 1]) {
      return Ok((input.(args := input.args[name := rest[index + 1]]), 1));
    } else if param.value.required || param.value.valueRequired {
      return Err(FlagNeedsValue(name));
    }
    return Ok((input.(args := input.args[name := "true"]), 0));
  }

  /** The first required parameter without an argument. */
  method CheckRequired(cmd: Cmd, input: Input) returns (missing: Option<string>)
    ensures missing == FirstMissing(cmd.params, input.args)
    ensures missing.None? <==> forall param :: param in cmd.params && param.required ==> param.name in input.args
    ensures missing.Some? ==>
              exists i ::
                && 0 <= i < |cmd.params| && cmd.params[i].required && cmd.params[i].name == missing.value
                && missing.value !in input.args
                && forall j :: 0 <= j < i && cmd.params[j].required ==> cmd.params[j].name in input.args
  {
    for index := 0 to |cmd.params|
      invariant FirstMissing(cmd.params, input.args) == FirstMissing(cmd.params[index..], input.args)
      invariant forall j :: 0 <= j < index && cmd.params[j].required ==> cmd.params[j].name in input.args
    {
      if cmd.params[index].required && cmd.params[index].name !in input.args {
        return Some(cmd.params[index].name);
      }
    }
    return None;
  }

  method Parse(cmd: Cmd, rest: seq<string>) returns (r: Result<Input, UsageError>)
    ensures r == Parsed(cmd, rest)
  {
    var input := NO_INPUT;
    var index := 0;
    while index < |rest|
      invariant index <= |rest|
      invariant Tokens(cmd, rest, NO_INPUT) == Tokens(cmd, rest[index..], input)
    {
      var tok := rest[index];
      assert rest[index..][1..] == rest[index + 1..];
      if tok == "--json" {
        input := input.(json := true);
      } else if !IsFlag(tok) {
        input := input.(rest := input.rest + [tok]);
      } else {
        var read := ParseFlag(cmd, rest, index, input);
        if read.Err? {
          return Err(read.error);
        }
        assert rest[index..][1 + read.value.1..] == rest[index + 1 + read.value.1..];
        input := read.value.0;
        index := index + read.value.1;
      }
      index := index + 1;
    }
    var missing := CheckRequired(cmd, input);
    if missing.Some? {
      return Err(MissingRequired(missing.value));
    }
    return Ok(input);
  }

  // ---------------------------------------------------------------- what parsing can produce

  /** The inputs that some argv of `cmd` parses to. */
  ghost predicate Parseable(cmd: Cmd, input: Input) {
    && (forall name :: name in input.args ==> Declared(cmd.params, name).Some? && '=' !in name)
    && (forall tok :: tok in input.rest ==> !IsFlag(tok))
    && FirstMissing(cmd.params, input.args).None?
  }

  /** Reading tokens keeps the shape of what was read before them. */
  lemma {:induction false} TokensKeepShape(cmd: Cmd, toks: seq<string>, input: Input)
    requires forall name :: name in input.args ==> Declared(cmd.params, name).Some? && '=' !in name
    requires forall tok :: tok in input.rest ==> !IsFlag(tok)
    requires Tokens(cmd, toks, input).Ok?
    ensures var read := Tokens(cmd, toks, input).value;
            && (forall name :: name in read.args ==> Declared(cmd.params, name).Some? && '=' !in name)
            && (forall tok :: tok in read.rest ==> !IsFlag(tok))
    decreases |toks|
  {
    if toks == [] {
    } else if toks[0] == "--json" {
      TokensKeepShape(cmd, toks[1..], input.(json := true));
    } else if !IsFlag(toks[0]) {
      TokensKeepShape(cmd, toks[1..], input.(rest := input.rest + [toks[0]]));
    } else {
      var read := FlagRead(cmd, toks, input);
      TokensKeepShape(cmd, toks[1 + read.value.1..], read.value.0);
    }
  }

  lemma JsonRead(cmd: Cmd, json: bool, input: Input)
    ensures Tokens(cmd, JsonFlag(json), input) == Ok(input.(json := input.json || json))
  {
    if json {
      assert ["--json"][1..] == [];
    }
  }

  /** Operands that do not look like flags are collected in order. */
  lemma {:induction false} OperandsRead(cmd: Cmd, operands: seq<string>, json: bool, input: Input)
    requires forall tok :: tok in operands ==> !IsFlag(tok)
    ensures Tokens(cmd, operands + JsonFlag(json), input)
         == Ok(input.(rest := input.rest + operands, json := input.json || json))
    decreases |operands|
  {
    hide FlagRead;
    var toks := operands + JsonFlag(json);
    if operands == [] {
      JsonRead(cmd, json, input);
      assert toks == JsonFlag(json) && input.rest + operands == input.rest;
    } else {
      var first, next := operands[0], input.(rest := input.rest + [operands[0]]);
      assert first in operands && IsFlag("--json");
      assert toks[0] == first && toks[1..] == operands[1..] + JsonFlag(json);
      OperandsRead(cmd, operands[1..], json, next);
      assert next.rest + operands[1..] == input.rest + operands;
    }
  }

  function JsonFlag(json: bool): seq<string> {
    if json then ["--json"] else []
  }

  /** An argument is never given a value that no token spells: a flag-like value needs the inline form, and so does
      the name "json". */
  lemma {:induction false} NeverAssigned(cmd: Cmd, toks: seq<string>, input: Input, name: string, value: string)
    requires IsFlag(value) || name == "json"
    requires "--" + name + "=" + value !in toks
    requires name in input.args ==> input.args[name] != value
    ensures Tokens(cmd, toks, input).Ok? && name in Tokens(cmd, toks, input).value.args
            ==> Tokens(cmd, toks, input).value.args[name] != value
    decreases |toks|
  {
    if toks == [] {
    } else if toks[0] == "--json" {
      NeverAssigned(cmd, toks[1..], input.(json := true), name, value);
    } else if !IsFlag(toks[0]) {
      NeverAssigned(cmd, toks[1..], input.(rest := input.rest + [toks[0]]), name, value);
    } else {
      var read := FlagRead(cmd, toks, input);
      if read.Ok? {
        FlagNeverAssigns(cmd, toks, input, name, value);
        NeverAssigned(cmd, toks[1 + read.value.1..], read.value.0, name, value);
      }
    }
  }

  lemma FlagNeverAssigns(cmd: Cmd, toks: seq<string>, input: Input, name: string, value: string)
    requires toks != [] && IsFlag(toks[0]) && toks[0] != "--json" && FlagRead(cmd, toks, input).Ok?
    requires IsFlag(value) || name == "json"
    requires "--" + name + "=" + value !in toks
    requires name in input.args ==> input.args[name] != value
    ensures var read := FlagRead(cmd, toks, input).value.0;
            name in read.args ==> read.args[name] != value
  {
    var (given, inline, isInline) := Cut(toks[0][2..], '=');
    assert toks[0] == "--" + toks[0][2..];
    if isInline {
      assert toks[0] == "--" + given + "=" + inline && toks[0] in toks;
    } else if given == name {
      assert name != "json" by {
        assert toks[0] == "--" + name;
      }
      assert !IsFlag("true");
    }
  }

  // ---------------------------------------------------------------- token by token

  /** What stands before a flag is read as if nothing followed, error and all. */
  lemma {:induction false} PrefixReads(cmd: Cmd, front: seq<string>, back: seq<string>, input: Input)
    requires back == [] || IsFlag(back[0])
    ensures Tokens(cmd, front + back, input)
         == match Tokens(cmd, front, input)
            case Err(e) => Err(e)
            case Ok(mid) => Tokens(cmd, back, mid)
    decreases |front|
  {
    var all := front + back;
    if front == [] {
      assert all == back;
    } else {
      assert all[0] == front[0] && all[1..] == front[1..] + back;
      if front[0] == "--json" {
        PrefixReads(cmd, front[1..], back, input.(json := true));
      } else if !IsFlag(front[0]) {
        PrefixReads(cmd, front[1..], back, input.(rest := input.rest + [front[0]]));
      } else {
        var read := FlagRead(cmd, front, input);
        assert FlagRead(cmd, all, input) == read;
        if read.Ok? {
          assert all[1 + read.value.1..] == front[1 + read.value.1..] + back;
          PrefixReads(cmd, front[1 + read.value.1..], back, read.value.0);
        }
      }
    }
  }

  /** A flag that no parameter declares refuses the whole line, in either spelling, wherever it stands, unless an
      earlier token already did. */
  lemma UndeclaredIsRefused(cmd: Cmd, front: seq<string>, name: string, value: Option<string>, tail: seq<string>)
    requires forall param :: param in cmd.params ==> param.name != name
    requires '=' !in name && (name == "json" ==> value.Some?)
    ensures var flag := "--" + name + if value.Some? then "=" + value.value else "";
            Parsed(cmd, front + ([flag] + tail))
            == match Tokens(cmd, front, NO_INPUT)
               case Err(e) => Err(e)
               case Ok(_) => Err(UnknownFlag(name))
  {
    var flag := "--" + name + if value.Some? then "=" + value.value else "";
    PrefixReads(cmd, front, [flag] + tail, NO_INPUT);
    if Declared(cmd.params, name).Some? {
      DeclaredIsMember(cmd.params, name);
    }
    if value.Some? {
      CutUndoesJoin(name, '=', value.value);
      assert flag[2..] == name + ['='] + value.value;
      assert '=' in flag[2..] && '=' !in "--json"[2..];
    } else {
      assert flag[2..] == name && "--json"[2..] == "json";
    }
  }

  // ---------------------------------------------------------------- spelling one flag

  function FlagArg(name: string, value: string): seq<string> {
    if IsFlag(value) then ["--" + name + "=" + value] else ["--" + name, value]
  }

  /** The inline spelling carries any value, also to a parameter called "json". */
  lemma InlineRead(cmd: Cmd, name: string, value: string, tail: seq<string>, input: Input)
    requires Declared(cmd.params, name).Some? && '=' !in name
    ensures Tokens(cmd, ["--" + name + "=" + value] + tail, input)
         == Tokens(cmd, tail, input.(args := input.args[name := value]))
  {
    var toks := ["--" + name + "=" + value] + tail;
    assert toks[0][2..] == name + "=" + value && toks[1..] == tail;
    CutUndoesJoin(name, '=', value);
    assert toks[0] != "--json" by {
      assert '=' in toks[0][2..];
      assert '=' !in "--json"[2..];
    }
  }

  /** Whatever value a flag is spelled with, and whatever follows, parsing gives that value back; the spelling is the
      two tokens that older parsers know, unless the value looks like a flag. */
  lemma FlagArgParsesBack(cmd: Cmd, name: string, value: string, tail: seq<string>, input: Input)
    requires Declared(cmd.params, name).Some? && '=' !in name
    requires name != "json" || IsFlag(value)
    ensures Tokens(cmd, FlagArg(name, value) + tail, input)
         == Tokens(cmd, tail, input.(args := input.args[name := value]))
    ensures !("--" <= value) ==> FlagArg(name, value) == ["--" + name, value]
  {
    if IsFlag(value) {
      InlineRead(cmd, name, value, tail, input);
    } else {
      var toks := FlagArg(name, value) + tail;
      assert toks[0][2..] == name && toks[2..] == tail;
      assert toks[0] != "--json" by {
        assert "--json"[2..] == "json";
      }
    }
  }
}

/** `approve allow` (core/host/approve_cmd.go): its operand may stand on either side of its flags, and survives
    forwarding. */
module ApproveAllow {
  import opened Prelude
  import opened CommandLine
  import opened Operator

  datatype Scope = Once | Session | Always

  datatype Decoded = Allow(id: string, scope: Scope) | ScopeConflict | RequestNameMissing

  const ALLOW := Cmd(["approve", "allow"],
                     [Param("id", false, true), Param("session", false, false), Param("always", false, false)])

  function OperandIn(value: string): seq<string> {
    if value == "" || value == "true" then [] else [value]
  }

  function ScopeIn(value: string, scope: Scope): seq<Scope> {
    if value == "" then [] else [scope]
  }

  /** The request and the scope an input names. */
  function Operands(input: Input): Decoded {
    var id, session, always := Get(input, "id"), Get(input, "session"), Get(input, "always");
    var operands := (if id != "" then [id] else []) + input.rest + OperandIn(session) + OperandIn(always);
    var scopes := ScopeIn(session, Session) + ScopeIn(always, Always);
    if |scopes| > 1 then ScopeConflict
    else if operands == [] then RequestNameMissing
    else Allow(operands[0], if |scopes| == 1 then scopes[0] else Once)
  }

  /** Two scope flags conflict; otherwise the request is the `--id`, or the first operand, or what a scope flag carries
      beside "true", the session's before the other's. */
  method AllowOperands(input: Input) returns (decoded: Decoded)
    ensures decoded == Operands(input)
    ensures var id, session, always := Get(input, "id"), Get(input, "session"), Get(input, "always");
            && (decoded == ScopeConflict <==> session != "" && always != "")
            && (decoded == RequestNameMissing <==>
                  && (session == "" || always == "")
                  && id == "" && input.rest == [] && session in ["", "true"] && always in ["", "true"])
            && (decoded.Allow? ==>
                  && decoded.scope == (if session != "" then Session else if always != "" then Always else Once)
                  && decoded.id == (if id != "" then id else if input.rest != [] then input.rest[0]
                                    else if session !in ["", "true"] then session else always))
  {
    var operands := input.rest;
    var id := Get(input, "id");
    if id != "" {
      operands := [id] + operands;
    }
    var scopes: seq<Scope> := [];
    var flags := [("session", Session), ("always", Always)];
    for index := 0 to |flags|
      invariant operands == (if id != "" then [id] else []) + input.rest
                          + (if index > 0 then OperandIn(Get(input, "session")) else [])
                          + (if index > 1 then OperandIn(Get(input, "always")) else [])
      invariant scopes == (if index > 0 then ScopeIn(Get(input, "session"), Session) else [])
                        + (if index > 1 then ScopeIn(Get(input, "always"), Always) else [])
    {
      var (name, scope) := flags[index];
      var value := Get(input, name);
      if value == "" {
        continue;
      }
      scopes := scopes + [scope];
      if value != "true" {
        operands := operands + [value];
      }
    }
    if |scopes| > 1 {
      return ScopeConflict;
    }
    if operands == [] {
      return RequestNameMissing;
    }
    var scope := Once;
    if |scopes| == 1 {
      scope := scopes[0];
    }
    return Allow(operands[0], scope);
  }

  // ---------------------------------------------------------------- calls with one operand

  /** A scope flag spelled without a value, which takes an operand that follows it. */
  predicate IsScopeFlag(tok: string) {
    tok == "--session" || tok == "--always"
  }

  /** Either spelling of a flag that is set: `--session` or `--session=true`. */
  predicate Sets(tok: string, flag: string) {
    tok == flag || tok == flag + "=true"
  }

  predicate SetsScope(tok: string) {
    Sets(tok, "--session") || Sets(tok, "--always")
  }

  ghost predicate FlagTokens(flags: seq<string>) {
    forall tok :: tok in flags ==> SetsScope(tok) || tok == "--json"
  }

  predicate Given(flag: string, flags: seq<string>) {
    flag in flags || flag + "=true" in flags
  }

  /** What a call with this operand and these flags asks for. */
  function Asked(operand: string, flags: seq<string>): Decoded {
    if BothScopes(flags) then ScopeConflict
    else if Given("--session", flags) then Allow(operand, Session)
    else if Given("--always", flags) then Allow(operand, Always)
    else Allow(operand, Once)
  }

  predicate BothScopes(flags: seq<string>) {
    Given("--session", flags) && Given("--always", flags)
  }

  predicate NoScope(flags: seq<string>) {
    !Given("--session", flags) && !Given("--always", flags)
  }

  /** The decoding of a command line of `approve allow`. */
  function DecodedLine(toks: seq<string>): Option<Decoded> {
    match Parsed(ALLOW, toks)
    case Ok(input) => Some(Operands(input))
    case Err(_) => None
  }

  /** The operand stands right after a scope flag, which takes it as its value. */
  predicate Swallowed(before: seq<string>) {
    before != [] && IsScopeFlag(before[|before| - 1])
  }

  function FlagOf(tok: string): string {
    if Sets(tok, "--session") then "session" else "always"
  }

  function Line(before: seq<string>, operand: string, after: seq<string>): seq<string> {
    before + [operand] + after
  }

  /** The input after a bare flag was read onto `input`. */
  function Mark(input: Input, flag: string): Input {
    if flag == "--json" then input.(json := true)
    else input.(args := input.args[FlagOf(flag) := "true"])
  }

  function Marked(input: Input, flags: seq<string>): Input
    decreases |flags|
  {
    if flags == [] then input else Marked(Mark(input, flags[0]), flags[1..])
  }

  lemma AllowDeclares()
    ensures Declared(ALLOW.params, "id") == Some(Param("id", false, true))
    ensures Declared(ALLOW.params, "session") == Some(Param("session", false, false))
    ensures Declared(ALLOW.params, "always") == Some(Param("always", false, false))
    ensures '=' !in "session" && '=' !in "always" && '=' !in "id"
    ensures "--" + "session" == "--session" && "--" + "always" == "--always" && "--" + "id" == "--id"
  {
    var params := ALLOW.params;
    assert params[1..][0] == Param("session", false, false) && params[1..][1..][0] == Param("always", false, false);
  }

  /** The spellings are all different. */
  lemma SpellingsDiffer()
    ensures "--session" != "--always" && "--session" != "--json" && "--always" != "--json"
    ensures !Sets("--session", "--always") && !Sets("--always", "--session") && !SetsScope("--json")
    ensures !IsScopeFlag("--session=true") && !IsScopeFlag("--always=true")
  {
    assert |"--session"| == 9 && |"--always"| == 8 && |"--json"| == 6;
    assert |"--session=true"| == 14 && |"--always=true"| == 13;
  }

  lemma SetsNamed(tok: string)
    requires SetsScope(tok)
    ensures Sets(tok, "--" + FlagOf(tok))
    ensures IsFlag(tok) && tok != "--json" && '=' !in FlagOf(tok)
    ensures Declared(ALLOW.params, FlagOf(tok)) == Some(Param(FlagOf(tok), false, false))
  {
    AllowDeclares();
    SpellingsDiffer();
  }

  lemma FlagMarks(flag: string, tail: seq<string>, input: Input)
    requires SetsScope(flag) || flag == "--json"
    requires IsScopeFlag(flag) ==> tail == [] || IsFlag(tail[0])
    ensures Tokens(ALLOW, [flag] + tail, input) == Tokens(ALLOW, tail, Mark(input, flag))
  {
    if flag == "--json" {
      assert ([flag] + tail)[1..] == tail;
    } else if IsScopeFlag(flag) {
      AllowDeclares();
      BareRead(ALLOW, FlagOf(flag), tail, input);
    } else {
      InlineMarks(flag, tail, input);
    }
  }

  lemma InlineMarks(flag: string, tail: seq<string>, input: Input)
    requires SetsScope(flag) && !IsScopeFlag(flag)
    ensures Tokens(ALLOW, [flag] + tail, input) == Tokens(ALLOW, tail, Mark(input, flag))
  {
    hide Tokens;
    SetsNamed(flag);
    InlineRead(ALLOW, FlagOf(flag), "true", tail, input);
    assert flag == "--" + FlagOf(flag) + "=" + "true" by {
      AllowDeclares();
      assert "--" + FlagOf(flag) + "=" + "true" == "--" + FlagOf(flag) + "=true";
    }
  }

  lemma {:induction false} FlagsMark(flags: seq<string>, tail: seq<string>, input: Input)
    requires FlagTokens(flags) && (Swallowed(flags) ==> tail == [] || IsFlag(tail[0]))
    ensures Tokens(ALLOW, flags + tail, input) == Tokens(ALLOW, tail, Marked(input, flags))
    decreases |flags|
  {
    hide Tokens, Mark, Sets;
    if flags == [] {
      assert flags + tail == tail;
    } else {
      var others := flags[1..] + tail;
      assert flags + tail == [flags[0]] + others;
      if |flags| == 1 {
        assert others == tail;
      } else {
        assert others[0] == flags[1] && flags[1] in flags;
        if flags[1] != "--json" {
          SetsNamed(flags[1]);
        }
      }
      FlagMarks(flags[0], others, input);
      FlagsMark(flags[1..], tail, Mark(input, flags[0]));
    }
  }

  lemma {:induction false} MarkedConcat(input: Input, one: seq<string>, two: seq<string>)
    ensures Marked(input, one + two) == Marked(Marked(input, one), two)
    decreases |one|
  {
    if one == [] {
      assert one + two == two;
    } else {
      assert (one + two)[1..] == one[1..] + two;
      MarkedConcat(Mark(input, one[0]), one[1..], two);
    }
  }

  lemma MarkedOne(input: Input, tok: string)
    requires SetsScope(tok) || tok == "--json"
    ensures var marked := Mark(input, tok);
            && marked.rest == input.rest && Lookup(marked, "id") == Lookup(input, "id")
            && Lookup(marked, "session") == (if Sets(tok, "--session") then Some("true") else Lookup(input, "session"))
            && Lookup(marked, "always") == (if Sets(tok, "--always") then Some("true") else Lookup(input, "always"))
  {
    SpellingsDiffer();
    assert "session" != "always" && "session" != "id" && "always" != "id";
  }

  lemma GivenFirst(flag: string, flags: seq<string>)
    requires flags != []
    ensures Given(flag, flags) <==> Sets(flags[0], flag) || Given(flag, flags[1..])
  {
    assert flags == [flags[0]] + flags[1..];
  }

  /** Flags set the arguments they name, and nothing else. */
  lemma {:induction false} MarkedValues(input: Input, flags: seq<string>)
    requires FlagTokens(flags)
    ensures var marked := Marked(input, flags);
            && marked.rest == input.rest
            && Lookup(marked, "id") == Lookup(input, "id")
            && Lookup(marked, "session")
                == (if Given("--session", flags) then Some("true") else Lookup(input, "session"))
            && Lookup(marked, "always") == (if Given("--always", flags) then Some("true") else Lookup(input, "always"))
    decreases |flags|
  {
    hide Mark, Lookup, Sets, Given, SetsScope;
    if flags == [] {
      NoneGiven();
    } else {
      assert flags[0] in flags && forall tok :: tok in flags[1..] ==> tok in flags;
      MarkedOne(input, flags[0]);
      MarkedValues(Mark(input, flags[0]), flags[1..]);
      GivenFirst("--session", flags);
      GivenFirst("--always", flags);
    }
  }

  lemma NoneGiven()
    ensures NoScope([])
  {
  }

  /** What a call with one operand parses to: a scope flag right before the operand takes it. */
  function LineInput(before: seq<string>, operand: string, after: seq<string>): Input {
    if Swallowed(before) then
      var last := before[|before| - 1];
      var front := Marked(NO_INPUT, before[..|before| - 1]);
      Marked(front.(args := front.args[FlagOf(last) := operand]), after)
    else
      Marked(WithOperand(NO_INPUT, operand), before + after)
  }

  /** Reading an operand that stands apart, then bare flags to the end. */
  lemma OperandThenFlags(operand: string, after: seq<string>, input: Input)
    requires FlagTokens(after) && !IsFlag(operand)
    ensures Tokens(ALLOW, [operand] + after, input) == Ok(Marked(WithOperand(input, operand), after))
  {
    assert ([operand] + after)[1..] == after && after + [] == after;
    FlagsMark(after, [], WithOperand(input, operand));
  }

  /** The same with a scope flag right before the operand. */
  lemma SwallowThenFlags(flag: string, operand: string, after: seq<string>, input: Input)
    requires IsScopeFlag(flag) && FlagTokens(after) && !IsFlag(operand)
    ensures Tokens(ALLOW, [flag, operand] + after, input)
            == Ok(Marked(input.(args := input.args[FlagOf(flag) := operand]), after))
  {
    AllowDeclares();
    PairRead(ALLOW, FlagOf(flag), operand, after, input);
    assert after + [] == after;
    FlagsMark(after, [], input.(args := input.args[FlagOf(flag) := operand]));
  }

  lemma LineRead(before: seq<string>, operand: string, after: seq<string>)
    requires FlagTokens(before) && FlagTokens(after) && !IsFlag(operand)
    ensures Tokens(ALLOW, Line(before, operand, after), NO_INPUT) == Ok(LineInput(before, operand, after))
  {
    hide Tokens, Marked, FlagOf, WithOperand;
    var toks := Line(before, operand, after);
    if Swallowed(before) {
      var front, last := before[..|before| - 1], before[|before| - 1];
      assert before == front + [last] && forall tok :: tok in front ==> tok in before;
      assert toks == front + ([last, operand] + after) && ([last, operand] + after)[0] == last;
      FlagsMark(front, [last, operand] + after, NO_INPUT);
      SwallowThenFlags(last, operand, after, Marked(NO_INPUT, front));
    } else {
      assert toks == before + ([operand] + after);
      FlagsMark(before, [operand] + after, NO_INPUT);
      OperandThenFlags(operand, after, Marked(NO_INPUT, before));
      MarkedOperand(NO_INPUT, before, operand);
      MarkedConcat(WithOperand(NO_INPUT, operand), before, after);
    }
  }

  lemma LineParsed(before: seq<string>, operand: string, after: seq<string>)
    requires FlagTokens(before) && FlagTokens(after) && !IsFlag(operand)
    ensures Parsed(ALLOW, Line(before, operand, after)) == Ok(LineInput(before, operand, after))
  {
    hide Tokens, LineInput, Line;
    LineRead(before, operand, after);
    NothingMissing(ALLOW.params, LineInput(before, operand, after).args);
  }

  function WithOperand(input: Input, operand: string): Input {
    input.(rest := input.rest + [operand])
  }

  /** Flags and operands that stay apart commute. */
  lemma {:induction false} MarkedOperand(input: Input, flags: seq<string>, operand: string)
    ensures Marked(WithOperand(input, operand), flags) == WithOperand(Marked(input, flags), operand)
    decreases |flags|
  {
    if flags != [] {
      MarkedOperand(Mark(input, flags[0]), flags[1..], operand);
    }
  }

  /** The operand became the value of `flag` and stayed it. */
  predicate Kept(flag: string, before: seq<string>, after: seq<string>) {
    Swallowed(before) && before[|before| - 1] == flag && !Given(flag, after)
  }

  function ValueOf(flag: string, before: seq<string>, operand: string, after: seq<string>): Option<string> {
    if Kept(flag, before, after) then Some(operand)
    else if Given(flag, before + after) then Some("true") else None
  }

  lemma LineValues(before: seq<string>, operand: string, after: seq<string>)
    requires FlagTokens(before) && FlagTokens(after)
    ensures var input := LineInput(before, operand, after);
            && Lookup(input, "id") == None
            && Lookup(input, "session") == ValueOf("--session", before, operand, after)
            && Lookup(input, "always") == ValueOf("--always", before, operand, after)
            && input.rest == if Swallowed(before) then [] else [operand]
  {
    if Swallowed(before) {
      var front, last := before[..|before| - 1], before[|before| - 1];
      var read := Marked(NO_INPUT, front);
      assert before == front + [last];
      MarkedValues(NO_INPUT, front);
      MarkedValues(read.(args := read.args[FlagOf(last) := operand]), after);
    } else {
      MarkedValues(WithOperand(NO_INPUT, operand), before + after);
    }
  }

  /** Exactly which calls with one operand are decoded as asked: the operand may stand anywhere, unless a scope flag
      swallows it and it is empty, reads as a bare flag, or is lost to a repetition of that flag. Two scopes are
      refused whatever the operand, unless it is the empty one a scope flag swallowed. */
  lemma DecodedAsAsked(before: seq<string>, operand: string, after: seq<string>)
    requires FlagTokens(before) && FlagTokens(after) && !IsFlag(operand)
    ensures DecodedLine(Line(before, operand, after)) == Some(Asked(operand, before + after))
            <==> (Swallowed(before) ==>
                    if Given(before[|before| - 1], after) then BothScopes(before + after)
                    else operand != "" && (operand != "true" || BothScopes(before + after)))
  {
    LineParsed(before, operand, after);
    LineValues(before, operand, after);
    assert forall tok :: tok in before + after <==> tok in before || tok in after;
    if Swallowed(before) {
      assert before[|before| - 1] in before;
    }
  }

  /** Such a call: after a scope flag the operand `true` is taken for the flag's own value. */
  lemma TrueIsNoOperandAfterAFlag()
    ensures DecodedLine(["--session", "true"]) != Some(Allow("true", Session))
  {
    hide DecodedLine;
    SpellingsDiffer();
    assert Line(["--session"], "true", []) == ["--session", "true"] && ["--session"] + [] == ["--session"];
    DecodedAsAsked(["--session"], "true", []);
  }

  // ---------------------------------------------------------------- forwarded to the daemon

  /** The scope flags an input carries without a value, in the order they are declared. */
  function ScopeFlags(input: Input): seq<string> {
    (if "session" in input.args then ["--session"] else []) + (if "always" in input.args then ["--always"] else [])
  }

  /** The arguments of an input of this command. */
  lemma AllowFlags(input: Input)
    requires "id" !in input.args
    ensures Flags(ALLOW.params, input.args)
         == Emitted(Param("session", false, false), input.args) + Emitted(Param("always", false, false), input.args)
    ensures EndsBare(ALLOW.params, input.args)
       <==> if "always" in input.args then input.args["always"] == "true"
            else "session" in input.args && input.args["session"] == "true"
  {
    ThreeFlags(Param("id", false, true), Param("session", false, false), Param("always", false, false), input.args);
  }

  lemma ThreeFlags(one: Param, two: Param, three: Param, args: map<string, string>)
    requires one.name !in args
    ensures Flags([one, two, three], args) == Emitted(two, args) + Emitted(three, args)
    ensures EndsBare([one, two, three], args)
       <==> if three.name in args then BareIn(three, args) else two.name in args && BareIn(two, args)
  {
    var all := [one, two, three];
    assert all[1..] == [two, three] && [two, three][1..] == [three] && [three][1..] == [];
    assert Flags([three], args) == Emitted(three, args) + Flags([], args);
    assert Flags([two, three], args) == Emitted(two, args) + Flags([three], args);
    assert all[..2] == [one, two] && [one, two][..1] == [one] && [one][..0] == [];
    assert EndsBare([one], args) == EndsBare([], args);
    assert EndsBare([one, two], args) == if two.name in args then BareIn(two, args) else EndsBare([one], args);
  }

  /** After an unswallowed operand, forwarding puts the scope flags first. */
  lemma ForwardedLine(before: seq<string>, operand: string, after: seq<string>)
    requires FlagTokens(before) && FlagTokens(after) && !IsFlag(operand) && !Swallowed(before)
    ensures var input := LineInput(before, operand, after);
            Forwarded(ALLOW, input) == Line(ScopeFlags(input), operand, JsonFlag(input.json))
    ensures var input := LineInput(before, operand, after);
            && ("session" in input.args <==> Given("--session", before + after))
            && ("always" in input.args <==> Given("--always", before + after))
            && (EndsBare(ALLOW.params, input.args) <==> !NoScope(before + after))
  {
    hide Marked;
    var input := LineInput(before, operand, after);
    LineValues(before, operand, after);
    AllowFlags(input);
    assert "--" + "session" == "--session" && "--" + "always" == "--always";
    assert Flags(ALLOW.params, input.args) == ScopeFlags(input);
  }

  /** A swallowed operand is forwarded as the value it became. */
  lemma SwallowedIsForwardable(before: seq<string>, operand: string, after: seq<string>)
    requires FlagTokens(before) && FlagTokens(after) && !IsFlag(operand) && Swallowed(before)
    ensures Forwardable(ALLOW, LineInput(before, operand, after))
  {
    var input := LineInput(before, operand, after);
    LineParsed(before, operand, after);
    LineValues(before, operand, after);
    ParseableIsTheRange(ALLOW, input);
    AllowDeclares();
    AllowNames(input);
  }

  /** No argument of this command has another name than its three parameters. */
  lemma AllowNames(input: Input)
    requires Parseable(ALLOW, input)
    ensures forall name :: name in input.args ==> name == "id" || name == "session" || name == "always"
  {
    forall name | name in input.args
      ensures name == "id" || name == "session" || name == "always"
    {
      DeclaredIsMember(ALLOW.params, name);
    }
  }

  /** An operand that stands apart comes back in place only when no scope flag is forwarded before it. */
  lemma ApartForwardable(before: seq<string>, operand: string, after: seq<string>)
    requires FlagTokens(before) && FlagTokens(after) && !IsFlag(operand) && !Swallowed(before)
    requires Parseable(ALLOW, LineInput(before, operand, after))
    ensures Forwardable(ALLOW, LineInput(before, operand, after)) <==> NoScope(before + after)
  {
    var input := LineInput(before, operand, after);
    LineValues(before, operand, after);
    ForwardedLine(before, operand, after);
    if NoScope(before + after) {
      AllowNames(input);
      assert input.args == map[];
    }
  }

  lemma ScopeFlagsFacts(input: Input)
    ensures var front, back := ScopeFlags(input), JsonFlag(input.json);
            && FlagTokens(front) && FlagTokens(back)
            && (Given("--session", front + back) <==> "session" in input.args)
            && (Given("--always", front + back) <==> "always" in input.args)
            && (Swallowed(front) <==> "session" in input.args || "always" in input.args)
            && (Swallowed(front) ==> !Given(front[|front| - 1], back))
  {
    var front, back := ScopeFlags(input), JsonFlag(input.json);
    assert "--session" != "--always" && "--session" != "--json" && "--always" != "--json";
    assert forall tok :: tok in back ==> tok == "--json";
    assert "--session" in front <==> "session" in input.args;
    assert "--always" in front <==> "always" in input.args;
  }

  lemma ApartDecoding(before: seq<string>, operand: string, after: seq<string>)
    requires FlagTokens(before) && FlagTokens(after) && !IsFlag(operand) && !Swallowed(before)
    ensures var flags := before + after;
            DecodedLine(Forwarded(ALLOW, LineInput(before, operand, after)))
                == DecodedLine(Line(before, operand, after))
            <==> NoScope(flags) || (operand != "" && (operand != "true" || BothScopes(flags)))
  {
    var input := LineInput(before, operand, after);
    var front, back := ScopeFlags(input), JsonFlag(input.json);
    ForwardedLine(before, operand, after);
    ScopeFlagsFacts(input);
    DecodedAsAsked(before, operand, after);
    assert Asked(operand, front + back) == Asked(operand, before + after);
    DecodedAsAsked(front, operand, back);
  }

  /** Forwarding changes what the daemon parses exactly when an operand stands among scope flags without being the value
      of one; it changes what the daemon decodes only when, besides, that operand is empty or reads as a bare
      flag, and not when two scopes are refused anyway. */
  lemma ForwardingKeepsDecoding(before: seq<string>, operand: string, after: seq<string>)
    requires FlagTokens(before) && FlagTokens(after) && !IsFlag(operand)
    ensures var input, flags := LineInput(before, operand, after), before + after;
            && Parsed(ALLOW, Line(before, operand, after)) == Ok(input)
            && (Parsed(ALLOW, Forwarded(ALLOW, input)) == Ok(input) <==> Swallowed(before) || NoScope(flags))
            && (DecodedLine(Forwarded(ALLOW, input)) == DecodedLine(Line(before, operand, after))
                <==> Swallowed(before) || NoScope(flags)
                     || (operand != "" && (operand != "true" || BothScopes(flags))))
  {
    var input := LineInput(before, operand, after);
    LineParsed(before, operand, after);
    ForwardingIsExact(ALLOW, input);
    ParseableIsTheRange(ALLOW, input);
    if Swallowed(before) {
      SwallowedIsForwardable(before, operand, after);
    } else {
      ApartForwardable(before, operand, after);
      ApartDecoding(before, operand, after);
    }
  }
}

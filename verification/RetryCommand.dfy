/** The retry command that session handoff prints (core/host/session_handoff.go), read as a shell reads it. */
module RetryCommand {
  import opened Prelude
  import opened CommandLine

  // ---------------------------------------------------------------- the shell's side

  /** Inside which quotes a shell is reading. */
  datatype Quoting = Unquoted | SingleQuoted | DoubleQuoted

  /** Characters that, unquoted, are operators or start an expansion: text with one of them is not a list of plain
      words. */
  predicate ShellActive(c: char) {
    c in {'|', '&', ';', '<', '>', '(', ')', '$', '`', '*', '?', '[', '\n'}
  }

  /** The characters a backslash escapes between double quotes. */
  predicate DoubleEscapable(c: char) {
    c in {'$', '`', '"', '\\'}
  }

  /** The words of a command line under the quoting and token recognition rules of the Shell Command Language
      (IEEE Std 1003.1, sections 2.2.1 to 2.2.3 and 2.3); None when the text is not closed or is not made of
      plain words. `word` is the word being read, None between two words. */
  function Words(text: string, quoting: Quoting, word: Option<string>): Option<seq<string>>
    decreases |text|
  {
    match quoting
    case Unquoted =>
      if text == "" then
        Some(if word.Some? then [word.value] else [])
      else if text[0] == ' ' || text[0] == '\t' then
        match Words(text[1..], Unquoted, None)
        case None => None
        case Some(words) => Some((if word.Some? then [word.value] else []) + words)
      else if text[0] == '\'' then
        Words(text[1..], SingleQuoted, Some(Begun(word)))
      else if text[0] == '"' then
        Words(text[1..], DoubleQuoted, Some(Begun(word)))
      else if text[0] == '\\' then
        if |text| == 1 then None
        else if text[1] == '\n' then Words(text[2..], Unquoted, word)
        else Words(text[2..], Unquoted, Some(Begun(word) + [text[1]]))
      else if ShellActive(text[0]) || (word.None? && (text[0] == '#' || text[0] == '~')) then
        None
      else
        Words(text[1..], Unquoted, Some(Begun(word) + [text[0]]))
    case SingleQuoted =>
      if text == "" then None
      else if text[0] == '\'' then Words(text[1..], Unquoted, word)
      else Words(text[1..], SingleQuoted, Some(Begun(word) + [text[0]]))
    case DoubleQuoted =>
      if text == "" then None
      else if text[0] == '"' then Words(text[1..], Unquoted, word)
      else if text[0] == '$' || text[0] == '`' then None
      else if text[0] == '\\' && 1 < |text| && text[1] == '\n' then Words(text[2..], DoubleQuoted, word)
      else if text[0] == '\\' && 1 < |text| && DoubleEscapable(text[1]) then
        Words(text[2..], DoubleQuoted, Some(Begun(word) + [text[1]]))
      else Words(text[1..], DoubleQuoted, Some(Begun(word) + [text[0]]))
  }

  function Begun(word: Option<string>): string {
    if word.Some? then word.value else ""
  }

  // ---------------------------------------------------------------- quoting

  /** The characters of shellSafeChars. */
  predicate IsSafe(c: char) {
    || 'a' <= c <= 'z' || 'A' <= c <= 'Z' || '0' <= c <= '9'
    || c in {'.', '_', '/', ':', '=', '+', '-'}
  }

  /** `value` with each single quote replaced by a closing quote, an escaped quote and an opening one. */
  function Escape(value: string): string {
    if value == "" then ""
    else (if value[0] == '\'' then "'\\''" else [value[0]]) + Escape(value[1..])
  }

  function ShellQuote(value: string): string {
    if Trim(value, IsSafe) == "" then value else "'" + Escape(value) + "'"
  }

  // ---------------------------------------------------------------- a shell reads a quoted value as that value

  lemma InertReads(c: char, tail: string, word: Option<string>)
    requires IsSafe(c)
    ensures Words([c] + tail, Unquoted, word) == Words(tail, Unquoted, Some(Begun(word) + [c]))
  {
    var text := [c] + tail;
    assert text[0] == c && text[1..] == tail;
  }

  lemma {:induction false} SafeReads(value: string, tail: string, word: Option<string>)
    requires value != "" && forall c :: c in value ==> IsSafe(c)
    ensures Words(value + tail, Unquoted, word) == Words(tail, Unquoted, Some(Begun(word) + value))
    decreases |value|
  {
    var next := Some(Begun(word) + [value[0]]);
    assert value + tail == [value[0]] + (value[1..] + tail);
    InertReads(value[0], value[1..] + tail, word);
    if |value| == 1 {
      assert value == [value[0]] && value[1..] + tail == tail;
    } else {
      SafeReads(value[1..], tail, next);
      assert Begun(next) + value[1..] == Begun(word) + value;
    }
  }

  /** An escaped single quote closes the quotes, adds a quote, and opens them again. */
  lemma QuoteReads(after: string, begun: string)
    ensures Words("'\\''" + after, SingleQuoted, Some(begun)) == Words(after, SingleQuoted, Some(begun + ['\'']))
  {
    var text := "'\\''" + after;
    var closed := text[1..];
    assert closed[0] == '\\' && closed[1] == '\'' && closed[2..] == "'" + after && closed[2..][1..] == after;
    assert Words(closed, Unquoted, Some(begun)) == Words(closed[2..], Unquoted, Some(begun + ['\'']));
  }

  lemma {:induction false} EscapedReads(value: string, tail: string, begun: string)
    ensures Words(Escape(value) + "'" + tail, SingleQuoted, Some(begun)) == Words(tail, Unquoted, Some(begun + value))
    decreases |value|
  {
    var text := Escape(value) + "'" + tail;
    if value == "" {
      assert text[1..] == tail && begun + value == begun;
    } else {
      var after := Escape(value[1..]) + "'" + tail;
      EscapedReads(value[1..], tail, begun + [value[0]]);
      assert begun + [value[0]] + value[1..] == begun + value;
      if value[0] == '\'' {
        QuoteReads(after, begun);
        assert text == "'\\''" + after;
      } else {
        assert text[1..] == after;
      }
    }
  }

  lemma {:induction false} EscapedIsAsLong(value: string)
    ensures |value| <= |Escape(value)|
  {
    if value != "" {
      EscapedIsAsLong(value[1..]);
    }
  }

  /** A value is printed bare exactly when it is made of letters, digits and these few other characters. */
  lemma BareExactly(value: string)
    ensures ShellQuote(value) == value <==>
            forall c :: c in value ==>
                          'a' <= c <= 'z' || 'A' <= c <= 'Z' || '0' <= c <= '9' || c in "._/:=+-"
  {
    assert "._/:=+-" == ['.', '_', '/', ':', '=', '+', '-'];
    TrimmedAway(value, IsSafe);
    EscapedIsAsLong(value);
  }

  lemma OpeningReads(tail: string, word: Option<string>)
    ensures Words("'" + tail, Unquoted, word) == Words(tail, SingleQuoted, Some(Begun(word)))
  {
    assert ("'" + tail)[1..] == tail;
  }

  lemma QuotedReads(value: string, tail: string, word: Option<string>)
    ensures Words(ShellQuote(value) + tail, Unquoted, word)
         == Words(tail, Unquoted, if value == "" then word else Some(Begun(word) + value))
  {
    hide Words, Escape, Trim;
    TrimmedAway(value, IsSafe);
    if value == "" {
      assert ShellQuote(value) + tail == tail;
    } else if Trim(value, IsSafe) == "" {
      SafeReads(value, tail, word);
    } else {
      OpeningReads(Escape(value) + "'" + tail, word);
      assert ShellQuote(value) + tail == "'" + (Escape(value) + "'" + tail);
      EscapedReads(value, tail, Begun(word));
    }
  }

  // ---------------------------------------------------------------- the printed command

  const VERB := ["herrscher", "session", "handoff"]

  const REPEATED_KEYS := ["to", "project", "model", "vendor", "under", "channel_id"]

  const NO_ACCOUNT := ["--account", "\"\""]

  function Quoted(tokens: seq<string>): seq<string>
    ensures |Quoted(tokens)| == |tokens|
  {
    if tokens == [] then [] else [ShellQuote(tokens[0])] + Quoted(tokens[1..])
  }

  function RetryFlag(key: string, value: string): string {
    Joined(Quoted(FlagArg(key, value)), " ")
  }

  /** The flags repeated from the failed call, each one a text. */
  function RepeatedTexts(keys: seq<string>, input: Input): seq<string> {
    if keys == [] then []
    else
      var value := Get(input, keys[0]);
      (if value != "" then [RetryFlag(keys[0], value)] else []) + RepeatedTexts(keys[1..], input)
  }

  function Printed(source: string, input: Input): string {
    Joined(VERB + [RetryFlag("name", source)] + RepeatedTexts(REPEATED_KEYS, input) + NO_ACCOUNT, " ")
  }

  method PrintFlag(key: string, value: string) returns (text: string)
    ensures text == RetryFlag(key, value)
  {
    var tokens := FlagArg(key, value);
    var quoted := [];
    for index := 0 to |tokens|
      invariant |quoted| == index
      invariant quoted + Quoted(tokens[index..]) == Quoted(tokens)
    {
      assert tokens[index..][1..] == tokens[index + 1..];
      quoted := quoted + [ShellQuote(tokens[index])];
    }
    assert quoted == Quoted(tokens);
    text := Joined(quoted, " ");
  }

  lemma {:induction false} RepeatedTextsSnoc(keys: seq<string>, last: string, input: Input)
    ensures RepeatedTexts(keys + [last], input)
         == RepeatedTexts(keys, input) + RepeatedTexts([last], input)
  {
    var all := keys + [last];
    if keys == [] {
      assert all == [last];
    } else {
      assert all[1..] == keys[1..] + [last];
      RepeatedTextsSnoc(keys[1..], last, input);
    }
  }

  method PrintRepeated(keys: seq<string>, input: Input) returns (texts: seq<string>)
    ensures texts == RepeatedTexts(keys, input)
  {
    texts := [];
    for index := 0 to |keys|
      invariant texts == RepeatedTexts(keys[..index], input)
    {
      var key := keys[index];
      assert keys[..index + 1] == keys[..index] + [key];
      RepeatedTextsSnoc(keys[..index], key, input);
      assert [key][1..] == [];
      var value := Get(input, key);
      if value != "" {
        var flag := PrintFlag(key, value);
        texts := texts + [flag];
      }
    }
    assert keys[..|keys|] == keys;
  }

  method Print(source: string, input: Input) returns (text: string)
    ensures text == Printed(source, input)
  {
    var first := PrintFlag("name", source);
    var repeated := PrintRepeated(REPEATED_KEYS, input);
    text := Joined(VERB + [first] + repeated + NO_ACCOUNT, " ");
  }

  // ---------------------------------------------------------------- the printed command as argv tokens

  function RepeatedFlags(keys: seq<string>, input: Input): seq<string> {
    if keys == [] then []
    else
      var value := Get(input, keys[0]);
      (if value != "" then FlagArg(keys[0], value) else []) + RepeatedFlags(keys[1..], input)
  }

  /** The tokens the printed command is meant to hand to the program, after its verb. */
  function Intended(source: string, input: Input): seq<string> {
    FlagArg("name", source) + RepeatedFlags(REPEATED_KEYS, input)
  }

  function NonEmpty(tokens: seq<string>): seq<string> {
    if tokens == [] then []
    else (if tokens[0] == "" then [] else [tokens[0]]) + NonEmpty(tokens[1..])
  }

  lemma {:induction false} NestedJoin(middle: seq<string>, back: seq<string>)
    requires middle != [] && back != []
    ensures Joined([Joined(middle, " ")] + back, " ") == Joined(middle + back, " ")
  {
    var nested := [Joined(middle, " ")] + back;
    assert nested[1..] == back;
    if |middle| == 1 {
      assert nested == middle + back;
    } else {
      NestedJoin(middle[1..], back);
      var inner := [Joined(middle[1..], " ")] + back;
      assert inner[1..] == back;
      assert (middle + back)[1..] == middle[1..] + back;
    }
  }

  lemma {:induction false} QuotedConcat(front: seq<string>, back: seq<string>)
    ensures Quoted(front + back) == Quoted(front) + Quoted(back)
  {
    if front == [] {
      assert front + back == back;
    } else {
      assert (front + back)[1..] == front[1..] + back;
      QuotedConcat(front[1..], back);
    }
  }

  /** The printed flags are the quoted tokens, joined. */
  lemma {:induction false} RepeatedAreTokens(keys: seq<string>, input: Input)
    ensures Joined(RepeatedTexts(keys, input) + NO_ACCOUNT, " ")
            == Joined(Quoted(RepeatedFlags(keys, input)) + NO_ACCOUNT, " ")
  {
    hide Joined, Quoted, RetryFlag, FlagArg;
    if keys != [] {
      var value := Get(input, keys[0]);
      var texts, flags := RepeatedTexts(keys[1..], input), RepeatedFlags(keys[1..], input);
      RepeatedAreTokens(keys[1..], input);
      if value != "" {
        FlagTextIsTokens(keys[0], value, texts + NO_ACCOUNT, flags);
        assert RepeatedTexts(keys, input) + NO_ACCOUNT == [RetryFlag(keys[0], value)] + (texts + NO_ACCOUNT);
      } else {
        assert RepeatedTexts(keys, input) == texts && RepeatedFlags(keys, input) == flags;
      }
    }
  }

  lemma FlagTextIsTokens(key: string, value: string, texts: seq<string>, flags: seq<string>)
    requires texts != [] && Joined(texts, " ") == Joined(Quoted(flags) + NO_ACCOUNT, " ")
    ensures Joined([RetryFlag(key, value)] + texts, " ")
            == Joined(Quoted(FlagArg(key, value) + flags) + NO_ACCOUNT, " ")
  {
    var own := Quoted(FlagArg(key, value));
    var others := Quoted(flags) + NO_ACCOUNT;
    NestedJoin(own, texts);
    QuotedConcat(FlagArg(key, value), flags);
    assert own + others == Quoted(FlagArg(key, value) + flags) + NO_ACCOUNT;
    JoinedTail(own, texts, others);
  }

  lemma {:induction false} JoinedTail(front: seq<string>, one: seq<string>, two: seq<string>)
    requires one != [] && two != [] && Joined(one, " ") == Joined(two, " ")
    ensures Joined(front + one, " ") == Joined(front + two, " ")
  {
    if front == [] {
      assert front + one == one && front + two == two;
    } else {
      JoinedTail(front[1..], one, two);
      assert (front + one)[1..] == front[1..] + one && (front + two)[1..] == front[1..] + two;
    }
  }

  lemma PrintedIsTokens(source: string, input: Input)
    ensures Printed(source, input) == Joined(VERB + (Quoted(Intended(source, input)) + NO_ACCOUNT), " ")
  {
    hide Joined, Quoted, RepeatedTexts, RepeatedFlags, RetryFlag;
    var texts, flags := RepeatedTexts(REPEATED_KEYS, input) + NO_ACCOUNT, RepeatedFlags(REPEATED_KEYS, input);
    RepeatedAreTokens(REPEATED_KEYS, input);
    FlagTextIsTokens("name", source, texts, flags);
    JoinedTail(VERB, [RetryFlag("name", source)] + texts, Quoted(Intended(source, input)) + NO_ACCOUNT);
    assert VERB + [RetryFlag("name", source)] + RepeatedTexts(REPEATED_KEYS, input) + NO_ACCOUNT
        == VERB + ([RetryFlag("name", source)] + texts);
  }

  // ---------------------------------------------------------------- what a shell makes of it

  lemma SeparatorReads(tail: string, word: Option<string>, words: seq<string>)
    requires Words(tail, Unquoted, None) == Some(words)
    ensures Words(" " + tail, Unquoted, word) == Some((if word.Some? then [word.value] else []) + words)
  {
    assert (" " + tail)[1..] == tail;
  }

  /** A word that needs no quoting, then a space. */
  lemma WordReads(value: string, tail: string, words: seq<string>)
    requires value != "" && (forall c :: c in value ==> IsSafe(c))
    requires Words(tail, Unquoted, None) == Some(words)
    ensures Words(value + " " + tail, Unquoted, None) == Some([value] + words)
  {
    SafeReads(value, " " + tail, None);
    SeparatorReads(tail, Some(value), words);
    assert value + " " + tail == value + (" " + tail) && "" + value == value;
  }

  lemma EmptyQuotesRead()
    ensures Words("\"\"", Unquoted, None) == Some([""])
  {
    var closing := "\"";
    assert "\"\""[1..] == closing && closing[1..] == "";
    assert Words(closing, DoubleQuoted, Some("")) == Words("", Unquoted, Some(""));
  }

  lemma NoAccountReads()
    ensures Words(Joined(NO_ACCOUNT, " "), Unquoted, None) == Some(["--account", ""])
  {
    assert NO_ACCOUNT[1..] == ["\"\""];
    assert Joined(NO_ACCOUNT, " ") == "--account" + " " + "\"\"";
    EmptyQuotesRead();
    WordReads("--account", "\"\"", [""]);
    assert ["--account"] + [""] == ["--account", ""];
  }

  lemma TokenReads(token: string, tail: string, words: seq<string>)
    requires Words(tail, Unquoted, None) == Some(words)
    ensures Words(ShellQuote(token) + (" " + tail), Unquoted, None)
            == Some((if token == "" then [] else [token]) + words)
  {
    QuotedReads(token, " " + tail, None);
    SeparatorReads(tail, if token == "" then None else Some(token), words);
    assert "" + token == token;
  }

  lemma JoinedCons(first: string, others: seq<string>)
    requires others != []
    ensures Joined([first] + others, " ") == first + (" " + Joined(others, " "))
  {
    assert ([first] + others)[1..] == others;
  }

  /** Quoted tokens come back as they were, except that an empty one leaves no word. */
  lemma {:induction false} TokensRead(tokens: seq<string>)
    ensures Words(Joined(Quoted(tokens) + NO_ACCOUNT, " "), Unquoted, None)
            == Some(NonEmpty(tokens) + ["--account", ""])
  {
    hide Words, ShellQuote, Joined;
    if tokens == [] {
      NoAccountReads();
      assert Quoted(tokens) + NO_ACCOUNT == NO_ACCOUNT;
      assert NonEmpty(tokens) + ["--account", ""] == ["--account", ""];
    } else {
      var words := NonEmpty(tokens[1..]) + ["--account", ""];
      TokensRead(tokens[1..]);
      var others := Quoted(tokens[1..]) + NO_ACCOUNT;
      assert Quoted(tokens) + NO_ACCOUNT == [ShellQuote(tokens[0])] + others;
      JoinedCons(ShellQuote(tokens[0]), others);
      TokenReads(tokens[0], Joined(others, " "), words);
      assert (if tokens[0] == "" then [] else [tokens[0]]) + words == NonEmpty(tokens) + ["--account", ""];
    }
  }

  lemma VerbReads(parts: seq<string>, words: seq<string>)
    requires parts != [] && Words(Joined(parts, " "), Unquoted, None) == Some(words)
    ensures Words(Joined(VERB + parts, " "), Unquoted, None) == Some(VERB + words)
  {
    var one, two := ["session", "handoff"] + parts, ["handoff"] + parts;
    assert (VERB + parts)[1..] == one && one[1..] == two && two[1..] == parts;
    WordReads("handoff", Joined(parts, " "), words);
    WordReads("session", Joined(two, " "), ["handoff"] + words);
    WordReads("herrscher", Joined(one, " "), ["session"] + (["handoff"] + words));
    assert ["herrscher"] + (["session"] + (["handoff"] + words)) == VERB + words;
  }

  // ---------------------------------------------------------------- the round trip

  const HANDOFF := Cmd(["session", "handoff"], [
    Param("name", false, false), Param("to", false, false), Param("project", false, false),
    Param("model", false, false), Param("vendor", false, false), Param("account", false, false),
    Param("under", false, false), Param("channel_id", false, false)])

  /** The non-empty values of `keys`, laid over `base`. */
  function Repeated(base: map<string, string>, keys: seq<string>, input: Input): map<string, string>
    decreases |keys|
  {
    if keys == [] then base
    else
      var value := Get(input, keys[0]);
      Repeated(if value != "" then base[keys[0] := value] else base, keys[1..], input)
  }

  /** What the retried call should be: the same source and options, and an explicitly empty account. */
  function Retried(source: string, input: Input): Input {
    Input(Repeated(map["name" := source], REPEATED_KEYS, input)["account" := ""], [], false)
  }

  lemma {:induction false} RepeatedAt(base: map<string, string>, keys: seq<string>, input: Input, name: string)
    ensures var over := Repeated(base, keys, input);
            && (name in over <==> name in base || (name in keys && Get(input, name) != ""))
            && (name in over ==> over[name] == if name in keys && Get(input, name) != "" then input.args[name]
                                 else base[name])
    decreases |keys|
  {
    if keys != [] {
      var value := Get(input, keys[0]);
      RepeatedAt(if value != "" then base[keys[0] := value] else base, keys[1..], input, name);
      assert keys == [keys[0]] + keys[1..];
    }
  }

  /** The options of the retried call, one by one: these six as they were, unless empty, the source as the name, the
      account empty, and nothing else. */
  lemma RetriedOptions(source: string, input: Input, name: string)
    ensures Lookup(Retried(source, input), name)
         == if name == "name" then Some(source)
            else if name == "account" then Some("")
            else if name in ["to", "project", "model", "vendor", "under", "channel_id"] && name in input.args
                    && input.args[name] != "" then Some(input.args[name])
            else None
    ensures Retried(source, input).rest == [] && !Retried(source, input).json
  {
    RepeatedAt(map["name" := source], REPEATED_KEYS, input, name);
    HandoffIsOptional();
  }

  lemma {:induction false} NonEmptyConcat(front: seq<string>, back: seq<string>)
    ensures NonEmpty(front + back) == NonEmpty(front) + NonEmpty(back)
  {
    if front == [] {
      assert front + back == back;
    } else {
      assert (front + back)[1..] == front[1..] + back;
      NonEmptyConcat(front[1..], back);
    }
  }

  lemma FlagStays(key: string, value: string)
    requires value != ""
    ensures NonEmpty(FlagArg(key, value)) == FlagArg(key, value)
  {
    var tokens := FlagArg(key, value);
    assert tokens[0] != "";
    if |tokens| == 2 {
      assert tokens[1..][0] == value && tokens[1..][1..] == [];
      assert NonEmpty(tokens[1..]) == [value];
    } else {
      assert tokens[1..] == [];
    }
  }

  lemma {:induction false} RepeatedStay(keys: seq<string>, input: Input)
    ensures NonEmpty(RepeatedFlags(keys, input)) == RepeatedFlags(keys, input)
  {
    if keys != [] {
      var value := Get(input, keys[0]);
      RepeatedStay(keys[1..], input);
      if value != "" {
        NonEmptyConcat(FlagArg(keys[0], value), RepeatedFlags(keys[1..], input));
        FlagStays(keys[0], value);
      } else {
        assert RepeatedFlags(keys, input) == RepeatedFlags(keys[1..], input);
      }
    }
  }

  /** Every option the printed command spells is declared, and none must have a value. */
  ghost predicate Optional(cmd: Cmd, keys: seq<string>) {
    && (forall key :: key in keys || key == "name" || key == "account" ==>
          Declared(cmd.params, key).Some? && '=' !in key && key != "json")
    && (forall param :: param in cmd.params ==> !param.required && !param.valueRequired)
  }

  lemma {:induction false} RepeatedRead(cmd: Cmd, keys: seq<string>, input: Input, tail: seq<string>, read: Input)
    requires Optional(cmd, keys)
    ensures Tokens(cmd, RepeatedFlags(keys, input) + tail, read)
         == Tokens(cmd, tail, read.(args := Repeated(read.args, keys, input)))
    decreases |keys|
  {
    if keys == [] {
      assert RepeatedFlags(keys, input) + tail == tail;
    } else {
      var value, others := Get(input, keys[0]), RepeatedFlags(keys[1..], input);
      assert forall key :: key in keys[1..] ==> key in keys;
      if value != "" {
        var next := read.(args := read.args[keys[0] := value]);
        assert RepeatedFlags(keys, input) + tail == FlagArg(keys[0], value) + (others + tail);
        FlagArgParsesBack(cmd, keys[0], value, others + tail, read);
        RepeatedRead(cmd, keys[1..], input, tail, next);
      } else {
        assert RepeatedFlags(keys, input) == others;
        RepeatedRead(cmd, keys[1..], input, tail, read);
      }
    }
  }

  lemma FlagsThenLast(cmd: Cmd, keys: seq<string>, last: string, value: string, input: Input, read: Input)
    requires Optional(cmd, keys)
    requires Declared(cmd.params, last).Some? && '=' !in last && last != "json"
    ensures Tokens(cmd, RepeatedFlags(keys, input) + FlagArg(last, value), read)
         == Ok(read.(args := Repeated(read.args, keys, input)[last := value]))
  {
    var next := read.(args := Repeated(read.args, keys, input));
    RepeatedRead(cmd, keys, input, FlagArg(last, value), read);
    FlagArgParsesBack(cmd, last, value, [], next);
    assert FlagArg(last, value) + [] == FlagArg(last, value);
  }

  lemma NamedReads(cmd: Cmd, keys: seq<string>, source: string, input: Input)
    requires Optional(cmd, keys)
    ensures Parsed(cmd, FlagArg("name", source) + (RepeatedFlags(keys, input) + FlagArg("account", "")))
         == Ok(Input(Repeated(map["name" := source], keys, input)["account" := ""], [], false))
  {
    hide Tokens, Repeated, RepeatedFlags, FlagArg;
    var tail := RepeatedFlags(keys, input) + FlagArg("account", "");
    var read := NO_INPUT.(args := map["name" := source]);
    FlagArgParsesBack(cmd, "name", source, tail, NO_INPUT);
    FlagsThenLast(cmd, keys, "account", "", input, read);
    NothingMissing(cmd.params, Repeated(map["name" := source], keys, input)["account" := ""]);
  }

  lemma LoneFlagReads(cmd: Cmd, name: string, tail: seq<string>)
    requires Declared(cmd.params, name).Some? && '=' !in name && name != "json"
    requires !Declared(cmd.params, name).value.required && !Declared(cmd.params, name).value.valueRequired
    requires tail != [] && IsFlag(tail[0])
    ensures Tokens(cmd, ["--" + name] + tail, NO_INPUT) == Tokens(cmd, tail, NO_INPUT.(args := map[name := "true"]))
  {
    var toks := ["--" + name] + tail;
    assert toks[0][2..] == name && toks[1..] == tail;
    assert toks[0] != "--json" by {
      assert "--json"[2..] == "json";
    }
  }

  /** A flag that lost its value means "true", not the empty text. */
  lemma LostValueReads(cmd: Cmd, keys: seq<string>, name: string, last: string, input: Input)
    requires Optional(cmd, keys) && name !in keys && name != last
    requires forall key ::
               key == name || key == last ==>
                 Declared(cmd.params, key).Some? && '=' !in key && key != "json"
    ensures Parsed(cmd, ["--" + name] + (RepeatedFlags(keys, input) + FlagArg(last, "")))
         != Ok(Input(Repeated(map[name := ""], keys, input)[last := ""], [], false))
  {
    var tail := RepeatedFlags(keys, input) + FlagArg(last, "");
    RepeatedBegin(keys, input);
    DeclaredIsMember(cmd.params, name);
    LoneFlagReads(cmd, name, tail);
    FlagsThenLast(cmd, keys, last, "", input, NO_INPUT.(args := map[name := "true"]));
    RepeatedKeeps(map[name := "true"], keys, input, name);
    RepeatedKeeps(map[name := ""], keys, input, name);
    var lost, kept := Repeated(map[name := "true"], keys, input)[last := ""],
        Repeated(map[name := ""], keys, input)[last := ""];
    assert lost[name] == "true" && kept[name] == "" && lost != kept;
  }

  lemma {:induction false} RepeatedBegin(keys: seq<string>, input: Input)
    ensures var flags := RepeatedFlags(keys, input); flags == [] || IsFlag(flags[0])
  {
    if keys != [] {
      RepeatedBegin(keys[1..], input);
    }
  }

  lemma {:induction false} RepeatedKeeps(base: map<string, string>, keys: seq<string>, input: Input, name: string)
    requires name !in keys && name in base
    ensures name in Repeated(base, keys, input) && Repeated(base, keys, input)[name] == base[name]
    decreases |keys|
  {
    if keys != [] {
      var value := Get(input, keys[0]);
      RepeatedKeeps(if value != "" then base[keys[0] := value] else base, keys[1..], input, name);
    }
  }

  /** Read by a shell, the printed command is the program, the verb, and the tokens meant for it, an empty one lost. */
  lemma PrintedWords(source: string, input: Input)
    ensures Words(Printed(source, input), Unquoted, None)
         == Some(VERB + (NonEmpty(Intended(source, input)) + ["--account", ""]))
  {
    PrintedIsTokens(source, input);
    TokensRead(Intended(source, input));
    VerbReads(Quoted(Intended(source, input)) + NO_ACCOUNT, NonEmpty(Intended(source, input)) + ["--account", ""]);
  }

  lemma {:induction false} DeclaredAt(params: seq<Param>, index: nat)
    requires index < |params|
    ensures Declared(params, params[index].name).Some?
  {
    if index > 0 && params[0].name != params[index].name {
      DeclaredAt(params[1..], index - 1);
    }
  }

  lemma PlainKeys(key: string)
    requires key in ["name", "to", "project", "model", "vendor", "account", "under", "channel_id"]
    ensures '=' !in key && key != "json"
  {
    assert '=' !in "name" && '=' !in "to" && '=' !in "project" && '=' !in "model";
    assert '=' !in "vendor" && '=' !in "account" && '=' !in "under" && '=' !in "channel_id";
  }

  lemma HandoffDeclares(key: string)
    requires key in ["name", "to", "project", "model", "vendor", "account", "under", "channel_id"]
    ensures Declared(HANDOFF.params, key).Some?
  {
    var names := ["name", "to", "project", "model", "vendor", "account", "under", "channel_id"];
    var index :| 0 <= index < 8 && names[index] == key;
    assert |HANDOFF.params| == 8 && HANDOFF.params[index].name == names[index];
    DeclaredAt(HANDOFF.params, index);
  }

  lemma HandoffIsOptional()
    ensures Optional(HANDOFF, REPEATED_KEYS) && "name" !in REPEATED_KEYS
  {
    forall key | key in REPEATED_KEYS || key == "name" || key == "account"
      ensures Declared(HANDOFF.params, key).Some? && '=' !in key && key != "json"
    {
      PlainKeys(key);
      HandoffDeclares(key);
    }
  }

  /** The words after the verb, whatever options are repeated. */
  lemma WordsAfterVerb(keys: seq<string>, source: string, input: Input)
    ensures NonEmpty(FlagArg("name", source) + RepeatedFlags(keys, input)) + ["--account", ""]
         == (if source != "" then FlagArg("name", source) else ["--name"])
             + (RepeatedFlags(keys, input) + FlagArg("account", ""))
  {
    hide RepeatedFlags, NonEmpty;
    NonEmptyConcat(FlagArg("name", source), RepeatedFlags(keys, input));
    RepeatedStay(keys, input);
    assert "--" + "account" == "--account" && FlagArg("account", "") == ["--account", ""];
    if source != "" {
      FlagStays("name", source);
    } else {
      LoneStays("--name");
      assert "--" + "name" == "--name" && FlagArg("name", source) == ["--name", ""];
    }
  }

  lemma LoneStays(token: string)
    requires token != ""
    ensures NonEmpty([token, ""]) == [token]
  {
    assert [token, ""][1..] == [""] && [""][1..] == [];
    assert NonEmpty([""]) == [];
  }

  /** Typed into a shell, the printed command parses to the failed call with an explicitly empty account,
      whatever the values contain, exactly when it names a source. The failed call's other arguments are gone. */
  lemma RetryRoundTrip(source: string, input: Input)
    ensures var words := Words(Printed(source, input), Unquoted, None);
            && words.Some? && 3 <= |words.value| && words.value[..3] == ["herrscher", "session", "handoff"]
            && (Parsed(HANDOFF, words.value[3..]) == Ok(Retried(source, input)) <==> source != "")
            && forall name ::
                 Lookup(Retried(source, input), name)
                 == if name == "name" then Some(source)
                    else if name == "account" then Some("")
                    else if name in ["to", "project", "model", "vendor", "under", "channel_id"] && name in input.args
                            && input.args[name] != "" then Some(input.args[name])
                    else None
  {
    hide Words, Parsed, Repeated, RepeatedFlags, NonEmpty, Printed, Declared, Lookup;
    forall name {
      RetriedOptions(source, input, name);
    }
    PrintedWords(source, input);
    HandoffIsOptional();
    WordsAfterVerb(REPEATED_KEYS, source, input);
    var words := VERB + (NonEmpty(Intended(source, input)) + ["--account", ""]);
    assert words[3..] == NonEmpty(Intended(source, input)) + ["--account", ""];
    if source != "" {
      NamedReads(HANDOFF, REPEATED_KEYS, source, input);
    } else {
      LostValueReads(HANDOFF, REPEATED_KEYS, "name", "account", input);
      assert "--" + "name" == "--name";
    }
  }
}

/** The managed region of plugins.go and its editor (manage/manifest.go). */
module Manifest {
  import opened Prelude

  datatype RegionError = MarkerNotFound | DuplicateMarker | MarkerOrder

  const BEGIN_MARKER := "// herrscher:plugins"
  const END_MARKER := "// herrscher:end"

  // ---------------------------------------------------------------- lines

  /** The lines of a text (strings.Split on a newline); there is always at least one. */
  function Split(text: string): (lines: seq<string>)
    ensures lines != [] && forall line :: line in lines ==> '\n' !in line
  {
    if text == "" then [""]
    else if text[0] == '\n' then [""] + Split(text[1..])
    else
      var rest := Split(text[1..]);
      [[text[0]] + rest[0]] + rest[1..]
  }

  function Join(lines: seq<string>): string {
    Joined(lines, "\n")
  }

  lemma JoinHead(c: char, line: string, lines: seq<string>)
    ensures Join([[c] + line] + lines) == [c] + Join([line] + lines)
  {
    assert ([[c] + line] + lines)[1..] == lines && ([line] + lines)[1..] == lines;
  }

  lemma {:induction false} JoinOfSplit(text: string)
    ensures Join(Split(text)) == text
  {
    if text != "" {
      var rest := Split(text[1..]);
      JoinOfSplit(text[1..]);
      if text[0] == '\n' {
        assert Split(text) == [""] + rest && Split(text)[1..] == rest;
      } else {
        JoinHead(text[0], rest[0], rest[1..]);
        assert [rest[0]] + rest[1..] == rest;
      }
    }
  }

  lemma {:induction false} SplitOfLine(line: string, tail: string)
    requires '\n' !in line
    ensures Split(line) == [line]
    ensures Split(line + "\n" + tail) == [line] + Split(tail)
  {
    var text := line + "\n" + tail;
    if line == "" {
      assert text[1..] == tail;
    } else {
      SplitOfLine(line[1..], tail);
      assert text[1..] == line[1..] + "\n" + tail;
      assert [line[0]] + line[1..] == line;
    }
  }

  lemma {:induction false} SplitOfJoin(lines: seq<string>)
    requires lines != [] && forall line :: line in lines ==> '\n' !in line
    ensures Split(Join(lines)) == lines
  {
    if |lines| == 1 {
      SplitOfLine(lines[0], "");
    } else {
      assert forall line :: line in lines[1..] ==> line in lines;
      SplitOfJoin(lines[1..]);
      SplitOfLine(lines[0], Join(lines[1..]));
    }
  }

  // ---------------------------------------------------------------- one line

  predicate IsQuote(c: char) {
    c == '"'
  }

  const HEX := "0123456789abcdef"

  /** The last `digits` hexadecimal digits of a number. */
  function Hex(n: nat, digits: nat): string {
    if digits == 0 then "" else Hex(n / 16, digits - 1) + [HEX[n % 16]]
  }

  /** A character that strconv.Quote leaves as it is. Which ones beyond ASCII can be printed is for `printable` to say
      (strconv.IsPrint). */
  predicate PlainChar(printable: char -> bool, c: char) {
    && c >= ' ' && c != '"' && c != '\\' && c != '\U{7F}'
    && (c > '\U{7F}' ==> printable(c))
  }

  /** How it spells any other. */
  function Escaped(c: char): string {
    if c == '"' then "\\\""
    else if c == '\\' then "\\\\"
    else if c == '\U{07}' then "\\a"
    else if c == '\U{08}' then "\\b"
    else if c == '\t' then "\\t"
    else if c == '\n' then "\\n"
    else if c == '\U{0B}' then "\\v"
    else if c == '\U{0C}' then "\\f"
    else if c == '\r' then "\\r"
    else if c < ' ' || c == '\U{7F}' then "\\x" + Hex(c as int, 2)
    else if c as int < 0x1_0000 then "\\u" + Hex(c as int, 4)
    else "\\U" + Hex(c as int, 8)
  }

  function QuoteChar(printable: char -> bool, c: char): string {
    if PlainChar(printable, c) then [c] else Escaped(c)
  }

  function QuoteBody(printable: char -> bool, s: string): string {
    if s == "" then "" else QuoteChar(printable, s[0]) + QuoteBody(printable, s[1..])
  }

  function ImportLine(printable: char -> bool, plugin: string): string {
    "\t_ " + "\"" + QuoteBody(printable, plugin) + "\""
  }

  function ParseModule(line: string): Option<string> {
    var trimmed := TrimSpace(line);
    if |trimmed| < 2 || trimmed[0] != '_' || trimmed[1] != ' ' then None
    else Some(Trim(TrimSpace(trimmed[2..]), IsQuote))
  }

  /** What a line means to the editor. */
  datatype Kind = Begin | End | Other

  function KindOf(line: string): Kind {
    if TrimSpace(line) == BEGIN_MARKER then Begin
    else if TrimSpace(line) == END_MARKER then End
    else Other
  }

  lemma MarkersAreNoImports(line: string)
    requires ParseModule(line).Some?
    ensures KindOf(line) == Other
  {
  }

  // ---------------------------------------------------------------- an import line read back

  ghost predicate Plain(printable: char -> bool, plugin: string) {
    forall c :: c in plugin ==> PlainChar(printable, c)
  }

  lemma {:induction false} HexIsPlain(n: nat, digits: nat)
    ensures |Hex(n, digits)| == digits && '"' !in Hex(n, digits) && '\n' !in Hex(n, digits)
    decreases digits
  {
    if digits > 0 {
      HexIsPlain(n / 16, digits - 1);
      assert HEX[n % 16] in HEX && '"' !in HEX && '\n' !in HEX;
    }
  }

  lemma EscapedLength(c: char)
    ensures |Escaped(c)| >= 2 && Escaped(c)[0] == '\\'
  {
    HexIsPlain(c as int, 2);
    HexIsPlain(c as int, 4);
    HexIsPlain(c as int, 8);
  }

  lemma EscapedEnd(c: char)
    ensures c == '"' ==> Escaped(c) == ['\\', '"']
    ensures Escaped(c) != "" && (Escaped(c)[|Escaped(c)| - 1] == '"' <==> c == '"')
  {
    HexEnd(c as int, 2);
    HexEnd(c as int, 4);
    HexEnd(c as int, 8);
  }

  lemma HexEnd(n: nat, digits: nat)
    requires digits > 0
    ensures Hex(n, digits) != "" && Hex(n, digits)[|Hex(n, digits)| - 1] != '"'
  {
    HexIsPlain(n, digits);
    assert Hex(n, digits)[|Hex(n, digits)| - 1] in Hex(n, digits);
  }

  lemma EscapedIsOneLine(c: char)
    ensures '\n' !in Escaped(c)
  {
    HexIsPlain(c as int, 2);
    HexIsPlain(c as int, 4);
    HexIsPlain(c as int, 8);
  }

  lemma QuoteCharShape(printable: char -> bool, c: char)
    ensures PlainChar(printable, c) ==> QuoteChar(printable, c) == [c]
    ensures !PlainChar(printable, c) ==> |QuoteChar(printable, c)| >= 2
    ensures QuoteChar(printable, c) != "" && QuoteChar(printable, c)[0] != '"'
    ensures QuoteChar(printable, c)[|QuoteChar(printable, c)| - 1] == '"' <==> c == '"'
    ensures c == '"' ==> QuoteChar(printable, c) == ['\\', '"']
    ensures '\n' !in QuoteChar(printable, c)
  {
    hide Escaped;
    EscapedLength(c);
    EscapedEnd(c);
    EscapedIsOneLine(c);
  }

  lemma {:induction false} QuoteBodyShape(printable: char -> bool, s: string)
    ensures Plain(printable, s) ==> QuoteBody(printable, s) == s
    ensures |QuoteBody(printable, s)| >= |s| && (!Plain(printable, s) ==> |QuoteBody(printable, s)| > |s|)
    ensures s != "" ==> QuoteBody(printable, s) != "" && QuoteBody(printable, s)[0] != '"'
    ensures '\n' !in QuoteBody(printable, s)
  {
    hide QuoteChar, PlainChar;
    if s != "" {
      QuoteCharShape(printable, s[0]);
      QuoteBodyShape(printable, s[1..]);
      assert s == [s[0]] + s[1..];
    }
  }

  /** The body of a quoted text ends in a quote only when the text does, and then in an escaped one. */
  lemma {:induction false} QuoteBodyEnd(printable: char -> bool, s: string)
    requires s != ""
    ensures var body := QuoteBody(printable, s);
            && body != "" && (body[|body| - 1] == '"' <==> s[|s| - 1] == '"')
            && (s[|s| - 1] == '"' ==> |body| >= 2 && body[|body| - 2] == '\\')
  {
    hide QuoteChar;
    QuoteCharShape(printable, s[0]);
    if |s| == 1 {
      assert QuoteBody(printable, s[1..]) == "";
      assert QuoteBody(printable, s) == QuoteChar(printable, s[0]);
    } else {
      QuoteBodyEnd(printable, s[1..]);
      LastOfConcat(QuoteChar(printable, s[0]), QuoteBody(printable, s[1..]));
      assert s[1..][|s| - 2] == s[|s| - 1];
    }
  }

  lemma LastOfConcat(head: string, tail: string)
    requires tail != ""
    ensures (head + tail)[|head + tail| - 1] == tail[|tail| - 1]
    ensures |tail| >= 2 ==> (head + tail)[|head + tail| - 2] == tail[|tail| - 2]
  {
  }

  lemma TrimKeepsAll(s: string, cut: char -> bool)
    requires s != "" && !cut(s[0]) && !cut(s[|s| - 1])
    ensures Trim(s, cut) == s
  {
  }

  /** What is read back between the quotes. */
  function Unquoted(body: string): string {
    if body != "" && body[|body| - 1] == '"' then body[..|body| - 1] else body
  }

  lemma QuotesTrimmed(body: string)
    requires body != "" ==> body[0] != '"'
    requires |body| >= 2 && body[|body| - 1] == '"' ==> body[|body| - 2] != '"'
    ensures Trim("\"" + body + "\"", IsQuote) == Unquoted(body)
  {
    var quoted, half := "\"" + body + "\"", body + "\"";
    assert quoted[1..] == half;
    if body == "" {
      assert half == "\"" && half[1..] == "";
      assert TrimLeft(half, IsQuote) == TrimLeft("", IsQuote) == "";
    } else {
      assert TrimLeft(quoted, IsQuote) == TrimLeft(half, IsQuote) == half;
      assert half[..|half| - 1] == body;
      assert TrimRight(half, IsQuote) == TrimRight(body, IsQuote);
      if body[|body| - 1] == '"' {
        var rest := body[..|body| - 1];
        assert rest != "" && rest[|rest| - 1] == body[|body| - 2];
        assert TrimRight(body, IsQuote) == TrimRight(rest, IsQuote) == rest;
      }
    }
  }

  lemma TabTrimmed(s: string)
    requires s != "" && !IsSpace(s[0]) && !IsSpace(s[|s| - 1])
    ensures TrimSpace("\t" + s) == s
  {
    var line := "\t" + s;
    assert line[1..] == s;
    TrimKeepsAll(s, IsSpace);
    assert TrimLeft(line, IsSpace) == TrimLeft(s, IsSpace);
  }

  lemma LineParses(quoted: string)
    requires quoted != "" && !IsSpace(quoted[0]) && !IsSpace(quoted[|quoted| - 1])
    ensures ParseModule("\t_ " + quoted) == Some(Trim(quoted, IsQuote))
  {
    var trimmed := "_ " + quoted;
    TabTrimmed(trimmed);
    TrimKeepsAll(quoted, IsSpace);
    assert "\t_ " + quoted == "\t" + trimmed;
    assert trimmed[2..] == quoted;
  }

  /** An import line around any quoted body. */
  lemma BodyParses(body: string)
    requires body != "" ==> body[0] != '"'
    requires |body| >= 2 && body[|body| - 1] == '"' ==> body[|body| - 2] != '"'
    ensures ParseModule("\t_ " + "\"" + body + "\"") == Some(Unquoted(body))
  {
    hide ParseModule, Trim, Unquoted;
    var quoted := "\"" + body + "\"";
    assert quoted[0] == '"' && quoted[|quoted| - 1] == '"';
    LineParses(quoted);
    QuotesTrimmed(body);
    assert "\t_ " + quoted == "\t_ " + "\"" + body + "\"";
  }

  lemma ImportParses(printable: char -> bool, plugin: string)
    ensures ParseModule(ImportLine(printable, plugin)) == Some(Unquoted(QuoteBody(printable, plugin)))
  {
    hide ParseModule, QuoteBody, Unquoted;
    QuoteBodyShape(printable, plugin);
    if plugin == "" {
      EmptyBody(printable);
    } else {
      QuoteBodyEnd(printable, plugin);
    }
    BodyParses(QuoteBody(printable, plugin));
  }

  lemma EmptyBody(printable: char -> bool)
    ensures QuoteBody(printable, "") == ""
  {
  }

  lemma ImportIsOneLine(printable: char -> bool, plugin: string)
    ensures '\n' !in ImportLine(printable, plugin)
  {
    hide QuoteBody;
    QuoteBodyShape(printable, plugin);
  }

  /** A module name survives being written as an import line and read back exactly when quoting leaves it as it is. */
  lemma ImportRoundTrip(printable: char -> bool, plugin: string)
    ensures ParseModule(ImportLine(printable, plugin)) == Some(plugin) <==> Plain(printable, plugin)
  {
    hide ParseModule, ImportLine, QuoteBody;
    var body := QuoteBody(printable, plugin);
    ImportParses(printable, plugin);
    QuoteBodyShape(printable, plugin);
    if plugin != "" {
      QuoteBodyEnd(printable, plugin);
      assert plugin[|plugin| - 1] in plugin;
    }
  }

  /** Such a name: a tab is written as an escape and read back as the escape. */
  lemma TabIsNotReadBack(printable: char -> bool)
    ensures ParseModule(ImportLine(printable, "\t")) != Some("\t")
  {
    hide ParseModule, ImportLine;
    assert "\t"[0] == '\t' && !PlainChar(printable, '\t');
    ImportRoundTrip(printable, "\t");
  }

  /** And a no-break space, wherever it cannot be printed, by its number. */
  lemma NoBreakSpaceIsNotReadBack(printable: char -> bool)
    requires !printable('\U{00A0}')
    ensures ParseModule(ImportLine(printable, "a\U{00A0}b")) != Some("a\U{00A0}b")
  {
    hide ParseModule, ImportLine;
    assert "a\U{00A0}b"[1] == '\U{00A0}' && !PlainChar(printable, '\U{00A0}');
    ImportRoundTrip(printable, "a\U{00A0}b");
  }

  /** A name of letters, digits and the signs of ordinary module paths is read back, whatever can be printed. */
  lemma OrdinaryNameIsReadBack(printable: char -> bool, plugin: string)
    requires forall c :: c in plugin ==>
                           'a' <= c <= 'z' || 'A' <= c <= 'Z' || '0' <= c <= '9' || c in "./-_~"
    ensures ParseModule(ImportLine(printable, plugin)) == Some(plugin)
  {
    hide ParseModule, ImportLine;
    assert "./-_~" == ['.', '/', '-', '_', '~'];
    ImportRoundTrip(printable, plugin);
  }

  // ---------------------------------------------------------------- lines written by hand

  ghost predicate Blank(s: string) {
    forall c :: c in s ==> IsSpace(c)
  }

  /** An import is read whatever blanks stand around it and inside it, and its name is what stands between the quotes
      at both ends. */
  lemma HandWrittenIsRead(before: string, between: string, plugin: string, after: string)
    requires Blank(before) && Blank(between) && Blank(after)
    requires plugin != "" && plugin[0] != '"' && plugin[|plugin| - 1] != '"'
    ensures ParseModule(before + ("_ " + between + "\"" + plugin + "\"") + after) == Some(plugin)
  {
    hide Trim;
    var quoted := "\"" + plugin + "\"";
    var trimmed := "_ " + between + "\"" + plugin + "\"";
    assert trimmed[0] == '_' && trimmed[1] == ' ' && trimmed[|trimmed| - 1] == '"';
    assert quoted[0] == '"' && quoted[|quoted| - 1] == '"';
    TrimForgetsEnds(before, trimmed, after, IsSpace);
    TrimForgetsEnds(between, quoted, "", IsSpace);
    TrimForgetsEnds("\"", plugin, "\"", IsQuote);
    assert trimmed[2..] == between + quoted + "";
  }

  /** A line is a marker whatever blanks stand around the marker's text, and only then. */
  lemma MarkersMayBeIndented(before: string, after: string)
    requires Blank(before) && Blank(after)
    ensures KindOf(before + "// herrscher:plugins" + after) == Begin
    ensures KindOf(before + "// herrscher:end" + after) == End
  {
    hide Trim;
    assert BEGIN_MARKER[0] == '/' && BEGIN_MARKER[|BEGIN_MARKER| - 1] == 's';
    assert END_MARKER[0] == '/' && END_MARKER[|END_MARKER| - 1] == 'd';
    TrimForgetsEnds(before, BEGIN_MARKER, after, IsSpace);
    TrimForgetsEnds(before, END_MARKER, after, IsSpace);
    assert |BEGIN_MARKER| != |END_MARKER|;
  }

  lemma OnlyMarkersMark(line: string) returns (before: string, after: string)
    requires KindOf(line) != Other
    ensures Blank(before) && Blank(after)
    ensures line == before + (if KindOf(line) == Begin then "// herrscher:plugins" else "// herrscher:end") + after
  {
    before, after := TrimCutsEnds(line, IsSpace);
  }

  // ---------------------------------------------------------------- what the compiler reads

  function HexDigit(c: char): Option<nat> {
    if '0' <= c <= '9' then Some(c as int - '0' as int)
    else if 'a' <= c <= 'f' then Some(c as int - 'a' as int + 10)
    else if 'A' <= c <= 'F' then Some(c as int - 'A' as int + 10)
    else None
  }

  function HexValue(digits: string): Option<nat> {
    if digits == "" then Some(0)
    else
      match (HexValue(digits[..|digits| - 1]), HexDigit(digits[|digits| - 1]))
      case (Some(front), Some(last)) => Some(16 * front + last)
      case _ => None
  }

  /** The character that so many hexadecimal digits at the head of a text name, if it is below `bound`. */
  function HexChar(text: string, digits: nat, bound: nat): Option<(char, nat)> {
    if |text| < digits then None
    else
      match HexValue(text[..digits])
      case None => None
      case Some(n) =>
        if n < bound && (n < 0xD800 || 0xE000 <= n < 0x11_0000) then Some((n as char, digits)) else None
  }

  /** The character that an escape sequence means, without its backslash, and how many characters spell it (The Go
      Programming Language Specification, section "Rune literals"; a `\x` beyond ASCII is a byte, no character). */
  function EscapeMeans(text: string): (r: Option<(char, nat)>)
    ensures r.Some? ==> 0 < r.value.1 <= |text|
  {
    if text == "" then None
    else
      match text[0]
      case 'a' => Some(('\U{07}', 1))
      case 'b' => Some(('\U{08}', 1))
      case 'f' => Some(('\U{0C}', 1))
      case 'n' => Some(('\n', 1))
      case 'r' => Some(('\r', 1))
      case 't' => Some(('\t', 1))
      case 'v' => Some(('\U{0B}', 1))
      case '\\' => Some(('\\', 1))
      case '"' => Some(('"', 1))
      case 'x' => OneLonger(HexChar(text[1..], 2, 0x80))
      case 'u' => OneLonger(HexChar(text[1..], 4, 0x11_0000))
      case 'U' => OneLonger(HexChar(text[1..], 8, 0x11_0000))
      case _ => None
  }

  function OneLonger(read: Option<(char, nat)>): Option<(char, nat)> {
    match read
    case None => None
    case Some((c, n)) => Some((c, n + 1))
  }

  /** The text a string literal means, from what stands between its quotes (section "String literals"). */
  function LiteralMeans(body: string): Option<string>
    decreases |body|
  {
    if body == "" then Some("")
    else if body[0] == '"' || body[0] == '\n' then None
    else if body[0] != '\\' then Before(body[0], LiteralMeans(body[1..]))
    else
      match EscapeMeans(body[1..])
      case None => None
      case Some((c, n)) => Before(c, LiteralMeans(body[1 + n..]))
  }

  function Before(c: char, rest: Option<string>): Option<string> {
    match rest
    case None => None
    case Some(text) => Some([c] + text)
  }

  function Power16(digits: nat): nat {
    if digits == 0 then 1 else 16 * Power16(digits - 1)
  }

  lemma HexDigitSays(d: nat)
    requires d < 16
    ensures HexDigit(HEX[d]) == Some(d)
  {
  }

  lemma {:induction false} HexSays(n: nat, digits: nat)
    requires n < Power16(digits)
    ensures HexValue(Hex(n, digits)) == Some(n)
    decreases digits
  {
    hide HexDigit;
    if digits > 0 {
      HexSays(n / 16, digits - 1);
      HexDigitSays(n % 16);
      var front := Hex(n / 16, digits - 1);
      assert Hex(n, digits) == front + [HEX[n % 16]];
      assert (front + [HEX[n % 16]])[..|front|] == front;
    }
  }

  lemma HexCharSays(c: char, digits: nat, bound: nat, tail: string)
    requires c as int < Power16(digits) && c as int < bound
    ensures HexChar(Hex(c as int, digits) + tail, digits, bound) == Some((c, digits))
  {
    hide Hex, HexValue;
    HexIsPlain(c as int, digits);
    HexSays(c as int, digits);
    assert (Hex(c as int, digits) + tail)[..digits] == Hex(c as int, digits);
  }

  lemma EscapeSays(c: char, tail: string)
    requires c < ' ' || c == '"' || c == '\\' || c >= '\U{7F}'
    ensures EscapeMeans(Escaped(c)[1..] + tail) == Some((c, |Escaped(c)| - 1))
  {
    hide Hex, HexChar;
    var text := Escaped(c)[1..] + tail;
    HexIsPlain(c as int, 2);
    HexIsPlain(c as int, 4);
    HexIsPlain(c as int, 8);
    assert Power16(2) == 0x100 && Power16(4) == 0x1_0000 && Power16(8) == 0x1_0000_0000;
    if text[0] == 'x' {
      HexCharSays(c, 2, 0x80, tail);
      assert text[1..] == Hex(c as int, 2) + tail;
    } else if text[0] == 'u' {
      HexCharSays(c, 4, 0x11_0000, tail);
      assert text[1..] == Hex(c as int, 4) + tail;
    } else if text[0] == 'U' {
      HexCharSays(c, 8, 0x11_0000, tail);
      assert text[1..] == Hex(c as int, 8) + tail;
    }
  }

  lemma CharMeans(printable: char -> bool, c: char, tail: string)
    ensures LiteralMeans(QuoteChar(printable, c) + tail) == Before(c, LiteralMeans(tail))
  {
    hide Escaped, EscapeMeans;
    var text := QuoteChar(printable, c) + tail;
    if PlainChar(printable, c) {
      assert text[1..] == tail;
    } else {
      EscapedLength(c);
      EscapeSays(c, tail);
      assert text[1..] == Escaped(c)[1..] + tail;
      assert text[1 + (|Escaped(c)| - 1)..] == tail;
    }
  }

  /** Whatever the name, the compiler reads the import line as an import of that very module, also where the editor
      does not. */
  lemma {:induction false} CompilerReadsTheName(printable: char -> bool, plugin: string)
    ensures LiteralMeans(QuoteBody(printable, plugin)) == Some(plugin)
  {
    hide QuoteChar, LiteralMeans;
    if plugin == "" {
      EmptyMeans();
    } else {
      CompilerReadsTheName(printable, plugin[1..]);
      CharMeans(printable, plugin[0], QuoteBody(printable, plugin[1..]));
      assert [plugin[0]] + plugin[1..] == plugin;
    }
  }

  lemma EmptyMeans()
    ensures LiteralMeans("") == Some("")
  {
  }

  // ---------------------------------------------------------------- the region

  function Kinds(lines: seq<string>): (kinds: seq<Kind>)
    ensures |kinds| == |lines|
  {
    if lines == [] then [] else [KindOf(lines[0])] + Kinds(lines[1..])
  }

  lemma {:induction false} KindsAt(lines: seq<string>, i: nat)
    requires i < |lines|
    ensures Kinds(lines)[i] == KindOf(lines[i])
  {
    hide KindOf;
    if i > 0 {
      KindsAt(lines[1..], i - 1);
    }
  }

  lemma {:induction false} KindsConcat(front: seq<string>, back: seq<string>)
    ensures Kinds(front + back) == Kinds(front) + Kinds(back)
  {
    hide KindOf;
    if front == [] {
      assert front + back == back;
    } else {
      assert (front + back)[1..] == front[1..] + back;
      KindsConcat(front[1..], back);
    }
  }

  /** One begin marker, at `begin`, and after it one end marker, at `end`. */
  ghost predicate HasRegion(lines: seq<string>, begin: nat, end: nat) {
    HasMarks(Kinds(lines), begin, end)
  }

  ghost predicate HasMarks(kinds: seq<Kind>, begin: nat, end: nat) {
    && begin < end < |kinds|
    && (forall i :: 0 <= i < |kinds| ==> (kinds[i] == Begin <==> i == begin))
    && (forall i :: 0 <= i < |kinds| ==> (kinds[i] == End <==> i == end))
  }

  ghost predicate TwiceMarked(lines: seq<string>) {
    var kinds := Kinds(lines);
    exists i, j :: 0 <= i < j < |kinds| && kinds[i] == kinds[j] != Other
  }

  /** Where the region is, or why there is none. */
  method Region(lines: seq<string>) returns (r: Result<(nat, nat), RegionError>)
    ensures r.Ok? ==> HasRegion(lines, r.value.0, r.value.1)
    ensures r == Err(DuplicateMarker) <==> TwiceMarked(lines)
    ensures r == Err(MarkerNotFound) <==> !TwiceMarked(lines) && (Begin !in Kinds(lines) || End !in Kinds(lines))
    ensures r == Err(MarkerOrder)
            ==> exists i, j :: 0 <= i < j < |lines| && Kinds(lines)[i] == End && Kinds(lines)[j] == Begin
    ensures forall begin: nat, end: nat :: HasRegion(lines, begin, end) ==> r == Ok((begin, end))
  {
    hide KindOf;
    var begin, end: int := -1, -1;
    ghost var kinds := Kinds(lines);
    for idx := 0 to |lines|
      invariant -1 <= begin < idx && -1 <= end < idx
      invariant forall i :: 0 <= i < idx ==> (kinds[i] == Begin <==> i == begin)
      invariant forall i :: 0 <= i < idx ==> (kinds[i] == End <==> i == end)
    {
      KindsAt(lines, idx);
      match KindOf(lines[idx])
      case Begin =>
        if begin >= 0 {
          assert kinds[begin] == kinds[idx];
          return Err(DuplicateMarker);
        }
        begin := idx;
      case End =>
        if end >= 0 {
          assert kinds[end] == kinds[idx];
          return Err(DuplicateMarker);
        }
        end := idx;
      case Other =>
    }
    assert forall b: nat, e: nat :: HasRegion(lines, b, e) ==> kinds[b] == Begin && kinds[e] == End;
    if begin < 0 || end < 0 {
      return Err(MarkerNotFound);
    }
    assert kinds[begin] == Begin && kinds[end] == End;
    if end < begin {
      return Err(MarkerOrder);
    }
    forall b: nat, e: nat | HasRegion(lines, b, e)
      ensures b == begin && e == end
    {
      RegionIsUnique(lines, begin, end, b, e);
    }
    return Ok((begin, end));
  }

  lemma RegionIsUnique(lines: seq<string>, b1: nat, e1: nat, b2: nat, e2: nat)
    requires HasRegion(lines, b1, e1) && HasRegion(lines, b2, e2)
    ensures b1 == b2 && e1 == e2
  {
    assert Kinds(lines)[b1] == Begin && Kinds(lines)[e1] == End;
  }

  // ---------------------------------------------------------------- the editor's operations, on lines

  /** The modules that some lines import. */
  function Modules(lines: seq<string>): seq<string> {
    if lines == [] then []
    else (if ParseModule(lines[0]).Some? then [ParseModule(lines[0]).value] else []) + Modules(lines[1..])
  }

  function Imports(printable: char -> bool, modules: seq<string>): seq<string> {
    if modules == [] then [] else [ImportLine(printable, modules[0])] + Imports(printable, modules[1..])
  }

  /** The lines that do not import `plugin`. */
  function Without(lines: seq<string>, plugin: string): seq<string> {
    if lines == [] then []
    else (if ParseModule(lines[0]) == Some(plugin) then [] else [lines[0]]) + Without(lines[1..], plugin)
  }

  /** The text with the lines of its region replaced. */
  function Rebuilt(lines: seq<string>, begin: nat, inside: seq<string>, end: nat): string
    requires begin < end < |lines|
  {
    Join(lines[..begin + 1] + inside + lines[end..])
  }

  function Inside(lines: seq<string>, begin: nat, end: nat): seq<string>
    requires begin < end < |lines|
  {
    lines[begin + 1..end]
  }

  method ModulesOf(lines: seq<string>) returns (modules: seq<string>)
    ensures modules == Modules(lines)
  {
    modules := [];
    for index := 0 to |lines|
      invariant modules + Modules(lines[index..]) == Modules(lines)
    {
      assert lines[index..][1..] == lines[index + 1..];
      var parsed := ParseModule(lines[index]);
      if parsed.Some? {
        modules := modules + [parsed.value];
      }
    }
  }

  /** The modules of the region, or why there is no region. */
  method ListPlugins(src: string) returns (r: Result<seq<string>, RegionError>)
    ensures r.Ok? <==> exists begin: nat, end: nat :: HasRegion(Split(src), begin, end)
    ensures forall begin: nat, end: nat ::
              HasRegion(Split(src), begin, end) ==> r == Ok(Modules(Inside(Split(src), begin, end)))
  {
    hide KindOf, Kinds, ParseModule;
    var lines := Split(src);
    var region := Region(lines);
    if region.Err? {
      return Err(region.error);
    }
    var (begin, end) := region.value;
    assert HasRegion(Split(src), begin, end);
    var modules := ModulesOf(Inside(lines, begin, end));
    return Ok(modules);
  }

  // ---------------------------------------------------------------- the three edits

  /** The text after adding a module, and whether that changed it. */
  function Added(printable: char -> bool, src: string, begin: nat, end: nat, plugin: string): (string, bool)
    requires begin < end < |Split(src)|
  {
    var lines := Split(src);
    var inside := Inside(lines, begin, end);
    if plugin in Modules(inside) then (src, false)
    else (Rebuilt(lines, begin, inside + [ImportLine(printable, plugin)], end), true)
  }

  function Removed(src: string, begin: nat, end: nat, plugin: string): (string, bool)
    requires begin < end < |Split(src)|
  {
    var lines := Split(src);
    var inside := Inside(lines, begin, end);
    (Rebuilt(lines, begin, Without(inside, plugin), end), plugin in Modules(inside))
  }

  function SetTo(printable: char -> bool, src: string, begin: nat, end: nat, modules: seq<string>): string
    requires begin < end < |Split(src)|
  {
    Rebuilt(Split(src), begin, Imports(printable, modules), end)
  }

  method Contains(modules: seq<string>, plugin: string) returns (found: bool)
    ensures found <==> plugin in modules
  {
    for index := 0 to |modules|
      invariant plugin !in modules[..index]
    {
      if modules[index] == plugin {
        return true;
      }
    }
    return false;
  }

  /** The lines with an import added right before the end marker. */
  method InsertAtEnd(printable: char -> bool, lines: seq<string>, plugin: string, ghost begin: nat, ghost end: nat)
    returns (out: seq<string>)
    requires HasRegion(lines, begin, end)
    ensures out == lines[..begin + 1] + (Inside(lines, begin, end) + [ImportLine(printable, plugin)]) + lines[end..]
  {
    var idx := 0;
    KindsAt(lines, end);
    while KindOf(lines[idx]) != End
      invariant idx <= end
      decreases end - idx
    {
      idx := idx + 1;
    }
    KindsAt(lines, idx);
    assert lines[..idx] == lines[..begin + 1] + Inside(lines, begin, end);
    out := lines[..idx] + [ImportLine(printable, plugin)] + lines[idx..];
  }

  method AddPlugin(printable: char -> bool, src: string, plugin: string)
    returns (r: Result<(string, bool), RegionError>)
    ensures r.Ok? <==> exists begin: nat, end: nat :: HasRegion(Split(src), begin, end)
    ensures forall begin: nat, end: nat ::
              HasRegion(Split(src), begin, end) ==> r == Ok(Added(printable, src, begin, end, plugin))
    ensures forall begin: nat, end: nat ::
              HasRegion(Split(src), begin, end) && plugin in Modules(Inside(Split(src), begin, end)) ==>
                r == Ok((src, false))
  {
    hide KindOf, Kinds, ParseModule;
    var listed := ListPlugins(src);
    if listed.Err? {
      return Err(listed.error);
    }
    var lines := Split(src);
    ghost var begin: nat, end: nat :| HasRegion(lines, begin, end);
    forall b: nat, e: nat | HasRegion(lines, b, e)
      ensures b == begin && e == end
    {
      RegionIsUnique(lines, begin, end, b, e);
    }
    var present := Contains(listed.value, plugin);
    if present {
      assert Added(printable, src, begin, end, plugin) == (src, false);
      return Ok((src, false));
    }
    var out := InsertAtEnd(printable, lines, plugin, begin, end);
    assert Added(printable, src, begin, end, plugin) == (Join(out), true);
    return Ok((Join(out), true));
  }

  /** What removePlugin has copied when it stands before line `idx`. */
  function Copied(lines: seq<string>, begin: nat, end: nat, plugin: string, idx: nat): seq<string>
    requires begin < end < |lines| && idx <= |lines|
  {
    if idx <= begin then lines[..idx]
    else if idx <= end then lines[..begin + 1] + Without(lines[begin + 1..idx], plugin)
    else lines[..begin + 1] + Without(Inside(lines, begin, end), plugin) + lines[end..idx]
  }

  lemma {:induction false} WithoutSnoc(lines: seq<string>, last: string, plugin: string)
    ensures Without(lines + [last], plugin)
            == Without(lines, plugin) + (if ParseModule(last) == Some(plugin) then [] else [last])
    ensures Modules(lines + [last])
            == Modules(lines) + (if ParseModule(last).Some? then [ParseModule(last).value] else [])
  {
    hide ParseModule;
    if lines == [] {
      assert lines + [last] == [last];
      assert [last][1..] == [];
    } else {
      assert (lines + [last])[1..] == lines[1..] + [last];
      WithoutSnoc(lines[1..], last, plugin);
    }
  }

  /** The lines of the region that stand before line `idx`. */
  function Passed(lines: seq<string>, begin: nat, end: nat, idx: nat): seq<string>
    requires begin < end < |lines| && idx <= |lines|
  {
    if idx <= begin + 1 then [] else lines[begin + 1..if idx <= end then idx else end]
  }

  lemma CopiedStep(lines: seq<string>, begin: nat, end: nat, plugin: string, idx: nat)
    requires begin < end < |lines| && idx < |lines|
    ensures var line, within := lines[idx], begin < idx < end;
            && Copied(lines, begin, end, plugin, idx + 1)
               == Copied(lines, begin, end, plugin, idx)
                   + (if within && ParseModule(line) == Some(plugin) then [] else [line])
            && (plugin in Modules(Passed(lines, begin, end, idx + 1))
                <==> plugin in Modules(Passed(lines, begin, end, idx)) || (within && ParseModule(line) == Some(plugin)))
  {
    hide ParseModule;
    if begin < idx < end {
      assert lines[begin + 1..idx + 1] == lines[begin + 1..idx] + [lines[idx]];
      assert Passed(lines, begin, end, idx) == lines[begin + 1..idx];
      WithoutSnoc(lines[begin + 1..idx], lines[idx], plugin);
    } else if idx == begin {
      assert lines[begin + 1..idx + 1] == [];
    }
  }

  /** The lines without the imports of a module in the region, and whether there was one. */
  method CopyWithout(lines: seq<string>, plugin: string, ghost begin: nat, ghost end: nat)
    returns (out: seq<string>, changed: bool)
    requires HasRegion(lines, begin, end)
    ensures out == lines[..begin + 1] + Without(Inside(lines, begin, end), plugin) + lines[end..]
    ensures changed <==> plugin in Modules(Inside(lines, begin, end))
  {
    hide ParseModule, KindOf;
    out, changed := [], false;
    var inRegion := false;
    for idx := 0 to |lines|
      invariant out == Copied(lines, begin, end, plugin, idx)
      invariant inRegion <==> begin < idx <= end
      invariant changed <==> plugin in Modules(Passed(lines, begin, end, idx))
    {
      CopiedStep(lines, begin, end, plugin, idx);
      KindsAt(lines, idx);
      var line := lines[idx];
      match KindOf(line) {
        case Begin => inRegion := true;
        case End => inRegion := false;
        case Other =>
      }
      if inRegion {
        var parsed := ParseModule(line);
        if parsed.Some? {
          MarkersAreNoImports(line);
        }
        if parsed == Some(plugin) {
          changed := true;
          continue;
        }
      }
      out := out + [line];
    }
    assert lines[end..|lines|] == lines[end..];
  }

  method RemovePlugin(src: string, plugin: string) returns (r: Result<(string, bool), RegionError>)
    ensures r.Ok? <==> exists begin: nat, end: nat :: HasRegion(Split(src), begin, end)
    ensures forall begin: nat, end: nat ::
              HasRegion(Split(src), begin, end) ==> r == Ok(Removed(src, begin, end, plugin))
  {
    hide KindOf, Kinds, ParseModule;
    var lines := Split(src);
    var region := Region(lines);
    if region.Err? {
      return Err(region.error);
    }
    ghost var (begin, end) := region.value;
    var out, changed := CopyWithout(lines, plugin, begin, end);
    assert Removed(src, begin, end, plugin) == (Join(out), changed);
    return Ok((Join(out), changed));
  }

  method ImportsOf(printable: char -> bool, modules: seq<string>) returns (imports: seq<string>)
    ensures imports == Imports(printable, modules)
  {
    imports := [];
    for index := 0 to |modules|
      invariant imports + Imports(printable, modules[index..]) == Imports(printable, modules)
    {
      assert modules[index..][1..] == modules[index + 1..];
      imports := imports + [ImportLine(printable, modules[index])];
    }
  }

  method SetPlugins(printable: char -> bool, src: string, modules: seq<string>) returns (r: Result<string, RegionError>)
    ensures r.Ok? <==> exists begin: nat, end: nat :: HasRegion(Split(src), begin, end)
    ensures forall begin: nat, end: nat ::
              HasRegion(Split(src), begin, end) ==> r == Ok(SetTo(printable, src, begin, end, modules))
  {
    hide KindOf, Kinds, ParseModule;
    var lines := Split(src);
    var region := Region(lines);
    if region.Err? {
      return Err(region.error);
    }
    var (begin, end) := region.value;
    var imports := ImportsOf(printable, modules);
    assert SetTo(printable, src, begin, end, modules) == Join(lines[..begin + 1] + imports + lines[end..]);
    return Ok(Join(lines[..begin + 1] + imports + lines[end..]));
  }

  // ---------------------------------------------------------------- what the edits undo and keep

  /** Lines that may stand inside a region. */
  ghost predicate Insertable(lines: seq<string>) {
    && (forall line :: line in lines ==> '\n' !in line)
    && (forall kind :: kind in Kinds(lines) ==> kind == Other)
  }

  lemma RegionParts(lines: seq<string>, begin: nat, end: nat)
    requires HasRegion(lines, begin, end)
    ensures Kinds(lines) == Kinds(lines[..begin + 1]) + Kinds(Inside(lines, begin, end)) + Kinds(lines[end..])
  {
    hide KindOf, Kinds;
    var front, back := lines[..begin + 1] + Inside(lines, begin, end), lines[end..];
    assert lines == front + back;
    KindsConcat(front, back);
    KindsConcat(lines[..begin + 1], Inside(lines, begin, end));
  }

  lemma InsideIsInsertable(lines: seq<string>, begin: nat, end: nat)
    requires HasRegion(lines, begin, end) && forall line :: line in lines ==> '\n' !in line
    ensures Insertable(Inside(lines, begin, end))
  {
    RegionParts(lines, begin, end);
    var inside := Inside(lines, begin, end);
    var kinds := Kinds(inside);
    forall i | 0 <= i < |kinds|
      ensures kinds[i] == Other
    {
      assert Kinds(lines)[begin + 1 + i] == kinds[i];
    }
  }

  /** Replacing the inside of a region gives a text whose region has that inside, and whose other lines are the same. */
  lemma RebuiltRegion(src: string, begin: nat, end: nat, inside: seq<string>)
    requires HasRegion(Split(src), begin, end) && Insertable(inside)
    ensures var lines, next := Split(src), Split(Rebuilt(Split(src), begin, inside, end));
            var end' := begin + 1 + |inside|;
            && next == lines[..begin + 1] + inside + lines[end..]
            && HasRegion(next, begin, end')
            && Inside(next, begin, end') == inside
            && next[..begin + 1] == lines[..begin + 1] && next[end'..] == lines[end..]
  {
    hide KindOf, Kinds, Split, Join;
    var lines := Split(src);
    var front, back := lines[..begin + 1] + inside, lines[end..];
    assert forall line :: line in front + back ==> line in lines || line in inside;
    SplitOfJoin(front + back);
    SplicedRegion(lines, begin, end, inside);
  }

  lemma SplicedMarks(front: seq<Kind>, inside: seq<Kind>, inside': seq<Kind>, back: seq<Kind>)
    requires front != [] && HasMarks(front + inside + back, |front| - 1, |front| + |inside|)
    requires forall kind :: kind in inside' ==> kind == Other
    ensures HasMarks(front + inside' + back, |front| - 1, |front| + |inside'|)
  {
    var old', kinds := front + inside + back, front + inside' + back;
    forall i | 0 <= i < |kinds|
      ensures (kinds[i] == Begin <==> i == |front| - 1) && (kinds[i] == End <==> i == |front| + |inside'|)
    {
      if i < |front| {
        assert kinds[i] == old'[i];
      } else if i < |front| + |inside'| {
        assert kinds[i] == inside'[i - |front|] && inside'[i - |front|] in inside';
      } else {
        var j := i - |inside'| + |inside|;
        assert kinds[i] == back[i - |front| - |inside'|] && old'[j] == back[j - |front| - |inside|];
      }
    }
  }

  /** The same of the lines alone. */
  lemma SplicedRegion(lines: seq<string>, begin: nat, end: nat, inside: seq<string>)
    requires HasRegion(lines, begin, end) && forall kind :: kind in Kinds(inside) ==> kind == Other
    ensures HasRegion(lines[..begin + 1] + inside + lines[end..], begin, begin + 1 + |inside|)
  {
    hide KindOf, Kinds;
    RegionParts(lines, begin, end);
    KindsConcat(lines[..begin + 1] + inside, lines[end..]);
    KindsConcat(lines[..begin + 1], inside);
    SplicedMarks(Kinds(lines[..begin + 1]), Kinds(Inside(lines, begin, end)), Kinds(inside), Kinds(lines[end..]));
  }

  lemma {:induction false} ModulesConcat(front: seq<string>, back: seq<string>)
    ensures Modules(front + back) == Modules(front) + Modules(back)
  {
    hide ParseModule;
    if front == [] {
      assert front + back == back;
    } else {
      assert (front + back)[1..] == front[1..] + back;
      ModulesConcat(front[1..], back);
    }
  }

  lemma {:induction false} WithoutConcat(front: seq<string>, back: seq<string>, plugin: string)
    ensures Without(front + back, plugin) == Without(front, plugin) + Without(back, plugin)
  {
    hide ParseModule;
    if front == [] {
      assert front + back == back;
    } else {
      assert (front + back)[1..] == front[1..] + back;
      WithoutConcat(front[1..], back, plugin);
    }
  }

  lemma {:induction false} WithoutAbsent(lines: seq<string>, plugin: string)
    requires plugin !in Modules(lines)
    ensures Without(lines, plugin) == lines
  {
    hide ParseModule;
    if lines != [] {
      WithoutAbsent(lines[1..], plugin);
    }
  }

  /** An import line may stand inside a region, and says what its module's quoted spelling says. */
  lemma ImportAlone(printable: char -> bool, plugin: string)
    ensures Insertable([ImportLine(printable, plugin)])
    ensures Modules([ImportLine(printable, plugin)]) == [Unquoted(QuoteBody(printable, plugin))]
    ensures Unquoted(QuoteBody(printable, plugin)) == plugin <==> Plain(printable, plugin)
    ensures Without([ImportLine(printable, plugin)], plugin) == if Plain(printable, plugin) then []
            else [ImportLine(printable, plugin)]
  {
    var line := ImportLine(printable, plugin);
    ImportParses(printable, plugin);
    ImportIsOneLine(printable, plugin);
    ImportRoundTrip(printable, plugin);
    MarkersAreNoImports(line);
    assert [line][1..] == [] && Kinds([line]) == [Other];
  }

  lemma {:induction false} InsertableConcat(front: seq<string>, back: seq<string>)
    requires Insertable(front) && Insertable(back)
    ensures Insertable(front + back)
  {
    KindsConcat(front, back);
  }

  lemma {:induction false} ImportsInsertable(printable: char -> bool, modules: seq<string>)
    ensures Insertable(Imports(printable, modules))
  {
    if modules != [] {
      ImportAlone(printable, modules[0]);
      ImportsInsertable(printable, modules[1..]);
      InsertableConcat([ImportLine(printable, modules[0])], Imports(printable, modules[1..]));
    }
  }

  /** The modules written as import lines are read back exactly when quoting leaves each of them as it is. */
  lemma {:induction false} ImportsReadBack(printable: char -> bool, modules: seq<string>)
    ensures Modules(Imports(printable, modules)) == modules
            <==> forall plugin :: plugin in modules ==> Plain(printable, plugin)
    ensures |Modules(Imports(printable, modules))| == |modules|
  {
    if modules != [] {
      var first, others := modules[0], modules[1..];
      ImportAlone(printable, first);
      ImportsReadBack(printable, others);
      ModulesConcat([ImportLine(printable, first)], Imports(printable, others));
      assert modules == [first] + others;
      assert Modules(Imports(printable, modules))[0] == Unquoted(QuoteBody(printable, first))
          && Modules(Imports(printable, modules))[1..] == Modules(Imports(printable, others));
    }
  }

  lemma InsertableSplit(front: seq<string>, back: seq<string>)
    requires Insertable(front + back)
    ensures Insertable(front) && Insertable(back)
  {
    KindsConcat(front, back);
    assert forall line :: line in front || line in back ==> line in front + back;
    assert forall kind :: kind in Kinds(front) || kind in Kinds(back) ==> kind in Kinds(front) + Kinds(back);
  }

  lemma {:induction false} WithoutInsertable(lines: seq<string>, plugin: string)
    requires Insertable(lines)
    ensures Insertable(Without(lines, plugin))
  {
    hide ParseModule, KindOf;
    if lines != [] {
      assert lines == [lines[0]] + lines[1..];
      InsertableSplit([lines[0]], lines[1..]);
      WithoutInsertable(lines[1..], plugin);
      InsertableConcat([lines[0]], Without(lines[1..], plugin));
      if ParseModule(lines[0]) == Some(plugin) {
        assert Without(lines, plugin) == Without(lines[1..], plugin);
      }
    }
  }

  /** The other modules, in order. */
  function Others(modules: seq<string>, plugin: string): seq<string> {
    if modules == [] then []
    else (if modules[0] == plugin then [] else [modules[0]]) + Others(modules[1..], plugin)
  }

  lemma {:induction false} ModulesWithout(lines: seq<string>, plugin: string)
    ensures Modules(Without(lines, plugin)) == Others(Modules(lines), plugin)
  {
    hide ParseModule;
    if lines != [] {
      var parsed, kept := ParseModule(lines[0]), Without(lines[1..], plugin);
      var listed := Modules(lines[1..]);
      ModulesWithout(lines[1..], plugin);
      if parsed.None? {
        assert Modules(lines) == listed && Without(lines, plugin) == [lines[0]] + kept;
      } else {
        assert Modules(lines) == [parsed.value] + listed && Modules(lines)[1..] == listed;
        if parsed.value == plugin {
          assert Without(lines, plugin) == kept;
        } else {
          assert Without(lines, plugin) == [lines[0]] + kept;
        }
      }
    }
  }

  // ---------------------------------------------------------------- the editor's laws, on whole texts

  /** Adding an absent module appends it to the list, exactly when quoting leaves its name as it is, and changes no
      line outside the region. */
  lemma AddAppends(printable: char -> bool, src: string, begin: nat, end: nat, plugin: string)
    requires HasRegion(Split(src), begin, end)
    requires plugin !in Modules(Inside(Split(src), begin, end))
    ensures var (next, changed) := Added(printable, src, begin, end, plugin);
            var lines, after := Split(src), Split(next);
            && changed && HasRegion(after, begin, end + 1)
            && Inside(after, begin, end + 1) == Inside(lines, begin, end) + [ImportLine(printable, plugin)]
            && (Modules(Inside(after, begin, end + 1)) == Modules(Inside(lines, begin, end)) + [plugin]
                <==> Plain(printable, plugin))
            && after[..begin + 1] == lines[..begin + 1] && after[end + 1..] == lines[end..]
  {
    ImportAlone(printable, plugin);
    LineAppends(src, begin, end, ImportLine(printable, plugin));
    var listed, name := Modules(Inside(Split(src), begin, end)), Unquoted(QuoteBody(printable, plugin));
    assert (listed + [name])[|listed|] == name && (listed + [plugin])[|listed|] == plugin;
  }

  lemma LineAppends(src: string, begin: nat, end: nat, line: string)
    requires HasRegion(Split(src), begin, end) && Insertable([line])
    ensures var lines := Split(src);
            var after := Split(Rebuilt(lines, begin, Inside(lines, begin, end) + [line], end));
            && HasRegion(after, begin, end + 1)
            && Inside(after, begin, end + 1) == Inside(lines, begin, end) + [line]
            && Modules(Inside(after, begin, end + 1)) == Modules(Inside(lines, begin, end)) + Modules([line])
            && after[..begin + 1] == lines[..begin + 1] && after[end + 1..] == lines[end..]
  {
    var inside := Inside(Split(src), begin, end);
    InsideIsInsertable(Split(src), begin, end);
    InsertableConcat(inside, [line]);
    RebuiltRegion(src, begin, end, inside + [line]);
    ModulesConcat(inside, [line]);
  }

  lemma RebuiltAsItWas(src: string, begin: nat, end: nat, next: seq<string>, end': nat)
    requires begin < end < |Split(src)| && begin < end' < |next|
    requires next[..begin + 1] == Split(src)[..begin + 1] && next[end'..] == Split(src)[end..]
    ensures Rebuilt(next, begin, Inside(Split(src), begin, end), end') == src
  {
    var lines := Split(src);
    assert lines == lines[..begin + 1] + Inside(lines, begin, end) + lines[end..];
    JoinOfSplit(src);
  }

  /** Removing the module just added gives the text back exactly, to the byte, when and only when quoting leaves its
      name as it is. */
  lemma RemoveUndoesAdd(printable: char -> bool, src: string, begin: nat, end: nat, plugin: string)
    requires HasRegion(Split(src), begin, end)
    requires plugin !in Modules(Inside(Split(src), begin, end))
    ensures |Split(Added(printable, src, begin, end, plugin).0)| > end + 1
    ensures Removed(Added(printable, src, begin, end, plugin).0, begin, end + 1, plugin) == (src, true)
            <==> Plain(printable, plugin)
  {
    var inside, line := Inside(Split(src), begin, end), ImportLine(printable, plugin);
    var next := Split(Added(printable, src, begin, end, plugin).0);
    AddAppends(printable, src, begin, end, plugin);
    ImportAlone(printable, plugin);
    ModulesConcat(inside, [line]);
    WithoutAbsent(inside, plugin);
    WithoutConcat(inside, [line], plugin);
    if Plain(printable, plugin) {
      assert inside + [] == inside;
      RebuiltAsItWas(src, begin, end, next, end + 1);
      assert plugin in Modules(inside) + [plugin];
    }
  }

  /** Removing goes line by line: only an import of the module goes, every other line stays where it is. */
  lemma RemovalIsLineByLine(front: seq<string>, line: string, back: seq<string>, plugin: string)
    ensures Without(front + [line] + back, plugin)
         == Without(front, plugin) + (if ParseModule(line) == Some(plugin) then [] else [line]) + Without(back, plugin)
    ensures Without([], plugin) == []
  {
    WithoutConcat(front + [line], back, plugin);
    WithoutSnoc(front, line, plugin);
  }

  /** Removing a module leaves the other modules in order, and no line outside the region changes; it reports a
      change exactly when the module was listed. */
  lemma RemoveKeepsOthers(src: string, begin: nat, end: nat, plugin: string)
    requires HasRegion(Split(src), begin, end)
    ensures var (next, changed) := Removed(src, begin, end, plugin);
            var lines, after := Split(src), Split(next);
            var end' := begin + 1 + |Without(Inside(lines, begin, end), plugin)|;
            && HasRegion(after, begin, end')
            && Modules(Inside(after, begin, end')) == Others(Modules(Inside(lines, begin, end)), plugin)
            && (changed <==> plugin in Modules(Inside(lines, begin, end))) && (!changed ==> next == src)
            && after[..begin + 1] == lines[..begin + 1] && after[end'..] == lines[end..]
  {
    hide ParseModule, KindOf, Modules, Without, Others, Kinds, Split, Join, Insertable;
    var lines := Split(src);
    var inside := Inside(lines, begin, end);
    InsideIsInsertable(lines, begin, end);
    WithoutInsertable(inside, plugin);
    RebuiltRegion(src, begin, end, Without(inside, plugin));
    ModulesWithout(inside, plugin);
    if plugin !in Modules(inside) {
      WithoutAbsent(inside, plugin);
      assert lines == lines[..begin + 1] + inside + lines[end..];
      JoinOfSplit(src);
    }
  }

  /** Setting the modules makes them the list, exactly when quoting leaves each as it is; the last setting wins,
      whatever the modules; no line outside the region changes. */
  lemma LastSetWins(printable: char -> bool, src: string, begin: nat, end: nat, first: seq<string>, second: seq<string>)
    requires HasRegion(Split(src), begin, end)
    ensures var next := SetTo(printable, src, begin, end, first);
            var lines, after, end' := Split(src), Split(next), begin + 1 + |first|;
            && HasRegion(after, begin, end')
            && (Modules(Inside(after, begin, end')) == first
                <==> forall plugin :: plugin in first ==> Plain(printable, plugin))
            && SetTo(printable, next, begin, end', second) == SetTo(printable, src, begin, end, second)
            && after[..begin + 1] == lines[..begin + 1] && after[end'..] == lines[end..]
  {
    ImportsInsertable(printable, first);
    ImportsCount(printable, first);
    RebuiltRegion(src, begin, end, Imports(printable, first));
    ImportsReadBack(printable, first);
  }

  lemma {:induction false} ImportsCount(printable: char -> bool, modules: seq<string>)
    ensures |Imports(printable, modules)| == |modules|
  {
    if modules != [] {
      ImportsCount(printable, modules[1..]);
    }
  }
}

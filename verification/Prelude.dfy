/** Small vocabulary shared by the other modules. */
module Prelude {

  datatype Option<+T> = None | Some(value: T)

  datatype Result<+T, +E> = Ok(value: T) | Err(error: E)

  /** How many items a session's queue holds. */
  const QUEUE_CAPACITY: nat := 64

  /** The text before the first `sep`, the text after it, and whether `sep` occurs (Go's strings.Cut). */
  function Cut(s: string, sep: char): (r: (string, string, bool))
    ensures r.2 <==> sep in s
    ensures r.2 ==> s == r.0 + [sep] + r.1 && sep !in r.0
    ensures !r.2 ==> r.0 == s && r.1 == ""
  {
    if s == "" then ("", "", false)
    else if s[0] == sep then ("", s[1..], true)
    else
      var rest := Cut(s[1..], sep);
      ([s[0]] + rest.0, rest.1, rest.2)
  }

  /** A separator splits a text in one place only, so cutting undoes joining. */
  lemma {:induction false} CutUndoesJoin(before: string, sep: char, after: string)
    requires sep !in before
    ensures Cut(before + [sep] + after, sep) == (before, after, true)
  {
    var s := before + [sep] + after;
    if before == "" {
      assert s[1..] == after;
    } else {
      CutUndoesJoin(before[1..], sep, after);
      assert s[1..] == before[1..] + [sep] + after;
      assert s[0] == before[0] && [before[0]] + before[1..] == before;
    }
  }

  /** What is left of `s` without the characters to cut at its two ends (Go's strings.Trim). */
  function Trim(s: string, cut: char -> bool): string {
    TrimRight(TrimLeft(s, cut), cut)
  }

  function TrimLeft(s: string, cut: char -> bool): string {
    if s != "" && cut(s[0]) then TrimLeft(s[1..], cut) else s
  }

  function TrimRight(s: string, cut: char -> bool): string {
    if s != "" && cut(s[|s| - 1]) then TrimRight(s[..|s| - 1], cut) else s
  }

  /** Trimming takes characters to cut off the two ends, and leaves none there. */
  lemma {:induction false} TrimCutsEnds(s: string, cut: char -> bool) returns (left: string, right: string)
    ensures s == left + Trim(s, cut) + right && forall c :: c in left || c in right ==> cut(c)
    ensures Trim(s, cut) != "" ==> !cut(Trim(s, cut)[0]) && !cut(Trim(s, cut)[|Trim(s, cut)| - 1])
    decreases |s|
  {
    left, right := "", "";
    if s == "" {
    } else if cut(s[0]) {
      left, right := TrimCutsEnds(s[1..], cut);
      left := [s[0]] + left;
      assert s == [s[0]] + s[1..];
    } else if cut(s[|s| - 1]) {
      var front := s[..|s| - 1];
      left, right := TrimCutsEnds(front, cut);
      right := right + [s[|s| - 1]];
      assert s == front + [s[|s| - 1]] && front[0] == s[0];
    }
  }

  /** The ends do not matter. */
  lemma {:induction false} TrimForgetsEnds(left: string, middle: string, right: string, cut: char -> bool)
    requires forall c :: c in left || c in right ==> cut(c)
    requires middle != "" && !cut(middle[0]) && !cut(middle[|middle| - 1])
    ensures Trim(left + middle + right, cut) == middle
    decreases |left| + |right|
  {
    var s := left + middle + right;
    if left != "" {
      TrimForgetsEnds(left[1..], middle, right, cut);
      assert s[1..] == left[1..] + middle + right && s[0] in left;
    } else if right != "" {
      var last := |right| - 1;
      TrimForgetsEnds(left, middle, right[..last], cut);
      assert s[..|s| - 1] == left + middle + right[..last] && s[|s| - 1] in right;
      assert s[0] == middle[0] && s[..|s| - 1][0] == middle[0];
    } else {
      assert s == middle;
    }
  }

  /** Trimming leaves nothing exactly when every character is one to cut. */
  lemma {:induction false} TrimmedAway(s: string, cut: char -> bool)
    ensures Trim(s, cut) == "" <==> forall c :: c in s ==> cut(c)
    decreases |s|
  {
    if s == "" {
    } else if cut(s[0]) {
      TrimmedAway(s[1..], cut);
      assert s == [s[0]] + s[1..];
    } else {
      TrimKeeps(s, cut);
    }
  }

  lemma {:induction false} TrimKeeps(s: string, cut: char -> bool)
    requires s != "" && !cut(s[0])
    ensures TrimRight(s, cut) != "" && TrimRight(s, cut)[0] == s[0]
    decreases |s|
  {
    if cut(s[|s| - 1]) {
      TrimKeeps(s[..|s| - 1], cut);
    }
  }

  /** unicode.IsSpace. */
  predicate IsSpace(c: char) {
    || '\t' <= c <= '\r' || c == ' ' || c == '\U{0085}' || c == '\U{00A0}' || c == '\U{1680}'
    || '\U{2000}' <= c <= '\U{200A}' || c == '\U{2028}' || c == '\U{2029}' || c == '\U{202F}' || c == '\U{205F}'
        || c == '\U{3000}'
  }

  function TrimSpace(s: string): string {
    Trim(s, IsSpace)
  }

  /** Texts joined by a separator (strings.Join). */
  function Joined(parts: seq<string>, sep: string): string {
    if parts == [] then ""
    else if |parts| == 1 then parts[0]
    else parts[0] + sep + Joined(parts[1..], sep)
  }
}

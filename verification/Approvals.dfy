/** The table of tool calls that wait for a human (core/host/approve.go): its bounds, its answers, and the menu
    values that carry an answer. */
module Approvals {
  import opened Prelude

  const PER_SESSION: nat := 8
  const IN_ALL: nat := 40

  datatype Scope = Once | Session | Always | Deny

  datatype Decision = Allowed | Denied

  datatype Answer = Answer(scope: Scope, reason: string)

  function DecisionOf(scope: Scope): Decision {
    if scope == Deny then Denied else Allowed
  }

  datatype Request = Request(tool: string, subject: string)

  datatype Verdict = Verdict(decision: Decision, reason: string)

  /** A waiting request; `answer` is its one-slot channel. */
  class PendingApproval {
    const id: string
    const session: string
    const req: Request
    var answer: Option<Verdict>

    constructor (id: string, session: string, req: Request)
      ensures this.id == id && this.session == session && this.req == req && answer == None
    {
      this.id, this.session, this.req, answer := id, session, req, None;
    }
  }

  datatype Refusal = FleetFull | SessionFull

  /** Which limit refuses a request, with this many waiting in all and this many of its session. */
  function Admission(all: nat, mine: nat): Option<Refusal> {
    if all >= IN_ALL then Some(FleetFull) else if mine >= PER_SESSION then Some(SessionFull) else None
  }

  /** A one-slot channel after a send that does not wait: a full slot keeps what it has. */
  function Sent<T>(slot: Option<T>, answer: T): Option<T> {
    if slot.Some? then slot else Some(answer)
  }

  /** An allowing scope that outlives its request. */
  predicate Lasting(scope: Scope) {
    scope == Session || scope == Always
  }

  /** The waiting requests of one session. */
  function OfSession(m: map<string, PendingApproval>, session: string): set<string> {
    set id | id in m && m[id].session == session
  }

  lemma OfSessionGrows(m: map<string, PendingApproval>, pending: PendingApproval, session: string)
    requires pending.id !in m
    ensures |OfSession(m[pending.id := pending], session)|
            == |OfSession(m, session)| + if pending.session == session then 1 else 0
  {
    var next := m[pending.id := pending];
    if pending.session == session {
      assert OfSession(next, session) == OfSession(m, session) + {pending.id};
    } else {
      assert OfSession(next, session) == OfSession(m, session);
    }
  }

  method CountMine(m: map<string, PendingApproval>, session: string) returns (mine: nat)
    ensures mine == |OfSession(m, session)|
  {
    mine := 0;
    var todo := m.Keys;
    ghost var counted: set<string> := {};
    while todo != {}
      invariant todo <= m.Keys && counted == OfSession(m, session) - todo
      invariant mine == |counted|
      decreases |todo|
    {
      var id :| id in todo;
      if m[id].session == session {
        mine := mine + 1;
        counted := counted + {id};
      }
      todo := todo - {id};
    }
    assert counted == OfSession(m, session);
  }

  class ApprovalTable {
    var m: map<string, PendingApproval>
    var grants: set<(string, Request)>   // what the running sessions remember
    var rules: set<string>               // the rule store

    ghost predicate Valid()
      reads this
    {
      && (forall id :: id in m ==> m[id].id == id)
      && |m| <= IN_ALL
      && (forall session :: |OfSession(m, session)| <= PER_SESSION)
    }

    constructor ()
      ensures Valid() && m == map[] && grants == {} && rules == {}
    {
      m, grants, rules := map[], {}, {};
      new;
      assert forall session :: OfSession(m, session) == {};
    }

    /** Admits a request unless the fleet or its session already has as many waiting as it may. The identifier is
        new. */
    method Register(pending: PendingApproval) returns (refusal: Option<Refusal>)
      requires Valid() && pending.id !in m
      modifies this`m
      ensures Valid()
      ensures refusal == Admission(|old(m)|, |OfSession(old(m), pending.session)|)
      ensures refusal == Some(FleetFull) <==> |old(m)| >= 40
      ensures refusal == Some(SessionFull) <==>
                |old(m)| < 40 && |set id | id in old(m) && old(m)[id].session == pending.session| >= 8
      ensures m == if refusal.None? then old(m)[pending.id := pending] else old(m)
    {
      if |m| >= IN_ALL {
        return Some(FleetFull);
      }
      var mine := CountMine(m, pending.session);
      if mine >= PER_SESSION {
        return Some(SessionFull);
      }
      var next := m[pending.id := pending];
      forall session
        ensures |OfSession(next, session)| <= PER_SESSION
      {
        OfSessionGrows(m, pending, session);
      }
      assert next.Keys == m.Keys + {pending.id};
      m := next;
      return None;
    }

    /** The asker's deferred release. */
    method Release(pending: PendingApproval)
      requires Valid()
      modifies this`m
      ensures Valid() && m == old(m) - {pending.id}
    {
      var next := m - {pending.id};
      forall session
        ensures |OfSession(next, session)| <= PER_SESSION
      {
        assert OfSession(next, session) == OfSession(m, session) - {pending.id};
      }
      assert next.Keys == m.Keys - {pending.id};
      m := next;
    }

    /** Answers a waiting request while nobody else does. An answer to a full slot is accepted and ignored; a
        delivered one is remembered in its scope. `running` says whether the session is, `rule` the rule that names
        the request exactly, and `saved` whether the store kept it. */
    method Settle(id: string, answer: Answer, running: bool, rule: Option<string>, saved: bool) returns (known: bool)
      requires Valid()
      modifies this`grants, this`rules, m.Values
      ensures Valid() && m == old(m) && (known <==> id in m)
      ensures forall other :: other in old(m) && other != id ==> old(m)[other].answer == old(m[other].answer)
      ensures known ==> m[id].answer == Sent(old(m[id].answer), Verdict(DecisionOf(answer.scope), answer.reason))
      ensures known ==> m[id].answer == if old(m[id].answer).Some? then old(m[id].answer)
                                        else Some(Verdict(if answer.scope == Deny then Denied else Allowed,
                                                          answer.reason))
      ensures var delivered := known && old(m[id].answer).None?;
              && grants == (if delivered && answer.scope == Session && running
                            then old(grants) + {(m[id].session, m[id].req)} else old(grants))
              && rules == (if delivered && answer.scope == Always && rule.Some? && saved
                           then old(rules) + {rule.value} else old(rules))
    {
      if id !in m {
        return false;
      }
      var pending := m[id];
      assert pending in m.Values;
      if pending.answer.Some? {
        return true;
      }
      pending.answer := Some(Verdict(DecisionOf(answer.scope), answer.reason));
      if DecisionOf(answer.scope) == Allowed {
        match answer.scope {
          case Session =>
            if running {
              grants := grants + {(pending.session, pending.req)};
            }
          case Always =>
            if rule.Some? && saved {
              rules := rules + {rule.value};
            }
          case Once =>
          case Deny =>
        }
      }
      return true;
    }
  }

  // ---------------------------------------------------------------- the values a menu carries

  const PICK_PREFIX := "herrscher-approval:"

  const SCOPES := [Once, Session, Always, Deny]

  function ScopeName(scope: Scope): string {
    match scope
    case Once => "allow"
    case Session => "allow-session"
    case Always => "allow-always"
    case Deny => "deny"
  }

  function ScopeNamed(word: string): Option<Scope> {
    if word == "allow" then Some(Once)
    else if word == "allow-session" then Some(Session)
    else if word == "allow-always" then Some(Always)
    else if word == "deny" then Some(Deny)
    else None
  }

  method FindScope(word: string) returns (scope: Option<Scope>)
    ensures scope == ScopeNamed(word)
    ensures scope.Some? ==> ScopeName(scope.value) == word
  {
    for index := 0 to |SCOPES|
      invariant forall i :: 0 <= i < index ==> ScopeName(SCOPES[i]) != word
    {
      if ScopeName(SCOPES[index]) == word {
        return Some(SCOPES[index]);
      }
    }
    assert ScopeName(SCOPES[0]) != word && ScopeName(SCOPES[1]) != word && ScopeName(SCOPES[2]) != word
        && ScopeName(SCOPES[3]) != word;
    return None;
  }

  /** What strings.TrimPrefix leaves of a picked value. */
  function Unprefixed(value: string): string {
    if PICK_PREFIX <= value then value[|PICK_PREFIX|..] else value
  }

  /** What the agent is told of a refusal. */
  function OperatorRefusal(reason: string): string {
    var text := TrimSpace(reason);
    if text == "" then "" else "herrscher: the operator refused: " + text
  }

  /** The request and the answer a picked value names. */
  function Picked(value: string): Option<(string, Answer)> {
    var (id, verdict, hasVerdict) := Cut(Unprefixed(value), ':');
    if !hasVerdict then None
    else
      var (word, reason, _) := Cut(verdict, ':');
      match ScopeNamed(word)
      case None => None
      case Some(scope) => Some((id, Answer(scope, OperatorRefusal(reason))))
  }

  /** This text names a request, a scope by its word, and a reason, which may be left out. */
  ghost predicate Spells(text: string, id: string, scope: Scope, reason: string) {
    var word := match scope
                case Once => "allow"
                case Session => "allow-session"
                case Always => "allow-always"
                case Deny => "deny";
    var spelled := id + ":" + word;
    ':' !in id && (text == spelled + ":" + reason || (reason == "" && text == spelled))
  }

  /** What a text spells is what is picked, with the reason as the agent is told it, and nothing else is. */
  lemma PickedExactly(value: string, id: string, scope: Scope, reason: string)
    ensures Spells(Unprefixed(value), id, scope, reason)
            ==> Picked(value) == Some((id, Answer(scope, OperatorRefusal(reason))))
    ensures Picked(value).Some? ==>
              exists named, word, why ::
                Spells(Unprefixed(value), named, word, why)
                && Picked(value).value == (named, Answer(word, OperatorRefusal(why)))
  {
    hide Cut, OperatorRefusal;
    var text, word := Unprefixed(value), ScopeName(scope);
    NoColon(scope);
    if ':' !in id {
      CutUndoesJoin(id, ':', word + ":" + reason);
      CutUndoesJoin(id, ':', word);
      CutUndoesJoin(word, ':', reason);
      CutWhole(word, ':');
      assert id + ":" + word + ":" + reason == id + [':'] + (word + ":" + reason);
      assert word + ":" + reason == word + [':'] + reason;
    }
    if Picked(value).Some? {
      PickedSpells(value);
    }
  }

  lemma PickedSpells(value: string)
    requires Picked(value).Some?
    ensures exists id, scope, reason ::
              Spells(Unprefixed(value), id, scope, reason)
              && Picked(value).value == (id, Answer(scope, OperatorRefusal(reason)))
  {
    hide Cut, OperatorRefusal;
    var text := Unprefixed(value);
    CutParts(text, ':');
    var (id, verdict, _) := Cut(text, ':');
    CutParts(verdict, ':');
    var (word, reason, _) := Cut(verdict, ':');
    assert id + [':'] + (word + [':'] + reason) == id + ":" + word + ":" + reason;
    assert Spells(text, id, Picked(value).value.1.scope, reason);
  }

  lemma CutWhole(s: string, sep: char)
    requires sep !in s
    ensures Cut(s, sep) == (s, "", false)
  {
  }

  lemma CutParts(s: string, sep: char)
    ensures var (before, after, found) := Cut(s, sep);
            && (found ==> s == before + [sep] + after && sep !in before)
            && (!found ==> sep !in s && before == s && after == "")
  {
  }

  /** Only the prefix of a menu's own values is taken off. */
  lemma PrefixTakenOff(rest: string, value: string)
    ensures Unprefixed("herrscher-approval:" + rest) == rest
    ensures !("herrscher-approval:" <= value) ==> Unprefixed(value) == value
  {
    assert ("herrscher-approval:" + rest)[..|PICK_PREFIX|] == PICK_PREFIX;
  }

  /** A blank reason is none. */
  lemma RefusalText(reason: string)
    ensures OperatorRefusal(reason) == "" <==> forall c :: c in reason ==> IsSpace(c)
    ensures OperatorRefusal(reason) != ""
            ==> OperatorRefusal(reason) == "herrscher: the operator refused: " + TrimSpace(reason)
  {
    TrimmedAway(reason, IsSpace);
  }

  method ParsePick(value: string) returns (pick: Option<(string, Answer)>)
    ensures pick == Picked(value)
  {
    var (id, verdict, hasVerdict) := Cut(Unprefixed(value), ':');
    if !hasVerdict {
      return None;
    }
    var (word, reason, _) := Cut(verdict, ':');
    var scope := FindScope(word);
    if scope.None? {
      return None;
    }
    return Some((id, Answer(scope.value, OperatorRefusal(reason))));
  }

  function Choice(id: string, scope: Scope): string {
    PICK_PREFIX + id + ":" + ScopeName(scope)
  }

  lemma NoColon(scope: Scope)
    ensures ':' !in ScopeName(scope) && ScopeNamed(ScopeName(scope)) == Some(scope)
  {
  }

  /** Every choice offered for a request answers that request in that scope when picked, exactly when its identifier
      holds no colon. */
  lemma ChoicePicksItself(id: string, scope: Scope)
    ensures Picked(Choice(id, scope)) == Some((id, Answer(scope, ""))) <==> ':' !in id
  {
    var value := Choice(id, scope);
    var rest := id + ":" + ScopeName(scope);
    assert value == PICK_PREFIX + rest && Unprefixed(value) == rest;
    NoColon(scope);
    if ':' !in id {
      CutUndoesJoin(id, ':', ScopeName(scope));
      assert Cut(ScopeName(scope), ':') == (ScopeName(scope), "", false);
    } else {
      assert ':' in rest && ':' !in Cut(rest, ':').0;
    }
  }
}

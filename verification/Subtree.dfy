/** Which sessions a session may speak for: the parent walk of core/host/authz.go. */
module Subtree {
  import opened Prelude
  import opened Sessions

  /** The parent links of a snapshot, a later session overwriting an earlier one of the same name. */
  function ParentsOf(sessions: seq<Session>): map<string, string> {
    if sessions == [] then map[]
    else
      var last := sessions[|sessions| - 1];
      ParentsOf(sessions[..|sessions| - 1])[last.name := last.parent]
  }

  /** `above` is the parent of `below`, and not the empty name. */
  predicate Linked(parents: map<string, string>, below: string, above: string) {
    below in parents && parents[below] == above && above != ""
  }

  /** A chain of non-empty parent links from its first element up to its last. */
  ghost predicate IsChain(parents: map<string, string>, chain: seq<string>) {
    && 2 <= |chain|
    && forall i {:trigger chain[i]} :: 0 <= i < |chain| - 1 ==> Linked(parents, chain[i], chain[i + 1])
  }

  /** `below` stands in the subtree of `above`. */
  ghost predicate InSubtreeOf(parents: map<string, string>, above: string, below: string) {
    above == below || exists chain :: IsChain(parents, chain) && chain[0] == below && chain[|chain| - 1] == above
  }

  /** The ancestor `steps` links above `name`, if the links go that far. */
  function Ancestor(parents: map<string, string>, name: string, steps: nat): Option<string> {
    if steps == 0 then Some(name)
    else
      match Ancestor(parents, name, steps - 1)
      case None => None
      case Some(cur) => if cur in parents && parents[cur] != "" then Some(parents[cur]) else None
  }

  // ---------------------------------------------------------------- the same, said of the sessions

  /** The last session called `below` names `above` as its parent, which is not the empty name. */
  ghost predicate ParentLink(sessions: seq<Session>, below: string, above: string) {
    above != "" && exists i :: 0 <= i < |sessions| && sessions[i] == Session(below, above) && LastNamed(sessions, i)
  }

  /** No later session has the name of this one. */
  ghost predicate LastNamed(sessions: seq<Session>, i: nat)
    requires i < |sessions|
  {
    forall j :: i < j < |sessions| ==> sessions[j].name != sessions[i].name
  }

  /** A chain of names that leads up, each the parent of the one before it. */
  ghost predicate LeadsUp(sessions: seq<Session>, chain: seq<string>) {
    && chain != []
    && forall i {:trigger chain[i]} :: 0 <= i < |chain| - 1 ==> ParentLink(sessions, chain[i], chain[i + 1])
  }

  /** `caller` may speak for `target`: it is the same session, or a chain of parents leads from `target` to it. */
  ghost predicate SpeaksFor(sessions: seq<Session>, caller: string, target: string) {
    exists chain :: LeadsUp(sessions, chain) && chain[0] == target && chain[|chain| - 1] == caller
  }

  /** The parent of a name is the parent of the last session of that name. */
  lemma {:induction false} LastParentCounts(sessions: seq<Session>, i: nat)
    requires i < |sessions| && LastNamed(sessions, i)
    ensures sessions[i].name in ParentsOf(sessions) && ParentsOf(sessions)[sessions[i].name] == sessions[i].parent
    decreases |sessions|
  {
    var front, last := sessions[..|sessions| - 1], |sessions| - 1;
    if i < last {
      assert sessions[last].name != sessions[i].name && LastNamed(front, i);
      LastParentCounts(front, i);
    }
  }

  /** Only names of sessions have one. */
  lemma {:induction false} OnlyNamesHaveParents(sessions: seq<Session>, name: string)
    requires name in ParentsOf(sessions)
    ensures exists i :: 0 <= i < |sessions| && sessions[i].name == name
    decreases |sessions|
  {
    var front, last := sessions[..|sessions| - 1], |sessions| - 1;
    if sessions[last].name != name {
      OnlyNamesHaveParents(front, name);
      var i :| 0 <= i < |front| && front[i].name == name;
      assert sessions[i].name == name;
    }
  }

  /** Every name some session has, the last one has too. */
  lemma {:induction false} SomeIsLast(sessions: seq<Session>, i: nat) returns (last: nat)
    requires i < |sessions|
    ensures i <= last < |sessions| && sessions[last].name == sessions[i].name && LastNamed(sessions, last)
    decreases |sessions| - i
  {
    last := i;
    if !LastNamed(sessions, i) {
      var j :| i < j < |sessions| && sessions[j].name == sessions[i].name;
      last := SomeIsLast(sessions, j);
    }
  }

  lemma LinkedIsParentLink(sessions: seq<Session>, below: string, above: string)
    ensures Linked(ParentsOf(sessions), below, above) <==> ParentLink(sessions, below, above)
  {
    if Linked(ParentsOf(sessions), below, above) {
      OnlyNamesHaveParents(sessions, below);
      var i :| 0 <= i < |sessions| && sessions[i].name == below;
      var last := SomeIsLast(sessions, i);
      LastParentCounts(sessions, last);
      assert sessions[last] == Session(below, above);
    }
    if ParentLink(sessions, below, above) {
      var i :| 0 <= i < |sessions| && sessions[i] == Session(below, above) && LastNamed(sessions, i);
      LastParentCounts(sessions, i);
    }
  }

  lemma SubtreeIsSpeaksFor(sessions: seq<Session>, caller: string, target: string)
    ensures InSubtreeOf(ParentsOf(sessions), caller, target) <==> SpeaksFor(sessions, caller, target)
  {
    hide ParentsOf, ParentLink, Linked;
    forall below, above
      ensures Linked(ParentsOf(sessions), below, above) <==> ParentLink(sessions, below, above)
    {
      LinkedIsParentLink(sessions, below, above);
    }
    if caller == target {
      assert LeadsUp(sessions, [target]);
    } else {
      if InSubtreeOf(ParentsOf(sessions), caller, target) {
        var chain :| IsChain(ParentsOf(sessions), chain) && chain[0] == target && chain[|chain| - 1] == caller;
        assert LeadsUp(sessions, chain);
      }
      if SpeaksFor(sessions, caller, target) {
        var chain :| LeadsUp(sessions, chain) && chain[0] == target && chain[|chain| - 1] == caller;
        assert IsChain(ParentsOf(sessions), chain);
      }
    }
  }

  /** Who speaks for a session with a parent is that session and whoever speaks for the parent; for one without, only
      itself. */
  lemma AuthorityComesFromAbove(sessions: seq<Session>, caller: string, target: string, parent: string)
    ensures ParentLink(sessions, target, parent)
            ==> (SpeaksFor(sessions, caller, target) <==> caller == target || SpeaksFor(sessions, caller, parent))
    ensures (forall above :: !ParentLink(sessions, target, above))
            ==> (SpeaksFor(sessions, caller, target) <==> caller == target)
  {
    hide ParentLink;
    if caller == target {
      assert LeadsUp(sessions, [target]);
    } else if SpeaksFor(sessions, caller, target) {
      var chain :| LeadsUp(sessions, chain) && chain[0] == target && chain[|chain| - 1] == caller;
      assert ParentLink(sessions, chain[0], chain[1]) && LeadsUp(sessions, chain[1..]);
      if ParentLink(sessions, target, parent) {
        OneParent(sessions, target, chain[1], parent);
      }
    }
    if ParentLink(sessions, target, parent) && SpeaksFor(sessions, caller, parent) {
      var chain :| LeadsUp(sessions, chain) && chain[0] == parent && chain[|chain| - 1] == caller;
      assert LeadsUp(sessions, [target] + chain);
    }
  }

  lemma OneParent(sessions: seq<Session>, name: string, one: string, two: string)
    requires ParentLink(sessions, name, one) && ParentLink(sessions, name, two)
    ensures one == two
  {
  }

  method ParentLinks(sessions: seq<Session>) returns (parents: map<string, string>)
    ensures parents == ParentsOf(sessions)
  {
    parents := map[];
    for idx := 0 to |sessions|
      invariant parents == ParentsOf(sessions[..idx])
    {
      assert sessions[..idx + 1][..idx] == sessions[..idx];
      parents := parents[sessions[idx].name := sessions[idx].parent];
    }
    assert sessions[..|sessions|] == sessions;
  }

  /** The daemon's answer, from the sessions it knows; without a state it knows none. */
  method InSubtree(snapshot: Option<seq<Session>>, caller: string, target: string) returns (within: bool)
    ensures within <==> SpeaksFor(if snapshot.Some? then snapshot.value else [], caller, target)
  {
    hide ParentsOf, SpeaksFor, InSubtreeOf;
    SubtreeIsSpeaksFor(if snapshot.Some? then snapshot.value else [], caller, target);
    if caller == target {
      MeetsItself(ParentsOf(if snapshot.Some? then snapshot.value else []), caller);
      return true;
    }
    if snapshot.None? {
      NobodyIsKnown(caller, target);
      return false;
    }
    var parents := ParentLinks(snapshot.value);
    var cur := target;
    for steps := 0 to |parents|
      invariant Ancestor(parents, target, steps) == Some(cur)
      invariant forall k :: 0 < k <= steps ==> Ancestor(parents, target, k) != Some(caller)
    {
      if cur !in parents || parents[cur] == "" {
        assert Ancestor(parents, target, steps + 1) == None;
        AncestorsEnd(parents, target, steps + 1);
        NotFoundIsOutside(parents, caller, target);
        return false;
      }
      if parents[cur] == caller {
        FoundIsInside(parents, caller, target, steps + 1);
        return true;
      }
      cur := parents[cur];
    }
    ShortestChainIsShort(parents, caller, target);
    NotFoundIsOutside(parents, caller, target);
    return false;
  }

  // ---------------------------------------------------------------- chains and ancestors

  /** An ancestor is the top of a chain. */
  lemma {:induction false} ChainOfAncestor(parents: map<string, string>, name: string, steps: nat)
    requires steps > 0 && Ancestor(parents, name, steps).Some?
    ensures exists chain :: IsChain(parents, chain) && chain[0] == name
                            && Some(chain[|chain| - 1]) == Ancestor(parents, name, steps)
  {
    var below := Ancestor(parents, name, steps - 1).value;
    if steps == 1 {
      assert IsChain(parents, [name, parents[name]]);
    } else {
      ChainOfAncestor(parents, name, steps - 1);
      var chain :| IsChain(parents, chain) && chain[0] == name && chain[|chain| - 1] == below;
      assert IsChain(parents, chain + [parents[below]]);
    }
  }

  /** The top of a chain is an ancestor. */
  lemma {:induction false} AncestorOfChain(parents: map<string, string>, chain: seq<string>)
    requires IsChain(parents, chain)
    ensures Ancestor(parents, chain[0], |chain| - 1) == Some(chain[|chain| - 1])
    decreases |chain|
  {
    var top := |chain| - 1;
    assert Linked(parents, chain[top - 1], chain[top]);
    if top > 1 {
      var below := chain[..top];
      assert IsChain(parents, below) by {
        assert forall i :: 0 <= i < |below| ==> below[i] == chain[i];
      }
      AncestorOfChain(parents, below);
      assert below[|below| - 1] == chain[top - 1] && |below| - 1 == top - 1;
    } else {
      assert Ancestor(parents, chain[0], 0) == Some(chain[0]);
    }
  }

  /** Beyond the end of the links there is nobody. */
  lemma {:induction false} AncestorsEnd(parents: map<string, string>, name: string, end: nat)
    requires Ancestor(parents, name, end) == None
    ensures forall steps :: end <= steps ==> Ancestor(parents, name, steps) == None
  {
    forall steps | end <= steps
      ensures Ancestor(parents, name, steps) == None
    {
      for k := end to steps
        invariant Ancestor(parents, name, k) == None
      {
      }
    }
  }

  lemma FoundIsInside(parents: map<string, string>, caller: string, target: string, steps: nat)
    requires steps > 0 && Ancestor(parents, target, steps) == Some(caller)
    ensures InSubtreeOf(parents, caller, target)
  {
    ChainOfAncestor(parents, target, steps);
  }

  lemma MeetsItself(parents: map<string, string>, name: string)
    ensures InSubtreeOf(parents, name, name)
  {
  }

  lemma NobodyIsKnown(caller: string, target: string)
    requires caller != target
    ensures !InSubtreeOf(ParentsOf([]), caller, target)
  {
    assert ParentsOf([]) == map[];
  }

  lemma NotFoundIsOutside(parents: map<string, string>, caller: string, target: string)
    requires caller != target && forall steps: nat :: steps > 0 ==> Ancestor(parents, target, steps) != Some(caller)
    ensures !InSubtreeOf(parents, caller, target)
  {
    if exists chain :: IsChain(parents, chain) && chain[0] == target && chain[|chain| - 1] == caller {
      var chain :| IsChain(parents, chain) && chain[0] == target && chain[|chain| - 1] == caller;
      AncestorOfChain(parents, chain);
      assert false;
    }
  }

  /** A name met twice on the way up brings the whole way round again. */
  lemma {:induction false} AncestorsRepeat(parents: map<string, string>, name: string, first: nat, second: nat,
                                           more: nat)
    requires Ancestor(parents, name, first) == Ancestor(parents, name, second)
    ensures Ancestor(parents, name, first + more) == Ancestor(parents, name, second + more)
    decreases more
  {
    if more > 0 {
      AncestorsRepeat(parents, name, first, second, more - 1);
    }
  }

  /** Below the first meeting with an ancestor, no two names are the same. */
  lemma FirstMeetingHasNoRepeat(parents: map<string, string>, name: string, first: nat, second: nat, meeting: nat)
    requires first < second < meeting
    requires Ancestor(parents, name, meeting).Some?
    requires forall steps :: 0 < steps < meeting ==> Ancestor(parents, name, steps) != Ancestor(parents, name, meeting)
    ensures Ancestor(parents, name, first) != Ancestor(parents, name, second)
  {
    hide Ancestor;
    var again := first + (meeting - second);
    assert Ancestor(parents, name, again) != Ancestor(parents, name, meeting);
    if Ancestor(parents, name, first) == Ancestor(parents, name, second) {
      AncestorsRepeat(parents, name, first, second, meeting - second);
    }
  }

  function NamesBelow(parents: map<string, string>, name: string, steps: nat): set<string> {
    set k | 0 <= k < steps && Ancestor(parents, name, k).Some? :: Ancestor(parents, name, k).value
  }

  /** The names below the first meeting are all different, and all have a parent. */
  lemma {:induction false} NamesBelowCount(parents: map<string, string>, name: string, steps: nat, meeting: nat)
    requires steps <= meeting && Ancestor(parents, name, meeting).Some?
    requires forall k :: 0 < k < meeting ==> Ancestor(parents, name, k) != Ancestor(parents, name, meeting)
    ensures |NamesBelow(parents, name, steps)| == steps && NamesBelow(parents, name, steps) <= parents.Keys
    decreases steps
  {
    if steps > 0 {
      var last := steps - 1;
      NamesBelowCount(parents, name, last, meeting);
      if Ancestor(parents, name, last + 1) == None {
        AncestorsEnd(parents, name, last + 1);
        assert false;
      }
      var cur := Ancestor(parents, name, last).value;
      if cur in NamesBelow(parents, name, last) {
        var k :| 0 <= k < last && Ancestor(parents, name, k) == Some(cur);
        FirstMeetingHasNoRepeat(parents, name, k, last, meeting);
        assert false;
      }
      assert NamesBelow(parents, name, steps) == NamesBelow(parents, name, last) + {cur};
    }
  }

  lemma {:induction false} SubsetIsSmaller(part: set<string>, whole: set<string>)
    requires part <= whole
    ensures |part| <= |whole|
    decreases part
  {
    if part != {} {
      var x :| x in part;
      SubsetIsSmaller(part - {x}, whole - {x});
    }
  }

  /** An ancestor that is not met within as many links as there are sessions is never met, cycles or not. */
  lemma ShortestChainIsShort(parents: map<string, string>, caller: string, target: string)
    requires caller != target
    requires forall steps :: 0 < steps <= |parents| ==> Ancestor(parents, target, steps) != Some(caller)
    ensures forall steps: nat :: steps > 0 ==> Ancestor(parents, target, steps) != Some(caller)
  {
    forall steps: nat | steps > 0
      ensures Ancestor(parents, target, steps) != Some(caller)
    {
      NoLaterMeeting(parents, caller, target, steps);
    }
  }

  lemma {:induction false} NoLaterMeeting(parents: map<string, string>, caller: string, target: string, meeting: nat)
    requires caller != target && meeting > 0
    requires forall steps :: 0 < steps <= |parents| ==> Ancestor(parents, target, steps) != Some(caller)
    ensures Ancestor(parents, target, meeting) != Some(caller)
    decreases meeting
  {
    assert |parents.Keys| == |parents|;
    if meeting > |parents| && Ancestor(parents, target, meeting) == Some(caller) {
      forall steps | 0 < steps < meeting
        ensures Ancestor(parents, target, steps) != Some(caller)
      {
        NoLaterMeeting(parents, caller, target, steps);
      }
      NamesBelowCount(parents, target, meeting, meeting);
      SubsetIsSmaller(NamesBelow(parents, target, meeting), parents.Keys);
      assert false;
    }
  }
}

/** The subscription index as a value: adding, matching and cloning, and the proof that it
    answers like a flat list of filters. */
module Tries {
  import opened Common
  import opened Topics

  /** The identity of a `Session` object. */
  type Session = nat

  datatype Kind = RootKind | TopicKind | SingleKind | MultiKind

  datatype Trie = Node(kind: Kind, sessions: set<Session>, children: map<Str, Trie>)

  const EMPTY: Trie := Node(RootKind, {}, map[])

  function KindOf(level: Str): Kind {
    if level == ANY_REST then MultiKind
    else if level == ANY_LEVEL then SingleKind
    else TopicKind
  }

  function NewChild(level: Str): Trie {
    Node(KindOf(level), {}, map[])
  }

  function ChildOrNew(t: Trie, level: Str): Trie {
    if level in t.children then t.children[level] else NewChild(level)
  }

  /** Children sit under the level their kind says, "#" nodes are leaves, and a root is never
      a child. */
  ghost predicate WellFormed(t: Trie) {
    && (t.kind == MultiKind ==> t.children == map[])
    && forall k | k in t.children :: t.children[k].kind == KindOf(k) && WellFormed(t.children[k])
  }

  /** `addFilter`: false when the path runs below a "#" node; what was built stays. */
  function Add(t: Trie, levels: seq<Str>, s: Session): (r: (Trie, bool))
    decreases levels
  {
    if levels == [] then (t.(sessions := t.sessions + {s}), true)
    else if t.kind == MultiKind then (t, false)
    else
      var (child, ok) := Add(ChildOrNew(t, levels[0]), levels[1..], s);
      (t.(children := t.children[levels[0] := child]), ok)
  }

  /** What a match collects, and whether it reached any node at all. */
  datatype Answer = Answer(sessions: set<Session>, found: bool) {
    function Or(other: Answer): Answer {
      Answer(sessions + other.sessions, found || other.found)
    }
  }

  const NOTHING: Answer := Answer({}, false)

  /** `match` with iterators that are independent values: every child sees the same rest. */
  function Match(t: Trie, levels: seq<Str>): Answer
    decreases t, 1
  {
    if levels == [] || t.kind == MultiKind then Answer(t.sessions, true)
    else
      MatchChild(t, levels[0], levels[1..])
        .Or(MatchChild(t, ANY_REST, levels[1..]))
        .Or(MatchChild(t, ANY_LEVEL, levels[1..]))
  }

  function MatchChild(t: Trie, key: Str, rest: seq<Str>): Answer
    decreases t, 0
  {
    if key in t.children then Match(t.children[key], rest) else NOTHING
  }

  // ---------------------------------------------------------------- the flat list

  /** The reference predicate: "+" stands for one level and a final "#" for one or more. */
  predicate FilterMatches(filter: seq<Str>, topic: seq<Str>) {
    if filter == [] then topic == []
    else if filter == [ANY_REST] then topic != []
    else
      && topic != []
      && (filter[0] == ANY_LEVEL || filter[0] == topic[0])
      && FilterMatches(filter[1..], topic[1..])
  }

  datatype Subscription = Subscription(levels: seq<Str>, session: Session)

  function AddAll(t: Trie, subs: seq<Subscription>): Trie {
    if subs == [] then t
    else Add(AddAll(t, subs[..|subs| - 1]), subs[|subs| - 1].levels, subs[|subs| - 1].session).0
  }

  ghost predicate Reaches(t: Trie, path: seq<Str>)
    decreases path
  {
    path == [] || (path[0] in t.children && Reaches(t.children[path[0]], path[1..]))
  }

  /** Session `s` is stored at the node with this path. */
  ghost predicate Holds(t: Trie, path: seq<Str>, s: Session)
    decreases path
  {
    if path == [] then s in t.sessions
    else path[0] in t.children && Holds(t.children[path[0]], path[1..], s)
  }

  lemma {:induction false} AddKeepsShape(t: Trie, levels: seq<Str>, s: Session)
    requires WellFormed(t)
    ensures WellFormed(Add(t, levels, s).0)
    ensures Add(t, levels, s).0.kind == t.kind
    ensures levels != [] ==> Add(t, levels, s).0.sessions == t.sessions
    decreases levels
  {
    if levels != [] && t.kind != MultiKind {
      AddKeepsShape(ChildOrNew(t, levels[0]), levels[1..], s);
    }
  }

  /** A filter is added exactly when "#" is nowhere but last. */
  lemma {:induction false} AddSucceeds(t: Trie, levels: seq<Str>, s: Session)
    requires WellFormed(t)
    ensures Add(t, levels, s).1 <==>
      if t.kind == MultiKind then levels == [] else Addable(levels)
    decreases levels
  {
    if levels != [] && t.kind != MultiKind {
      AddSucceeds(ChildOrNew(t, levels[0]), levels[1..], s);
      AddableCons(levels);
    }
  }

  lemma AddableCons(levels: seq<Str>)
    requires levels != []
    ensures Addable(levels) <==> Addable(levels[1..]) && (levels[0] == ANY_REST ==> |levels| == 1)
  {
  }

  /** One addition stores the session at exactly its own path, and nothing when it fails. */
  lemma {:induction false} AddHolds(t: Trie, levels: seq<Str>, s: Session, path: seq<Str>, x: Session)
    requires WellFormed(t)
    ensures Holds(Add(t, levels, s).0, path, x) <==>
      Holds(t, path, x) || (Add(t, levels, s).1 && path == levels && x == s)
    decreases levels
  {
    if levels != [] && t.kind != MultiKind {
      if path != [] && path[0] == levels[0] {
        AddHolds(ChildOrNew(t, levels[0]), levels[1..], s, path[1..], x);
        assert path == levels <==> path[1..] == levels[1..] by {
          assert path == [path[0]] + path[1..] && levels == [levels[0]] + levels[1..];
        }
      }
    }
  }

  /** The nodes an addition creates: those along its path, down to the first "#". */
  lemma {:induction false} AddReaches(t: Trie, levels: seq<Str>, s: Session, path: seq<Str>)
    requires WellFormed(t) && t.kind != MultiKind
    ensures Reaches(Add(t, levels, s).0, path) <==>
      Reaches(t, path) || (path <= levels && Addable(path))
    decreases levels
  {
    if path != [] {
      AddableCons(path);
      if levels != [] && path[0] == levels[0] {
        assert path <= levels <==> path[1..] <= levels[1..] by {
          assert path == [path[0]] + path[1..] && levels == [levels[0]] + levels[1..];
        }
        var child := ChildOrNew(t, levels[0]);
        if child.kind != MultiKind {
          AddReaches(child, levels[1..], s, path[1..]);
        }
      }
    }
  }

  /** The key by which a matching path leaves a node is one of the three the match follows. */
  lemma FirstStep(t: Trie, path: seq<Str>, levels: seq<Str>)
    requires WellFormed(t) && levels != [] && Reaches(t, path) && FilterMatches(path, levels)
    ensures path[0] in {levels[0], ANY_REST, ANY_LEVEL} && path[0] in t.children
    ensures Match(t.children[path[0]], levels[1..]) == MatchChild(t, path[0], levels[1..])
    ensures t.children[path[0]].kind == MultiKind ==> path == [ANY_REST]
    ensures t.children[path[0]].kind != MultiKind ==> FilterMatches(path[1..], levels[1..])
  {
  }

  lemma {:induction false} HoldsReaches(t: Trie, path: seq<Str>, x: Session)
    requires Holds(t, path, x)
    ensures Reaches(t, path)
    decreases path
  {
    if path != [] {
      HoldsReaches(t.children[path[0]], path[1..], x);
    }
  }

  lemma CollectedFrom(t: Trie, levels: seq<Str>, x: Session) returns (key: Str)
    requires levels != [] && t.kind != MultiKind
    requires x in Match(t, levels).sessions
    ensures key in t.children && key in {levels[0], ANY_REST, ANY_LEVEL}
    ensures x in Match(t.children[key], levels[1..]).sessions
  {
    if x in MatchChild(t, levels[0], levels[1..]).sessions {
      key := levels[0];
    } else if x in MatchChild(t, ANY_REST, levels[1..]).sessions {
      key := ANY_REST;
    } else {
      key := ANY_LEVEL;
    }
  }

  lemma FoundFrom(t: Trie, levels: seq<Str>) returns (key: Str)
    requires levels != [] && t.kind != MultiKind
    requires Match(t, levels).found
    ensures key in t.children && key in {levels[0], ANY_REST, ANY_LEVEL}
    ensures Match(t.children[key], levels[1..]).found
  {
    if MatchChild(t, levels[0], levels[1..]).found {
      key := levels[0];
    } else if MatchChild(t, ANY_REST, levels[1..]).found {
      key := ANY_REST;
    } else {
      key := ANY_LEVEL;
    }
  }

  /** The path under which a collected session is stored. */
  lemma {:induction false} CollectedPath(t: Trie, levels: seq<Str>, x: Session) returns (path: seq<Str>)
    requires WellFormed(t) && t.kind != MultiKind
    requires x in Match(t, levels).sessions
    ensures Holds(t, path, x) && FilterMatches(path, levels)
    decreases t
  {
    if levels == [] {
      path := [];
    } else {
      var key := CollectedFrom(t, levels, x);
      var child := t.children[key];
      var tail: seq<Str> := [];
      if child.kind != MultiKind {
        tail := CollectedPath(child, levels[1..], x);
      }
      path := [key] + tail;
      assert path[1..] == tail;
    }
  }

  /** Every session stored under a matching path is collected. */
  lemma {:induction false} PathCollected(t: Trie, path: seq<Str>, levels: seq<Str>, x: Session)
    requires WellFormed(t) && t.kind != MultiKind
    requires Holds(t, path, x) && FilterMatches(path, levels)
    ensures x in Match(t, levels).sessions
    decreases path
  {
    if levels != [] {
      HoldsReaches(t, path, x);
      FirstStep(t, path, levels);
      var child := t.children[path[0]];
      assert Holds(child, path[1..], x);
      if child.kind != MultiKind {
        PathCollected(child, path[1..], levels[1..], x);
      }
      assert x in MatchChild(t, path[0], levels[1..]).sessions;
    }
  }

  /** A match collects a session exactly when it is stored under a filter that matches. */
  lemma MatchCollects(t: Trie, levels: seq<Str>, x: Session)
    requires WellFormed(t) && t.kind != MultiKind
    ensures x in Match(t, levels).sessions <==>
      exists path :: Holds(t, path, x) && FilterMatches(path, levels)
  {
    if x in Match(t, levels).sessions {
      var path := CollectedPath(t, levels, x);
      assert exists path :: Holds(t, path, x) && FilterMatches(path, levels);
    }
    if path :| Holds(t, path, x) && FilterMatches(path, levels) {
      PathCollected(t, path, levels, x);
    }
  }

  lemma {:induction false} FoundPath(t: Trie, levels: seq<Str>) returns (path: seq<Str>)
    requires WellFormed(t) && t.kind != MultiKind
    requires Match(t, levels).found
    ensures Reaches(t, path) && FilterMatches(path, levels)
    decreases t
  {
    if levels == [] {
      path := [];
    } else {
      var key := FoundFrom(t, levels);
      var child := t.children[key];
      var tail: seq<Str> := [];
      if child.kind != MultiKind {
        tail := FoundPath(child, levels[1..]);
      }
      path := [key] + tail;
      assert path[1..] == tail;
    }
  }

  lemma {:induction false} PathFound(t: Trie, path: seq<Str>, levels: seq<Str>)
    requires WellFormed(t) && t.kind != MultiKind
    requires Reaches(t, path) && FilterMatches(path, levels)
    ensures Match(t, levels).found
    decreases path
  {
    if levels != [] {
      FirstStep(t, path, levels);
      var child := t.children[path[0]];
      if child.kind != MultiKind {
        assert Reaches(child, path[1..]);
        PathFound(child, path[1..], levels[1..]);
      }
      assert MatchChild(t, path[0], levels[1..]).found;
    }
  }

  /** A match reports success exactly when some node's path matches, subscribed or not. */
  lemma MatchFinds(t: Trie, levels: seq<Str>)
    requires WellFormed(t) && t.kind != MultiKind
    ensures Match(t, levels).found <==>
      exists path :: Reaches(t, path) && FilterMatches(path, levels)
  {
    if Match(t, levels).found {
      var path := FoundPath(t, levels);
      assert exists path :: Reaches(t, path) && FilterMatches(path, levels);
    }
    if path :| Reaches(t, path) && FilterMatches(path, levels) {
      PathFound(t, path, levels);
    }
  }

  ghost predicate NoEmptyPath(subs: seq<Subscription>) {
    forall sub | sub in subs :: sub.levels != []
  }

  lemma LastSplit(subs: seq<Subscription>)
    requires subs != []
    ensures subs == subs[..|subs| - 1] + [subs[|subs| - 1]]
    ensures NoEmptyPath(subs) ==> NoEmptyPath(subs[..|subs| - 1]) && subs[|subs| - 1].levels != []
  {
  }

  lemma {:induction false} AddAllShape(subs: seq<Subscription>)
    requires NoEmptyPath(subs)
    ensures WellFormed(AddAll(EMPTY, subs))
    ensures AddAll(EMPTY, subs).kind == RootKind && AddAll(EMPTY, subs).sessions == {}
  {
    if subs != [] {
      LastSplit(subs);
      var before := subs[..|subs| - 1];
      AddAllShape(before);
      AddKeepsShape(AddAll(EMPTY, before), subs[|subs| - 1].levels, subs[|subs| - 1].session);
    }
  }

  /** The index stores exactly the subscriptions that could be added. */
  lemma {:induction false} AddAllHolds(subs: seq<Subscription>, path: seq<Str>, x: Session)
    requires NoEmptyPath(subs)
    ensures Holds(AddAll(EMPTY, subs), path, x) <==> Subscription(path, x) in subs && Addable(path)
  {
    if subs != [] {
      LastSplit(subs);
      var before, last := subs[..|subs| - 1], subs[|subs| - 1];
      AddAllHolds(before, path, x);
      AddAllShape(before);
      AddHolds(AddAll(EMPTY, before), last.levels, last.session, path, x);
      AddSucceeds(AddAll(EMPTY, before), last.levels, last.session);
    } else {
      assert Holds(EMPTY, path, x) == false;
    }
  }

  /** The index refines the flat list: after any additions, a match on any topic collects
      exactly the sessions that have an added filter matching it by the reference predicate. */
  lemma TrieRefinesFlatList(subs: seq<Subscription>, topic: seq<Str>, x: Session)
    requires NoEmptyPath(subs)
    ensures x in Match(AddAll(EMPTY, subs), topic).sessions <==>
      exists sub :: sub in subs && sub.session == x && Addable(sub.levels) && FilterMatches(sub.levels, topic)
  {
    var t := AddAll(EMPTY, subs);
    AddAllShape(subs);
    MatchCollects(t, topic, x);
    if path :| Holds(t, path, x) && FilterMatches(path, topic) {
      AddAllHolds(subs, path, x);
      assert Subscription(path, x) in subs;
    }
    if sub :| sub in subs && sub.session == x && Addable(sub.levels) && FilterMatches(sub.levels, topic) {
      AddAllHolds(subs, sub.levels, x);
      assert sub == Subscription(sub.levels, x);
    }
  }

  lemma {:induction false} ReachesAddAll(subs: seq<Subscription>, path: seq<Str>)
    requires NoEmptyPath(subs)
    ensures Reaches(AddAll(EMPTY, subs), path) <==>
      path == [] || (Addable(path) && exists sub :: sub in subs && path <= sub.levels)
  {
    if subs != [] {
      LastSplit(subs);
      var before, last := subs[..|subs| - 1], subs[|subs| - 1];
      ReachesAddAll(before, path);
      AddAllShape(before);
      AddReaches(AddAll(EMPTY, before), last.levels, last.session, path);
      assert last in subs;
    }
  }

  /** The boolean result: true exactly when the topic matches an initial part of an added
      path - the filter itself or one of its inner nodes, subscribed or not. */
  lemma MatchResult(subs: seq<Subscription>, topic: seq<Str>)
    requires NoEmptyPath(subs)
    requires topic != []
    ensures Match(AddAll(EMPTY, subs), topic).found <==>
      exists sub, path :: sub in subs && path <= sub.levels && Addable(path) && FilterMatches(path, topic)
  {
    var t := AddAll(EMPTY, subs);
    AddAllShape(subs);
    MatchFinds(t, topic);
    if path :| Reaches(t, path) && FilterMatches(path, topic) {
      ReachesAddAll(subs, path);
    }
    if sub, path :| sub in subs && path <= sub.levels && Addable(path) && FilterMatches(path, topic) {
      ReachesAddAll(subs, path);
    }
  }

  // ---------------------------------------------------------------- clone

  /** `clone` copies every node; only the root's own sessions are not copied. */
  function Clone(t: Trie): Trie {
    Node(t.kind, if t.kind == RootKind then {} else t.sessions, map k | k in t.children :: Clone(t.children[k]))
  }

  ghost predicate RootsEmpty(t: Trie) {
    (t.kind == RootKind ==> t.sessions == {}) && forall k | k in t.children :: RootsEmpty(t.children[k])
  }

  /** A clone is the same tree exactly when no root holds sessions. */
  lemma {:induction false} CloneExact(t: Trie)
    ensures Clone(t) == t <==> RootsEmpty(t)
  {
    forall k | k in t.children ensures Clone(t.children[k]) == t.children[k] <==> RootsEmpty(t.children[k]) {
      CloneExact(t.children[k]);
    }
    if Clone(t) == t {
      forall k | k in t.children ensures Clone(t.children[k]) == t.children[k] {
        assert Clone(t).children[k] == t.children[k];
      }
    }
    if RootsEmpty(t) {
      assert Clone(t).children == t.children;
    }
  }

  lemma {:induction false} WellFormedRootsEmpty(t: Trie)
    requires WellFormed(t) && (t.kind == RootKind ==> t.sessions == {})
    ensures RootsEmpty(t)
  {
    forall k | k in t.children ensures RootsEmpty(t.children[k]) {
      WellFormedRootsEmpty(t.children[k]);
    }
  }

  /** Every tree that can be built is cloned faithfully: text always has a first level, so
      nothing is ever stored at the root. */
  lemma CloneFidelity(subs: seq<Subscription>)
    requires NoEmptyPath(subs)
    ensures Clone(AddAll(EMPTY, subs)) == AddAll(EMPTY, subs)
  {
    AddAllShape(subs);
    WellFormedRootsEmpty(AddAll(EMPTY, subs));
    CloneExact(AddAll(EMPTY, subs));
  }

  lemma {:induction false} AddAllConcat(t: Trie, a: seq<Subscription>, b: seq<Subscription>)
    ensures AddAll(t, a + b) == AddAll(AddAll(t, a), b)
    decreases b
  {
    if b == [] {
      assert a + b == a;
    } else {
      var n := |b| - 1;
      assert (a + b)[..|a + b| - 1] == a + b[..n];
      AddAllConcat(t, a, b[..n]);
    }
  }
}

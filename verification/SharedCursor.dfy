/** Matching as it is written: every copy of a topic iterator shares one cursor, so what a
    child's match consumes is also consumed for the children tried after it. */
module SharedCursors {
  import opened Common
  import opened Topics
  import opened Tries

  /** `index` is where the shared cursor stands afterwards. */
  datatype Walk = Walk(answer: Answer, index: nat)

  /** `match` for an iterator on a cursor over `levels` that stands at `index`; `alive` is
      false when this iterator (not the cursor) has become the end iterator. */
  function SharedMatch(t: Trie, levels: seq<Str>, index: nat, alive: bool): (w: Walk)
    requires index < |levels|
    ensures index <= w.index < |levels|
    decreases t, 1
  {
    if !alive || t.kind == MultiKind then Walk(Answer(t.sessions, true), index)
    else
      var alive' := index + 1 < |levels|;
      var index' := if alive' then index + 1 else index;
      var literal := SharedChild(t, levels[index], levels, index', alive');
      var rest := SharedChild(t, ANY_REST, levels, literal.index, alive');
      var any := SharedChild(t, ANY_LEVEL, levels, rest.index, alive');
      Walk(literal.answer.Or(rest.answer).Or(any.answer), any.index)
  }

  function SharedChild(t: Trie, key: Str, levels: seq<Str>, index: nat, alive: bool): (w: Walk)
    requires index < |levels|
    ensures index <= w.index < |levels|
    decreases t, 0
  {
    if key in t.children then SharedMatch(t.children[key], levels, index, alive)
    else Walk(NOTHING, index)
  }

  /** Matching a whole topic: a fresh cursor at its first level. */
  function TopicMatch(t: Trie, topic: seq<Str>): Answer
    requires topic != []
  {
    SharedMatch(t, topic, 0, true).answer
  }

  predicate Literal(key: Str) {
    key != ANY_REST && key != ANY_LEVEL
  }

  /** No literal child beside a "+" child that goes on with anything but "#". */
  ghost predicate SafeHere(t: Trie) {
    (ANY_LEVEL in t.children && exists k :: k in t.children && Literal(k)) ==>
      t.children[ANY_LEVEL].children.Keys <= {ANY_REST}
  }

  ghost predicate Safe(t: Trie) {
    SafeHere(t) && forall k | k in t.children :: Safe(t.children[k])
  }

  ghost predicate LiteralTopic(levels: seq<Str>) {
    forall j: nat | j < |levels| :: Literal(levels[j])
  }

  /** A "+" node that continues only with "#" answers the same wherever the cursor stands. */
  lemma ShallowIgnoresCursor(t: Trie, levels: seq<Str>, index: nat, rest: seq<Str>)
    requires t.kind == SingleKind && t.children.Keys <= {ANY_REST}
    requires ANY_REST in t.children ==> t.children[ANY_REST].kind == MultiKind
    requires index < |levels| && LiteralTopic(levels)
    requires rest != [] && LiteralTopic(rest)
    ensures SharedMatch(t, levels, index, true).answer == Match(t, rest)
  {
    assert Literal(levels[index]) && Literal(rest[0]);
    assert levels[index] !in t.children && rest[0] !in t.children && ANY_LEVEL !in t.children;
    var alive := index + 1 < |levels|;
    var index' := if alive then index + 1 else index;
    var found := MatchChild(t, ANY_REST, rest[1..]);
    if ANY_REST in t.children {
      var child := t.children[ANY_REST];
      assert SharedMatch(child, levels, index', alive).answer == Answer(child.sessions, true);
      assert Match(child, rest[1..]) == Answer(child.sessions, true);
    }
    assert SharedChild(t, ANY_REST, levels, index', alive).answer == found;
    assert NOTHING.Or(found).Or(NOTHING) == found;
  }

  /** On a safe tree the shared cursor gives the answer of independent iterators. */
  lemma {:induction false} SafeAgrees(t: Trie, levels: seq<Str>, index: nat)
    requires WellFormed(t) && Safe(t)
    requires index < |levels| && LiteralTopic(levels)
    ensures SharedMatch(t, levels, index, true).answer == Match(t, levels[index..])
    decreases t
  {
    if t.kind != MultiKind {
      var key, rest := levels[index], levels[index..][1..];
      assert Literal(levels[index]);
      var alive := index + 1 < |levels|;
      var next := if alive then index + 1 else index;
      if alive {
        assert rest == levels[next..];
        assert LiteralTopic(rest) by {
          forall j: nat | j < |rest| ensures Literal(rest[j]) {
            assert Literal(levels[next + j]);
          }
        }
        forall k | k in t.children && k in {key, ANY_LEVEL}
          ensures SharedMatch(t.children[k], levels, next, true).answer == Match(t.children[k], rest)
        {
          SafeAgrees(t.children[k], levels, next);
        }
        if key in t.children && ANY_LEVEL in t.children {
          ShallowIgnoresCursor(t.children[ANY_LEVEL], levels,
            SharedChild(t, key, levels, next, true).index, rest);
        }
      } else {
        assert rest == [];
      }
      assert SharedChild(t, key, levels, next, alive).answer == MatchChild(t, key, rest);
      var moved := SharedChild(t, key, levels, next, alive).index;
      assert SharedChild(t, ANY_REST, levels, moved, alive).answer == MatchChild(t, ANY_REST, rest);
      assert SharedChild(t, ANY_REST, levels, moved, alive).index == moved;
      assert SharedChild(t, ANY_LEVEL, levels, moved, alive).answer == MatchChild(t, ANY_LEVEL, rest);
    }
  }

  // ---------------------------------------------------------------- where a session comes from

  /** Trying a node uses up a level when there is another one. */
  lemma MovesOn(t: Trie, levels: seq<Str>, index: nat)
    requires t.kind != MultiKind && index + 1 < |levels|
    ensures SharedMatch(t, levels, index, true).index > index
  {
  }

  /** The child that contributed a session, and where the cursor stood when it was entered:
      one level further, and two when a literal child had been tried before a "+" child. */
  lemma CollectedBy(t: Trie, levels: seq<Str>, index: nat, x: Session) returns (key: Str, at: nat)
    requires t.kind != MultiKind && index < |levels| && x in SharedMatch(t, levels, index, true).answer.sessions
    ensures key in t.children && at < |levels| && (index + 1 < |levels| ==> at > index)
    ensures x in SharedMatch(t.children[key], levels, at, index + 1 < |levels|).answer.sessions
    ensures key == ANY_LEVEL && WellFormed(t) && index + 2 < |levels| ==>
      (Literal(levels[index]) && levels[index] in t.children ==> at >= index + 2)
  {
    var alive := index + 1 < |levels|;
    var next := if alive then index + 1 else index;
    var literal := SharedChild(t, levels[index], levels, next, alive);
    var rest := SharedChild(t, ANY_REST, levels, literal.index, alive);
    if x in literal.answer.sessions {
      key, at := levels[index], next;
    } else if x in rest.answer.sessions {
      key, at := ANY_REST, literal.index;
    } else {
      key, at := ANY_LEVEL, rest.index;
    }
    if WellFormed(t) && Literal(levels[index]) && levels[index] in t.children && index + 2 < |levels| {
      MovesOn(t.children[levels[index]], levels, next);
    }
  }

  /** Whatever the tree and wherever the cursor: only stored sessions are found, and at most as
      many levels below as the cursor has left. */
  lemma {:induction false} WalkFindsStored(t: Trie, levels: seq<Str>, index: nat, alive: bool, x: Session)
    returns (path: seq<Str>)
    requires index < |levels| && x in SharedMatch(t, levels, index, alive).answer.sessions
    ensures Holds(t, path, x) && |path| <= if alive then |levels| - index else 0
    decreases t
  {
    if !alive || t.kind == MultiKind {
      path := [];
    } else {
      var key, at := CollectedBy(t, levels, index, x);
      path := WalkFindsStored(t.children[key], levels, at, index + 1 < |levels|, x);
      assert ([key] + path)[1..] == path;
      path := [key] + path;
    }
  }

  // ---------------------------------------------------------------- unsafe trees

  ghost function NodeAt(t: Trie, path: seq<Str>): Trie
    requires Reaches(t, path)
    decreases path
  {
    if path == [] then t else NodeAt(t.children[path[0]], path[1..])
  }

  /** With exactly two further levels below a literal child, the "+" sibling only sees the last. */
  lemma CursorRunsAhead(t: Trie, k: Str, y: Str, levels: seq<Str>, index: nat)
    requires WellFormed(t) && t.kind != MultiKind
    requires k in t.children && Literal(k) && ANY_LEVEL in t.children
    requires y in t.children[ANY_LEVEL].children && y != ANY_REST
    requires index + 3 == |levels| && levels[index] == k
    requires levels[index + 2] == (if y == ANY_LEVEL then [] else y)
    ensures t.children[ANY_LEVEL].children[y].sessions <= SharedMatch(t, levels, index, true).answer.sessions
  {
    var last := |levels| - 1;
    var plus := t.children[ANY_LEVEL];
    assert SharedChild(t, k, levels, index + 1, true).index == last by {
      var child := t.children[k];
      assert child.kind == TopicKind;
      assert SharedMatch(child, levels, index + 1, true).index >= index + 2;
    }
    assert SharedChild(t, ANY_REST, levels, last, true).index == last;
    var walk := SharedMatch(plus, levels, last, true);
    assert plus.kind == SingleKind;
    assert SharedChild(plus, y, levels, last, false).answer.sessions == plus.children[y].sessions;
    assert plus.children[y].sessions <= walk.answer.sessions;
  }

  /** What a walk collects that enters `t` where only `topic` is left of a longer cursor. */
  ghost function WalkFrom(t: Trie, prefix: seq<Str>, topic: seq<Str>): set<Session>
    requires topic != []
  {
    SharedMatch(t, prefix + topic, |prefix|, true).answer.sessions
  }

  /** Wherever the walk over `topic` starts, it collects these sessions. */
  ghost predicate Collects(t: Trie, topic: seq<Str>, sessions: set<Session>)
    requires topic != []
  {
    forall prefix: seq<Str> :: sessions <= WalkFrom(t, prefix, topic)
  }

  /** A literal `k` beside a "+" that goes on with `m`, at the node with this path. */
  ghost predicate UnsafeAt(t: Trie, path: seq<Str>, k: Str, m: Str) {
    Literal(k) && m != ANY_REST && Reaches(t, path + [k]) && Reaches(t, path + [ANY_LEVEL, m])
  }

  /** The node with this path is collected for a topic that is one level too long for it. */
  ghost predicate Overcollected(t: Trie, path: seq<Str>, topic: seq<Str>) {
    && LiteralTopic(topic) && |topic| == |path| + 1 && path != [] && path[|path| - 1] != ANY_REST
    && Reaches(t, path) && Collects(t, topic, NodeAt(t, path).sessions)
  }

  lemma WitnessHere(t: Trie) returns (topic: seq<Str>, k: Str, m: Str)
    requires WellFormed(t) && !SafeHere(t)
    ensures UnsafeAt(t, [], k, m) && Overcollected(t, [ANY_LEVEL, m], topic)
  {
    k :| k in t.children && Literal(k);
    var plus := t.children[ANY_LEVEL];
    m :| m in plus.children && m != ANY_REST;
    topic := [k, [], if m == ANY_LEVEL then [] else m];
    var path := [ANY_LEVEL, m];
    var none: seq<Str> := [];
    assert path[1..] == [m] && path[1..][1..] == none && none + [k] == [k] && [k][1..] == none && none + path == path;
    assert Reaches(plus, [m]);
    assert NodeAt(t, path) == NodeAt(plus, [m]) == plus.children[m];
    forall prefix: seq<Str> ensures NodeAt(t, path).sessions <= WalkFrom(t, prefix, topic) {
      CursorRunsAhead(t, k, m, prefix + topic, |prefix|);
    }
  }

  lemma StepInto(t: Trie, k: Str, level: Str, prefix: seq<Str>, topic: seq<Str>)
    requires WellFormed(t) && t.kind != MultiKind && topic != []
    requires k in t.children && Literal(level)
    requires k == level || (k == ANY_LEVEL && level !in t.children)
    ensures WalkFrom(t.children[k], prefix + [level], topic) <= WalkFrom(t, prefix, [level] + topic)
  {
    var levels, next := prefix + [level] + topic, |prefix| + 1;
    assert levels == prefix + ([level] + topic) && levels[|prefix|] == level;
    if k == ANY_LEVEL {
      assert SharedChild(t, level, levels, next, true).index == next;
      assert SharedChild(t, ANY_REST, levels, next, true).index == next;
    }
    assert SharedChild(t, k, levels, next, true) == SharedMatch(t.children[k], levels, next, true);
  }

  lemma WitnessBelow(t: Trie, key: Str, topic': seq<Str>, path': seq<Str>) returns (topic: seq<Str>)
    requires WellFormed(t) && SafeHere(t) && key in t.children && key != ANY_REST
    requires Overcollected(t.children[key], path', topic')
    ensures Overcollected(t, [key] + path', topic)
  {
    var child := t.children[key];
    var level: Str := if key == ANY_LEVEL then [] else key;
    var path := [key] + path';
    topic := [level] + topic';
    assert path[1..] == path';
    assert NodeAt(t, path) == NodeAt(child, path');
    if key == ANY_LEVEL {
      NotRestFirst(child, path');
      assert path'[0] in child.children.Keys;
      assert level !in t.children;
    }
    CollectsBelow(t, key, level, topic', NodeAt(child, path').sessions);
  }

  lemma CollectsBelow(t: Trie, k: Str, level: Str, topic: seq<Str>, sessions: set<Session>)
    requires WellFormed(t) && t.kind != MultiKind && topic != []
    requires k in t.children && Literal(level)
    requires k == level || (k == ANY_LEVEL && level !in t.children)
    requires Collects(t.children[k], topic, sessions)
    ensures Collects(t, [level] + topic, sessions)
  {
    forall prefix: seq<Str>
      ensures sessions <= WalkFrom(t, prefix, [level] + topic)
    {
      StepInto(t, k, level, prefix, topic);
      assert sessions <= WalkFrom(t.children[k], prefix + [level], topic);
    }
  }

  /** A path that does not end in "#" does not start with it either. */
  lemma NotRestFirst(t: Trie, path: seq<Str>)
    requires WellFormed(t) && Reaches(t, path) && path != [] && path[|path| - 1] != ANY_REST
    ensures path[0] != ANY_REST
  {
  }

  /** An unsafe tree has a topic for which the walk enters a node whose filter is shorter than
      the topic, yet does not end in "#". */
  lemma {:induction false} UnsafeWitness(t: Trie) returns (topic: seq<Str>, u: seq<Str>, k: Str, m: Str)
    requires WellFormed(t) && !Safe(t)
    ensures UnsafeAt(t, u, k, m) && Overcollected(t, u + [ANY_LEVEL, m], topic)
    decreases t
  {
    if !SafeHere(t) {
      topic, k, m := WitnessHere(t);
      u := [];
      assert u + [ANY_LEVEL, m] == [ANY_LEVEL, m];
    } else {
      var key :| key in t.children && !Safe(t.children[key]);
      topic, u, k, m := UnsafeWitness(t.children[key]);
      topic := WitnessBelow(t, key, topic, u + [ANY_LEVEL, m]);
      assert ([key] + u + [k])[1..] == u + [k];
      assert [key] + u + [ANY_LEVEL, m] == [key] + (u + [ANY_LEVEL, m]);
      assert ([key] + u + [ANY_LEVEL, m])[1..] == u + [ANY_LEVEL, m];
      u := [key] + u;
    }
  }

  lemma {:induction false} HoldsAt(t: Trie, path: seq<Str>, x: Session)
    requires Reaches(t, path)
    ensures Holds(t, path, x) <==> x in NodeAt(t, path).sessions
    decreases path
  {
    if path != [] {
      HoldsAt(t.children[path[0]], path[1..], x);
    }
  }

  /** A filter without final "#" matches only topics of its own length. */
  lemma {:induction false} MatchLength(filter: seq<Str>, topic: seq<Str>)
    requires FilterMatches(filter, topic)
    requires filter == [] || filter[|filter| - 1] != ANY_REST
    ensures |filter| == |topic|
    decreases filter
  {
    if filter != [] {
      MatchLength(filter[1..], topic[1..]);
    }
  }

  /** Every node leads to a subscriber, and no session subscribes twice. */
  ghost predicate Separated(t: Trie) {
    && (forall path | path != [] && Reaches(t, path) :: exists rest, x :: Holds(t, path + rest, x))
    && (forall p, q, x | Holds(t, p, x) && Holds(t, q, x) :: p == q)
  }

  ghost predicate AgreesOn(t: Trie, topic: seq<Str>)
    requires topic != []
  {
    TopicMatch(t, topic) == Match(t, topic)
  }

  /** A session collected although its only filter does not match. */
  lemma WronglyFound(t: Trie, path: seq<Str>, topic: seq<Str>, x: Session)
    requires WellFormed(t) && t.kind != MultiKind && Separated(t)
    requires Overcollected(t, path, topic) && Holds(t, path, x)
    ensures !AgreesOn(t, topic)
  {
    var none: seq<Str> := [];
    assert none + topic == topic;
    assert NodeAt(t, path).sessions <= WalkFrom(t, none, topic);
    HoldsAt(t, path, x);
    assert x in TopicMatch(t, topic).sessions;
    if x in Match(t, topic).sessions {
      var p := CollectedPath(t, topic, x);
      MatchLength(path, topic);
    }
  }

  /** A topic that a filter matches level by level: wildcards become empty levels. */
  function Instance(path: seq<Str>): (topic: seq<Str>)
    ensures |topic| == |path| && LiteralTopic(topic)
    ensures forall j: nat | j < |path| && Literal(path[j]) :: topic[j] == path[j]
  {
    seq(|path|, j requires 0 <= j < |path| => if Literal(path[j]) then path[j] else [])
  }

  lemma {:induction false} LevelwiseMatches(path: seq<Str>, topic: seq<Str>)
    requires |path| == |topic| && Addable(path)
    requires forall j: nat | j < |path| && Literal(path[j]) :: topic[j] == path[j]
    ensures FilterMatches(path, topic)
    decreases path
  {
    if path != [] {
      AddableCons(path);
      assert forall j: nat | j < |path[1..]| :: path[1..][j] == path[j + 1] && topic[1..][j] == topic[j + 1];
      LevelwiseMatches(path[1..], topic[1..]);
      assert path[0] == ANY_REST ==> path == [ANY_REST];
    }
  }

  lemma {:induction false} ReachedIsAddable(t: Trie, path: seq<Str>)
    requires WellFormed(t) && Reaches(t, path)
    ensures Addable(path)
    decreases path
  {
    if path != [] {
      ReachedIsAddable(t.children[path[0]], path[1..]);
      AddableCons(path);
    }
  }

  /** A session stored further down behind the "+" is missed where the literal child beside it
      takes a level away: the cursor has too few levels left. */
  lemma {:induction false} LevelTaken(
      t: Trie, levels: seq<Str>, index: nat, u: seq<Str>, k: Str, behind: seq<Str>, x: Session)
    requires WellFormed(t) && index < |levels| && |behind| >= 2
    requires Literal(k) && Reaches(t, u + [k])
    requires forall p | Holds(t, p, x) :: p == u + [ANY_LEVEL] + behind
    requires index + |u| + 1 + |behind| >= |levels|
    requires index + |u| + 1 + |behind| == |levels| ==> levels[index + |u|] == k
    ensures x !in SharedMatch(t, levels, index, true).answer.sessions
    decreases u
  {
    if x in SharedMatch(t, levels, index, true).answer.sessions {
      var path := WalkFindsStored(t, levels, index, true, x);
      assert |path| == |u| + 1 + |behind|;
      assert t.kind != MultiKind by {
        assert Holds(t, path, x);
      }
      var key, at := CollectedBy(t, levels, index, x);
      var below := WalkFindsStored(t.children[key], levels, at, true, x);
      assert ([key] + below)[1..] == below && Holds(t, [key] + below, x);
      assert [key] + below == path;
      if u != [] {
        LevelTakenBelow(t, key, u, k, behind, x);
        LevelTaken(t.children[key], levels, at, u[1..], k, behind, x);
      }
    }
  }

  lemma LevelTakenBelow(t: Trie, key: Str, u: seq<Str>, k: Str, behind: seq<Str>, x: Session)
    requires u != [] && key == u[0] && key in t.children && Reaches(t, u + [k])
    requires forall p | Holds(t, p, x) :: p == u + [ANY_LEVEL] + behind
    ensures Reaches(t.children[key], u[1..] + [k])
    ensures forall p | Holds(t.children[key], p, x) :: p == u[1..] + [ANY_LEVEL] + behind
  {
    assert (u + [k])[1..] == u[1..] + [k];
    forall p | Holds(t.children[key], p, x) ensures p == u[1..] + [ANY_LEVEL] + behind {
      assert ([key] + p)[1..] == p;
      assert Holds(t, [key] + p, x);
      assert (u + [ANY_LEVEL] + behind)[1..] == u[1..] + [ANY_LEVEL] + behind;
    }
  }

  /** A session missed although its filter matches. */
  lemma WronglyMissed(t: Trie, u: seq<Str>, k: Str, m: Str, rest: seq<Str>, x: Session) returns (topic: seq<Str>)
    requires WellFormed(t) && t.kind != MultiKind && Separated(t) && UnsafeAt(t, u, k, m)
    requires rest != [] && Holds(t, u + [ANY_LEVEL, m] + rest, x)
    ensures topic != [] && LiteralTopic(topic) && !AgreesOn(t, topic)
  {
    var path, behind := u + [ANY_LEVEL, m] + rest, [m] + rest;
    assert path == u + [ANY_LEVEL] + behind;
    topic := Instance(path)[|u| := k];
    HoldsReaches(t, path, x);
    ReachedIsAddable(t, path);
    LevelwiseMatches(path, topic);
    PathCollected(t, path, topic, x);
    LevelTaken(t, topic, 0, u, k, behind, x);
  }

  /** On an unsafe tree whose filters can be told apart, some topic is answered wrongly. */
  lemma UnsafeDisagrees(t: Trie) returns (topic: seq<Str>)
    requires WellFormed(t) && !Safe(t) && Separated(t)
    ensures topic != [] && LiteralTopic(topic) && !AgreesOn(t, topic)
  {
    var u, k, m;
    topic, u, k, m := UnsafeWitness(t);
    var path := u + [ANY_LEVEL, m];
    var rest, x :| Holds(t, path + rest, x);
    if rest == [] {
      assert path + rest == path;
      WronglyFound(t, path, topic, x);
    } else {
      topic := WronglyMissed(t, u, k, m, rest, x);
    }
  }

  /** The shared cursor is right for every wildcard-free topic exactly when the tree is safe
      (for trees in which every node leads to a session that subscribes once, so that mistakes
      show). */
  lemma SharedCursorExact(t: Trie)
    requires WellFormed(t) && Separated(t)
    ensures (forall topic | topic != [] && LiteralTopic(topic) :: AgreesOn(t, topic)) <==> Safe(t)
  {
    if Safe(t) {
      forall topic: seq<Str> | topic != [] && LiteralTopic(topic) ensures AgreesOn(t, topic) {
        SafeAgrees(t, topic, 0);
        assert topic[0..] == topic;
      }
    } else {
      var topic := UnsafeDisagrees(t);
    }
  }

  // ---------------------------------------------------------------- safety of a filter list

  /** Level `n` of `f` is a literal where `g` has a "+" that goes on with anything but "#". */
  ghost predicate Clash(f: seq<Str>, g: seq<Str>, n: nat) {
    && n < |f| && n + 1 < |g| && f[..n] == g[..n]
    && Literal(f[n]) && g[n] == ANY_LEVEL && g[n + 1] != ANY_REST
    && Addable(f[..n + 1]) && Addable(g[..n + 2])
  }

  lemma {:induction false} PathUnsafe(t: Trie, path: seq<Str>, k: Str, m: Str)
    requires UnsafeAt(t, path, k, m)
    ensures !Safe(t)
    decreases path
  {
    if path == [] {
      assert path + [k] == [k];
      assert path + [ANY_LEVEL, m] == [ANY_LEVEL, m] && [ANY_LEVEL, m][1..] == [m];
      assert Reaches(t.children[ANY_LEVEL], [m]);
      assert k in t.children && Literal(k);
    } else {
      assert (path + [k])[1..] == path[1..] + [k];
      assert (path + [ANY_LEVEL, m])[1..] == path[1..] + [ANY_LEVEL, m];
      PathUnsafe(t.children[path[0]], path[1..], k, m);
    }
  }

  ghost predicate Clashless(subs: seq<Subscription>) {
    forall f, g, n: nat | f in subs && g in subs :: !Clash(f.levels, g.levels, n)
  }

  lemma ClashPath(subs: seq<Subscription>, f: seq<Str>, g: seq<Str>, n: nat)
    requires NoEmptyPath(subs) && Clash(f, g, n)
    requires (exists sub :: sub in subs && sub.levels == f) && (exists sub :: sub in subs && sub.levels == g)
    ensures !Safe(AddAll(EMPTY, subs))
  {
    var path := f[..n];
    var sub1 :| sub1 in subs && sub1.levels == f;
    var sub2 :| sub2 in subs && sub2.levels == g;
    assert path + [f[n]] == f[..n + 1] <= sub1.levels;
    assert path + [ANY_LEVEL, g[n + 1]] == g[..n + 2] <= sub2.levels;
    ReachesAddAll(subs, path + [f[n]]);
    ReachesAddAll(subs, path + [ANY_LEVEL, g[n + 1]]);
    PathUnsafe(AddAll(EMPTY, subs), path, f[n], g[n + 1]);
  }

  lemma PathClash(subs: seq<Subscription>, path: seq<Str>, k: Str, m: Str)
    requires NoEmptyPath(subs) && UnsafeAt(AddAll(EMPTY, subs), path, k, m)
    ensures exists f, g :: f in subs && g in subs && Clash(f.levels, g.levels, |path|)
  {
    ReachesAddAll(subs, path + [k]);
    ReachesAddAll(subs, path + [ANY_LEVEL, m]);
    var f :| f in subs && path + [k] <= f.levels;
    var g :| g in subs && path + [ANY_LEVEL, m] <= g.levels;
    var n := |path|;
    assert (path + [k])[..n] == path == (path + [ANY_LEVEL, m])[..n];
    assert f.levels[..n + 1] == path + [k] && g.levels[..n + 2] == path + [ANY_LEVEL, m];
    assert f.levels[..n] == path && g.levels[..n] == path;
    assert f.levels[n] == k && g.levels[n] == ANY_LEVEL && g.levels[n + 1] == m;
    assert Clash(f.levels, g.levels, n);
  }

  /** Which filters may be subscribed together without the shared cursor going wrong. */
  lemma SafeFilters(subs: seq<Subscription>)
    requires NoEmptyPath(subs)
    ensures Safe(AddAll(EMPTY, subs)) <==> Clashless(subs)
  {
    if Safe(AddAll(EMPTY, subs)) {
      forall f, g, n: nat | f in subs && g in subs ensures !Clash(f.levels, g.levels, n) {
        if Clash(f.levels, g.levels, n) {
          ClashPath(subs, f.levels, g.levels, n);
        }
      }
    } else {
      AddAllShape(subs);
      var _, path, k, m := UnsafeWitness(AddAll(EMPTY, subs));
      PathClash(subs, path, k, m);
    }
  }

  lemma ClashlessAgrees(subs: seq<Subscription>, topic: seq<Str>)
    requires NoEmptyPath(subs) && Clashless(subs) && topic != [] && LiteralTopic(topic)
    ensures AgreesOn(AddAll(EMPTY, subs), topic)
  {
    SafeFilters(subs);
    AddAllShape(subs);
    SafeAgrees(AddAll(EMPTY, subs), topic, 0);
    assert topic[0..] == topic;
  }

  /** Without clashing filters, the match as it is written finds exactly the sessions that have
      a stored filter matching the topic. */
  lemma SharedCursorRefinesFlatList(subs: seq<Subscription>, topic: seq<Str>, x: Session)
    requires NoEmptyPath(subs) && Clashless(subs) && topic != [] && LiteralTopic(topic)
    ensures x in TopicMatch(AddAll(EMPTY, subs), topic).sessions <==>
      exists sub :: sub in subs && sub.session == x && Addable(sub.levels) && FilterMatches(sub.levels, topic)
  {
    ClashlessAgrees(subs, topic);
    TrieRefinesFlatList(subs, topic, x);
  }

  /** Every filter can be stored, and no session subscribes to two. */
  predicate OwnSessions(subs: seq<Subscription>) {
    && (forall sub | sub in subs :: sub.levels != [] && Addable(sub.levels))
    && (forall f, g | f in subs && g in subs && f.session == g.session :: f == g)
  }

  lemma OwnSessionsSeparate(subs: seq<Subscription>)
    requires OwnSessions(subs)
    ensures NoEmptyPath(subs) && Separated(AddAll(EMPTY, subs))
  {
    var t := AddAll(EMPTY, subs);
    forall path | path != [] && Reaches(t, path) ensures exists rest, x :: Holds(t, path + rest, x) {
      ReachesAddAll(subs, path);
      var sub :| sub in subs && path <= sub.levels;
      AddAllHolds(subs, sub.levels, sub.session);
      assert path + sub.levels[|path|..] == sub.levels && sub == Subscription(sub.levels, sub.session);
    }
    forall p, q, x | Holds(t, p, x) && Holds(t, q, x) ensures p == q {
      AddAllHolds(subs, p, x);
      AddAllHolds(subs, q, x);
    }
  }

  /** The same on the list of filters: the match as written is right for every wildcard-free
      topic exactly when no two filters clash. */
  lemma FilterListExact(subs: seq<Subscription>)
    requires OwnSessions(subs)
    ensures (forall topic | topic != [] && LiteralTopic(topic) :: AgreesOn(AddAll(EMPTY, subs), topic)) <==>
      Clashless(subs)
  {
    OwnSessionsSeparate(subs);
    AddAllShape(subs);
    SafeFilters(subs);
    SharedCursorExact(AddAll(EMPTY, subs));
  }

  /** The filters of a list, whoever subscribed to them. */
  function FiltersOf(subs: seq<Subscription>): (filters: seq<seq<Str>>)
    ensures |filters| == |subs| && forall i | 0 <= i < |subs| :: filters[i] == subs[i].levels
  {
    seq(|subs|, i requires 0 <= i < |subs| => subs[i].levels)
  }

  ghost predicate FiltersClashless(filters: seq<seq<Str>>) {
    forall i, j, n: nat | 0 <= i < |filters| && 0 <= j < |filters| :: !Clash(filters[i], filters[j], n)
  }

  lemma ClashlessFilters(subs: seq<Subscription>)
    ensures Clashless(subs) <==> FiltersClashless(FiltersOf(subs))
  {
    if Clashless(subs) {
      forall i, j, n: nat | 0 <= i < |subs| && 0 <= j < |subs|
        ensures !Clash(FiltersOf(subs)[i], FiltersOf(subs)[j], n)
      {
        assert subs[i] in subs && subs[j] in subs;
      }
    } else {
      var f, g, n: nat :| f in subs && g in subs && Clash(f.levels, g.levels, n);
      var i :| 0 <= i < |subs| && subs[i] == f;
      var j :| 0 <= j < |subs| && subs[j] == g;
      assert Clash(FiltersOf(subs)[i], FiltersOf(subs)[j], n);
    }
  }

  ghost predicate AlwaysAgree(filters: seq<seq<Str>>) {
    forall subs, topic | FiltersOf(subs) == filters && topic != [] && LiteralTopic(topic) ::
      AgreesOn(AddAll(EMPTY, subs), topic)
  }

  /** Which lists of filters are served rightly whoever the subscribers are, and however often
      one session subscribes: those without clashes, and no others. */
  lemma FiltersExactForAllSessions(filters: seq<seq<Str>>)
    requires forall i | 0 <= i < |filters| :: filters[i] != [] && Addable(filters[i])
    ensures AlwaysAgree(filters) <==> FiltersClashless(filters)
  {
    if FiltersClashless(filters) {
      forall subs, topic | FiltersOf(subs) == filters && topic != [] && LiteralTopic(topic)
        ensures AgreesOn(AddAll(EMPTY, subs), topic)
      {
        ClashlessFilters(subs);
        ClashlessAgrees(subs, topic);
      }
    } else {
      var own := seq(|filters|, i requires 0 <= i < |filters| => Subscription(filters[i], i));
      assert FiltersOf(own) == filters && OwnSessions(own);
      ClashlessFilters(own);
      FilterListExact(own);
    }
  }

  // ---------------------------------------------------------------- a tree that goes wrong

  /** The tree of the filters "a" and "+/c/d". */
  function Example(a: Str, c: Str, d: Str): Trie {
    var inner := Node(TopicKind, {}, map[d := Node(TopicKind, {2}, map[])]);
    var plus := Node(SingleKind, {}, map[c := inner]);
    Node(RootKind, {}, map[a := Node(TopicKind, {1}, map[]), ANY_LEVEL := plus])
  }

  lemma ExampleTree(a: Str, c: Str, d: Str)
    requires Literal(a) && Literal(c) && Literal(d)
    ensures AddAll(EMPTY, [Subscription([a], 1), Subscription([ANY_LEVEL, c, d], 2)]) == Example(a, c, d)
  {
    var subs := [Subscription([a], 1), Subscription([ANY_LEVEL, c, d], 2)];
    var one := Add(EMPTY, [a], 1).0;
    assert subs[..1] == [subs[0]] && subs[..1][..0] == [];
    assert AddAll(EMPTY, subs[..1]) == one;
    var leaf := Node(TopicKind, {1}, map[]);
    var path := [a];
    assert path[1..] == [] && Add(NewChild(a), path[1..], 1).0 == leaf;
    assert EMPTY.children[a := leaf] == map[a := leaf];
    assert one == Node(RootKind, {}, map[a := Node(TopicKind, {1}, map[])]);
    assert [c, d][1..] == [d] && [d][1..] == [];
    assert Add(NewChild(d), [], 2).0 == Node(TopicKind, {2}, map[]);
    assert Add(NewChild(c), [d], 2).0 == Node(TopicKind, {}, map[d := Node(TopicKind, {2}, map[])]);
    assert [ANY_LEVEL, c, d][1..] == [c, d];
    var inner := Node(TopicKind, {}, map[d := Node(TopicKind, {2}, map[])]);
    var plus := Node(SingleKind, {}, map[c := inner]);
    assert Add(NewChild(ANY_LEVEL), [c, d], 2).0 == plus by {
      assert NewChild(ANY_LEVEL).children[c := inner] == map[c := inner];
    }
    assert one.children[ANY_LEVEL := plus] == map[a := leaf, ANY_LEVEL := plus];
    assert AddAll(EMPTY, subs) == Add(one, [ANY_LEVEL, c, d], 2).0;
  }

  lemma ExampleWalk(a: Str, c: Str, d: Str, t: Trie)
    requires Literal(a) && Literal(c) && Literal(d) && c != d
    requires t == Example(a, c, d)
    ensures TopicMatch(t, [a, c, d]).sessions == {}
  {
    var topic := [a, c, d];
    var leaf, plus := t.children[a], t.children[ANY_LEVEL];
    assert SharedMatch(leaf, topic, 1, true) == Walk(NOTHING, 2);
    assert SharedChild(t, a, topic, 1, true) == Walk(NOTHING, 2);
    assert SharedChild(t, ANY_REST, topic, 2, true) == Walk(NOTHING, 2);
    assert SharedMatch(plus, topic, 2, true).answer == NOTHING;
    assert SharedChild(t, ANY_LEVEL, topic, 2, true).answer == NOTHING;
  }

  /** The filters "a" and "+/c/d": on the topic a/c/d the walk below "a" uses up "c", so the
      second filter is missed although it matches. */
  lemma SharedCursorMissesFilter()
    ensures var a: Str, c: Str, d: Str := [97], [99], [100];
      var t := AddAll(EMPTY, [Subscription([a], 1), Subscription([ANY_LEVEL, c, d], 2)]);
      && 2 in Match(t, [a, c, d]).sessions
      && 2 !in TopicMatch(t, [a, c, d]).sessions
  {
    var a: Str, c: Str, d: Str := [97], [99], [100];
    var topic := [a, c, d];
    var subs := [Subscription([a], 1), Subscription([ANY_LEVEL, c, d], 2)];
    TrieRefinesFlatList(subs, topic, 2);
    assert FilterMatches([ANY_LEVEL, c, d], topic) by {
      assert [c, d][1..] == [d];
      assert FilterMatches([d], [d]);
      assert FilterMatches([c, d], [c, d]);
      assert [ANY_LEVEL, c, d][1..] == [c, d] == topic[1..];
    }
    assert subs[1] in subs;
    ExampleTree(a, c, d);
    ExampleWalk(a, c, d, AddAll(EMPTY, subs));
  }
}

/** The subscription tree on the heap: nodes updated in place, matched through one shared
    cursor and cloned node by node, and the copy-on-write manager that publishes trees. */
module SubscriptionTrees {
  import opened Common
  import opened Topics
  import opened Tries
  import opened SharedCursors

  /** The session set that a match fills. */
  class SessionSet {
    var elems: set<Session>

    constructor ()
      ensures elems == {}
    {
      elems := {};
    }
  }

  class SubscriptionNode {
    const kind: Kind
    var sessions: set<Session>
    var nodes: map<Str, SubscriptionNode>

    ghost var Repr: set<SubscriptionNode>
    ghost var Model: Trie

    ghost predicate Valid()
      reads this, Repr
      ensures Valid() ==> this in Repr
      decreases Repr, 1
    {
      ValidBut({}) && Model.kind == kind && Model.sessions == sessions
    }

    /** Everything about the children, except for those under these keys. */
    ghost predicate ValidBut(keys: set<Str>)
      reads this, Repr
      decreases Repr, 0
    {
      && this in Repr
      && Model.children.Keys == nodes.Keys
      && (forall k {:trigger ChildOk(k)} | k in nodes && k !in keys :: ChildOk(k))
      && (forall k, l {:trigger Apart(k, l)} | k in nodes && l in nodes && k !in keys && l !in keys :: Apart(k, l))
    }

    ghost predicate ChildOk(k: Str)
      requires this in Repr
      reads this, Repr
      decreases Repr, 0, 0
    {
      && k in nodes && k in Model.children
      && nodes[k] in Repr && nodes[k].Repr <= Repr && this !in nodes[k].Repr
      && nodes[k].Valid() && nodes[k].Model == Model.children[k]
    }

    ghost predicate Apart(k: Str, l: Str)
      requires this in Repr
      reads this, Repr
    {
      k in nodes && l in nodes && nodes[k] in Repr && nodes[l] in Repr && (k != l ==> nodes[k].Repr !! nodes[l].Repr)
    }

    constructor (kind: Kind)
      ensures Valid() && fresh(Repr) && nodes == map[]
      ensures Model == Node(kind, {}, map[])
    {
      this.kind := kind;
      sessions := {};
      nodes := map[];
      Repr := {this};
      Model := Node(kind, {}, map[]);
    }

    /** Puts a node under a key, or records that the node there has changed. */
    method Attach(level: Str, child: SubscriptionNode)
      requires this in Repr && Model.kind == kind && Model.sessions == sessions
      requires ValidBut({level})
      requires child.Valid() && this !in child.Repr
      requires forall k | k in nodes && k != level :: nodes[k].Repr !! child.Repr
      modifies this
      ensures Valid() && Repr == old(Repr) + child.Repr
      ensures sessions == old(sessions) && nodes == old(nodes)[level := child]
      ensures Model == old(Model).(children := old(Model).children[level := child.Model])
    {
      nodes := nodes[level := child];
      Repr := Repr + child.Repr;
      Model := Model.(children := Model.children[level := child.Model]);
      forall k | k in nodes ensures ChildOk(k) {
        assert k != level ==> old(ChildOk(k));
      }
      forall k, l | k in nodes && l in nodes ensures Apart(k, l) {
        assert k != level && l != level ==> old(Apart(k, l));
      }
    }

    /** `_nodes.emplace`: the child under a level, created when there is none. */
    method Emplace(level: Str) returns (child: SubscriptionNode)
      requires Valid()
      modifies this
      ensures Valid() && fresh(Repr - old(Repr))
      ensures level in nodes && nodes[level] == child
      ensures child.Model == ChildOrNew(old(Model), level)
      ensures Model == old(Model).(children := old(Model).children[level := child.Model])
    {
      if level in nodes {
        child := nodes[level];
        assert ChildOk(level);
      } else {
        child := new SubscriptionNode(KindOf(level));
        Attach(level, child);
      }
    }

    /** `_sessions.emplace`. */
    method Subscribe(session: Session)
      requires Valid()
      modifies this
      ensures Valid() && Repr == old(Repr)
      ensures Model == old(Model).(sessions := old(Model).sessions + {session})
    {
      sessions := sessions + {session};
      Model := Model.(sessions := sessions);
      forall k | k in nodes ensures ChildOk(k) {
        assert old(ChildOk(k));
      }
      forall k, l | k in nodes && l in nodes ensures Apart(k, l) {
        assert old(Apart(k, l));
      }
    }

    /** `addFilter`: `cur` is null for the end iterator. */
    method AddFilter(cur: TopicCursor?, session: Session) returns (ok: bool)
      requires Valid()
      requires cur != null ==> cur.Valid()
      modifies Repr, cur
      ensures Valid() && fresh(Repr - old(Repr))
      ensures cur != null ==> cur.Valid()
      ensures (Model, ok) == Add(old(Model), old(Rest(cur)), session)
      decreases if cur == null then 0 else |Levels(cur.topic)| - cur.index, 3
    {
      if cur == null {
        Subscribe(session);
        return true;
      }
      if kind == MultiKind {
        return false;
      }
      ok := AddBelow(cur, session);
    }

    /** `doAddFilter` of the intermediate nodes. */
    method AddBelow(cur: TopicCursor, session: Session) returns (ok: bool)
      requires Valid() && kind != MultiKind
      requires cur.Valid()
      modifies Repr, cur
      ensures Valid() && fresh(Repr - old(Repr))
      ensures cur.Valid()
      ensures (Model, ok) == Add(old(Model), old(Rest(cur)), session)
      decreases |Levels(cur.topic)| - cur.index, 2
    {
      AddVia(Model, Rest(cur), session);
      var level := cur.nextTopic;
      var child := Emplace(level);
      var alive := cur.Advance();
      var next := if alive then cur else null;
      ok := AddToChild(level, child, next, session, Add(child.Model, Rest(next), session));
      Attach(level, child);
    }

    /** The recursive call with a copy of the iterator, which leaves the other children as they
        were. The changed child is still to be put back. */
    method AddToChild(
        level: Str, child: SubscriptionNode, cur: TopicCursor?, session: Session, ghost added: (Trie, bool))
      returns (ok: bool)
      requires Valid() && level in nodes && nodes[level] == child
      requires (cur != null ==> cur.Valid()) && added == Add(child.Model, Rest(cur), session)
      modifies Repr, cur
      ensures unchanged(this) && this in Repr && ValidBut({level})
      ensures child.Valid() && this !in child.Repr && (child.Model, ok) == added
      ensures fresh(child.Repr - old(child.Repr)) && old(child.Repr) <= Repr
      ensures forall k | k in nodes && k != level :: nodes[k].Repr !! child.Repr
      ensures cur != null ==> cur.Valid()
      decreases if cur == null then 0 else |Levels(cur.topic)| - cur.index, 4
    {
      assert ChildOk(level);
      ok := child.AddFilter(cur, session);
      forall k | k in nodes && k != level
        ensures ChildOk(k) && nodes[k].Repr !! child.Repr && nodes[k].Repr == old(nodes[k].Repr)
      {
        assert old(ChildOk(k) && Apart(k, level));
        var other := nodes[k];
        assert forall n | n in old(other.Repr) :: n !in old(child.Repr) && unchanged(n);
      }
      forall k, l | k in nodes && l in nodes && k != level && l != level ensures Apart(k, l) {
        assert old(Apart(k, l)) && ChildOk(k) && ChildOk(l);
      }
    }

    /** `match`: a null `cur` is the end iterator; otherwise the cursor is shared with the
        callers, which see it where this call leaves it. */
    method Match(cur: TopicCursor?, out: SessionSet) returns (found: bool)
      requires Valid()
      requires cur != null ==> cur.Valid()
      modifies cur, out
      ensures cur != null ==> cur.Valid()
      ensures cur == null ==> found && out.elems == old(out.elems) + sessions
      ensures cur != null ==>
        var walk := SharedMatch(Model, Levels(cur.topic), old(cur.index), true);
        found == walk.answer.found && cur.index == walk.index && out.elems == old(out.elems) + walk.answer.sessions
      decreases Repr, 2
    {
      if cur == null || kind == MultiKind {
        out.elems := out.elems + sessions;
        return true;
      }
      found := MatchBelow(cur, out);
    }

    /** `doMatch` of the intermediate nodes. */
    method MatchBelow(cur: TopicCursor, out: SessionSet) returns (found: bool)
      requires Valid() && kind != MultiKind
      requires cur.Valid()
      modifies cur, out
      ensures cur.Valid()
      ensures var walk := SharedMatch(Model, Levels(cur.topic), old(cur.index), true);
        found == walk.answer.found && cur.index == walk.index && out.elems == old(out.elems) + walk.answer.sessions
      decreases Repr, 1
    {
      ghost var levels := Levels(cur.topic);
      var level := cur.nextTopic;
      var alive := cur.Advance();
      var literal := MatchUnder(level, cur, alive, out);
      var rest := MatchUnder(ANY_REST, cur, alive, out);
      var any := MatchUnder(ANY_LEVEL, cur, alive, out);
      found := literal || rest || any;
    }

    /** Looks a key up and matches the child found there with a copy of the iterator. */
    method MatchUnder(key: Str, cursor: TopicCursor, alive: bool, out: SessionSet) returns (found: bool)
      requires Valid() && cursor.Valid()
      modifies cursor, out
      ensures cursor.Valid()
      ensures var walk := SharedChild(Model, key, Levels(cursor.topic), old(cursor.index), alive);
        found == walk.answer.found && cursor.index == walk.index && out.elems == old(out.elems) + walk.answer.sessions
      decreases Repr, 0
    {
      if key in nodes {
        assert ChildOk(key);
        found := nodes[key].Match(if alive then cursor else null, out);
      } else {
        found := false;
      }
    }

    /** `clone`: the copy shares no node with the original. */
    method CloneNode() returns (copy: SubscriptionNode)
      requires Valid()
      ensures copy.Valid() && fresh(copy.Repr)
      ensures copy.Model == Clone(Model)
      decreases Repr, 2
    {
      copy := new SubscriptionNode(kind);
      CloneChildren(copy);
      CopiedAll(copy.Model.children, Clone(Model).children);
      if kind != RootKind {
        copy.CopySessions(sessions);
      }
    }

    /** `copy` is on its way to becoming the clone: only the children under `keys` are missing. */
    ghost predicate Copying(copy: SubscriptionNode, keys: set<Str>)
      reads this, Repr, copy, copy.Repr
    {
      && Valid() && copy.Valid() && copy !in Repr
      && keys <= nodes.Keys && copy.nodes.Keys !! keys
      && copy.Model.kind == kind && copy.Model.sessions == {}
      && CopiedBut(copy.Model.children, Clone(Model).children, keys)
    }

    method CloneChildren(copy: SubscriptionNode)
      requires Copying(copy, nodes.Keys)
      modifies copy
      ensures Copying(copy, {}) && fresh(copy.Repr - old(copy.Repr))
      decreases Repr, 1
    {
      var keys := nodes.Keys;
      while keys != {}
        invariant Copying(copy, keys) && fresh(copy.Repr - old(copy.Repr))
        decreases |keys|
      {
        var k :| k in keys;
        CloneChild(k, copy, keys);
        keys := keys - {k};
      }
    }

    method CloneChild(k: Str, copy: SubscriptionNode, ghost keys: set<Str>)
      requires Copying(copy, keys) && k in keys
      modifies copy
      ensures Copying(copy, keys - {k}) && fresh(copy.Repr - old(copy.Repr))
      decreases Repr, 0
    {
      assert ValidBut({}) && ChildOk(k);
      var child := nodes[k].CloneNode();
      forall l | l in copy.nodes ensures copy.nodes[l].Repr !! child.Repr {
        assert copy.ValidBut({}) && copy.ChildOk(l);
      }
      CopiedOne(copy.Model.children, Clone(Model).children, keys, k);
      copy.Attach(k, child);
    }

    method CopySessions(from: set<Session>)
      requires Valid()
      modifies this
      ensures Valid() && Repr == old(Repr)
      ensures Model == old(Model).(sessions := old(Model).sessions + from)
    {
      var todo := from;
      while todo != {}
        invariant Valid() && Repr == old(Repr) && todo <= from
        invariant Model == old(Model).(sessions := old(Model).sessions + (from - todo))
        decreases |todo|
      {
        var session :| session in todo;
        Subscribe(session);
        todo := todo - {session};
      }
    }
  }

  /** A map that agrees with `goal` and lacks just these keys. */
  ghost predicate CopiedBut(m: map<Str, Trie>, goal: map<Str, Trie>, keys: set<Str>) {
    m.Keys == goal.Keys - keys && forall k | k in m :: m[k] == goal[k]
  }

  lemma CopiedOne(m: map<Str, Trie>, goal: map<Str, Trie>, keys: set<Str>, k: Str)
    requires CopiedBut(m, goal, keys) && k in keys && k in goal
    ensures CopiedBut(m[k := goal[k]], goal, keys - {k})
  {
  }

  lemma CopiedAll(m: map<Str, Trie>, goal: map<Str, Trie>)
    requires CopiedBut(m, goal, {})
    ensures m == goal
  {
  }

  /** Adding through a child that was emplaced first. */
  lemma AddVia(t: Trie, levels: seq<Str>, s: Session)
    requires levels != [] && t.kind != MultiKind
    ensures var child := ChildOrNew(t, levels[0]);
      var (after, ok) := Add(child, levels[1..], s);
      var emplaced := t.(children := t.children[levels[0] := child]);
      Add(t, levels, s) == (emplaced.(children := emplaced.children[levels[0] := after]), ok)
  {
    var child := ChildOrNew(t, levels[0]);
    var after := Add(child, levels[1..], s).0;
    assert t.children[levels[0] := child][levels[0] := after] == t.children[levels[0] := after];
  }

  /** The levels an iterator still has before it. */
  ghost function Rest(cur: TopicCursor?): seq<Str>
    requires cur != null ==> cur.Valid()
    reads cur
  {
    if cur == null then [] else Levels(cur.topic)[cur.index..]
  }

  /** `SubscriptionTree`: a root node, entered with fresh iterators. */
  class SubscriptionTree {
    var root: SubscriptionNode

    ghost predicate Valid()
      reads this, root, root.Repr
    {
      root.Valid()
    }

    ghost function Value(): Trie
      reads this, root
    {
      root.Model
    }

    constructor ()
      ensures Valid() && fresh(root.Repr) && Value() == EMPTY
    {
      root := new SubscriptionNode(RootKind);
    }

    constructor Of(root: SubscriptionNode)
      requires root.Valid()
      ensures Valid() && this.root == root
    {
      this.root := root;
    }

    method AddFilter(filter: Str, session: Session) returns (ok: bool)
      requires Valid()
      modifies root.Repr
      ensures Valid() && root == old(root) && fresh(root.Repr - old(root.Repr))
      ensures (Value(), ok) == Add(old(Value()), Levels(filter), session)
    {
      var cursor := new TopicCursor(filter);
      assert Rest(cursor) == Levels(filter);
      ok := root.AddFilter(cursor, session);
    }

    method AddFilters(filters: seq<TopicFilter>, session: Session)
      requires Valid()
      modifies root.Repr
      ensures Valid() && root == old(root) && fresh(root.Repr - old(root.Repr))
      ensures Value() == AddAll(old(Value()), SubscriptionsOf(filters, session))
    {
      for i := 0 to |filters|
        invariant Valid() && root == old(root) && fresh(root.Repr - old(root.Repr))
        invariant Value() == AddAll(old(Value()), SubscriptionsOf(filters[..i], session))
      {
        AddAllNext(old(Value()), filters, session, i);
        var ok := AddFilter(filters[i].filter, session);
      }
      assert filters[..|filters|] == filters;
    }

    method Match(topic: Str, out: SessionSet) returns (found: bool)
      requires Valid()
      modifies out
      ensures out.elems == old(out.elems) + TopicMatch(Value(), Levels(topic)).sessions
      ensures found == TopicMatch(Value(), Levels(topic)).found
    {
      var cursor := new TopicCursor(topic);
      found := root.Match(cursor, out);
    }

    method CloneTree() returns (copy: SubscriptionTree)
      requires Valid()
      ensures copy.Valid() && fresh(copy) && fresh(copy.root.Repr)
      ensures copy.Value() == Clone(Value())
    {
      var root' := root.CloneNode();
      copy := new SubscriptionTree.Of(root');
    }
  }

  /** `SubscriptionTreeManager` as one writer at a time sees it: the published tree is never
      changed, only replaced by a changed clone. */
  class SubscriptionTreeManager {
    var tree: SubscriptionTree

    ghost predicate Valid()
      reads this, tree, tree.root, tree.root.Repr
    {
      tree.Valid()
    }

    constructor ()
      ensures Valid() && fresh(tree) && fresh(tree.root.Repr) && tree.Value() == EMPTY
    {
      tree := new SubscriptionTree();
    }

    /** `Processor::addSubscriptions`: lock and clone, add every filter, publish and unlock.
        Only `this` is modified: whoever still holds the old tree sees it unchanged. */
    method AddSubscriptions(filters: seq<TopicFilter>, session: Session)
      requires Valid()
      modifies this
      ensures Valid() && fresh(tree) && fresh(tree.root.Repr)
      ensures tree.Value() == AddAll(Clone(old(tree.Value())), SubscriptionsOf(filters, session))
    {
      var writable := tree.CloneTree();
      writable.AddFilters(filters, session);
      tree := writable;
    }
  }

  function SubscriptionsOf(filters: seq<TopicFilter>, session: Session): (subs: seq<Subscription>)
    ensures |subs| == |filters|
    ensures forall i | 0 <= i < |filters| :: subs[i] == Subscription(Levels(filters[i].filter), session)
  {
    if filters == [] then []
    else
      SubscriptionsOf(filters[..|filters| - 1], session) +
      [Subscription(Levels(filters[|filters| - 1].filter), session)]
  }

  lemma AddAllNext(t: Trie, filters: seq<TopicFilter>, session: Session, i: nat)
    requires i < |filters|
    ensures AddAll(t, SubscriptionsOf(filters[..i + 1], session))
      == Add(AddAll(t, SubscriptionsOf(filters[..i], session)), Levels(filters[i].filter), session).0
  {
    var before := SubscriptionsOf(filters[..i], session);
    var all := before + [Subscription(Levels(filters[i].filter), session)];
    assert filters[..i + 1][..i] == filters[..i];
    assert SubscriptionsOf(filters[..i + 1], session) == all;
    assert all[..|all| - 1] == before;
  }
}

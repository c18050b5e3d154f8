/** The copy-on-write protocol of `SubscriptionTreeManager` as labelled steps of any number of
    writers and readers. Trees live in a store under identities, so that sharing is visible. */
module TreeManager {
  import opened Common
  import opened Topics
  import opened Tries
  import opened SharedCursors

  type TreeId = nat
  type WriterId = nat

  datatype WriterState =
    | Outside
    | Locked                                             // _writeMutex taken, tree not cloned yet
    | Building(tree: TreeId, batch: seq<Subscription>)   // a WritableTree is alive

  /** A tree some reader got, and how many batches had been committed at that moment. */
  datatype Snapshot = Snapshot(tree: TreeId, version: nat)

  datatype State = State(
    store: map<TreeId, Trie>,
    published: TreeId,
    writeMutex: Option<WriterId>,
    writers: map<WriterId, WriterState>,
    snapshots: seq<Snapshot>,
    committed: seq<seq<Subscription>>)

  datatype Label =
    | Acquire(writer: WriterId)
    | CloneTree(writer: WriterId, id: TreeId)
    | AddFilter(writer: WriterId, filter: Str, session: Session)
    | SetTree(writer: WriterId)
    | GetCurrentTree

  function Init(writers: set<WriterId>): State {
    State(map[0 := EMPTY], 0, None, map w | w in writers :: Outside, [], [])
  }

  predicate Enabled(s: State, l: Label) {
    match l
    case Acquire(w) => w in s.writers && s.writers[w] == Outside && s.writeMutex == None
    case CloneTree(w, id) => w in s.writers && s.writers[w] == Locked && id !in s.store && s.published in s.store
    case AddFilter(w, _, _) => w in s.writers && s.writers[w].Building? && s.writers[w].tree in s.store
    case SetTree(w) => w in s.writers && s.writers[w].Building?
    case GetCurrentTree => true
  }

  function Step(s: State, l: Label): State
    requires Enabled(s, l)
  {
    match l
    case Acquire(w) =>
      s.(writeMutex := Some(w), writers := s.writers[w := Locked])
    case CloneTree(w, id) =>
      s.(store := s.store[id := Clone(s.store[s.published])], writers := s.writers[w := Building(id, [])])
    case AddFilter(w, filter, session) =>
      var b := s.writers[w];
      var sub := Subscription(Levels(filter), session);
      s.(store := s.store[b.tree := Add(s.store[b.tree], sub.levels, session).0],
         writers := s.writers[w := Building(b.tree, b.batch + [sub])])
    case SetTree(w) =>
      if s.writeMutex == None then
        s.(writeMutex := Some(w), writers := s.writers[w := Outside])   // try_lock succeeded: nothing is set
      else
        s.(published := s.writers[w].tree, writeMutex := None, writers := s.writers[w := Outside],
           committed := s.committed + [s.writers[w].batch])
    case GetCurrentTree =>
      s.(snapshots := s.snapshots + [Snapshot(s.published, |s.committed|)])
  }

  function Flatten(batches: seq<seq<Subscription>>): seq<Subscription> {
    if batches == [] then [] else Flatten(batches[..|batches| - 1]) + batches[|batches| - 1]
  }

  /** The tree built by the first `version` committed batches. */
  function Version(s: State, version: nat): Trie
    requires version <= |s.committed|
  {
    AddAll(EMPTY, Flatten(s.committed[..version]))
  }

  ghost predicate SnapshotOk(s: State, i: nat)
    requires i < |s.snapshots|
  {
    var snap := s.snapshots[i];
    && snap.version <= |s.committed|
    && snap.tree in s.store
    && s.store[snap.tree] == Version(s, snap.version)
  }

  ghost predicate WriterOk(s: State, w: WriterId)
    requires w in s.writers && s.published in s.store
  {
    var b := s.writers[w];
    && (s.writeMutex == Some(w) <==> b != Outside)
    && (b.Building? ==>
      && b.tree in s.store && b.tree != s.published
      && (forall i | 0 <= i < |s.snapshots| :: s.snapshots[i].tree != b.tree)
      && NoEmptyPath(b.batch)
      && s.store[b.tree] == AddAll(s.store[s.published], b.batch))
  }

  ghost predicate Inv(s: State) {
    && s.published in s.store
    && NoEmptyPath(Flatten(s.committed))
    && s.store[s.published] == AddAll(EMPTY, Flatten(s.committed))
    && (forall w | w in s.writers :: WriterOk(s, w))
    && (s.writeMutex.Some? ==> s.writeMutex.value in s.writers)
    && (forall i: nat | i < |s.snapshots| :: SnapshotOk(s, i))
  }

  lemma FlattenSnoc(batches: seq<seq<Subscription>>, b: seq<Subscription>)
    ensures Flatten(batches + [b]) == Flatten(batches) + b
  {
  }

  lemma InitInv(writers: set<WriterId>)
    ensures Inv(Init(writers))
  {
  }

  /** What a step leaves alone: every tree but the one a writer is building. */
  lemma StoreKept(s: State, l: Label, t: TreeId)
    requires Inv(s) && Enabled(s, l) && t in s.store
    requires forall w | w in s.writers && s.writers[w].Building? :: s.writers[w].tree != t
    ensures t in Step(s, l).store && Step(s, l).store[t] == s.store[t]
  {
  }

  lemma CloneWriters(s: State, v: WriterId, id: TreeId, w: WriterId)
    requires Inv(s) && Enabled(s, CloneTree(v, id)) && w in s.writers
    ensures s.published in Step(s, CloneTree(v, id)).store && WriterOk(Step(s, CloneTree(v, id)), w)
  {
    assert WriterOk(s, v) && WriterOk(s, w);
    CloneFidelity(Flatten(s.committed));
    forall i: nat | i < |s.snapshots| ensures s.snapshots[i].tree != id {
      assert SnapshotOk(s, i);
    }
    assert Step(s, CloneTree(v, id)).store[id] == s.store[s.published];
  }

  lemma BatchGrows(t: Trie, batch: seq<Subscription>, sub: Subscription)
    requires NoEmptyPath(batch) && sub.levels != []
    ensures NoEmptyPath(batch + [sub])
    ensures AddAll(t, batch + [sub]) == Add(AddAll(t, batch), sub.levels, sub.session).0
  {
    assert (batch + [sub])[..|batch|] == batch;
  }

  lemma AddWriters(s: State, v: WriterId, filter: Str, session: Session, w: WriterId)
    requires Inv(s) && Enabled(s, AddFilter(v, filter, session)) && w in s.writers
    ensures s.published in Step(s, AddFilter(v, filter, session)).store
    ensures WriterOk(Step(s, AddFilter(v, filter, session)), w)
  {
    assert WriterOk(s, v) && WriterOk(s, w);
    BatchGrows(s.store[s.published], s.writers[v].batch, Subscription(Levels(filter), session));
  }

  lemma StepWriters(s: State, l: Label, w: WriterId)
    requires Inv(s) && Enabled(s, l) && w in s.writers
    ensures Step(s, l).published in Step(s, l).store && w in Step(s, l).writers
    ensures WriterOk(Step(s, l), w)
  {
    assert WriterOk(s, w);
    match l
    case Acquire(v) => assert WriterOk(s, v);
    case CloneTree(v, id) => CloneWriters(s, v, id, w);
    case AddFilter(v, filter, session) => AddWriters(s, v, filter, session, w);
    case SetTree(v) => assert WriterOk(s, v);
    case GetCurrentTree =>
  }

  lemma StepSnapshots(s: State, l: Label, i: nat)
    requires Inv(s) && Enabled(s, l) && i < |Step(s, l).snapshots|
    ensures SnapshotOk(Step(s, l), i)
  {
    var s' := Step(s, l);
    if i < |s.snapshots| {
      assert SnapshotOk(s, i);
      var snap := s.snapshots[i];
      forall w | w in s.writers && s.writers[w].Building? ensures s.writers[w].tree != snap.tree {
        assert WriterOk(s, w);
      }
      StoreKept(s, l, snap.tree);
      assert s'.committed[..snap.version] == s.committed[..snap.version];
    } else {
      assert s.committed[..|s.committed|] == s.committed;
    }
  }

  lemma StepPublished(s: State, l: Label)
    requires Inv(s) && Enabled(s, l)
    ensures var s' := Step(s, l);
      && s'.published in s'.store && NoEmptyPath(Flatten(s'.committed))
      && s'.store[s'.published] == AddAll(EMPTY, Flatten(s'.committed))
  {
    if l.SetTree? {
      assert WriterOk(s, l.writer);
      FlattenSnoc(s.committed, s.writers[l.writer].batch);
      AddAllConcat(EMPTY, Flatten(s.committed), s.writers[l.writer].batch);
    } else {
      forall w | w in s.writers && s.writers[w].Building? ensures s.writers[w].tree != s.published {
        assert WriterOk(s, w);
      }
      StoreKept(s, l, s.published);
    }
  }

  /** Every step of every writer and reader keeps the invariant. */
  lemma StepInv(s: State, l: Label)
    requires Inv(s) && Enabled(s, l)
    ensures Inv(Step(s, l))
  {
    StepPublished(s, l);
    var s' := Step(s, l);
    forall w | w in s'.writers ensures WriterOk(s', w) {
      StepWriters(s, l, w);
    }
    forall i: nat | i < |s'.snapshots| ensures SnapshotOk(s', i) {
      StepSnapshots(s, l, i);
    }
    assert l.SetTree? ==> WriterOk(s, l.writer);
  }

  // ---------------------------------------------------------------- whole runs

  ghost predicate CanRun(s: State, labels: seq<Label>)
    decreases labels
  {
    labels == [] || (Enabled(s, labels[0]) && CanRun(Step(s, labels[0]), labels[1..]))
  }

  ghost function Run(s: State, labels: seq<Label>): State
    requires CanRun(s, labels)
    decreases labels
  {
    if labels == [] then s else Run(Step(s, labels[0]), labels[1..])
  }

  lemma {:induction false} RunInv(s: State, labels: seq<Label>)
    requires Inv(s) && CanRun(s, labels)
    ensures Inv(Run(s, labels))
    ensures |s.snapshots| <= |Run(s, labels).snapshots|
    ensures forall i | 0 <= i < |s.snapshots| :: Run(s, labels).snapshots[i] == s.snapshots[i]
    ensures s.committed <= Run(s, labels).committed
    decreases labels
  {
    if labels != [] {
      StepInv(s, labels[0]);
      RunInv(Step(s, labels[0]), labels[1..]);
    }
  }

  /** A tree handed to a reader never changes, whatever the writers do afterwards. */
  lemma SnapshotNeverChanges(s: State, labels: seq<Label>, i: nat)
    requires Inv(s) && CanRun(s, labels) && i < |s.snapshots|
    ensures var s' := Run(s, labels);
      && i < |s'.snapshots| && s'.snapshots[i] == s.snapshots[i]
      && s.snapshots[i].tree in s.store && s.snapshots[i].tree in s'.store
      && s'.store[s.snapshots[i].tree] == s.store[s.snapshots[i].tree]
  {
    RunInv(s, labels);
    var s' := Run(s, labels);
    assert SnapshotOk(s, i) && SnapshotOk(s', i);
    var v := s.snapshots[i].version;
    assert s'.committed[..v] == s.committed[..v];
  }

  /** No update is lost and none is half visible: the published tree is the fold of all
      committed batches, and every snapshot is the fold of a whole number of them. */
  lemma PublishedIsFoldOfCommits(writers: set<WriterId>, labels: seq<Label>)
    requires CanRun(Init(writers), labels)
    ensures var s := Run(Init(writers), labels);
      && s.published in s.store
      && s.store[s.published] == AddAll(EMPTY, Flatten(s.committed))
      && forall i | 0 <= i < |s.snapshots| ::
           && s.snapshots[i].tree in s.store && s.snapshots[i].version <= |s.committed|
           && s.store[s.snapshots[i].tree] == AddAll(EMPTY, Flatten(s.committed[..s.snapshots[i].version]))
  {
    InitInv(writers);
    RunInv(Init(writers), labels);
    var s := Run(Init(writers), labels);
    forall i | 0 <= i < |s.snapshots|
      ensures s.snapshots[i].tree in s.store && s.snapshots[i].version <= |s.committed|
      ensures s.store[s.snapshots[i].tree] == AddAll(EMPTY, Flatten(s.committed[..s.snapshots[i].version]))
    {
      assert SnapshotOk(s, i);
    }
  }

  /** `setTree` never finds the write mutex free, and never releases another writer's lock. */
  lemma SetTreeOwnsTheLock(writers: set<WriterId>, labels: seq<Label>, w: WriterId)
    requires CanRun(Init(writers), labels) && Enabled(Run(Init(writers), labels), SetTree(w))
    ensures Run(Init(writers), labels).writeMutex == Some(w)
  {
    InitInv(writers);
    RunInv(Init(writers), labels);
    assert WriterOk(Run(Init(writers), labels), w);
  }

  /** Among the first `version` batches is a filter of `x` that matches the topic. */
  ghost predicate Committed(s: State, version: nat, topic: seq<Str>, x: Session)
    requires version <= |s.committed|
  {
    exists sub :: sub in Flatten(s.committed[..version])
               && sub.session == x && Addable(sub.levels) && FilterMatches(sub.levels, topic)
  }

  /** A reader's match sees exactly the batches committed before it took its snapshot: with
      independent cursors always, as it is written when no two of those filters clash. */
  lemma ReaderSeesCommittedFilters(writers: set<WriterId>, labels: seq<Label>, i: nat, topic: seq<Str>, x: Session)
    requires CanRun(Init(writers), labels) && i < |Run(Init(writers), labels).snapshots|
    ensures var s := Run(Init(writers), labels);
      var snap := s.snapshots[i];
      && snap.version <= |s.committed| && snap.tree in s.store
      && (x in Match(s.store[snap.tree], topic).sessions <==> Committed(s, snap.version, topic, x))
      && (Clashless(Flatten(s.committed[..snap.version])) && topic != [] && LiteralTopic(topic) ==>
            (x in TopicMatch(s.store[snap.tree], topic).sessions <==> Committed(s, snap.version, topic, x)))
  {
    PublishedIsFoldOfCommits(writers, labels);
    var s := Run(Init(writers), labels);
    InitInv(writers);
    RunInv(Init(writers), labels);
    var subs := Flatten(s.committed[..s.snapshots[i].version]);
    FlattenPrefix(s.committed, s.snapshots[i].version);
    TrieRefinesFlatList(subs, topic, x);
    if Clashless(subs) && topic != [] && LiteralTopic(topic) {
      SharedCursorRefinesFlatList(subs, topic, x);
    }
  }

  lemma {:induction false} FlattenPrefix(batches: seq<seq<Subscription>>, n: nat)
    requires n <= |batches| && NoEmptyPath(Flatten(batches))
    ensures NoEmptyPath(Flatten(batches[..n]))
    decreases |batches|
  {
    if n < |batches| {
      var shorter := batches[..|batches| - 1];
      assert forall sub | sub in Flatten(shorter) :: sub in Flatten(batches);
      FlattenPrefix(shorter, n);
      assert shorter[..n] == batches[..n];
    } else {
      assert batches[..n] == batches;
    }
  }
}

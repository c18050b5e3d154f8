/** The recursive directory iterator: an explicit stack of directory iterators against recursive
    preorder. A directory iterator is the list of the entries it has still to deliver, its
    current one first; it is at its end when the list is empty. */
module RecursiveDirectories {
  import opened Common

  datatype Kind = PlainFile | Directory | DirectoryLink

  /** What the file system shows below a directory; for a link, what is found behind it. */
  datatype Node = Node(name: Str, kind: Kind, readable: bool, children: seq<Node>)

  /** `_recursionPending` and `directory_options::follow_directory_symlink`. */
  datatype Mode = Mode(recurse: bool, follow: bool)

  predicate Descends(n: Node, m: Mode) {
    m.recurse && n.kind != PlainFile && (n.kind == Directory || m.follow)
  }

  predicate Enters(n: Node, m: Mode) {
    Descends(n, m) && n.readable
  }

  /** A directory that should be entered but cannot be opened. */
  predicate Blocked(n: Node, m: Mode) {
    Descends(n, m) && !n.readable
  }

  predicate Passable(nodes: seq<Node>, m: Mode) {
    forall n | n in nodes :: !Blocked(n, m)
  }

  /** The reference: every entry before the entries below it. */
  function Preorder(nodes: seq<Node>, m: Mode): (order: seq<Node>)
    decreases nodes
  {
    if nodes == [] then []
    else
      [nodes[0]] + (if Enters(nodes[0], m) then Preorder(nodes[0].children, m) else []) + Preorder(nodes[1..], m)
  }

  predicate Standing(stack: seq<seq<Node>>) {
    forall i | 0 <= i < |stack| :: stack[i] != []
  }

  /** What follows below the stack's top: each lower iterator stands on the directory that is
      being visited above it. */
  function Rest(stack: seq<seq<Node>>, m: Mode): seq<Node>
    requires Standing(stack)
  {
    if stack == [] then []
    else Preorder(stack[|stack| - 1][1..], m) + Rest(stack[..|stack| - 1], m)
  }

  /** Everything still to be visited, the current entry first. The top may be at its end. */
  function Ahead(stack: seq<seq<Node>>, m: Mode): seq<Node>
    requires stack != [] ==> Standing(stack[..|stack| - 1])
  {
    if stack == [] then [] else Preorder(stack[|stack| - 1], m) + Rest(stack[..|stack| - 1], m)
  }

  /** One step of the walk, on the stack: into the current directory, or past the current entry. */
  lemma AheadStep(stack: seq<seq<Node>>, m: Mode)
    requires stack != [] && Standing(stack)
    ensures var n := |stack| - 1;
      var entry := stack[n][0];
      && Ahead(stack, m) != [] && Ahead(stack, m)[0] == entry
      && (Enters(entry, m) ==> Ahead(stack + [entry.children], m) == Ahead(stack, m)[1..])
      && (!Enters(entry, m) ==> Ahead(stack[..n] + [stack[n][1..]], m) == Ahead(stack, m)[1..])
  {
    var n := |stack| - 1;
    var below, top := stack[..n], stack[n];
    assert (stack + [top[0].children])[..n + 1] == stack;
    assert (below + [top[1..]])[..n] == below;
    var inside := if Enters(top[0], m) then Preorder(top[0].children, m) else [];
    Flat(top[0], inside, Preorder(top[1..], m), Rest(below, m));
  }

  lemma Flat(n: Node, inside: seq<Node>, later: seq<Node>, rest: seq<Node>)
    ensures ([n] + inside + later + rest)[1..] == inside + (later + rest)
    ensures inside == [] ==> ([n] + inside + later + rest)[1..] == later + rest
  {
  }

  lemma MoveFirst(visited: seq<Node>, ahead: seq<Node>)
    requires ahead != []
    ensures visited + ahead == visited + [ahead[0]] + ahead[1..]
  {
  }

  class RecursiveDirectoryIterator {
    var iteratorStack: seq<seq<Node>>
    const mode: Mode

    /** Between calls no stacked iterator is at its end. */
    predicate Valid()
      reads this
    {
      Standing(iteratorStack)
    }

    function Remaining(): seq<Node>
      requires Valid()
      reads this
    {
      Ahead(iteratorStack, mode)
    }

    /** `open`: an unreadable or empty directory gives an end iterator. */
    constructor (root: Node, mode: Mode)
      ensures Valid() && this.mode == mode
      ensures Remaining() == if root.readable then Preorder(root.children, mode) else []
    {
      this.mode := mode;
      iteratorStack := if root.readable && root.children != [] then [root.children] else [];
      new;
      assert iteratorStack != [] ==> iteratorStack[..0] == [];
    }

    method FindNextEntry()
      requires iteratorStack != [] && Standing(iteratorStack[..|iteratorStack| - 1])
      modifies this
      ensures Valid() && Remaining() == old(Ahead(iteratorStack, mode))
    {
      ghost var goal := Ahead(iteratorStack, mode);
      while iteratorStack[|iteratorStack| - 1] == []
        invariant iteratorStack != [] && Standing(iteratorStack[..|iteratorStack| - 1])
        invariant Ahead(iteratorStack, mode) == goal
        decreases |iteratorStack|
      {
        iteratorStack := iteratorStack[..|iteratorStack| - 1];
        if iteratorStack == [] {
          return;
        }
        if iteratorStack[|iteratorStack| - 1] != [] {
          var top := |iteratorStack| - 1;
          ghost var below := iteratorStack[..top];
          iteratorStack := iteratorStack[top := iteratorStack[top][1..]];
          assert iteratorStack[..top] == below;
        }
      }
      var top := |iteratorStack| - 1;
      assert forall i | 0 <= i < top :: iteratorStack[i] == iteratorStack[..top][i];
    }

    /** `increment`: one entry further, or an error that leaves everything as it was. */
    method Increment() returns (ok: bool)
      requires Valid()
      modifies this
      ensures Valid()
      ensures ok <==> old(Remaining()) == [] || !Blocked(old(Remaining())[0], mode)
      ensures !ok ==> iteratorStack == old(iteratorStack)
      ensures ok && old(Remaining()) != [] ==> Remaining() == old(Remaining())[1..]
      ensures old(Remaining()) == [] ==> Remaining() == []
    {
      ok := true;
      if iteratorStack != [] {
        var top := |iteratorStack| - 1;
        var entry := iteratorStack[top][0];
        AheadStep(iteratorStack, mode);
        if Descends(entry, mode) {
          if !entry.readable {
            return false;
          }
          iteratorStack := iteratorStack + [entry.children];
          assert iteratorStack[..top + 1] == old(iteratorStack);
        } else {
          iteratorStack := iteratorStack[..top] + [iteratorStack[top][1..]];
          assert iteratorStack[..top] == old(iteratorStack[..top]);
        }
        FindNextEntry();
      }
    }

    /** A whole walk with `increment`: it ends, and it delivers what is still to be visited up to
        the first directory that cannot be opened, at which it stays. */
    method Walk() returns (visited: seq<Node>, ok: bool)
      requires Valid()
      modifies this
      ensures Valid() && visited <= old(Remaining())
      ensures ok ==> visited == old(Remaining()) && Remaining() == []
      ensures !ok ==>
        && visited != [] && Blocked(visited[|visited| - 1], mode)
        && |Remaining()| == |old(Remaining())| - |visited| + 1
      ensures Passable(if ok then visited else visited[..|visited| - 1], mode)
    {
      ghost var all := Remaining();
      visited, ok := [], true;
      while iteratorStack != []
        invariant Valid() && visited + Remaining() == all
        invariant Passable(visited, mode)
        decreases |Remaining()|
      {
        var entry := iteratorStack[|iteratorStack| - 1][0];
        AheadStep(iteratorStack, mode);
        MoveFirst(visited, Remaining());
        visited := visited + [entry];
        ok := Increment();
        if !ok {
          return;
        }
      }
    }
  }

  /** A walk succeeds exactly when every directory on its way can be opened; a root that cannot
      be opened is like an empty one. */
  method WalkTree(root: Node, mode: Mode) returns (visited: seq<Node>, ok: bool)
    ensures var below := if root.readable then Preorder(root.children, mode) else [];
      && (ok <==> Passable(below, mode))
      && (ok ==> visited == below)
  {
    var it := new RecursiveDirectoryIterator(root, mode);
    visited, ok := it.Walk();
  }

  // ---------------------------------------------------------------- every entry exactly once

  /** An entry is addressed by its positions among its siblings, from the root down. */
  datatype Visit = Visit(address: seq<nat>, node: Node)

  /** The entry at this address, where the walk may go; the nodes given are the siblings number
      `k`, `k` + 1 and so on. */
  predicate IsAt(nodes: seq<Node>, m: Mode, k: nat, v: Visit)
    decreases v.address
  {
    && v.address != [] && k <= v.address[0] < k + |nodes|
    && var n := nodes[v.address[0] - k];
       if |v.address| == 1 then v.node == n
       else Enters(n, m) && IsAt(n.children, m, 0, Visit(v.address[1..], v.node))
  }

  /** A directory before its entries, and siblings in their order. */
  predicate Before(a: seq<nat>, b: seq<nat>) {
    if b == [] then false
    else if a == [] then true
    else a[0] < b[0] || (a[0] == b[0] && Before(a[1..], b[1..]))
  }

  /** The walk with the address of every entry. */
  function Numbered(nodes: seq<Node>, m: Mode, k: nat): seq<Visit>
    decreases nodes
  {
    if nodes == [] then []
    else
      [Visit([k], nodes[0])] + Below(k, if Enters(nodes[0], m) then Numbered(nodes[0].children, m, 0) else []) +
      Numbered(nodes[1..], m, k + 1)
  }

  function Below(k: nat, visits: seq<Visit>): (r: seq<Visit>)
    ensures |r| == |visits| && forall i | 0 <= i < |r| :: r[i] == Visit([k] + visits[i].address, visits[i].node)
  {
    seq(|visits|, i requires 0 <= i < |visits| => Visit([k] + visits[i].address, visits[i].node))
  }

  lemma InBelow(k: nat, visits: seq<Visit>, v: Visit)
    ensures v in Below(k, visits) <==>
      v.address != [] && v.address[0] == k && Visit(v.address[1..], v.node) in visits
  {
    if v in Below(k, visits) {
      var i :| 0 <= i < |visits| && Below(k, visits)[i] == v;
      assert v.address[1..] == visits[i].address;
    }
    if v.address != [] && v.address[0] == k && Visit(v.address[1..], v.node) in visits {
      var i :| 0 <= i < |visits| && visits[i] == Visit(v.address[1..], v.node);
      assert [k] + v.address[1..] == v.address;
      assert Below(k, visits)[i] == v;
    }
  }

  function Nodes(visits: seq<Visit>): (r: seq<Node>)
    ensures |r| == |visits| && forall i | 0 <= i < |r| :: r[i] == visits[i].node
  {
    seq(|visits|, i requires 0 <= i < |visits| => visits[i].node)
  }

  /** The addresses do not change the walk. */
  lemma {:induction false} NumberedIsPreorder(nodes: seq<Node>, m: Mode, k: nat)
    ensures Nodes(Numbered(nodes, m, k)) == Preorder(nodes, m)
    decreases nodes
  {
    if nodes != [] {
      var inside := if Enters(nodes[0], m) then Numbered(nodes[0].children, m, 0) else [];
      var inside' := if Enters(nodes[0], m) then Preorder(nodes[0].children, m) else [];
      NumberedIsPreorder(nodes[0].children, m, 0);
      NumberedIsPreorder(nodes[1..], m, k + 1);
      NodesConcat([Visit([k], nodes[0])], Below(k, inside));
      NodesConcat([Visit([k], nodes[0])] + Below(k, inside), Numbered(nodes[1..], m, k + 1));
      assert Nodes(Below(k, inside)) == inside';
    }
  }

  lemma NodesConcat(a: seq<Visit>, b: seq<Visit>)
    ensures Nodes(a + b) == Nodes(a) + Nodes(b)
  {
  }

  /** Step into the first sibling or on to the others. */
  lemma IsAtCons(nodes: seq<Node>, m: Mode, k: nat, v: Visit)
    requires nodes != [] && v.address != []
    ensures IsAt(nodes, m, k, v) <==>
      if v.address[0] != k then IsAt(nodes[1..], m, k + 1, v)
      else if |v.address| == 1 then v.node == nodes[0]
      else Enters(nodes[0], m) && IsAt(nodes[0].children, m, 0, Visit(v.address[1..], v.node))
  {
  }

  /** The walk visits exactly the entries there are. */
  lemma {:induction false} VisitsExactly(nodes: seq<Node>, m: Mode, k: nat, v: Visit)
    ensures v in Numbered(nodes, m, k) <==> IsAt(nodes, m, k, v)
    ensures v in Numbered(nodes, m, k) ==> v.address != [] && v.address[0] >= k
    decreases nodes
  {
    if nodes != [] {
      var inside := if Enters(nodes[0], m) then Numbered(nodes[0].children, m, 0) else [];
      InBelow(k, inside, v);
      VisitsExactly(nodes[1..], m, k + 1, v);
      if v.address != [] {
        IsAtCons(nodes, m, k, v);
        VisitsExactly(nodes[0].children, m, 0, Visit(v.address[1..], v.node));
        if |v.address| == 1 {
          assert v.address == [v.address[0]];
        }
      }
    }
  }

  predicate Increasing(visits: seq<Visit>) {
    forall i, j | 0 <= i < j < |visits| :: Before(visits[i].address, visits[j].address)
  }

  lemma IncreasingConcat(a: seq<Visit>, b: seq<Visit>)
    requires Increasing(a) && Increasing(b) && forall v, w | v in a && w in b :: Before(v.address, w.address)
    ensures Increasing(a + b)
  {
  }

  lemma IncreasingBelow(k: nat, visits: seq<Visit>)
    requires Increasing(visits)
    ensures Increasing(Below(k, visits))
  {
  }

  /** Every directory comes before its entries and every sibling in its place; in particular no
      entry is visited twice. */
  lemma {:induction false} VisitsInOrder(nodes: seq<Node>, m: Mode, k: nat)
    ensures Increasing(Numbered(nodes, m, k))
    decreases nodes
  {
    if nodes != [] {
      var first := [Visit([k], nodes[0])];
      var inside := if Enters(nodes[0], m) then Numbered(nodes[0].children, m, 0) else [];
      var later := Numbered(nodes[1..], m, k + 1);
      VisitsInOrder(nodes[0].children, m, 0);
      VisitsInOrder(nodes[1..], m, k + 1);
      IncreasingBelow(k, inside);
      forall w | w in Below(k, inside) ensures Before([k], w.address) && w.address[0] == k {
        InBelow(k, inside, w);
        VisitsExactly(nodes[0].children, m, 0, Visit(w.address[1..], w.node));
      }
      IncreasingConcat(first, Below(k, inside));
      forall v, w | v in first + Below(k, inside) && w in later ensures Before(v.address, w.address) {
        VisitsExactly(nodes[1..], m, k + 1, w);
      }
      IncreasingConcat(first + Below(k, inside), later);
    }
  }

  lemma {:induction false} BeforeIsStrict(a: seq<nat>)
    ensures !Before(a, a)
    decreases a
  {
    if a != [] {
      BeforeIsStrict(a[1..]);
    }
  }

  /** The walk in one statement: its entries are those at the reachable addresses, each of them
      once, in the order of the addresses. */
  lemma PreorderVisitsEachOnce(nodes: seq<Node>, m: Mode)
    ensures var visits := Numbered(nodes, m, 0);
      && Nodes(visits) == Preorder(nodes, m)
      && (forall v :: v in visits <==> IsAt(nodes, m, 0, v))
      && (forall i, j | 0 <= i < j < |visits| ::
            Before(visits[i].address, visits[j].address) && visits[i].address != visits[j].address)
  {
    var visits := Numbered(nodes, m, 0);
    NumberedIsPreorder(nodes, m, 0);
    forall v ensures v in visits <==> IsAt(nodes, m, 0, v) {
      VisitsExactly(nodes, m, 0, v);
    }
    VisitsInOrder(nodes, m, 0);
    forall i, j | 0 <= i < j < |visits| ensures visits[i].address != visits[j].address {
      BeforeIsStrict(visits[i].address);
    }
  }
}

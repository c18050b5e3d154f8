/** Splitting a path into its elements and joining them again. */
module PathIteration {
  import opened Common

  const SEPARATOR: Byte := 47
  const DOT: Str := [46]

  // ---------------------------------------------------------------- elements, as a function

  function DropSeparators(s: Str): (r: Str)
    ensures |r| <= |s| && (r != [] ==> r[0] != SEPARATOR)
  {
    if s != [] && s[0] == SEPARATOR then DropSeparators(s[1..]) else s
  }

  /** Up to the next separator. */
  function Word(s: Str): (w: Str)
    ensures |w| <= |s| && (|w| < |s| ==> s[|w|] == SEPARATOR)
    ensures forall i | 0 <= i < |w| :: w[i] == s[i] && w[i] != SEPARATOR
  {
    if s == [] || s[0] == SEPARATOR then [] else [s[0]] + Word(s[1..])
  }

  lemma WordIs(s: Str, n: nat)
    requires n <= |s| && (n < |s| ==> s[n] == SEPARATOR)
    requires forall i | 0 <= i < n :: s[i] != SEPARATOR
    ensures Word(s) == s[..n]
  {
  }

  /** The elements in what follows an element: separators count once, and at the end of the path
      they stand for ".". */
  function Following(s: Str): seq<Str>
    decreases |s|
  {
    if s == [] then []
    else
      var t := DropSeparators(s);
      if t == [] then [DOT] else [Word(t)] + Following(t[|Word(t)|..])
  }

  /** The length of the first element: a root name of exactly two separators and a word, a root
      directory, or a word. */
  function FirstLength(s: Str): (n: nat)
    requires s != []
    ensures 0 < n <= |s|
  {
    var separators := |s| - |DropSeparators(s)|;
    if separators == 0 then |Word(s)|
    else if separators == 2 then 2 + |Word(s[2..])|
    else 1
  }

  lemma FirstLengthIs(s: Str, separators: nat)
    requires s != [] && separators <= |s| && s[separators..] == DropSeparators(s)
    ensures FirstLength(s)
      == if separators == 0 then |Word(s)| else if separators == 2 then 2 + |Word(s[2..])| else 1
  {
    assert |s| - |s[separators..]| == separators;
  }

  function Elements(s: Str): seq<Str> {
    if s == [] then [] else [s[..FirstLength(s)]] + Following(s[FirstLength(s)..])
  }

  // ---------------------------------------------------------------- the iterator

  class PathIterator {
    const path: Str
    var pos: Option<nat>   // None is `npos`
    var element: Str

    predicate Valid()
      reads this
    {
      pos.Some? ==> pos.value <= |path|
    }

    /** The elements from the current one on. */
    function Remaining(): seq<Str>
      requires Valid()
      reads this
    {
      if pos.None? then [] else [element] + Following(path[pos.value..])
    }

    /** `begin` */
    constructor Begin(path: Str)
      ensures Valid() && this.path == path && Remaining() == Elements(path)
    {
      this.path := path;
      pos, element := None, [];
      new;
      if path != [] {
        assert path[0..] == path;
        var s := SkipSeparators(0);
        FirstLengthIs(path, s);
        if s == 1 || s > 2 {
          element := [SEPARATOR];
          pos := Some(1);
          assert path[..1] == [SEPARATOR];
          return;
        }
        s := SkipWord(s);
        element := path[..s];
        pos := Some(s);
      }
    }

    method SkipSeparators(start: nat) returns (s: nat)
      requires start <= |path|
      ensures start <= s <= |path| && path[s..] == DropSeparators(path[start..])
      ensures forall i | start <= i < s :: path[i] == SEPARATOR
    {
      s := start;
      while s < |path| && path[s] == SEPARATOR
        invariant start <= s <= |path|
        invariant DropSeparators(path[s..]) == DropSeparators(path[start..])
        invariant forall i | start <= i < s :: path[i] == SEPARATOR
      {
        assert path[s..][1..] == path[s + 1..];
        s := s + 1;
      }
    }

    method SkipWord(start: nat) returns (s: nat)
      requires start <= |path|
      ensures start <= s <= |path| && path[start..s] == Word(path[start..])
    {
      s := start;
      while s < |path| && path[s] != SEPARATOR
        invariant start <= s <= |path|
        invariant forall i | start <= i < s :: path[i] != SEPARATOR
      {
        s := s + 1;
      }
      WordIs(path[start..], s - start);
      assert path[start..s] == path[start..][..s - start];
    }

    /** `operator++` */
    method Increment()
      requires Valid() && pos.Some?
      modifies this
      ensures Valid() && Remaining() == old(Remaining())[1..]
    {
      var start := pos.value;
      if start == |path| {
        pos := None;
        return;
      }
      var begin := SkipSeparators(start);
      if begin == |path| {
        element := DOT;
        pos := Some(|path|);
      } else {
        var s := SkipWord(begin);
        element := path[begin..s];
        pos := Some(s);
        assert path[begin..][s - begin..] == path[s..];
      }
    }
  }

  // ---------------------------------------------------------------- joining

  /** `operator/=` */
  function Append(p: Str, q: Str): Str {
    if p == [] || q == [] || q[0] == SEPARATOR || p[|p| - 1] == SEPARATOR then p + q else p + [SEPARATOR] + q
  }

  function JoinOnto(p: Str, elements: seq<Str>): Str
    decreases |elements|
  {
    if elements == [] then p else JoinOnto(Append(p, elements[0]), elements[1..])
  }

  function Join(elements: seq<Str>): Str {
    JoinOnto([], elements)
  }

  /** The joins of the first elements. */
  function Joins(es: seq<Str>, n: nat): (joins: seq<Str>)
    requires n <= |es|
    ensures |joins| == n && forall i | 0 <= i < n :: joins[i] == Join(es[..i + 1])
  {
    seq(n, i requires 0 <= i < n => Join(es[..i + 1]))
  }

  /** The prefix loop of `create_directories`: one directory for every element, each the join of
      the elements so far. */
  method Prefixes(p: Str) returns (dirs: seq<Str>)
    ensures dirs == Joins(Elements(p), |Elements(p)|)
  {
    var entry := new PathIterator.Begin(p);
    var dir: Str := [];
    dirs := [];
    ghost var es, n := Elements(p), 0;
    while entry.pos.Some?
      invariant entry.Valid() && n <= |es| && entry.Remaining() == es[n..]
      invariant dir == Join(es[..n]) && dirs == Joins(es, n)
      decreases |es| - n
    {
      JoinNext(es, n);
      dir := Append(dir, entry.element);
      dirs := dirs + [dir];
      entry.Increment();
      n := n + 1;
    }
  }

  lemma JoinNext(es: seq<Str>, n: nat)
    requires n < |es|
    ensures Join(es[..n + 1]) == Append(Join(es[..n]), es[n])
    ensures Joins(es, n + 1) == Joins(es, n) + [Append(Join(es[..n]), es[n])]
    ensures es[n..] == [es[n]] + es[n + 1..]
  {
    assert es[..n] + [es[n]] == es[..n + 1];
    JoinSnoc([], es[..n], es[n]);
  }

  lemma {:induction false} JoinSnoc(p: Str, elements: seq<Str>, e: Str)
    ensures JoinOnto(p, elements + [e]) == Append(JoinOnto(p, elements), e)
    decreases |elements|
  {
    if elements == [] {
      assert elements + [e] == [e] && [e][1..] == [];
    } else {
      assert (elements + [e])[1..] == elements[1..] + [e];
      JoinSnoc(Append(p, elements[0]), elements[1..], e);
    }
  }

  // ---------------------------------------------------------------- the normal form

  predicate IsWord(w: Str) {
    w != [] && SEPARATOR !in w
  }

  /** The shape of every list of elements: words, possibly behind a root directory or behind a
      root name (two separators and a word); two separators alone stand alone. */
  predicate Shaped(es: seq<Str>) {
    es == [] ||
    ((IsWord(es[0]) || es[0] == [SEPARATOR] || IsRootName(es[0]) || (es[0] == [SEPARATOR, SEPARATOR] && |es| == 1)) &&
     forall i | 0 < i < |es| :: IsWord(es[i]))
  }

  predicate IsRootName(e: Str) {
    |e| > 2 && e[0] == SEPARATOR && e[1] == SEPARATOR && IsWord(e[2..])
  }

  lemma {:induction false} FollowingShape(s: Str)
    ensures forall i | 0 <= i < |Following(s)| :: IsWord(Following(s)[i])
    decreases |s|
  {
    if s != [] {
      var t := DropSeparators(s);
      if t != [] {
        FollowingShape(t[|Word(t)|..]);
      }
    }
  }

  lemma {:induction false} DropIsSuffix(s: Str)
    ensures var n := |s| - |DropSeparators(s)|;
      DropSeparators(s) == s[n..] && forall i | 0 <= i < n :: s[i] == SEPARATOR
    decreases |s|
  {
    if s != [] && s[0] == SEPARATOR {
      DropIsSuffix(s[1..]);
      var n := |s| - |DropSeparators(s)|;
      assert forall i | 1 <= i < n :: s[i] == s[1..][i - 1];
    }
  }

  /** Iteration only yields such lists. */
  lemma ElementsShape(s: Str)
    ensures Shaped(Elements(s))
  {
    if s != [] {
      var n := FirstLength(s);
      FollowingShape(s[n..]);
      DropIsSuffix(s);
      var separators := |s| - |DropSeparators(s)|;
      if separators == 2 && n > 2 {
        assert s[..n][2..] == Word(s[2..]);
        assert IsRootName(s[..n]);
      } else if separators == 2 {
        assert s == [SEPARATOR, SEPARATOR];
        assert s[n..] == [];
      } else if separators != 0 {
        assert s[..1] == [SEPARATOR];
      }
    }
  }

  predicate Words(ws: seq<Str>) {
    forall i | 0 <= i < |ws| :: IsWord(ws[i])
  }

  /** Words, each behind a separator. */
  function Tail(ws: seq<Str>): (t: Str)
    ensures ws != [] ==> t != [] && t[0] == SEPARATOR
  {
    if ws == [] then [] else [SEPARATOR] + ws[0] + Tail(ws[1..])
  }

  lemma {:induction false} WordThen(w: Str, r: Str)
    requires SEPARATOR !in w && (r != [] ==> r[0] == SEPARATOR)
    ensures Word(w + r) == w
    decreases |w|
  {
    if w == [] {
      assert w + r == r;
    } else {
      assert (w + r)[1..] == w[1..] + r;
      WordThen(w[1..], r);
    }
  }

  lemma FollowingWord(w: Str, r: Str)
    requires IsWord(w) && (r != [] ==> r[0] == SEPARATOR)
    ensures Following(w + r) == [w] + Following(r)
    ensures Following([SEPARATOR] + w + r) == [w] + Following(r)
  {
    WordThen(w, r);
    assert (w + r)[0] == w[0];
    assert DropSeparators(w + r) == w + r;
    assert (w + r)[|w|..] == r;
    var s := [SEPARATOR] + w + r;
    assert s[1..] == w + r;
    assert DropSeparators(s) == w + r;
  }

  lemma {:induction false} FollowingTail(ws: seq<Str>)
    requires Words(ws)
    ensures Following(Tail(ws)) == ws
    decreases |ws|
  {
    if ws != [] {
      FollowingTail(ws[1..]);
      FollowingWord(ws[0], Tail(ws[1..]));
      assert ws == [ws[0]] + ws[1..];
    }
  }

  lemma {:induction false} JoinTail(p: Str, ws: seq<Str>)
    requires p != [] && p[|p| - 1] != SEPARATOR && Words(ws)
    ensures JoinOnto(p, ws) == p + Tail(ws)
    decreases |ws|
  {
    if ws == [] {
      assert p + [] == p;
    } else {
      var w := ws[0];
      var q := p + [SEPARATOR] + w;
      assert Append(p, w) == q;
      assert q[|q| - 1] == w[|w| - 1];
      JoinTail(q, ws[1..]);
      assert q + Tail(ws[1..]) == p + ([SEPARATOR] + w + Tail(ws[1..]));
    }
  }

  lemma JoinHead(h: Str, ws: seq<Str>)
    ensures Join([h] + ws) == JoinOnto(h, ws)
  {
    assert ([h] + ws)[1..] == ws && [] + h == h;
  }

  /** A list headed by a word or by a root name. */
  lemma WordLength(h: Str, t: Str)
    requires IsWord(h) && (t != [] ==> t[0] == SEPARATOR)
    ensures FirstLength(h + t) == |h|
  {
    WordThen(h, t);
    assert (h + t)[0] == h[0];
  }

  lemma RootNameLength(h: Str, t: Str)
    requires IsRootName(h) && (t != [] ==> t[0] == SEPARATOR)
    ensures FirstLength(h + t) == |h|
  {
    var s, w := h + t, h[2..];
    assert s[2..] == w + t && s[2] == w[0];
    WordThen(w, t);
    assert s[0] == SEPARATOR && s[1..][0] == SEPARATOR && s[1..][1..] == s[2..];
    assert DropSeparators(s[2..]) == s[2..];
    assert DropSeparators(s[1..]) == s[2..];
  }

  lemma HeadElements(h: Str, t: Str)
    requires (IsWord(h) || IsRootName(h)) && (t != [] ==> t[0] == SEPARATOR)
    ensures Elements(h + t) == [h] + Following(t)
  {
    if IsWord(h) {
      WordLength(h, t);
    } else {
      RootNameLength(h, t);
    }
    assert (h + t)[..|h|] == h && (h + t)[|h|..] == t;
  }

  lemma LastOfHead(h: Str)
    requires IsWord(h) || IsRootName(h)
    ensures h[|h| - 1] != SEPARATOR
  {
  }

  lemma HeadJoin(h: Str, ws: seq<Str>)
    requires (IsWord(h) || IsRootName(h)) && Words(ws)
    ensures Join([h] + ws) == h + Tail(ws) && Elements(h + Tail(ws)) == [h] + ws
  {
    JoinHead(h, ws);
    LastOfHead(h);
    JoinTail(h, ws);
    HeadElements(h, Tail(ws));
    FollowingTail(ws);
  }

  /** A list headed by the root directory. */
  lemma RootElements(w: Str, t: Str)
    requires IsWord(w) && (t != [] ==> t[0] == SEPARATOR)
    ensures Elements([SEPARATOR] + w + t) == [[SEPARATOR], w] + Following(t)
  {
    var s := [SEPARATOR] + w + t;
    RootLength(s, w + t);
    FollowingWord(w, t);
    assert [[SEPARATOR]] + ([w] + Following(t)) == [[SEPARATOR], w] + Following(t);
  }

  lemma RootLength(s: Str, r: Str)
    requires s == [SEPARATOR] + r && r != [] && r[0] != SEPARATOR
    ensures FirstLength(s) == 1 && s[..1] == [SEPARATOR] && s[1..] == r
  {
    assert s[1..] == r;
    assert DropSeparators(r) == r;
  }

  lemma RootJoin(w: Str, ws: seq<Str>)
    requires IsWord(w) && Words(ws)
    ensures Join([[SEPARATOR], w] + ws) == [SEPARATOR] + w + Tail(ws)
    ensures Elements([SEPARATOR] + w + Tail(ws)) == [[SEPARATOR], w] + ws
  {
    var h: Str := [SEPARATOR];
    assert [h, w] + ws == [h] + ([w] + ws);
    JoinHead(h, [w] + ws);
    assert ([w] + ws)[1..] == ws && Append(h, w) == h + w;
    JoinTail(h + w, ws);
    RootElements(w, Tail(ws));
    FollowingTail(ws);
  }

  lemma OnlySeparators()
    ensures Elements([SEPARATOR]) == [[SEPARATOR]]
    ensures Elements([SEPARATOR, SEPARATOR]) == [[SEPARATOR, SEPARATOR]]
  {
    var s: Str, t: Str := [SEPARATOR], [SEPARATOR, SEPARATOR];
    assert s[1..] == [] && t[1..] == s && t[2..] == [];
    assert DropSeparators(s) == [] && DropSeparators(t) == [];
    assert FirstLength(s) == 1 && FirstLength(t) == 2;
    assert s[..1] == s && t[..2] == t;
  }

  /** Joining a well-shaped list and splitting the result gives the list back. */
  lemma JoinThenSplit(es: seq<Str>)
    requires Shaped(es)
    ensures Elements(Join(es)) == es
  {
    if es != [] {
      var h, ws := es[0], es[1..];
      assert es == [h] + ws && Words(ws);
      JoinHead(h, ws);
      if h == [SEPARATOR] || h == [SEPARATOR, SEPARATOR] {
        OnlySeparators();
        if ws != [] {
          assert es == [h, ws[0]] + ws[1..];
          RootJoin(ws[0], ws[1..]);
        }
      } else {
        HeadJoin(h, ws);
      }
    }
  }

  /** No separator follows another one, except at the very beginning. */
  predicate Normal(s: Str) {
    forall i | 0 < i < |s| - 1 && s[i] == SEPARATOR :: s[i + 1] != SEPARATOR
  }

  /** A word ends before what follows it starts with a separator. */
  lemma NormalConcat(a: Str, b: Str)
    requires Normal(a) && a != [] && (a[|a| - 1] != SEPARATOR || (b != [] ==> b[0] != SEPARATOR) || |a| == 1)
    requires forall i | 0 <= i < |b| - 1 && b[i] == SEPARATOR :: b[i + 1] != SEPARATOR
    ensures Normal(a + b)
  {
  }

  lemma {:induction false} NormalTail(ws: seq<Str>)
    requires Words(ws)
    ensures forall i | 0 <= i < |Tail(ws)| - 1 && Tail(ws)[i] == SEPARATOR :: Tail(ws)[i + 1] != SEPARATOR
    decreases |ws|
  {
    if ws != [] {
      NormalTail(ws[1..]);
      var w, t := ws[0], Tail(ws[1..]);
      var s := [SEPARATOR] + w;
      assert s[1] == w[0] && s[|s| - 1] == w[|w| - 1];
      assert forall i | 1 <= i < |s| :: s[i] == w[i - 1];
      NormalConcat(s, t);
      assert (s + t)[1] == w[0];
    }
  }

  lemma NormalHead(h: Str, ws: seq<Str>)
    requires (IsWord(h) || IsRootName(h)) && Words(ws)
    ensures Normal(h + Tail(ws))
  {
    LastOfHead(h);
    NormalTail(ws);
    assert IsRootName(h) ==> forall i | 2 <= i < |h| :: h[i] == h[2..][i - 2];
    NormalConcat(h, Tail(ws));
  }

  lemma NormalRoot(w: Str, ws: seq<Str>)
    requires IsWord(w) && Words(ws)
    ensures Normal([SEPARATOR] + w + Tail(ws))
  {
    NormalTail(ws);
    var s := [SEPARATOR] + w;
    assert forall i | 1 <= i < |s| :: s[i] == w[i - 1];
    assert s[|s| - 1] == w[|w| - 1];
    NormalConcat(s, Tail(ws));
  }

  lemma JoinIsNormal(es: seq<Str>)
    requires Shaped(es)
    ensures Normal(Join(es))
  {
    if es != [] {
      var h, ws := es[0], es[1..];
      assert es == [h] + ws && Words(ws);
      JoinHead(h, ws);
      if h == [SEPARATOR] || h == [SEPARATOR, SEPARATOR] {
        if ws != [] {
          assert es == [h, ws[0]] + ws[1..];
          RootJoin(ws[0], ws[1..]);
          NormalRoot(ws[0], ws[1..]);
        }
      } else {
        HeadJoin(h, ws);
        NormalHead(h, ws);
      }
    }
  }

  /** Every path: joining the elements it iterates over gives a path with the same elements and
      no repeated separators, except at the very beginning; doing it again changes nothing. */
  lemma NormalForm(p: Str)
    ensures var q := Join(Elements(p));
      Elements(q) == Elements(p) && Normal(q) && Join(Elements(q)) == q
  {
    ElementsShape(p);
    JoinThenSplit(Elements(p));
    JoinIsNormal(Elements(p));
  }

  /** A list can be recovered from its join exactly when iteration could have produced it. */
  lemma RecoverableExactly(es: seq<Str>)
    ensures Elements(Join(es)) == es <==> Shaped(es)
  {
    ElementsShape(Join(es));
    if Shaped(es) {
      JoinThenSplit(es);
    }
  }
}

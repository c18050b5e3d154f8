/** Topic names and filters: the level cursor, filter validation and filter ordering. */
module Topics {
  import opened Common

  const SEP: Byte := 47
  const PLUS: Byte := 43
  const HASH: Byte := 35
  const NUL: Byte := 0

  const ANY_LEVEL: Str := [PLUS]
  const ANY_REST: Str := [HASH]

  /** The text cut at every separator; "" gives one empty segment. */
  function Split(s: Str): (segments: seq<Str>)
    ensures |segments| >= 1
    ensures |segments| == 1 ==> segments == [s]
  {
    if s == [] then [[]]
    else if s[0] == SEP then [[]] + Split(s[1..])
    else
      var rest := Split(s[1..]);
      assert [s[0]] + s[1..] == s;
      [[s[0]] + rest[0]] + rest[1..]
  }

  /** The levels a cursor shows: the segments, without one trailing empty segment. */
  function Levels(s: Str): (levels: seq<Str>)
    ensures |levels| >= 1
  {
    var segments := Split(s);
    if |segments| > 1 && segments[|segments| - 1] == [] then segments[..|segments| - 1] else segments
  }

  /** The levels still to come after the cursor has consumed everything before `tail`. */
  function TailLevels(tail: Str): seq<Str> {
    if tail == [] then [] else Levels(tail)
  }

  lemma {:induction false} SplitWord(w: Str, u: Str)
    requires SEP !in w
    ensures Split(w) == [w]
    ensures Split(w + [SEP] + u) == [w] + Split(u)
  {
    if w == [] {
      assert (w + [SEP] + u)[1..] == u;
    } else {
      SplitWord(w[1..], u);
      assert (w + [SEP] + u)[1..] == w[1..] + [SEP] + u;
      assert [w[0]] + w[1..] == w;
    }
  }

  lemma LevelsWord(w: Str, u: Str)
    requires SEP !in w
    ensures Levels(w) == [w]
    ensures Levels(w + [SEP] + u) == [w] + TailLevels(u)
  {
    SplitWord(w, u);
    var segments := [w] + Split(u);
    if u == [] {
      assert segments == [w, []];
    } else {
      assert segments[|segments| - 1] == Split(u)[|Split(u)| - 1];
      assert segments[..|segments| - 1] == [w] + Split(u)[..|Split(u)| - 1];
    }
  }

  lemma SuffixParts(s: Str, start: nat, pos: nat)
    requires start <= pos < |s|
    ensures s[start..] == s[start..pos] + [s[pos]] + s[pos + 1..]
  {
  }

  /** One cursor step: the word up to the next separator, then the levels of the tail. */
  lemma LevelsAt(topic: Str, start: nat, pos: nat)
    requires start <= pos <= |topic| && start < |topic|
    requires SEP !in topic[start..pos]
    requires pos < |topic| ==> topic[pos] == SEP
    ensures var next := if pos < |topic| then pos + 1 else pos;
      Levels(topic[start..]) == [topic[start..pos]] + TailLevels(topic[next..])
  {
    var w := topic[start..pos];
    if pos < |topic| {
      LevelsWord(w, topic[pos + 1..]);
      SuffixParts(topic, start, pos);
    } else {
      LevelsWord(w, []);
      assert topic[start..] == w && topic[pos..] == [];
    }
  }

  /** The shared state behind a topic iterator; an iterator itself is a nullable
      reference to one of these, and the end iterator is `null`. */
  class TopicCursor {
    const topic: Str
    var pos: nat
    var nextTopic: Str
    ghost var index: nat

    ghost predicate Valid()
      reads this
    {
      && pos <= |topic|
      && index < |Levels(topic)|
      && nextTopic == Levels(topic)[index]
      && TailLevels(topic[pos..]) == Levels(topic)[index + 1..]
    }

    constructor (topic: Str)
      ensures Valid() && this.topic == topic && index == 0
    {
      this.topic := topic;
      pos := 0;
      nextTopic := [];
      index := 0;
      new;
      assert topic[0..] == topic;
      var more := NextTopic();
      index := 0;
      assert topic == [] ==> topic[pos..] == [];
    }

    /** Moves to the next level; at the end of the text nothing moves. */
    method NextTopic() returns (more: bool)
      requires pos <= |topic|
      modifies this
      ensures pos <= |topic|
      ensures more <==> old(pos) < |topic|
      ensures !more ==> unchanged(this)
      ensures more ==> index == old(index) + 1
      ensures more ==> Levels(topic[old(pos)..]) == [nextTopic] + TailLevels(topic[pos..])
    {
      if pos == |topic| {
        return false;
      }
      if pos == 0 && topic[pos] == SEP {
        LevelsAt(topic, 0, 0);
        pos := pos + 1;
        nextTopic := [];
      } else {
        var start := pos;
        while pos < |topic| && topic[pos] != SEP
          invariant start <= pos <= |topic|
          invariant SEP !in topic[start..pos]
          invariant index == old(index)
        {
          assert topic[start..pos + 1] == topic[start..pos] + [topic[pos]];
          pos := pos + 1;
        }
        LevelsAt(topic, start, pos);
        nextTopic := topic[start..pos];
        if pos < |topic| {
          pos := pos + 1;
        }
      }
      index := index + 1;
      more := true;
    }

    /** `operator++` on an iterator that refers to this cursor: true while it still refers
        to it, false once that iterator (and no other copy) has become the end iterator. */
    method Advance() returns (alive: bool)
      requires Valid()
      modifies this
      ensures Valid()
      ensures alive <==> old(index) + 1 < |Levels(topic)|
      ensures index == if alive then old(index) + 1 else old(index)
    {
      ghost var levels := Levels(topic);
      alive := NextTopic();
      if alive {
        assert levels[old(index) + 1..] == [nextTopic] + TailLevels(topic[pos..]);
        assert levels[old(index) + 1..][0] == levels[index];
        assert levels[old(index) + 1..][1..] == levels[index + 1..];
      }
    }
  }

  // ---------------------------------------------------------------- validation

  /** What the character loop checks at position `i`. */
  predicate PositionOk(s: Str, i: nat, nulStartsLevel: bool)
    requires i < |s|
  {
    && (s[i] == PLUS || s[i] == HASH ==>
          i == 0 || s[i - 1] == SEP || (nulStartsLevel && s[i - 1] == NUL))
    && (s[i] == PLUS ==> i + 1 == |s| || s[i + 1] == SEP)
    && (s[i] == HASH ==> i + 1 == |s|)
  }

  predicate Accepted(s: Str) {
    forall i: nat | i < |s| :: PositionOk(s, i, true)
  }

  /** `TopicFilter::validate`: `previous` starts as NUL, so a NUL in the text looks like
      the start of the filter. */
  method ValidateFilter(filter: Str) returns (ok: bool)
    ensures ok <==> Accepted(filter)
  {
    var previous: Byte := NUL;
    var iter := 0;
    while iter < |filter|
      invariant 0 <= iter <= |filter|
      invariant previous == if iter == 0 then NUL else filter[iter - 1]
      invariant forall i: nat | i < iter :: PositionOk(filter, i, true)
    {
      var c := filter[iter];
      iter := iter + 1;
      if c == PLUS && ((previous != NUL && previous != SEP) || (iter != |filter| && filter[iter] != SEP)) {
        assert !PositionOk(filter, iter - 1, true);
        return false;
      } else if c == HASH {
        if (previous != NUL && previous != SEP) || iter != |filter| {
          assert !PositionOk(filter, iter - 1, true);
          return false;
        }
      }
      previous := c;
    }
    return true;
  }

  /** `TopicName::validate`. */
  method ValidateName(name: Str) returns (ok: bool)
    ensures ok <==> WildcardFree(name)
  {
    var i := 0;
    while i < |name|
      invariant 0 <= i <= |name|
      invariant PLUS !in name[..i] && HASH !in name[..i]
    {
      if name[i] == PLUS || name[i] == HASH {
        return false;
      }
      assert name[..i + 1] == name[..i] + [name[i]];
      i := i + 1;
    }
    assert name[..i] == name;
    return true;
  }

  predicate WildcardFree(name: Str) {
    PLUS !in name && HASH !in name
  }

  /** Section 4.7.1 of MQTT 3.1.1: a wildcard fills its whole level, and '#' is last. */
  predicate SegmentsOk(segments: seq<Str>) {
    forall j: nat | j < |segments| ::
      && (PLUS in segments[j] ==> segments[j] == ANY_LEVEL)
      && (HASH in segments[j] ==> segments[j] == ANY_REST && j == |segments| - 1)
  }

  predicate WildcardAfterNul(s: Str) {
    exists i: nat | 0 < i < |s| :: s[i - 1] == NUL && (s[i] == PLUS || s[i] == HASH)
  }

  predicate PositionsOk(s: Str) {
    forall i: nat | i < |s| :: PositionOk(s, i, false)
  }

  function FirstSep(s: Str): (n: nat)
    ensures n <= |s| && SEP !in s[..n]
    ensures n < |s| ==> s[n] == SEP
  {
    if s == [] || s[0] == SEP then 0
    else
      var n := 1 + FirstSep(s[1..]);
      assert s[..n] == [s[0]] + s[1..][..n - 1];
      n
  }

  /** A text is a single word, or a word, a separator and a shorter text. */
  lemma WordSplit(s: Str) returns (w: Str, u: Str, last: bool)
    ensures SEP !in w
    ensures last ==> s == w
    ensures !last ==> s == w + [SEP] + u
  {
    var n := FirstSep(s);
    w := s[..n];
    last := n == |s|;
    u := if last then [] else s[n + 1..];
  }

  /** Passing a separator forgets what stood before it. */
  lemma PositionsAfterSep(w: Str, u: Str, nul: bool)
    ensures var s := w + [SEP] + u;
      forall j: nat | j < |u| :: PositionOk(u, j, nul) == PositionOk(s, |w| + 1 + j, nul)
  {
  }

  /** A word's characters pass the check exactly when the word has no wildcard, or is one
      (and "#" only when nothing follows). `s` is the word alone, or goes on with a separator. */
  lemma WordPositions(w: Str, s: Str)
    requires SEP !in w
    requires w <= s && (w < s ==> s[|w|] == SEP)
    ensures (forall i: nat | i < |w| :: PositionOk(s, i, false))
      <==> (PLUS in w ==> w == ANY_LEVEL) && (HASH in w ==> w == ANY_REST && s == w)
  {
    assert forall i: nat | i < |w| :: s[i] == w[i] && w[i] in w;
    if forall i: nat | i < |w| :: PositionOk(s, i, false) {
      forall i: nat | i < |w| && (w[i] == PLUS || w[i] == HASH)
        ensures w == [w[i]] && (w[i] == HASH ==> s == w)
      {
        assert i > 0 ==> w[i - 1] != SEP;
        assert i + 1 < |w| ==> w[i + 1] != SEP;
        assert PositionOk(s, i, false);
      }
    }
  }

  lemma {:induction false} PositionsMeanSegments(s: Str)
    ensures PositionsOk(s) <==> SegmentsOk(Split(s))
    decreases |s|
  {
    var w, u, last := WordSplit(s);
    SplitWord(w, u);
    WordPositions(w, s);
    if last {
      SegmentsCons(w, []);
    } else {
      PositionsMeanSegments(u);
      PositionsAfterSep(w, u, false);
      SegmentsCons(w, Split(u));
      assert PositionsOk(s) <==> (forall i: nat | i < |w| :: PositionOk(s, i, false)) && PositionsOk(u) by {
        if (forall i: nat | i < |w| :: PositionOk(s, i, false)) && PositionsOk(u) {
          forall i: nat | i < |s| ensures PositionOk(s, i, false) {
            if i > |w| { assert PositionOk(u, i - |w| - 1, false); }
          }
        }
      }
    }
  }

  lemma SegmentsCons(w: Str, rest: seq<Str>)
    ensures SegmentsOk([w] + rest)
      <==> (PLUS in w ==> w == ANY_LEVEL) && (HASH in w ==> w == ANY_REST && rest == []) && SegmentsOk(rest)
  {
    var all := [w] + rest;
    assert all[0] == w;
    assert forall j: nat | j < |rest| :: all[j + 1] == rest[j];
    if SegmentsOk(all) {
      forall j: nat | j < |rest|
        ensures (PLUS in rest[j] ==> rest[j] == ANY_LEVEL)
             && (HASH in rest[j] ==> rest[j] == ANY_REST && j == |rest| - 1)
      {
        assert all[j + 1] == rest[j];
      }
    }
  }

  /** Validation is exactly the section 4.7.1 rule, except that it also lets through a
      wildcard that directly follows a NUL byte. */
  lemma ValidationExact(s: Str)
    ensures SegmentsOk(Split(s)) <==> Accepted(s) && !WildcardAfterNul(s)
  {
    PositionsMeanSegments(s);
    if PositionsOk(s) {
      forall i: nat | i < |s| ensures PositionOk(s, i, true) {
        assert PositionOk(s, i, false);
      }
      forall i: nat | 0 < i < |s| && (s[i] == PLUS || s[i] == HASH) ensures s[i - 1] != NUL {
        assert PositionOk(s, i, false);
      }
    }
    if Accepted(s) && !WildcardAfterNul(s) {
      forall i: nat | i < |s| ensures PositionOk(s, i, false) {
        assert PositionOk(s, i, true);
      }
    }
  }

  /** "\0+" is accepted although its only level is not the wildcard "+". */
  lemma NulHidesWildcard()
    ensures Accepted([NUL, PLUS]) && !SegmentsOk(Split([NUL, PLUS]))
  {
    var s: Str := [NUL, PLUS];
    assert WildcardAfterNul(s) by {
      assert s[1 - 1] == NUL && s[1] == PLUS;
    }
    ValidationExact(s);
  }

  /** Whether a list of levels can be stored: '#' only as the last level. */
  predicate Addable(levels: seq<Str>) {
    forall j: nat | j + 1 < |levels| :: levels[j] != ANY_REST
  }

  /** Every accepted filter (NUL bytes or not) can be stored. */
  lemma {:induction false} AcceptedIsAddable(s: Str)
    requires Accepted(s)
    ensures Addable(Levels(s))
    decreases |s|
  {
    var w, u, last := WordSplit(s);
    LevelsWord(w, u);
    if !last && u != [] {
      PositionsAfterSep(w, u, true);
      forall j: nat | j < |u| ensures PositionOk(u, j, true) {
        assert PositionOk(s, |w| + 1 + j, true);
      }
      AcceptedIsAddable(u);
      assert w != ANY_REST by {
        assert PositionOk(s, 0, true);
      }
    }
  }

  /** The levels of a wildcard-free name are wildcard-free, so none of them is "+" or "#". */
  lemma {:induction false} NameLevels(s: Str)
    requires WildcardFree(s)
    ensures forall j: nat | j < |Levels(s)| :: WildcardFree(Levels(s)[j])
    decreases |s|
  {
    var w, u, last := WordSplit(s);
    LevelsWord(w, u);
    assert forall c | c in w :: c in s;
    if !last && u != [] {
      assert forall c | c in u :: c in s;
      NameLevels(u);
    }
  }

  // ---------------------------------------------------------------- filter lists

  datatype TopicFilter = TopicFilter(filter: Str, qos: nat)

  /** `std::string` comparison. */
  predicate LexLess(a: Str, b: Str) {
    if b == [] then false
    else if a == [] then true
    else a[0] < b[0] || (a[0] == b[0] && LexLess(a[1..], b[1..]))
  }

  lemma {:induction false} LexTrichotomy(a: Str, b: Str)
    requires !LexLess(a, b) && !LexLess(b, a)
    ensures a == b
  {
    if a != [] && b != [] {
      LexTrichotomy(a[1..], b[1..]);
      assert a == [a[0]] + a[1..] && b == [b[0]] + b[1..];
    }
  }

  /** `TopicFilter::operator<`, which is not a strict weak order. */
  predicate FilterLess(a: TopicFilter, b: TopicFilter) {
    LexLess(a.filter, b.filter) || a.qos < b.qos
  }

  /** Two filters can each be less than the other. */
  lemma OrderIsNotAsymmetric()
    ensures exists a, b :: FilterLess(a, b) && FilterLess(b, a)
  {
    var a, b := TopicFilter([], 1), TopicFilter([97], 0);
    assert FilterLess(a, b) && FilterLess(b, a);
  }

  /** The merge loop of `std::set_difference`, on lists that need not be sorted. */
  function SetDifference(a: seq<TopicFilter>, b: seq<TopicFilter>): seq<TopicFilter> {
    if a == [] then []
    else if b == [] then a
    else if FilterLess(a[0], b[0]) then [a[0]] + SetDifference(a[1..], b)
    else if FilterLess(b[0], a[0]) then SetDifference(a, b[1..])
    else SetDifference(a[1..], b[1..])
  }

  method FindDifference(toAdd: seq<TopicFilter>, current: seq<TopicFilter>) returns (result: seq<TopicFilter>)
    ensures result == SetDifference(toAdd, current)
  {
    result := [];
    var i, j := 0, 0;
    while i < |toAdd| && j < |current|
      invariant 0 <= i <= |toAdd| && 0 <= j <= |current|
      invariant result + SetDifference(toAdd[i..], current[j..]) == SetDifference(toAdd, current)
      decreases |toAdd| - i + |current| - j
    {
      assert toAdd[i..][1..] == toAdd[i + 1..] && current[j..][1..] == current[j + 1..];
      if FilterLess(toAdd[i], current[j]) {
        result := result + [toAdd[i]];
        i := i + 1;
      } else {
        if !FilterLess(current[j], toAdd[i]) {
          i := i + 1;
        }
        j := j + 1;
      }
    }
    result := result + toAdd[i..];
  }

  /** Whatever the order of the two lists, an element is dropped only when it is already
      present: the stored list together with the difference is exactly the union. */
  lemma {:induction false} DifferenceCompletesUnion(a: seq<TopicFilter>, b: seq<TopicFilter>)
    ensures forall f :: f in b + SetDifference(a, b) <==> f in a || f in b
    ensures multiset(SetDifference(a, b)) <= multiset(a)
    decreases |a| + |b|
  {
    if a != [] && b != [] {
      assert a == [a[0]] + a[1..] && b == [b[0]] + b[1..];
      if FilterLess(a[0], b[0]) {
        DifferenceCompletesUnion(a[1..], b);
      } else if FilterLess(b[0], a[0]) {
        DifferenceCompletesUnion(a, b[1..]);
      } else {
        LexTrichotomy(a[0].filter, b[0].filter);
        assert a[0] == b[0];
        DifferenceCompletesUnion(a[1..], b[1..]);
      }
    }
  }

  /** Subscribing again with the very list that is stored adds nothing. */
  lemma {:induction false} DifferenceWithItself(a: seq<TopicFilter>)
    ensures SetDifference(a, a) == []
  {
    if a != [] {
      LexIrreflexive(a[0].filter);
      DifferenceWithItself(a[1..]);
    }
  }

  lemma {:induction false} LexIrreflexive(a: Str)
    ensures !LexLess(a, a)
  {
    if a != [] {
      LexIrreflexive(a[1..]);
    }
  }
}

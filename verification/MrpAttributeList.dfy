/**
 The linked list of attributes, which `sort_attrs` rearranges in place, and the events that go to every
 attribute on it (module_avb_srp/src/avb_mrp.c).
 */
module MrpAttributeList {
  import opened MrpStateMachine
  import opened MrpEvents
  import opened MrpPdu

  // ---------- what sorting does, on sequences ----------

  /** The nodes that stay: each one that compares before its successor, and the last. */
  function Kept(before: (int, int) -> bool, s: seq<int>): seq<int> {
    if |s| <= 1 then s
    else if before(s[0], s[1]) then [s[0]] + Kept(before, s[1..])
    else Kept(before, s[1..])
  }

  /** The nodes taken out, pushed on `stack` one after the other. */
  function TakenOut(before: (int, int) -> bool, s: seq<int>, stack: seq<int>): seq<int> {
    if |s| <= 1 then stack
    else if before(s[0], s[1]) then TakenOut(before, s[1..], stack)
    else TakenOut(before, s[1..], [s[0]] + stack)
  }

  /** `x` put behind the first node it fits behind, or behind the last. */
  function InsertBehind(before: (int, int) -> bool, x: int, s: seq<int>): (r: seq<int>)
    requires s != []
    ensures |r| == |s| + 1
  {
    if |s| == 1 || (before(s[0], x) && before(x, s[1])) then [s[0], x] + s[1..]
    else [s[0]] + InsertBehind(before, x, s[1..])
  }

  function Insert(before: (int, int) -> bool, x: int, s: seq<int>): seq<int> {
    if s == [] || before(x, s[0]) then [x] + s else InsertBehind(before, x, s)
  }

  function InsertAll(before: (int, int) -> bool, stack: seq<int>, s: seq<int>): seq<int> {
    if stack == [] then s else InsertAll(before, stack[1..], Insert(before, stack[0], s))
  }

  function Rearranged(before: (int, int) -> bool, s: seq<int>): seq<int> {
    InsertAll(before, TakenOut(before, s, []), Kept(before, s))
  }

  // ---------- no node is lost, whatever the comparison ----------

  lemma HeadAndTail(s: seq<int>)
    requires s != []
    ensures multiset(s) == multiset{s[0]} + multiset(s[1..])
  {
    assert s == [s[0]] + s[1..];
  }

  lemma {:induction false} SplitKeepsAll(before: (int, int) -> bool, s: seq<int>, stack: seq<int>)
    ensures multiset(Kept(before, s)) + multiset(TakenOut(before, s, stack)) == multiset(s) + multiset(stack)
    ensures s != [] ==> Kept(before, s) != []
  {
    if |s| <= 1 {
    } else {
      HeadAndTail(s);
      if before(s[0], s[1]) {
        var rest := Kept(before, s[1..]);
        SplitKeepsAll(before, s[1..], stack);
        assert multiset([s[0]] + rest) == multiset{s[0]} + multiset(rest);
        var taken := TakenOut(before, s[1..], stack);
        assert multiset{s[0]} + multiset(rest) + multiset(taken) == multiset{s[0]} + (multiset(rest) + multiset(taken));
        assert multiset{s[0]} + multiset(s[1..]) + multiset(stack)
            == multiset{s[0]} + (multiset(s[1..]) + multiset(stack));
      } else {
        SplitKeepsAll(before, s[1..], [s[0]] + stack);
      }
    }
  }

  lemma {:induction false} InsertBehindAdds(before: (int, int) -> bool, x: int, s: seq<int>)
    requires s != []
    ensures multiset(InsertBehind(before, x, s)) == multiset(s) + multiset{x}
  {
    HeadAndTail(s);
    if |s| == 1 || (before(s[0], x) && before(x, s[1])) {
    } else {
      InsertBehindAdds(before, x, s[1..]);
    }
  }

  lemma {:induction false} InsertAllKeepsAll(before: (int, int) -> bool, stack: seq<int>, s: seq<int>)
    ensures multiset(InsertAll(before, stack, s)) == multiset(stack) + multiset(s)
  {
    if stack == [] {
    } else {
      HeadAndTail(stack);
      var t := Insert(before, stack[0], s);
      if s != [] && !before(stack[0], s[0]) {
        InsertBehindAdds(before, stack[0], s);
      }
      assert multiset(t) == multiset(s) + multiset{stack[0]};
      InsertAllKeepsAll(before, stack[1..], t);
    }
  }

  /** Sorting is a permutation for every comparison function, even one that is no order at all. */
  lemma RearrangedIsPermutation(before: (int, int) -> bool, s: seq<int>)
    ensures multiset(Rearranged(before, s)) == multiset(s)
  {
    SplitKeepsAll(before, s, []);
    InsertAllKeepsAll(before, TakenOut(before, s, []), Kept(before, s));
    var kept, taken := Kept(before, s), TakenOut(before, s, []);
    var none: seq<int> := [];
    assert multiset(kept) + multiset(taken) == multiset(s) + multiset(none);
    assert multiset(s) + multiset(none) == multiset(s);
    assert multiset(taken) + multiset(kept) == multiset(s);
    assert Rearranged(before, s) == InsertAll(before, taken, kept);
  }

  // ---------- when the result is sorted ----------

  predicate Ordered(before: (int, int) -> bool, s: seq<int>) {
    forall i :: 0 <= i < |s| - 1 ==> before(s[i], s[i + 1])
  }

  lemma OrderedTail(before: (int, int) -> bool, s: seq<int>)
    requires |s| > 1
    ensures Ordered(before, s) <==> before(s[0], s[1]) && Ordered(before, s[1..])
  {
    if before(s[0], s[1]) && Ordered(before, s[1..]) {
      forall i | 0 <= i < |s| - 1 ensures before(s[i], s[i + 1]) {
        assert i > 0 ==> s[1..][i - 1] == s[i] && s[1..][i] == s[i + 1];
      }
    }
    if Ordered(before, s) {
      forall i | 0 <= i < |s| - 2 ensures before(s[1..][i], s[1..][i + 1]) {
        assert before(s[i + 1], s[i + 2]);
      }
    }
  }

  /** A list that is in order already is left exactly as it is. */
  lemma {:induction false} OrderedIsUnchanged(before: (int, int) -> bool, s: seq<int>)
    requires Ordered(before, s)
    ensures Kept(before, s) == s && TakenOut(before, s, []) == [] && Rearranged(before, s) == s
  {
    if |s| <= 1 {
    } else {
      OrderedTail(before, s);
      OrderedIsUnchanged(before, s[1..]);
    }
  }

  predicate Transitive(before: (int, int) -> bool, s: set<int>) {
    forall x, y, z :: x in s && y in s && z in s && before(x, y) && before(y, z) ==> before(x, z)
  }

  predicate Total(before: (int, int) -> bool, s: set<int>) {
    forall x, y :: x in s && y in s && x != y ==> before(x, y) || before(y, x)
  }

  function Elements(s: seq<int>): set<int> {
    set x | x in s
  }

  /** Inserting keeps what is ordered ordered, and repairs nothing that is not. */
  lemma {:induction false} InsertBehindOrdered(before: (int, int) -> bool, x: int, s: seq<int>, all: set<int>)
    requires s != [] && x in all && x !in s && Elements(s) <= all
    requires Transitive(before, all) && Total(before, all) && !before(x, s[0])
    ensures Ordered(before, InsertBehind(before, x, s)) <==> Ordered(before, s)
    ensures InsertBehind(before, x, s)[0] == s[0]
  {
    var r := InsertBehind(before, x, s);
    assert s[0] in s && s[0] in Elements(s);
    assert x != s[0] && s[0] in all;
    assert before(s[0], x);
    if |s| == 1 {
    } else {
      OrderedTail(before, s);
      OrderedTail(before, r);
      assert s[1] in Elements(s);
      if before(x, s[1]) {
        assert r[1..] == [x] + s[1..];
        OrderedTail(before, r[1..]);
        assert r[1..][1..] == s[1..] && r[1..][1] == s[1];
        assert before(s[0], s[1]);
      } else {
        assert Elements(s[1..]) <= Elements(s);
        InsertBehindOrdered(before, x, s[1..], all);
        assert r[1..] == InsertBehind(before, x, s[1..]);
      }
    }
  }

  lemma InsertOrdered(before: (int, int) -> bool, x: int, s: seq<int>, all: set<int>)
    requires s != [] && x in all && x !in s && Elements(s) <= all
    requires Transitive(before, all) && Total(before, all)
    ensures Ordered(before, Insert(before, x, s)) <==> Ordered(before, s)
  {
    if before(x, s[0]) {
      OrderedTail(before, [x] + s);
      assert ([x] + s)[1..] == s;
    } else {
      InsertBehindOrdered(before, x, s, all);
    }
  }

  predicate Distinct(s: seq<int>) {
    forall i, j :: 0 <= i < j < |s| ==> s[i] != s[j]
  }

  lemma {:induction false} InsertAllOrdered(before: (int, int) -> bool, stack: seq<int>, s: seq<int>, all: set<int>)
    requires s != [] && Distinct(stack) && Elements(stack) !! Elements(s) && Elements(stack) + Elements(s) <= all
    requires Transitive(before, all) && Total(before, all)
    ensures Ordered(before, InsertAll(before, stack, s)) <==> Ordered(before, s)
  {
    if stack == [] {
    } else {
      var t := Insert(before, stack[0], s);
      assert stack[0] in Elements(stack);
      assert stack[0] !in s by { assert stack[0] !in Elements(s); }
      InsertOrdered(before, stack[0], s, all);
      InsertElements(before, stack[0], s);
      assert forall y :: y in stack[1..] ==> y in stack && y != stack[0];
      InsertAllOrdered(before, stack[1..], t, all);
    }
  }

  lemma InsertElements(before: (int, int) -> bool, x: int, s: seq<int>)
    ensures Elements(Insert(before, x, s)) == Elements(s) + {x}
    ensures Insert(before, x, s) != []
  {
    var t := Insert(before, x, s);
    if s != [] && !before(x, s[0]) {
      InsertBehindAdds(before, x, s);
      forall y ensures y in Elements(t) <==> y in Elements(s) || y == x {
        assert y in t <==> y in multiset(t);
        assert y in s <==> y in multiset(s);
      }
    }
  }

  lemma {:induction false} SplitElements(before: (int, int) -> bool, s: seq<int>, stack: seq<int>)
    requires Distinct(s) && Distinct(stack) && Elements(s) !! Elements(stack)
    ensures Distinct(TakenOut(before, s, stack)) && Elements(TakenOut(before, s, stack)) !! Elements(Kept(before, s))
    ensures Elements(TakenOut(before, s, stack)) + Elements(Kept(before, s)) == Elements(s) + Elements(stack)
    ensures Elements(Kept(before, s)) <= Elements(s)
  {
    if |s| <= 1 {
    } else {
      assert s[0] in Elements(s);
      assert s[0] !in s[1..];
      assert Elements(s) == {s[0]} + Elements(s[1..]);
      if before(s[0], s[1]) {
        assert s[0] !in Elements(stack);
        SplitElements(before, s[1..], stack);
        assert Elements(Kept(before, s)) == {s[0]} + Elements(Kept(before, s[1..]));
        assert s[0] !in TakenOut(before, s[1..], stack) by { TakenFromBoth(before, s[1..], stack); }
      } else {
        assert s[0] !in stack by { assert s[0] !in Elements(stack); }
        assert Elements([s[0]] + stack) == {s[0]} + Elements(stack);
        SplitElements(before, s[1..], [s[0]] + stack);
      }
    }
  }

  lemma {:induction false} TakenFromBoth(before: (int, int) -> bool, s: seq<int>, stack: seq<int>)
    ensures forall y :: y in TakenOut(before, s, stack) ==> y in s || y in stack
  {
    if |s| <= 1 {
    } else if before(s[0], s[1]) {
      TakenFromBoth(before, s[1..], stack);
    } else {
      TakenFromBoth(before, s[1..], [s[0]] + stack);
    }
  }

  /**
   One pass sorts a list exactly when the nodes that stay are in order among themselves: for any strict total
   order, the result is ordered if and only if `Kept` is.
   */
  lemma SortedExactlyWhenKeptIs(before: (int, int) -> bool, s: seq<int>)
    requires s != [] && Distinct(s) && Transitive(before, Elements(s)) && Total(before, Elements(s))
    ensures Ordered(before, Rearranged(before, s)) <==> Ordered(before, Kept(before, s))
  {
    SplitElements(before, s, []);
    SplitKeepsAll(before, s, []);
    InsertAllOrdered(before, TakenOut(before, s, []), Kept(before, s), Elements(s));
  }

  /** A list one pass does not sort. */
  lemma OnePassMayNotSort()
    ensures Rearranged((x: int, y: int) => x < y, [2, 9, 1]) == [2, 1, 9]
  {
    var lt := (x: int, y: int) => x < y;
    assert [2, 9, 1][1..] == [9, 1] && [9, 1][1..] == [1];
    assert Kept(lt, [9, 1]) == [1];
    assert Kept(lt, [2, 9, 1]) == [2, 1];
    assert TakenOut(lt, [9, 1], []) == TakenOut(lt, [1], [9]);
    assert [2, 1][1..] == [1];
    assert InsertBehind(lt, 9, [1]) == [1, 9];
    assert Insert(lt, 9, [2, 1]) == [2, 1, 9];
    assert [9][1..] == [];
  }

  // ---------- the order attributes are sorted by ----------

  /** What `compare_attr` looks at: an unused slot, a disabled one, or an attribute with its type and key. */
  datatype Slot = UnusedSlot | DisabledSlot | UsedSlot(kind: nat, key: int)

  /**
   `compare_attr`: used slots first, by type and then by key; disabled ones, then unused ones, by address. The key
   stands for the local id of a talker's source, the stream id of a listener's sink, and the address otherwise.
   */
  predicate CompareAttr(slots: map<int, Slot>, a: int, b: int) {
    a in slots && b in slots &&
    match (slots[a], slots[b])
    case (UnusedSlot, UnusedSlot) => a < b
    case (UnusedSlot, _) => false
    case (_, UnusedSlot) => true
    case (DisabledSlot, DisabledSlot) => a < b
    case (DisabledSlot, _) => false
    case (_, DisabledSlot) => true
    case (UsedSlot(k, x), UsedSlot(l, y)) => if k != l then k < l else x < y
  }

  /** The comparison is a strict order, total exactly when no two used slots share type and key. */
  lemma CompareIsOrder(slots: map<int, Slot>)
    ensures Transitive((a, b) => CompareAttr(slots, a, b), slots.Keys)
    ensures forall a :: !CompareAttr(slots, a, a)
    ensures Total((a, b) => CompareAttr(slots, a, b), slots.Keys) <==>
            forall a, b :: a in slots && b in slots && a != b ==> !slots[a].UsedSlot? || slots[a] != slots[b]
  {
    var before := (a, b) => CompareAttr(slots, a, b);
    if Total(before, slots.Keys) {
      forall a, b | a in slots && b in slots && a != b ensures !slots[a].UsedSlot? || slots[a] != slots[b] {
        assert before(a, b) || before(b, a);
      }
    }
  }

  /** What a slot is sorted by: used, disabled or unused first; then its type, if it is used; then key or address. */
  function SortKey(slots: map<int, Slot>, a: int): (nat, nat, int)
    requires a in slots
  {
    match slots[a]
    case UsedSlot(kind, key) => (0, kind, key)
    case DisabledSlot => (1, 0, a)
    case UnusedSlot => (2, 0, a)
  }

  /** The cascade of tests is the lexicographic order of these. */
  lemma CompareIsLexicographic(slots: map<int, Slot>, a: int, b: int)
    requires a in slots && b in slots
    ensures var (c, k, x), (d, l, y) := SortKey(slots, a), SortKey(slots, b);
            CompareAttr(slots, a, b) <==> c < d || (c == d && (k < l || (k == l && x < y)))
  {
  }

  // ---------- linked nodes ----------

  const NULL := -1

  function HeadOr(s: seq<int>, end: int): int {
    if s == [] then end else s[0]
  }

  /** Following `next` from `head` visits the nodes of `s` in order and then arrives at `end`. */
  predicate Segment(next: seq<int>, head: int, s: seq<int>, end: int)
    decreases |s|
  {
    if s == [] then head == end
    else head == s[0] && 0 <= head < |next| && Segment(next, next[head], s[1..], end)
  }

  lemma {:induction false} SegmentSplit(next: seq<int>, head: int, a: seq<int>, b: seq<int>, end: int)
    ensures Segment(next, head, a + b, end) <==>
            Segment(next, head, a, HeadOr(b, end)) && Segment(next, HeadOr(b, end), b, end)
    decreases |a|
  {
    if a == [] {
      assert a + b == b;
    } else {
      assert (a + b)[1..] == a[1..] + b;
      if 0 <= head < |next| {
        SegmentSplit(next, next[head], a[1..], b, end);
      }
    }
  }

  /** Links of other nodes do not matter. */
  lemma {:induction false} SegmentFrame(next: seq<int>, other: seq<int>, head: int, s: seq<int>, end: int)
    requires Segment(next, head, s, end) && |next| == |other|
    requires forall x :: x in s && 0 <= x < |next| ==> other[x] == next[x]
    ensures Segment(other, head, s, end)
    decreases |s|
  {
    if s == [] {
    } else {
      SegmentFrame(next, other, next[head], s[1..], end);
    }
  }

  /** The last node of a segment made to point elsewhere. */
  lemma {:induction false} SegmentRelink(next: seq<int>, head: int, s: seq<int>, end: int, to: int)
    requires s != [] && Distinct(s) && Segment(next, head, s, end)
    ensures 0 <= s[|s| - 1] < |next|
    ensures Segment(next[s[|s| - 1] := to], head, s, to)
    decreases |s|
  {
    if |s| == 1 {
    } else {
      SegmentRelink(next, next[head], s[1..], end, to);
    }
  }

  lemma {:induction false} SegmentInRange(next: seq<int>, head: int, s: seq<int>, end: int)
    requires Segment(next, head, s, end)
    ensures forall x :: x in s ==> 0 <= x < |next|
    decreases |s|
  {
    if s == [] {
    } else {
      SegmentInRange(next, next[head], s[1..], end);
      assert s == [s[0]] + s[1..];
    }
  }

  /** The first node, `x`, pushed on `taken`. */
  lemma UnlinkFirst(next: seq<int>, x: int, rest: seq<int>, top: int, taken: seq<int>)
    requires Segment(next, x, [x] + rest, NULL) && Segment(next, top, taken, NULL)
    requires x !in rest && x !in taken
    ensures 0 <= x < |next|
    ensures Segment(next[x := top], HeadOr(rest, NULL), rest, NULL)
    ensures Segment(next[x := top], x, [x] + taken, NULL)
  {
    var done := next[x := top];
    SegmentSplit(next, x, [x], rest, NULL);
    SegmentFrame(next, done, HeadOr(rest, NULL), rest, NULL);
    SegmentFrame(next, done, top, taken, NULL);
    assert ([x] + taken)[1..] == taken;
  }

  /** `x` taken out from behind `p`, the last node that stays, and pushed on `taken`. */
  lemma Unlink(next: seq<int>, first: int, kept: seq<int>, x: int, rest: seq<int>, top: int, taken: seq<int>)
    requires Segment(next, first, kept + ([x] + rest), NULL) && Segment(next, top, taken, NULL)
    requires kept != [] && Distinct(kept) && x !in kept && x !in rest && x !in taken
    requires kept[|kept| - 1] !in rest && kept[|kept| - 1] !in taken
    ensures var p := kept[|kept| - 1];
            0 <= p < |next| && 0 <= x < |next| &&
            var done := next[p := HeadOr(rest, NULL)][x := top];
            Segment(done, first, kept + rest, NULL) && Segment(done, x, [x] + taken, NULL)
  {
    var p, after := kept[|kept| - 1], HeadOr(rest, NULL);
    SegmentSplit(next, first, kept, [x] + rest, NULL);
    SegmentRelink(next, first, kept, x, after);
    var linked := next[p := after];
    SegmentFrame(next, linked, x, [x] + rest, NULL);
    SegmentFrame(next, linked, top, taken, NULL);
    UnlinkFirst(linked, x, rest, top, taken);
    SegmentFrame(linked, linked[x := top], first, kept, after);
    SegmentSplit(linked[x := top], first, kept, rest, NULL);
  }

  /** `x` put between the last node of `front` and what follows it. */
  lemma Link(next: seq<int>, first: int, front: seq<int>, x: int, rest: seq<int>)
    requires Segment(next, first, front + rest, NULL) && front != [] && 0 <= x < |next|
    requires Distinct(front) && x !in front && x !in rest && front[|front| - 1] !in rest
    ensures 0 <= front[|front| - 1] < |next|
    ensures var y := front[|front| - 1];
            next[y] == HeadOr(rest, NULL) && Segment(next[x := next[y]][y := x], first, front + ([x] + rest), NULL)
  {
    SegmentSplit(next, first, front, rest, NULL);
    LastLink(next, first, front, HeadOr(rest, NULL));
    var y := front[|front| - 1];
    var linked := next[x := next[y]];
    SegmentFrame(next, linked, first, front, HeadOr(rest, NULL));
    SegmentRelink(linked, first, front, HeadOr(rest, NULL), x);
    var done := linked[y := x];
    SegmentFrame(next, done, HeadOr(rest, NULL), rest, NULL);
    assert ([x] + rest)[1..] == rest;
    SegmentSplit(done, first, front, [x] + rest, NULL);
  }

  lemma {:induction false} LastLink(next: seq<int>, head: int, s: seq<int>, end: int)
    requires s != [] && Segment(next, head, s, end)
    ensures 0 <= s[|s| - 1] < |next| && next[s[|s| - 1]] == end
    decreases |s|
  {
    if |s| == 1 {
    } else {
      LastLink(next, next[head], s[1..], end);
    }
  }

  // ---------- the list itself ----------

  class AttributeList {
    var first: int
    const next: array<int>
    const attrs: seq<MrpAttribute>
    const types: seq<AttributeType>

    /** `mrp_init`: all slots, one after the other. */
    constructor (attrs: seq<MrpAttribute>, types: seq<AttributeType>)
      requires |attrs| == |types| > 0
      ensures this.attrs == attrs && this.types == types && fresh(next) && next.Length == |attrs|
      ensures Lists(seq(|attrs|, i => i))
    {
      this.attrs, this.types := attrs, types;
      this.next := new int[|attrs|](i => if i == |attrs| - 1 then NULL else i + 1);
      first := 0;
      new;
      InitialSegment(next[..], 0);
      assert seq(|attrs| - 0, i => 0 + i) == seq(|attrs|, i => i);
    }

    /** The nodes of the list, in order. */
    ghost predicate Lists(s: seq<int>)
      reads this, next
    {
      next.Length == |attrs| == |types| && s != [] && Distinct(s) && Segment(next[..], first, s, NULL)
    }

    /** One node put back where it fits: the second half of `sort_attrs`. */
    method InsertNode(before: (int, int) -> bool, x: int, ghost s: seq<int>)
      requires Lists(s) && x !in s && 0 <= x < next.Length
      modifies this`first, next
      ensures Lists(Insert(before, x, s))
      ensures forall k :: 0 <= k < next.Length && k !in s && k != x ==> next[k] == old(next[k])
    {
      InsertElements(before, x, s);
      InsertDistinct(before, x, s);
      if before(x, first) {
        SegmentFrame(next[..], next[..][x := first], first, s, NULL);
        next[x] := first;
        first := x;
        assert ([x] + s)[1..] == s;
      } else {
        InsertBehindNode(before, x, s);
      }
    }

    method InsertBehindNode(before: (int, int) -> bool, x: int, ghost s: seq<int>)
      requires Lists(s) && x !in s && 0 <= x < next.Length
      modifies next
      ensures Segment(next[..], first, InsertBehind(before, x, s), NULL)
      ensures forall k :: 0 <= k < next.Length && k !in s && k != x ==> next[k] == old(next[k])
    {
      ghost var i := 0;
      var ins := first;
      while ins != NULL
        invariant ins != NULL ==> i < |s| && ins == s[i] && next[..] == old(next[..])
        invariant ins != NULL ==> InsertBehind(before, x, s) == s[..i] + InsertBehind(before, x, s[i..])
        invariant ins == NULL ==> Segment(next[..], first, InsertBehind(before, x, s), NULL)
        invariant forall k :: 0 <= k < next.Length && k !in s && k != x ==> next[k] == old(next[k])
        decreases if ins == NULL then 0 else 1 + |s| - i
      {
        LinkAt(next[..], first, s, i, x);
        var insNext := next[ins];
        if insNext == NULL || (before(ins, x) && before(x, insNext)) {
          InsertHere(before, x, s, i);
          next[x] := next[ins];
          next[ins] := x;
          insNext := NULL;
        } else {
          InsertLater(before, x, s, i);
          i := i + 1;
        }
        ins := insNext;
      }
    }

    /** One node unlinked and pushed on the nodes to insert. */
    method TakeOne(prev: int, attr: int, following: int, toInsert: int,
                   ghost kept: seq<int>, ghost others: seq<int>, ghost taken: seq<int>)
      requires Segment(next[..], first, kept + ([attr] + others), NULL) && Segment(next[..], toInsert, taken, NULL)
      requires following == HeadOr(others, NULL)
      requires prev == if kept == [] then NULL else kept[|kept| - 1]
      requires Apart(kept, [attr] + others, taken)
      modifies this`first, next
      ensures Segment(next[..], first, kept + others, NULL) && Segment(next[..], attr, [attr] + taken, NULL)
      ensures forall k :: 0 <= k < next.Length && k !in kept && k != attr ==> next[k] == old(next[k])
    {
      ApartTail(kept, [attr] + others, taken);
      SegmentInRange(next[..], first, kept + ([attr] + others), NULL);
      if kept == [] {
        assert kept + ([attr] + others) == [attr] + others && kept + others == others;
        UnlinkFirst(next[..], attr, others, toInsert, taken);
      } else {
        assert prev in kept;
        Unlink(next[..], first, kept, attr, others, toInsert, taken);
      }
      if prev != NULL {
        next[prev] := following;
      } else {
        first := following;
      }
      next[attr] := toInsert;
    }

    /**
     The first half of `sort_attrs`: nodes that do not compare before their successor are taken out, the latest
     on top.
     */
    method TakeOut(before: (int, int) -> bool, ghost s: seq<int>) returns (toInsert: int)
      requires Lists(s)
      modifies this`first, next
      ensures Segment(next[..], first, Kept(before, s), NULL)
      ensures Segment(next[..], toInsert, TakenOut(before, s, []), NULL)
      ensures forall k :: 0 <= k < next.Length && k !in s ==> next[k] == old(next[k])
    {
      ghost var kept: seq<int>, rest, taken: seq<int> := [], s, [];
      var attr, prev := first, NULL;
      toInsert := NULL;
      assert kept + rest == s;
      SegmentInRange(next[..], first, s, NULL);
      assert s[0] in s;
      while attr != NULL
        invariant kept + Kept(before, rest) == Kept(before, s)
        invariant TakenOut(before, rest, taken) == TakenOut(before, s, [])
        invariant Segment(next[..], first, kept + rest, NULL) && Segment(next[..], toInsert, taken, NULL)
        invariant Apart(kept, rest, taken) && attr == HeadOr(rest, NULL) && (attr == NULL ==> rest == [])
        invariant rest != [] ==> prev == if kept == [] then NULL else kept[|kept| - 1]
        invariant PartsOf(kept, rest, s)
        invariant forall k :: 0 <= k < next.Length && k !in s ==> next[k] == old(next[k])
        decreases |rest|
      {
        NodeAt(next[..], first, kept, rest);
        ghost var others := rest[1..];
        ApartTail(kept, rest, taken);
        PartsTail(kept, rest, s);
        KeptStep(before, kept, rest, taken);
        var following := next[attr];
        if following != NULL && !before(attr, following) {
          TakeOne(prev, attr, following, toInsert, kept, others, taken);
          toInsert := attr;
          taken := [attr] + taken;
        } else {
          if following != NULL {
            prev := attr;
          }
          kept := kept + [attr];
        }
        attr := following;
        rest := others;
      }
      assert rest == [] && kept + rest == kept;
    }

    /** One node put back. */
    method PutBack(before: (int, int) -> bool, attr: int, ghost stack: seq<int>, ghost list: seq<int>,
                   ghost s: seq<int>)
      requires Lists(list) && Segment(next[..], attr, stack, NULL) && attr != NULL && Remain(stack, list, s)
      modifies this`first, next
      ensures stack != [] && Lists(Insert(before, attr, list))
      ensures Remain(stack[1..], Insert(before, attr, list), s)
      ensures 0 <= attr < next.Length && Segment(next[..], old(next[attr]), stack[1..], NULL)
      ensures forall k :: 0 <= k < next.Length && k !in s ==> next[k] == old(next[k])
    {
      StackHead(next[..], attr, stack, list, s);
      InsertElements(before, attr, list);
      ghost var was := next[..];
      InsertNode(before, attr, list);
      SegmentFrame(was, next[..], was[attr], stack[1..], NULL);
    }

    /** `sort_attrs`. */
    method SortAttrs(before: (int, int) -> bool, ghost s: seq<int>)
      requires Lists(s)
      modifies this`first, next
      ensures Lists(Rearranged(before, s))
      ensures forall k :: 0 <= k < next.Length && k !in s ==> next[k] == old(next[k])
    {
      ghost var list, stack := Kept(before, s), TakenOut(before, s, []);
      SplitElements(before, s, []);
      SplitKeepsAll(before, s, []);
      KeptDistinct(before, s);
      var attr := TakeOut(before, s);
      while attr != NULL
        invariant Lists(list) && Segment(next[..], attr, stack, NULL) && Remain(stack, list, s)
        invariant InsertAll(before, stack, list) == Rearranged(before, s)
        invariant forall k :: 0 <= k < next.Length && k !in s ==> next[k] == old(next[k])
        decreases |stack|
      {
        assert stack != [] && attr == stack[0] && 0 <= attr < next.Length;
        var following := next[attr];
        PutBack(before, attr, stack, list, s);
        list, stack := Insert(before, attr, list), stack[1..];
        attr := following;
      }
    }

    // ---------- events for everyone ----------

    ghost predicate Own() {
      |attrs| == |types| && forall i, j :: 0 <= i < j < |attrs| ==> attrs[i] != attrs[j]
    }

    /** What one event leaves an attribute with: nothing changes unless it is active and meant. */
    function Stepped(k: int, s: State, e: Event, meant: AttributeType -> bool): State
      requires 0 <= k < |types|
    {
      if s.applicant.Unused? || s.applicant.Disabled? || !meant(types[k]) then s else Next(s, e, 0)
    }

    /** What the visited attributes hand to `doTx`, in the order of the list. */
    function Handed(s: seq<int>, states: seq<State>, e: Event, meant: AttributeType -> bool): seq<(int, ThreeEvent)>
    {
      if s == [] then []
      else Handed(s[..|s| - 1], states, e, meant) + HandedBy(s[|s| - 1], states, e, meant)
    }

    function HandedBy(k: int, states: seq<State>, e: Event, meant: AttributeType -> bool): seq<(int, ThreeEvent)> {
      if !(0 <= k < |states| && k < |types|) || !meant(types[k]) then []
      else
        var st := states[k];
        if st.applicant.Unused? || st.applicant.Disabled? || Sent(st, e).None? then [] else [(k, Sent(st, e).value)]
    }

    ghost function States(): (r: seq<State>)
      requires |attrs| == |types|
      reads attrs
      ensures |r| == |types| && forall k :: 0 <= k < |r| ==> r[k] == attrs[k].Current()
    {
      seq(|attrs|, i requires 0 <= i < |attrs| reads attrs => attrs[i].Current())
    }

    /**
     Walking the list: `global_event` for all types, or all but one; `attribute_type_event` for one type. Every
     active attribute that is meant takes exactly one step, wherever it stands in the list.
     */
    method Visit(e: Event, meant: AttributeType -> bool, ghost s: seq<int>) returns (handed: seq<(int, ThreeEvent)>)
      requires Lists(s) && Own()
      modifies attrs
      ensures Visited(old(States()), States(), s, e, meant)
      ensures handed == Handed(s, old(States()), e, meant)
    {
      ghost var was := States();
      SegmentInRange(next[..], first, s, NULL);
      handed := [];
      ghost var i := 0;
      var attr := first;
      assert s[..0] == [] && s[0..] == s;
      while attr != NULL
        invariant i <= |s| && Segment(next[..], attr, s[i..], NULL)
        invariant Visited(was, States(), s[..i], e, meant)
        invariant handed == Handed(s[..i], was, e, meant)
        decreases |s| - i
      {
        ghost var now := States();
        NextInList(s, i, attr);
        var one := VisitOne(attr, e, meant);
        VisitedNext(was, now, s[..i], attr, e, meant);
        handed := handed + one;
        attr := next[attr];
        i := i + 1;
      }
      assert s[..i] == s;
    }

    /** One attribute of the list. */
    method VisitOne(k: int, e: Event, meant: AttributeType -> bool) returns (one: seq<(int, ThreeEvent)>)
      requires 0 <= k < |types| && Own()
      modifies attrs[k]
      ensures States() == old(States())[k := Stepped(k, old(States())[k], e, meant)]
      ensures one == HandedBy(k, old(States()), e, meant)
    {
      one := [];
      if attrs[k].applicantState != Unused && attrs[k].applicantState != Disabled && meant(types[k]) {
        var sent := attrs[k].UpdateState(e, 0);
        if sent.Some? {
          one := [(k, sent.value)];
        }
      }
    }

    /** Those in `done` have taken their step since `was`, once, and the others are as they were. */
    ghost predicate Visited(was: seq<State>, now: seq<State>, done: seq<int>, e: Event, meant: AttributeType -> bool) {
      && |was| == |now| == |types|
      && forall k :: 0 <= k < |types| ==> now[k] == if k in done then Stepped(k, was[k], e, meant) else was[k]
    }

    lemma VisitedNext(was: seq<State>, now: seq<State>, done: seq<int>, k: int, e: Event, meant: AttributeType -> bool)
      requires Visited(was, now, done, e, meant) && 0 <= k < |types| && k !in done
      ensures Visited(was, now[k := Stepped(k, now[k], e, meant)], done + [k], e, meant)
      ensures HandedBy(k, was, e, meant) == HandedBy(k, now, e, meant)
    {
    }

    /** `global_event`. */
    method GlobalEvent(e: Event, ghost s: seq<int>) returns (handed: seq<(int, ThreeEvent)>)
      requires Lists(s) && Own()
      modifies attrs
      ensures Visited(old(States()), States(), s, e, ForAll(e))
      ensures handed == Handed(s, old(States()), e, ForAll(e))
    {
      handed := Visit(e, ForAll(e), s);
    }

    /** `attribute_type_event`. */
    method AttributeTypeEvent(kind: AttributeType, e: Event, ghost s: seq<int>) returns (handed: seq<(int, ThreeEvent)>)
      requires Lists(s) && Own()
      modifies attrs
      ensures Visited(old(States()), States(), s, e, Only(kind))
      ensures handed == Handed(s, old(States()), e, Only(kind))
    {
      handed := Visit(e, Only(kind), s);
    }

    /** The two together: after sorting, an event still reaches each attribute of the list once and no other. */
    method SortAndVisit(before: (int, int) -> bool, e: Event, ghost s: seq<int>)
      returns (handed: seq<(int, ThreeEvent)>)
      requires Lists(s) && Own()
      modifies this`first, next, attrs
      ensures Lists(Rearranged(before, s))
      ensures Visited(old(States()), States(), s, e, ForAll(e))
      ensures handed == Handed(Rearranged(before, s), old(States()), e, ForAll(e))
    {
      ghost var was := States();
      SortAttrs(before, s);
      RearrangedIsPermutation(before, s);
      forall k ensures k in Rearranged(before, s) <==> k in s {
        assert k in multiset(Rearranged(before, s)) <==> k in multiset(s);
      }
      assert States() == was;
      handed := GlobalEvent(e, Rearranged(before, s));
    }
  }

  lemma NextInList(s: seq<int>, i: nat, attr: int)
    requires i < |s| && Distinct(s) && attr == s[i]
    ensures attr !in s[..i] && s[..i + 1] == s[..i] + [attr] && s[..i + 1][..i] == s[..i] && s[i..][1..] == s[i + 1..]
  {
  }

  /** The types an event of `global_event` is meant for: the periodic one is for VLANs only. */
  function ForAll(e: Event): AttributeType -> bool {
    (kind: AttributeType) => e != Periodic || kind.VidVector?
  }

  function Only(kind: AttributeType): AttributeType -> bool {
    (other: AttributeType) => other == kind
  }

  /** The nodes of `list` and those still on the stack make up `s`. */
  ghost predicate Remain(stack: seq<int>, list: seq<int>, s: seq<int>) {
    Distinct(stack) && Elements(stack) !! Elements(list) && Elements(stack) + Elements(list) == Elements(s)
  }

  /** All nodes that are neither taken out nor foreign. */
  ghost predicate PartsOf(kept: seq<int>, rest: seq<int>, s: seq<int>) {
    (forall k :: k in kept ==> k in s) && (forall k :: k in rest ==> k in s)
  }

  lemma PartsTail(kept: seq<int>, rest: seq<int>, s: seq<int>)
    requires PartsOf(kept, rest, s) && rest != []
    ensures rest[0] in s && PartsOf(kept, rest[1..], s) && PartsOf(kept + [rest[0]], rest[1..], s)
  {
    var x: int := rest[0];
    assert x in rest;
    forall k | k in rest[1..] ensures k in s {
      assert k in rest;
    }
  }

  /** The specification of the first half, one node further. */
  lemma KeptStep(before: (int, int) -> bool, kept: seq<int>, rest: seq<int>, taken: seq<int>)
    requires rest != []
    ensures kept + rest == kept + [rest[0]] + rest[1..] && kept + rest == kept + ([rest[0]] + rest[1..])
    ensures if |rest| > 1 && !before(rest[0], rest[1])
            then Kept(before, rest) == Kept(before, rest[1..])
                 && TakenOut(before, rest, taken) == TakenOut(before, rest[1..], [rest[0]] + taken)
            else kept + Kept(before, rest) == kept + [rest[0]] + Kept(before, rest[1..])
                 && TakenOut(before, rest, taken) == TakenOut(before, rest[1..], taken)
  {
  }

  lemma {:induction false} InitialSegment(next: seq<int>, k: nat)
    requires k < |next|
    requires forall i :: 0 <= i < |next| ==> next[i] == if i == |next| - 1 then NULL else i + 1
    ensures Segment(next, k, seq(|next| - k, i => k + i), NULL)
    decreases |next| - k
  {
    var s := seq(|next| - k, i => k + i);
    if k == |next| - 1 {
    } else {
      InitialSegment(next, k + 1);
      assert s[1..] == seq(|next| - (k + 1), i => k + 1 + i);
    }
  }

  lemma InsertDistinct(before: (int, int) -> bool, x: int, s: seq<int>)
    requires Distinct(s) && x !in s
    ensures Distinct(Insert(before, x, s))
  {
    if s != [] && !before(x, s[0]) {
      InsertBehindDistinct(before, x, s);
    }
  }

  lemma {:induction false} InsertBehindDistinct(before: (int, int) -> bool, x: int, s: seq<int>)
    requires s != [] && Distinct(s) && x !in s
    ensures Distinct(InsertBehind(before, x, s))
  {
    if |s| == 1 || (before(s[0], x) && before(x, s[1])) {
      DistinctCons(x, s[1..]);
      DistinctCons(s[0], [x] + s[1..]);
    } else {
      var r := InsertBehind(before, x, s[1..]);
      InsertBehindDistinct(before, x, s[1..]);
      InsertBehindAdds(before, x, s[1..]);
      assert s[0] !in r by { assert s[0] !in multiset(r); }
      DistinctCons(s[0], r);
    }
  }

  lemma DistinctCons(x: int, s: seq<int>)
    requires Distinct(s) && x !in s
    ensures Distinct([x] + s)
  {
  }

  /** What inserting at node `i` of the list does to the links. */
  lemma LinkAt(next: seq<int>, first: int, s: seq<int>, i: nat, x: int)
    requires i < |s| && Distinct(s) && x !in s && 0 <= x < |next| && Segment(next, first, s, NULL)
    ensures 0 <= s[i] < |next| && next[s[i]] == HeadOr(s[i + 1..], NULL)
    ensures next[s[i]] == NULL <==> i == |s| - 1
    ensures Segment(next[x := next[s[i]]][s[i] := x], first, s[..i + 1] + ([x] + s[i + 1..]), NULL)
  {
    assert s == s[..i + 1] + s[i + 1..];
    Link(next, first, s[..i + 1], x, s[i + 1..]);
    SegmentInRange(next, first, s, NULL);
    if i < |s| - 1 {
      assert s[i + 1] in s;
    }
  }

  lemma InsertHere(before: (int, int) -> bool, x: int, s: seq<int>, i: nat)
    requires i < |s| && (i == |s| - 1 || (before(s[i], x) && before(x, s[i + 1])))
    ensures s[..i] + InsertBehind(before, x, s[i..]) == s[..i + 1] + ([x] + s[i + 1..])
  {
    assert s[i..][1..] == s[i + 1..];
  }

  lemma InsertLater(before: (int, int) -> bool, x: int, s: seq<int>, i: nat)
    requires i < |s| - 1 && !(before(s[i], x) && before(x, s[i + 1]))
    ensures s[..i] + InsertBehind(before, x, s[i..]) == s[..i + 1] + InsertBehind(before, x, s[i + 1..])
  {
    assert s[i..][1..] == s[i + 1..];
  }

  /** The three parts of the list share no node. */
  predicate Apart(kept: seq<int>, rest: seq<int>, taken: seq<int>) {
    && Distinct(kept) && Distinct(rest)
    && (forall k :: k in kept ==> k !in rest && k !in taken)
    && (forall k :: k in rest ==> k !in taken)
  }

  lemma ApartTail(kept: seq<int>, rest: seq<int>, taken: seq<int>)
    requires Apart(kept, rest, taken) && rest != []
    ensures rest[0] !in rest[1..] && rest == [rest[0]] + rest[1..]
    ensures Apart(kept, rest[1..], [rest[0]] + taken) && Apart(kept + [rest[0]], rest[1..], taken)
  {
  }

  /** The node behind `kept`, and what follows it. */
  lemma NodeAt(next: seq<int>, first: int, kept: seq<int>, rest: seq<int>)
    requires Segment(next, first, kept + rest, NULL) && HeadOr(rest, NULL) != NULL
    ensures rest != [] && 0 <= rest[0] < |next| && next[rest[0]] == HeadOr(rest[1..], NULL)
    ensures next[rest[0]] == NULL <==> |rest| == 1
    ensures forall k :: k in kept ==> 0 <= k < |next|
  {
    SegmentSplit(next, first, kept, rest, NULL);
    SegmentInRange(next, first, kept, HeadOr(rest, NULL));
    SegmentInRange(next, rest[0], rest, NULL);
    assert |rest| > 1 ==> rest[1] in rest;
    assert Segment(next, next[rest[0]], rest[1..], NULL);
  }

  lemma StackHead(next: seq<int>, head: int, stack: seq<int>, list: seq<int>, s: seq<int>)
    requires head != NULL && Segment(next, head, stack, NULL) && Remain(stack, list, s)
    ensures stack != [] && stack[0] == head && 0 <= head < |next| && head !in list && head !in stack[1..]
    ensures Segment(next, next[head], stack[1..], NULL) && head in s
    ensures Distinct(stack[1..]) && Elements(stack) == {head} + Elements(stack[1..])
    ensures forall k :: k in list ==> k in s && k !in stack
  {
    assert stack == [head] + stack[1..];
    assert head in Elements(stack) && head in Elements(s) && head !in Elements(list);
    forall k | k in list ensures k in s && k !in stack {
      assert k in Elements(list) && k in Elements(s) && k !in Elements(stack);
    }
  }

  lemma {:induction false} KeptDistinct(before: (int, int) -> bool, s: seq<int>)
    requires Distinct(s)
    ensures Distinct(Kept(before, s)) && forall k :: k in Kept(before, s) ==> k in s
  {
    if |s| <= 1 {
    } else {
      KeptDistinct(before, s[1..]);
      if before(s[0], s[1]) {
        assert s[0] !in s[1..];
        DistinctCons(s[0], Kept(before, s[1..]));
      }
    }
  }
}

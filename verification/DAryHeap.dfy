/**
 * A d-ary heap with an indirect key: the keys live outside and may change behind the heap's back, so
 * order is one property and the exactness of contents and index map another.
 */
module DAryHeap {
  import opened Common

  // ---- tree arithmetic

  function Parent(i: nat, d: nat): (p: nat)
    requires i >= 1 && d >= 2
    ensures p < i
  {
    ParentLess(i - 1, d);
    (i - 1) / d
  }

  lemma {:induction false} TimesAtLeast(x: nat, d: nat)
    requires x >= 1
    ensures x * d >= d && (d >= 1 ==> x * d >= x)
  {
    if x > 1 {
      TimesAtLeast(x - 1, d);
      assert x * d == (x - 1) * d + d;
    }
  }

  /** Quotient and remainder are determined by the division equation. */
  lemma DivUnique(k: nat, d: nat, q: int, c: nat)
    requires d >= 2 && k == q * d + c && c < d
    ensures k / d == q >= 0
  {
    var e, r := k / d, k % d;
    assert k == e * d + r && 0 <= r < d;
    SameQuotient(d, q, c, e, r);
  }

  lemma SameQuotient(d: nat, q: int, c: nat, e: int, r: nat)
    requires q * d + c == e * d + r && c < d && r < d
    ensures q == e
  {
    assert (q - e) * d == q * d - e * d;
    if q > e {
      TimesAtLeast(q - e, d);
    } else if q < e {
      TimesAtLeast(e - q, d);
    }
  }

  lemma ParentLess(k: nat, d: nat)
    requires d >= 2
    ensures 0 <= k / d <= k
  {
    var q, c := k / d, k % d;
    assert k == q * d + c && 0 <= c < d;
    DivUnique(k, d, q, c);
    if q >= 1 {
      TimesAtLeast(q, d);
    }
  }

  function Child(i: nat, c: nat, d: nat): (r: nat)
  {
    i * d + c + 1
  }

  /** The nodes whose parent is `i` are its `d` children. */
  lemma ChildrenOf(i: nat, d: nat, j: nat)
    requires d >= 2 && j >= 1
    ensures Parent(j, d) == i <==> Child(i, 0, d) <= j < Child(i, 0, d) + d
  {
    if Child(i, 0, d) <= j < Child(i, 0, d) + d {
      DivUnique(j - 1, d, i, j - Child(i, 0, d));
    }
    if Parent(j, d) == i {
      assert j - 1 == d * ((j - 1) / d) + (j - 1) % d;
      assert d * i == i * d;
    }
  }

  // ---- order

  ghost predicate KeysFor<V>(s: seq<V>, key: map<V, real>)
  {
    forall i :: 0 <= i < |s| ==> s[i] in key
  }

  /** No node's key is less than its parent's. */
  ghost predicate EdgeOk<V>(s: seq<V>, key: map<V, real>, d: nat, j: nat)
    requires d >= 2 && KeysFor(s, key) && 1 <= j < |s|
  {
    key[s[Parent(j, d)]] <= key[s[j]]
  }

  ghost predicate Ordered<V>(s: seq<V>, key: map<V, real>, d: nat)
    requires d >= 2 && KeysFor(s, key)
  {
    forall j :: 1 <= j < |s| ==> EdgeOk(s, key, d, j)
  }

  /** The root of an ordered heap has a least key. */
  lemma {:induction false} TopMinimum<V>(s: seq<V>, key: map<V, real>, d: nat, j: nat)
    requires d >= 2 && KeysFor(s, key) && Ordered(s, key, d) && j < |s|
    ensures key[s[0]] <= key[s[j]]
    decreases j
  {
    if j > 0 {
      assert EdgeOk(s, key, d, j);
      TopMinimum(s, key, d, Parent(j, d));
    }
  }

  /** Ordered but for the edge above `i`, over which its children are already in order. */
  ghost predicate OrderedAbove<V>(s: seq<V>, key: map<V, real>, d: nat, i: nat)
    requires d >= 2 && KeysFor(s, key)
  {
    && (forall j :: 1 <= j < |s| && j != i ==> EdgeOk(s, key, d, j))
    && (forall j :: 1 <= j < |s| && Parent(j, d) == i && 1 <= i ==> key[s[Parent(i, d)]] <= key[s[j]])
  }

  /** Ordered but for the edges below `i`, over which its children are already in order. */
  ghost predicate OrderedBelow<V>(s: seq<V>, key: map<V, real>, d: nat, i: nat)
    requires d >= 2 && KeysFor(s, key)
  {
    && (forall j :: 1 <= j < |s| && Parent(j, d) != i ==> EdgeOk(s, key, d, j))
    && (forall j :: 1 <= j < |s| && Parent(j, d) == i && 1 <= i < |s| ==> key[s[Parent(i, d)]] <= key[s[j]])
  }

  function Swap<V>(s: seq<V>, a: nat, b: nat): (r: seq<V>)
    requires a < |s| && b < |s|
    ensures |r| == |s| && r[a] == s[b] && r[b] == s[a]
    ensures forall k :: 0 <= k < |s| && k != a && k != b ==> r[k] == s[k]
  {
    s[a := s[b]][b := s[a]]
  }

  lemma SwapContents<V>(s: seq<V>, a: nat, b: nat)
    requires a < |s| && b < |s|
    ensures multiset(Swap(s, a, b)) == multiset(s)
  {
    if a != b {
      var r := s[a := s[b]];
      assert multiset(r) == multiset(s) - multiset{s[a]} + multiset{s[b]};
      assert multiset(r[b := s[a]]) == multiset(r) - multiset{s[b]} + multiset{s[a]};
    } else {
      assert Swap(s, a, b) == s;
    }
  }

  lemma SwapKeys<V>(s: seq<V>, key: map<V, real>, a: nat, b: nat)
    requires KeysFor(s, key) && a < |s| && b < |s|
    ensures KeysFor(Swap(s, a, b), key)
  {
  }

  lemma SwapNoDup<V>(s: seq<V>, a: nat, b: nat)
    requires NoDup(s) && a < |s| && b < |s|
    ensures NoDup(Swap(s, a, b))
  {
    SwapContents(s, a, b);
    NoDupPermuted(Swap(s, a, b), s);
  }

  /** One level up: swapping a smaller key with its parent moves the open edge to the parent. */
  lemma UpStep<V>(s: seq<V>, key: map<V, real>, d: nat, i: nat)
    requires d >= 2 && KeysFor(s, key) && 1 <= i < |s| && OrderedAbove(s, key, d, i)
    requires key[s[i]] < key[s[Parent(i, d)]]
    ensures KeysFor(Swap(s, i, Parent(i, d)), key) && OrderedAbove(Swap(s, i, Parent(i, d)), key, d, Parent(i, d))
  {
    var p := Parent(i, d);
    var r := Swap(s, i, p);
    forall j | 1 <= j < |r| && j != p
      ensures EdgeOk(r, key, d, j)
    {
      assert j != i ==> EdgeOk(s, key, d, j);
    }
    forall j | 1 <= j < |r| && Parent(j, d) == p && 1 <= p
      ensures key[r[Parent(p, d)]] <= key[r[j]]
    {
      assert EdgeOk(s, key, d, p);
      assert j != i ==> EdgeOk(s, key, d, j);
    }
  }

  /** One level down: swapping with a least child moves the open edges to that child. */
  lemma DownStep<V>(s: seq<V>, key: map<V, real>, d: nat, i: nat, c: nat)
    requires d >= 2 && KeysFor(s, key) && i < |s| && 1 <= c < |s| && Parent(c, d) == i && OrderedBelow(s, key, d, i)
    requires key[s[c]] < key[s[i]]
    requires forall j :: 1 <= j < |s| && Parent(j, d) == i ==> key[s[c]] <= key[s[j]]
    ensures KeysFor(Swap(s, c, i), key) && OrderedBelow(Swap(s, c, i), key, d, c)
  {
    var r := Swap(s, c, i);
    forall j | 1 <= j < |r| && Parent(j, d) != c
      ensures EdgeOk(r, key, d, j)
    {
      if Parent(j, d) != i {
        assert EdgeOk(s, key, d, j);
      }
    }
    forall j | 1 <= j < |r| && Parent(j, d) == c
      ensures key[r[Parent(c, d)]] <= key[r[j]]
    {
      assert EdgeOk(s, key, d, j);
    }
  }

  // ---- the levels a key has to rise

  /** How many ancestors of `i` have a key above `dist`, up to the first that has not. */
  function Levels<V>(s: seq<V>, key: map<V, real>, d: nat, i: nat, dist: real): (n: nat)
    requires d >= 2 && KeysFor(s, key) && i < |s|
  {
    if i == 0 || !(dist < key[s[Parent(i, d)]]) then 0 else 1 + Levels(s, key, d, Parent(i, d), dist)
  }

  function Depth(i: nat, d: nat): (n: nat)
    requires d >= 2
  {
    if i == 0 then 0 else 1 + Depth(Parent(i, d), d)
  }

  lemma {:induction false} LevelsDepth<V>(s: seq<V>, key: map<V, real>, d: nat, i: nat, dist: real)
    requires d >= 2 && KeysFor(s, key) && i < |s|
    ensures Levels(s, key, d, i, dist) <= Depth(i, d)
    decreases i
  {
    if i > 0 {
      LevelsDepth(s, key, d, Parent(i, d), dist);
    }
  }

  /** Moving the element at `i` up `n` levels. */
  function Raised<V>(s: seq<V>, i: nat, n: nat, d: nat): (r: seq<V>)
    requires d >= 2 && i < |s|
    ensures |r| == |s|
    decreases n
  {
    if n == 0 || i == 0 then s else Raised(Swap(s, i, Parent(i, d)), Parent(i, d), n - 1, d)
  }

  lemma {:induction false} RaisedContents<V>(s: seq<V>, i: nat, n: nat, d: nat)
    requires d >= 2 && i < |s|
    ensures multiset(Raised(s, i, n, d)) == multiset(s)
    decreases n
  {
    if n > 0 && i > 0 {
      SwapContents(s, i, Parent(i, d));
      RaisedContents(Swap(s, i, Parent(i, d)), Parent(i, d), n - 1, d);
    }
  }

  /** Raising by the right number of levels closes the open edge. */
  lemma {:induction false} RaisedOrdered<V>(s: seq<V>, key: map<V, real>, d: nat, i: nat)
    requires d >= 2 && KeysFor(s, key) && i < |s| && OrderedAbove(s, key, d, i)
    ensures KeysFor(Raised(s, i, Levels(s, key, d, i, key[s[i]]), d), key)
    ensures Ordered(Raised(s, i, Levels(s, key, d, i, key[s[i]]), d), key, d)
    decreases i
  {
    if i > 0 && key[s[i]] < key[s[Parent(i, d)]] {
      var p := Parent(i, d);
      var r := Swap(s, i, p);
      UpStep(s, key, d, i);
      LevelsPrefix(s, r, key, d, p, key[s[i]]);
      RaisedOrdered(r, key, d, p);
    } else {
      assert i > 0 ==> EdgeOk(s, key, d, i);
    }
  }

  lemma {:induction false} LevelsPrefix<V>(s: seq<V>, r: seq<V>, key: map<V, real>, d: nat, i: nat, dist: real)
    requires d >= 2 && KeysFor(s, key) && KeysFor(r, key) && i < |s| == |r|
    requires forall k :: 0 <= k < i ==> s[k] == r[k]
    ensures Levels(s, key, d, i, dist) == Levels(r, key, d, i, dist)
    decreases i
  {
    if i > 0 {
      LevelsPrefix(s, r, key, d, Parent(i, d), dist);
    }
  }

  // ---- the heap

  class Heap<V(==)> {
    const arity: nat
    var data: seq<V>
    var indexInHeap: map<V, int>

    /** Distinct contents and an exact index map: -1 or absent for what is not in the heap. */
    ghost predicate Valid()
      reads this
    {
      arity >= 2 && NoDup(data) && Indexed(data, indexInHeap, -1)
    }

    constructor (arity: nat)
      requires arity >= 2
      ensures Valid() && data == [] && this.arity == arity
    {
      this.arity := arity;
      data, indexInHeap := [], map[];
    }

    /** The contents grow by `v`, whatever the keys; an ordered heap stays ordered. */
    method Push(v: V, key: map<V, real>)
      requires Valid() && v !in data && KeysFor(data, key) && v in key
      modifies this
      ensures Valid() && multiset(data) == multiset(old(data)) + multiset{v} && KeysFor(data, key)
      ensures Ordered(old(data), key, arity) ==> Ordered(data, key, arity)
    {
      var index := |data|;
      data := data + [v];
      indexInHeap := indexInHeap[v := index];
      if Ordered(old(data), key, arity) {
        AppendedOrder(old(data), v, key, arity);
      }
      PreserveUp(index, key);
    }

    method Top() returns (v: V)
      requires Valid() && data != []
      ensures v == data[0]
    {
      return data[0];
    }

    /** The contents lose the top, whatever the keys; an ordered heap stays ordered. */
    method Pop(key: map<V, real>)
      requires Valid() && data != [] && KeysFor(data, key)
      modifies this
      ensures Valid() && multiset(data) == multiset(old(data)) - multiset{old(data)[0]} && KeysFor(data, key)
      ensures Ordered(old(data), key, arity) ==> Ordered(data, key, arity)
    {
      IndexedPop(data, indexInHeap);
      PopOrder(data, key, arity);
      indexInHeap := indexInHeap[data[0] := -1];
      if |data| != 1 {
        var last := |data| - 1;
        data := data[0 := data[last]];
        indexInHeap := indexInHeap[data[0] := 0];
        data := data[..last];
        PreserveDown(key);
      } else {
        data := [];
      }
    }

    /** Restores the order after the key of `v`, and no other, was lowered. */
    method Update(v: V, key: map<V, real>)
      requires Valid() && v in data && KeysFor(data, key)
      modifies this
      ensures Valid() && multiset(data) == multiset(old(data)) && KeysFor(data, key)
      ensures forall before: map<V, real> ::
        Lowered(before, key, v) && KeysFor(old(data), before) && Ordered(old(data), before, arity) ==>
                Ordered(data, key, arity)
    {
      var i :| 0 <= i < |data| && data[i] == v;
      assert IndexIs(indexInHeap, data[i], i);
      var index := indexInHeap[v];
      forall before: map<V, real> | Lowered(before, key, v) && KeysFor(data, before) && Ordered(data, before, arity)
        ensures OrderedAbove(data, key, arity, index)
      {
        LoweredOrder(data, before, key, arity, index);
      }
      PreserveUp(index, key);
    }

    /** Asked of values the heap has seen; exact. */
    method Contains(v: V) returns (b: bool)
      requires Valid() && v in indexInHeap
      ensures b == (v in data)
    {
      var index := indexInHeap[v];
      if v in data {
        var i :| 0 <= i < |data| && data[i] == v;
        assert IndexIs(indexInHeap, data[i], i);
      }
      return index != -1;
    }

    /** From the root, swaps a key with its least child until none is smaller. */
    method PreserveDown(key: map<V, real>)
      requires Valid() && data != [] && KeysFor(data, key)
      modifies this
      ensures Valid() && multiset(data) == multiset(old(data)) && KeysFor(data, key)
      ensures OrderedBelow(old(data), key, arity, 0) ==> Ordered(data, key, arity)
    {
      var index: nat := 0;
      var moving := true;
      while moving
        invariant Valid() && multiset(data) == multiset(old(data)) && KeysFor(data, key) && index < |data|
        invariant OrderedBelow(old(data), key, arity, 0) ==> OrderedBelow(data, key, arity, index)
        invariant !moving && OrderedBelow(old(data), key, arity, 0) ==> Ordered(data, key, arity)
        decreases moving, |data| - index
      {
        hide OrderedBelow, Ordered;
        var first := Child(index, 0, arity);
        if first >= |data| {
          NoChildren(data, key, arity, index);
          moving := false;
        } else {
          var c := SmallestChild(index, key);
          if key[data[c]] < key[data[index]] {
            if OrderedBelow(data, key, arity, index) {
              DownStep(data, key, arity, index, c);
            }
            SwapKeys(data, key, c, index);
            SwapElements(c, index);
            index := c;
          } else {
            BelowDone(data, key, arity, index);
            moving := false;
          }
        }
      }
    }

    /** The first least child of a node that has children. */
    method SmallestChild(index: nat, key: map<V, real>) returns (c: nat)
      requires arity >= 2 && index < |data| && KeysFor(data, key) && Child(index, 0, arity) < |data|
      ensures index < c < |data| && Parent(c, arity) == index
      ensures forall j :: 1 <= j < |data| && Parent(j, arity) == index ==> key[data[c]] <= key[data[j]]
    {
      var first := Child(index, 0, arity);
      var n := if first + arity <= |data| then arity else |data| - first;
      c := first;
      for i := first + 1 to first + n
        invariant first <= c < i && forall j :: first <= j < i ==> key[data[c]] <= key[data[j]]
      {
        if key[data[i]] < key[data[c]] { c := i; }
      }
      ChildrenOf(index, arity, c);
      hide Child;
      forall j | 1 <= j < |data| && Parent(j, arity) == index
        ensures key[data[c]] <= key[data[j]]
      {
        ChildrenOf(index, arity, j);
      }
    }

    method SwapElements(a: nat, b: nat)
      requires Valid() && a < |data| && b < |data| && a != b
      modifies this
      ensures Valid() && data == Swap(old(data), a, b) && multiset(data) == multiset(old(data))
    {
      var va, vb := data[a], data[b];
      IndexedSwap(data, indexInHeap, a, b);
      SwapNoDup(data, a, b);
      SwapContents(data, a, b);
      data := data[a := vb];
      data := data[b := va];
      indexInHeap := indexInHeap[va := b];
      indexInHeap := indexInHeap[vb := a];
    }

    method PreserveUp(orig: nat, key: map<V, real>)
      requires Valid() && orig < |data| && KeysFor(data, key)
      modifies this
      ensures Valid() && multiset(data) == multiset(old(data)) && KeysFor(data, key)
      ensures OrderedAbove(old(data), key, arity, orig) ==> Ordered(data, key, arity)
    {
      if orig == 0 { return; }
      var cur := data[orig];
      var dist := key[cur];
      var index: nat, levels: nat := orig, 0;
      while index != 0 && dist < key[data[Parent(index, arity)]]
        invariant index <= orig
        invariant levels + Levels(data, key, arity, index, dist) == Levels(data, key, arity, orig, dist)
      {
        levels := levels + 1;
        index := Parent(index, arity);
      }
      LevelsDepth(data, key, arity, orig, dist);
      RaisedContents(data, orig, levels, arity);
      if OrderedAbove(data, key, arity, orig) {
        RaisedOrdered(data, key, arity, orig);
      }
      NoDupPermuted(Raised(data, orig, levels, arity), data);
      KeysPermuted(Raised(data, orig, levels, arity), data, key);
      ShiftUp(orig, levels);
    }

    /** Moves `levels` ancestors down one level each and puts the element at `orig` on top. */
    method ShiftUp(orig: nat, levels: nat)
      requires arity >= 2 && NoDup(data) && Indexed(data, indexInHeap, -1) && orig < |data|
      requires levels <= Depth(orig, arity)
      modifies this
      ensures data == Raised(old(data), orig, levels, arity) && Indexed(data, indexInHeap, -1)
    {
      var cur := data[orig];
      var index: nat := orig;
      ghost var full := data;
      for i := 0 to levels
        invariant index < |data| && full == data[index := cur] && levels - i <= Depth(index, arity)
        invariant NoDup(full) && Indexed(full, indexInHeap, index)
        invariant Raised(full, index, levels - i, arity) == Raised(old(data), orig, levels, arity)
      {
        hide NoDup, Indexed;
        var parentIndex := Parent(index, arity);
        var parentValue := data[parentIndex];
        IndexedShift(full, indexInHeap, index, parentIndex);
        SwapNoDup(full, index, parentIndex);
        full := Swap(full, index, parentIndex);
        indexInHeap := indexInHeap[parentValue := index];
        data := data[index := parentValue];
        index := parentIndex;
      }
      data := data[index := cur];
      IndexedDone(full, indexInHeap, index);
      indexInHeap := indexInHeap[cur := index];
    }
  }

  /** The map gives each element but the one at `hole` its position, and -1 to what is not in `s`. */
  ghost predicate Indexed<V>(s: seq<V>, index: map<V, int>, hole: int)
  {
    && (forall i :: 0 <= i < |s| && i != hole ==> IndexIs(index, s[i], i))
    && (forall v :: v in index && v !in s ==> index[v] == -1)
  }

  lemma IndexedShift<V>(s: seq<V>, index: map<V, int>, i: nat, p: nat)
    requires NoDup(s) && i < |s| && p < |s| && i != p && Indexed(s, index, i)
    ensures Indexed(Swap(s, i, p), index[s[p] := i], p)
  {
    var r := Swap(s, i, p);
    SameMembers(s, i, p);
  }

  lemma IndexedDone<V>(s: seq<V>, index: map<V, int>, i: nat)
    requires NoDup(s) && i < |s| && Indexed(s, index, i)
    ensures Indexed(s, index[s[i] := i], -1)
  {
  }

  lemma SameMembers<V>(s: seq<V>, a: nat, b: nat)
    requires a < |s| && b < |s|
    ensures forall v :: v in Swap(s, a, b) <==> v in s
  {
    SwapContents(s, a, b);
    forall v
      ensures v in Swap(s, a, b) <==> v in s
    {
      assert v in multiset(Swap(s, a, b)) <==> v in multiset(s);
    }
  }

  lemma KeysPermuted<V>(r: seq<V>, s: seq<V>, key: map<V, real>)
    requires KeysFor(s, key) && multiset(r) == multiset(s)
    ensures KeysFor(r, key)
  {
    forall i | 0 <= i < |r|
      ensures r[i] in key
    {
      assert r[i] in multiset(r);
      assert r[i] in s;
    }
  }

  ghost predicate IndexIs<V>(index: map<V, int>, v: V, i: int)
  {
    v in index && index[v] == i
  }

  lemma AppendedOrder<V>(s: seq<V>, v: V, key: map<V, real>, d: nat)
    requires d >= 2 && KeysFor(s + [v], key) && KeysFor(s, key) && Ordered(s, key, d)
    ensures OrderedAbove(s + [v], key, d, |s|)
  {
    var r := s + [v];
    forall j | 1 <= j < |r| && j != |s|
      ensures EdgeOk(r, key, d, j)
    {
      assert EdgeOk(s, key, d, j);
    }
  }

  lemma IndexedSwap<V>(s: seq<V>, index: map<V, int>, a: nat, b: nat)
    requires NoDup(s) && a < |s| && b < |s| && a != b && Indexed(s, index, -1)
    ensures Indexed(Swap(s, a, b), index[s[a] := b][s[b] := a], -1)
  {
    SameMembers(s, a, b);
  }

  /** What popping leaves: the last element in the root's place. */
  function Popped<V>(s: seq<V>): (r: seq<V>)
    requires s != []
    ensures |r| == |s| - 1
  {
    if |s| == 1 then [] else s[0 := s[|s| - 1]][..|s| - 1]
  }

  lemma PoppedContents<V>(s: seq<V>)
    requires s != []
    ensures multiset(Popped(s)) == multiset(s) - multiset{s[0]}
  {
    var n := |s| - 1;
    if n == 0 {
      assert s == [s[0]];
    } else {
      assert s == [s[0]] + s[1..n] + [s[n]];
      assert Popped(s) == [s[n]] + s[1..n];
    }
  }

  lemma IndexedPop<V>(s: seq<V>, index: map<V, int>)
    requires s != [] && NoDup(s) && Indexed(s, index, -1)
    ensures NoDup(Popped(s)) && multiset(Popped(s)) == multiset(s) - multiset{s[0]}
    ensures |s| != 1 ==> Indexed(Popped(s), index[s[0] := -1][s[|s| - 1] := 0], -1)
    ensures |s| == 1 ==> Indexed([], index[s[0] := -1], -1)
  {
    PoppedContents(s);
    PoppedMembers(s);
    assert forall i :: 0 < i < |s| - 1 ==> Popped(s)[i] == s[i];
    assert |s| != 1 ==> Popped(s)[0] == s[|s| - 1];
    hide Popped;
  }

  lemma PoppedMembers<V>(s: seq<V>)
    requires s != [] && NoDup(s)
    ensures forall v :: v in Popped(s) <==> v in s && v != s[0]
  {
    PoppedContents(s);
    forall v
      ensures v in Popped(s) <==> v in s && v != s[0]
    {
      NoDupCount(s, v);
      assert v in multiset(s) <==> v in s;
      assert v in multiset(Popped(s)) <==> v in Popped(s);
    }
  }

  lemma PopOrder<V>(s: seq<V>, key: map<V, real>, d: nat)
    requires d >= 2 && s != [] && KeysFor(s, key)
    ensures KeysFor(Popped(s), key)
    ensures Ordered(s, key, d) ==> OrderedBelow(Popped(s), key, d, 0)
  {
    var r := Popped(s);
    if Ordered(s, key, d) {
      forall j | 1 <= j < |r| && Parent(j, d) != 0
        ensures EdgeOk(r, key, d, j)
      {
        assert EdgeOk(s, key, d, j);
      }
    }
  }

  lemma NoChildren<V>(s: seq<V>, key: map<V, real>, d: nat, i: nat)
    requires d >= 2 && KeysFor(s, key) && i < |s| <= Child(i, 0, d)
    ensures OrderedBelow(s, key, d, i) ==> Ordered(s, key, d)
  {
    forall j | 1 <= j < |s|
      ensures Parent(j, d) != i
    {
      ChildrenOf(i, d, j);
    }
  }

  lemma BelowDone<V>(s: seq<V>, key: map<V, real>, d: nat, i: nat)
    requires d >= 2 && KeysFor(s, key) && i < |s|
    requires forall j :: 1 <= j < |s| && Parent(j, d) == i ==> key[s[i]] <= key[s[j]]
    ensures OrderedBelow(s, key, d, i) ==> Ordered(s, key, d)
  {
  }

  /** Only the key of `v` changed, and not upwards. */
  ghost predicate Lowered<V>(before: map<V, real>, key: map<V, real>, v: V)
  {
    && v in before && v in key && key[v] <= before[v]
    && forall w :: w in before && w != v ==> w in key && key[w] == before[w]
  }

  lemma LoweredOrder<V>(s: seq<V>, before: map<V, real>, key: map<V, real>, d: nat, i: nat)
    requires d >= 2 && KeysFor(s, before) && KeysFor(s, key) && NoDup(s) && i < |s|
    requires Lowered(before, key, s[i]) && Ordered(s, before, d)
    ensures OrderedAbove(s, key, d, i)
  {
    forall j | 1 <= j < |s| && j != i
      ensures EdgeOk(s, key, d, j)
    {
      assert EdgeOk(s, before, d, j);
    }
    forall j | 1 <= j < |s| && Parent(j, d) == i && 1 <= i
      ensures key[s[Parent(i, d)]] <= key[s[j]]
    {
      assert EdgeOk(s, before, d, j) && EdgeOk(s, before, d, i);
    }
  }
}

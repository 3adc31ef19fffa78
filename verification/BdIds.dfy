/** Handing out buffer descriptor IDs, singly or in consecutive runs, and taking them back. */
module BdIds {
  import opened Common

  type Id = x: int | 0 <= x < 0x1_0000_0000

  const MAX_ID: Id := 0xFFFF_FFFF

  datatype Mode = Incremental | Smallest

  // ---- what is asked for

  ghost predicate Ascending(valid: seq<Id>)
  {
    forall i, j :: 0 <= i < j < |valid| ==> valid[i] < valid[j]
  }

  predicate Free(valid: seq<Id>, taken: set<Id>, x: int)
  {
    exists i :: 0 <= i < |valid| && valid[i] == x && valid[i] !in taken
  }

  /** `n` free IDs in a row, from `start` on. */
  ghost predicate Window(valid: seq<Id>, taken: set<Id>, start: int, n: nat)
  {
    forall x :: start <= x < start + n ==> Free(valid, taken, x)
  }

  ghost predicate NoWindow(valid: seq<Id>, taken: set<Id>, n: nat)
  {
    forall t :: !Window(valid, taken, t, n)
  }

  ghost predicate FirstWindow(valid: seq<Id>, taken: set<Id>, n: nat, start: Id)
  {
    forall t :: Window(valid, taken, t, n) ==> start as int <= t
  }

  /** The IDs from `start` on. */
  function Run(start: Id, n: nat): (r: seq<Id>)
    requires start as int + n <= 0x1_0000_0000
    ensures |r| == n && forall k :: 0 <= k < n ==> r[k] as int == start as int + k
  {
    seq(n, k requires 0 <= k < n => (start as int + k) as Id)
  }

  /** A longest run of at most `num` free IDs, and the first of these. */
  ghost predicate BestWindow(valid: seq<Id>, taken: set<Id>, num: nat, r: seq<Id>)
  {
    && |r| <= num
    && (r != [] ==> r[0] as int + |r| <= 0x1_0000_0000 && r == Run(r[0], |r|) && Window(valid, taken, r[0] as int, |r|))
    && (|r| < num ==> NoWindow(valid, taken, |r| + 1))
    && (r != [] ==> FirstWindow(valid, taken, |r|, r[0]))
  }

  // ---- the scan

  /** `cur` is the run of free IDs that ends the prefix `v`, as long as possible. */
  ghost predicate Current(v: seq<Id>, taken: set<Id>, cur: seq<Id>)
  {
    if v == [] || v[|v| - 1] in taken then cur == []
    else
      && cur != [] && cur[0] as int + |cur| <= 0x1_0000_0000 && cur == Run(cur[0], |cur|)
      && cur[|cur| - 1] == v[|v| - 1]
      && Window(v, taken, cur[0] as int, |cur|)
      && !Free(v, taken, cur[0] as int - 1)
  }

  /** `best` is a longest run of free IDs in the prefix `v`, and the first of these. */
  ghost predicate Longest(v: seq<Id>, taken: set<Id>, best: seq<Id>)
  {
    && (best != [] ==>
          best[0] as int + |best| <= 0x1_0000_0000 && best == Run(best[0], |best|)
            && Window(v, taken, best[0] as int, |best|))
    && NoWindow(v, taken, |best| + 1)
    && (best != [] ==> FirstWindow(v, taken, |best|, best[0]))
  }

  function Extended(cur: seq<Id>, id: Id): (r: seq<Id>)
  {
    if cur != [] && id as int == (cur[|cur| - 1] as int + 1) % 0x1_0000_0000 then cur + [id] else [id]
  }

  lemma FreeLast(v: seq<Id>, id: Id, taken: set<Id>, x: int)
    ensures Free(v + [id], taken, x) <==> Free(v, taken, x) || (x == id as int && id !in taken)
  {
    var w := v + [id];
    if Free(v, taken, x) {
      var i :| 0 <= i < |v| && v[i] == x && v[i] !in taken;
      assert w[i] == x;
    }
    if x == id as int && id !in taken {
      assert w[|v|] == x;
    }
  }

  lemma FreeBelow(v: seq<Id>, id: Id, taken: set<Id>, x: int)
    requires Ascending(v + [id]) && Free(v, taken, x)
    ensures x < id as int
  {
    var i :| 0 <= i < |v| && v[i] == x && v[i] !in taken;
    assert (v + [id])[i] < (v + [id])[|v|];
  }

  /** Beyond an ascending prefix a window of it does not reach. */
  lemma WindowLast(v: seq<Id>, id: Id, taken: set<Id>, t: int, n: nat)
    requires Ascending(v + [id]) && Window(v + [id], taken, t, n) && n >= 1
    ensures Window(v, taken, t, n) || (t + n - 1 == id as int && id !in taken && Window(v, taken, t, n - 1))
  {
    forall x | t <= x < t + n
      ensures Free(v, taken, x) || (x == id as int && id !in taken)
    {
      assert Free(v + [id], taken, x);
      FreeLast(v, id, taken, x);
    }
    if t <= id as int < t + n && !Free(v, taken, id as int) {
      if id as int + 1 < t + n {
        assert Free(v, taken, id as int + 1);
        FreeBelow(v, id, taken, id as int + 1);
      }
    }
  }

  /** The run that ends the prefix, one ID further. */
  lemma CurrentNext(v: seq<Id>, id: Id, taken: set<Id>, cur: seq<Id>)
    requires Ascending(v + [id]) && Current(v, taken, cur)
    ensures Current(v + [id], taken, if id in taken then [] else Extended(cur, id))
  {
    if id !in taken {
      FreeLast(v, id, taken, id as int);
      if cur != [] {
        assert Free(v, taken, cur[|cur| - 1] as int);
        FreeBelow(v, id, taken, cur[|cur| - 1] as int);
        FreeLast(v, id, taken, cur[0] as int - 1);
        WindowMore(v, id, taken, cur[0] as int, |cur|);
      }
      FreeLast(v, id, taken, id as int - 1);
      if Free(v, taken, id as int - 1) {
        LastIsGreatest(v, id, taken);
      }
    }
  }

  lemma WindowMore(v: seq<Id>, id: Id, taken: set<Id>, t: int, n: nat)
    requires Window(v, taken, t, n)
    ensures Window(v + [id], taken, t, n)
  {
    forall x | t <= x < t + n
      ensures Free(v + [id], taken, x)
    {
      assert Free(v, taken, x);
      FreeLast(v, id, taken, x);
    }
  }

  lemma LastIsGreatest(v: seq<Id>, id: Id, taken: set<Id>)
    requires Ascending(v + [id]) && Free(v, taken, id as int - 1)
    ensures v != [] && v[|v| - 1] as int == id as int - 1 && v[|v| - 1] !in taken
  {
    var i :| 0 <= i < |v| && v[i] == id as int - 1 && v[i] !in taken;
    var w := v + [id];
    assert w[|v| - 1] < w[|v|];
    forall j | 0 <= j < |v| - 1
      ensures v[j] < v[|v| - 1]
    {
      assert w[j] < w[|v| - 1];
    }
  }

  /** The longest run, one ID further. */
  lemma LongestNext(v: seq<Id>, id: Id, taken: set<Id>, best: seq<Id>, cur: seq<Id>)
    requires Ascending(v + [id]) && Longest(v, taken, best) && Current(v + [id], taken, cur)
    ensures Longest(v + [id], taken, if |cur| > |best| then cur else best)
  {
    var w := v + [id];
    var best' := if |cur| > |best| then cur else best;
    var n := |best'|;
    var m := n + 1;
    forall t
      ensures !Window(w, taken, t, m)
    {
      if Window(w, taken, t, m) {
        EndsHere(v, id, taken, best, cur, t, m);
      }
    }
    assert NoWindow(w, taken, m);
    if n >= 1 {
      forall t | Window(w, taken, t, n)
        ensures best'[0] as int <= t
      {
        FirstHere(v, id, taken, best, cur, t);
      }
      assert FirstWindow(w, taken, n, best'[0]);
      if |cur| <= |best| {
        WindowMore(v, id, taken, best[0] as int, |best|);
      }
    }
  }

  /** A run longer than any in the prefix ends with the new ID, and is no longer than the current run. */
  lemma EndsHere(v: seq<Id>, id: Id, taken: set<Id>, best: seq<Id>, cur: seq<Id>, t: int, n: nat)
    requires Ascending(v + [id]) && Longest(v, taken, best) && Current(v + [id], taken, cur)
    requires Window(v + [id], taken, t, n) && n > |best|
    ensures t + n - 1 == id as int && n <= |cur|
  {
    WindowLast(v, id, taken, t, n);
    var m: nat := |best| + 1;
    assert Window(v, taken, t, n) ==> Window(v, taken, t, m);
    var before := cur[0] as int - 1;
    assert t <= before < t + n ==> Free(v + [id], taken, before);
  }

  lemma FirstHere(v: seq<Id>, id: Id, taken: set<Id>, best: seq<Id>, cur: seq<Id>, t: int)
    requires Ascending(v + [id]) && Longest(v, taken, best) && Current(v + [id], taken, cur)
    requires var n := if |cur| > |best| then |cur| else |best|;
             n >= 1 && Window(v + [id], taken, t, n)
    ensures (if |cur| > |best| then cur else best)[0] as int <= t
  {
    if |cur| > |best| {
      EndsHere(v, id, taken, best, cur, t, |cur|);
    } else {
      WindowLast(v, id, taken, t, |best|);
      if !Window(v, taken, t, |best|) {
        assert Free(v, taken, best[|best| - 1] as int);
        FreeBelow(v, id, taken, best[|best| - 1] as int);
      }
    }
  }

  /** A run of the full length found in a prefix is the answer for the whole list. */
  lemma PrefixBest(valid: seq<Id>, i: nat, taken: set<Id>, best: seq<Id>)
    requires Ascending(valid) && i <= |valid| && best != [] && Longest(valid[..i], taken, best)
    ensures BestWindow(valid, taken, |best|, best)
  {
    var v := valid[..i];
    var last := best[|best| - 1] as int;
    assert Free(v, taken, last);
    forall t | Window(valid, taken, t, |best|)
      ensures best[0] as int <= t
    {
      if !Window(v, taken, t, |best|) {
        var x :| t <= x < t + |best| && !Free(v, taken, x);
        assert Free(valid, taken, x);
        BeyondPrefix(valid, i, taken, last, x);
      }
    }
    forall x | best[0] as int <= x < best[0] as int + |best|
      ensures Free(valid, taken, x)
    {
      assert Free(v, taken, x);
      var k :| 0 <= k < |v| && v[k] == x && v[k] !in taken;
      assert valid[k] == x;
    }
  }

  lemma BeyondPrefix(valid: seq<Id>, i: nat, taken: set<Id>, x: int, y: int)
    requires Ascending(valid) && i <= |valid| && Free(valid[..i], taken, x) && Free(valid, taken, y)
    requires !Free(valid[..i], taken, y)
    ensures x < y
  {
    var j :| 0 <= j < i && valid[..i][j] == x && valid[..i][j] !in taken;
    var k :| 0 <= k < |valid| && valid[k] == y && valid[k] !in taken;
    if k < i {
      assert valid[..i][k] == y;
    }
  }

  lemma WholeBest(valid: seq<Id>, taken: set<Id>, num: nat, best: seq<Id>)
    requires Longest(valid, taken, best) && |best| <= num
    ensures BestWindow(valid, taken, num, best)
  {
  }

  // ---- what was handed out over a whole run

  /** IDs handed out by an allocation, an ID claimed by the caller, or one taken back. */
  datatype Event = Handed(ids: seq<Id>) | Claimed(id: Id) | Released(id: Id)

  /** The IDs in use after a history. */
  ghost function InUse(history: seq<Event>): (r: set<Id>)
  {
    if history == [] then {}
    else
      var before := InUse(history[..|history| - 1]);
      match history[|history| - 1]
      case Handed(ids) => before + set x | x in ids
      case Claimed(id) => before + {id}
      case Released(id) => before - {id}
  }

  /** Nothing handed out was in use at that time, and no allocation repeats an ID. */
  ghost predicate Sound(history: seq<Event>)
  {
    history != [] ==>
      && Sound(history[..|history| - 1])
      && (var last := history[|history| - 1];
          last.Handed? ==> NoDup(last.ids) && forall x :: x in last.ids ==> x !in InUse(history[..|history| - 1]))
  }

  lemma {:induction false} SoundPrefix(history: seq<Event>, n: nat)
    requires Sound(history) && n <= |history|
    ensures Sound(history[..n])
    decreases |history|
  {
    if n < |history| {
      SoundPrefix(history[..|history| - 1], n);
      assert history[..|history| - 1][..n] == history[..n];
    } else {
      assert history[..n] == history;
    }
  }

  /** An ID handed out and not taken back is in use. */
  lemma {:induction false} StillInUse(history: seq<Event>, i: nat, j: nat, x: Id)
    requires i < j <= |history| && history[i].Handed? && x in history[i].ids
    requires forall k :: i < k < j ==> history[k] != Released(x)
    ensures x in InUse(history[..j])
    decreases j
  {
    var h := history[..j];
    assert h[..j - 1] == history[..j - 1] && h[j - 1] == history[j - 1];
    if i < j - 1 {
      StillInUse(history, i, j - 1, x);
    }
  }

  /** Between two allocations of the same ID it was taken back. */
  lemma ReleasedBetween(history: seq<Event>, i: nat, j: nat, x: Id)
    requires Sound(history) && i < j < |history|
    requires history[i].Handed? && x in history[i].ids && history[j].Handed? && x in history[j].ids
    ensures exists k :: i < k < j && history[k] == Released(x)
  {
    SoundPrefix(history, j + 1);
    var h := history[..j + 1];
    assert h[..j] == history[..j] && h[j] == history[j];
    if forall k :: i < k < j ==> history[k] != Released(x) {
      StillInUse(history, i, j, x);
    }
  }

  // ---- picking one ID

  predicate Eligible(taken: set<Id>, lastUsed: Id, id: Id, above: bool, below: bool)
  {
    id !in taken && ((above && id > lastUsed) || (below && id <= lastUsed))
  }

  /** The first ID of the list, if any, that is free and on an admitted side of the last used ID. */
  ghost predicate IsFirst(taken: set<Id>, lastUsed: Id, valid: seq<Id>, above: bool, below: bool, r: Option<Id>)
  {
    match r
    case None => forall i :: 0 <= i < |valid| ==> !Eligible(taken, lastUsed, valid[i], above, below)
    case Some(x) =>
      exists i :: 0 <= i < |valid| && valid[i] == x && Eligible(taken, lastUsed, x, above, below)
        && forall j :: 0 <= j < i ==> !Eligible(taken, lastUsed, valid[j], above, below)
  }

  /** Incremental: the first free ID above the last used one, else the first free one. Smallest: the first free one. */
  ghost predicate Picked(taken: set<Id>, lastUsed: Id, valid: seq<Id>, mode: Mode, r: Option<Id>)
  {
    match mode
    case Smallest => IsFirst(taken, lastUsed, valid, true, true, r)
    case Incremental =>
      if IsFirst(taken, lastUsed, valid, true, false, None)
      then IsFirst(taken, lastUsed, valid, false, true, r)
      else IsFirst(taken, lastUsed, valid, true, false, r)
  }

  /** On an ascending list: the least free ID, in incremental mode the least one above the last used if there is one. */
  ghost predicate IsLeast(taken: set<Id>, lastUsed: Id, valid: seq<Id>, mode: Mode, r: Option<Id>)
  {
    match r
    case None => forall y :: !Free(valid, taken, y)
    case Some(x) =>
      && Free(valid, taken, x as int)
      && (mode == Smallest ==> forall y :: Free(valid, taken, y) ==> x as int <= y)
      && (mode == Incremental && x > lastUsed ==> forall y :: Free(valid, taken, y) && y > lastUsed as int ==>
            x as int <= y)
      && (mode == Incremental && x <= lastUsed ==> forall y :: Free(valid, taken, y) ==>
            x as int <= y <= lastUsed as int)
  }

  lemma PickedIsLeast(taken: set<Id>, lastUsed: Id, valid: seq<Id>, mode: Mode, r: Option<Id>)
    requires Ascending(valid) && Picked(taken, lastUsed, valid, mode, r)
    ensures IsLeast(taken, lastUsed, valid, mode, r)
  {
  }

  // ---- the generator

  class ChannelBdIdGenerator {
    const channelToValidIds: map<nat, seq<Id>>
    var taken: set<Id>
    var lastUsed: Id
    ghost var history: seq<Event>

    ghost predicate Valid()
      reads this
    {
      taken == InUse(history) && Sound(history)
    }

    constructor (channelToValidIds: map<nat, seq<Id>>)
      ensures Valid() && taken == {} && history == [] && lastUsed == MAX_ID
      ensures this.channelToValidIds == channelToValidIds
    {
      this.channelToValidIds := channelToValidIds;
      taken, lastUsed, history := {}, MAX_ID, [];
    }

    function ValidIds(channel: nat): (v: seq<Id>)
    {
      if channel in channelToValidIds then channelToValidIds[channel] else []
    }

    method AssignBdId(id: Id)
      requires Valid()
      modifies this
      ensures Valid() && taken == old(taken) + {id} && lastUsed == id && history == old(history) + [Claimed(id)]
    {
      history := history + [Claimed(id)];
      assert history[..|history| - 1] == old(history);
      taken := taken + {id};
      lastUsed := id;
    }

    method ReleaseBdId(id: Id)
      requires Valid()
      modifies this
      ensures Valid() && taken == old(taken) - {id} && lastUsed == old(lastUsed)
      ensures history == old(history) + [Released(id)]
    {
      history := history + [Released(id)];
      assert history[..|history| - 1] == old(history);
      taken := taken - {id};
    }

    method IsBdIdAssigned(id: Id) returns (b: bool)
      requires Valid()
      ensures b <==> id in InUse(history)
    {
      return id in taken;
    }

    /** The free IDs of a channel, each counted as often as it is listed. */
    method NumAvailableBdIds(channel: nat) returns (n: nat)
      ensures n == |set i | 0 <= i < |ValidIds(channel)| && ValidIds(channel)[i] !in taken|
    {
      n := 0;
      var valid := ValidIds(channel);
      ghost var free: set<int> := {};
      for k := 0 to |valid|
        invariant free == set i | 0 <= i < k && valid[i] !in taken
        invariant n == |free|
      {
        if valid[k] !in taken {
          n := n + 1;
          free := free + {k};
        }
      }
    }

    /** Records that `ids`, all free, are handed out. */
    method HandOut(ids: seq<Id>)
      requires Valid() && NoDup(ids) && forall x :: x in ids ==> x !in taken
      modifies this
      ensures Valid() && taken == old(taken) + (set x | x in ids) && history == old(history) + [Handed(ids)]
      ensures lastUsed == if ids == [] then old(lastUsed) else ids[|ids| - 1]
    {
      for k := 0 to |ids|
        invariant history == old(history) && taken == old(taken) + set x | x in ids[..k]
        invariant lastUsed == if k == 0 then old(lastUsed) else ids[k - 1]
      {
        assert ids[..k + 1] == ids[..k] + [ids[k]];
        taken := taken + {ids[k]};
        lastUsed := ids[k];
      }
      assert ids[..|ids|] == ids;
      history := history + [Handed(ids)];
      assert history[..|history| - 1] == old(history);
    }

    method FirstFree(valid: seq<Id>, above: bool, below: bool) returns (r: Option<Id>)
      ensures IsFirst(taken, lastUsed, valid, above, below, r)
    {
      for k := 0 to |valid|
        invariant forall i :: 0 <= i < k ==> !Eligible(taken, lastUsed, valid[i], above, below)
      {
        if Eligible(taken, lastUsed, valid[k], above, below) { return Some(valid[k]); }
      }
      return None;
    }

    method GetAndAssignBdId(channel: nat, mode: Mode) returns (r: Option<Id>)
      requires Valid()
      modifies this
      ensures Valid() && Picked(old(taken), old(lastUsed), ValidIds(channel), mode, r)
      ensures Ascending(ValidIds(channel)) ==> IsLeast(old(taken), old(lastUsed), ValidIds(channel), mode, r)
      ensures r == None ==> taken == old(taken) && lastUsed == old(lastUsed) && history == old(history)
      ensures r.Some? ==> r.value !in old(taken) && taken == old(taken) + {r.value} && lastUsed == r.value
      ensures r.Some? ==> history == old(history) + [Handed([r.value])]
    {
      var valid := ValidIds(channel);
      if mode == Smallest {
        r := FirstFree(valid, true, true);
      } else {
        r := FirstFree(valid, true, false);
        if r == None {
          r := FirstFree(valid, false, true);
        }
      }
      assert Picked(taken, lastUsed, valid, mode, r);
      if Ascending(valid) {
        PickedIsLeast(taken, lastUsed, valid, mode, r);
      }
      if r.Some? {
        HandOut([r.value]);
      }
    }

    /** On an ascending list: the lowest run of `num` free IDs, or else the lowest of the longest runs. */
    method GetAndAssignConsecutiveBdIds(channel: nat, num: Id) returns (r: seq<Id>)
      requires Valid()
      modifies this
      ensures Valid()
      ensures Ascending(ValidIds(channel)) ==> BestWindow(ValidIds(channel), old(taken), num, r)
      ensures NoDup(r) && |r| <= num && forall x :: x in r ==> x in ValidIds(channel) && x !in old(taken)
      ensures taken == old(taken) + (set x | x in r)
      ensures lastUsed == if r == [] then old(lastUsed) else r[|r| - 1]
      ensures history == old(history) + [Handed(r)]
    {
      r := LongestRun(ValidIds(channel), num);
      HandOut(r);
    }

    /** The scan for the longest run, cut short once it is long enough. */
    method LongestRun(valid: seq<Id>, num: Id) returns (best: seq<Id>)
      ensures Ascending(valid) ==> BestWindow(valid, taken, num, best)
      ensures NoDup(best) && |best| <= num && forall x :: x in best ==> x in valid && x !in taken
    {
      best := [];
      var cur: seq<Id> := [];
      var i := 0;
      ScanStart(taken);
      while i < |valid| && |best| < num
        invariant 0 <= i <= |valid| && |cur| <= |best| <= num
        invariant Consecutive(cur) && Consecutive(best)
        invariant forall x :: x in cur || x in best ==> x in valid && x !in taken
        invariant Ascending(valid) ==> Current(valid[..i], taken, cur) && Longest(valid[..i], taken, best)
      {
        hide Ascending, Current, Longest;
        var id := valid[i];
        if Ascending(valid) {
          ScanNext(valid, i, taken, cur, best);
        }
        ConsecutiveNext(cur, id);
        cur := if id in taken then [] else Extended(cur, id);
        if |cur| > |best| { best := cur; }
        i := i + 1;
      }
      ConsecutiveNoDup(best);
      if Ascending(valid) {
        ScanDone(valid, i, taken, num, best);
      }
    }
  }

  ghost predicate Consecutive(r: seq<Id>)
  {
    forall k :: 0 <= k < |r| ==> r[k] as int == (r[0] as int + k) % 0x1_0000_0000
  }

  lemma ConsecutiveNext(cur: seq<Id>, id: Id)
    requires Consecutive(cur)
    ensures Consecutive(Extended(cur, id)) && |Extended(cur, id)| <= |cur| + 1
    ensures forall x :: x in Extended(cur, id) ==> x in cur || x == id
  {
    if Extended(cur, id) != [id] {
      NextShifted(cur[0] as int, |cur| - 1);
    }
  }

  lemma NextShifted(a: nat, k: nat)
    ensures ((a + k) % 0x1_0000_0000 + 1) % 0x1_0000_0000 == (a + k + 1) % 0x1_0000_0000
  {
  }

  lemma ConsecutiveNoDup(r: seq<Id>)
    requires Consecutive(r) && |r| < 0x1_0000_0000
    ensures NoDup(r)
  {
    forall i, j | 0 <= i < j < |r|
      ensures r[i] != r[j]
    {
      ShiftedDiffer(r[0] as int, i, j);
    }
  }

  lemma ShiftedDiffer(a: nat, i: nat, j: nat)
    requires i < j < i + 0x1_0000_0000
    ensures (a + i) % 0x1_0000_0000 != (a + j) % 0x1_0000_0000
  {
  }

  lemma ScanStart(taken: set<Id>)
    ensures Current([], taken, []) && Longest([], taken, [])
  {
    forall t
      ensures !Window([], taken, t, 1)
    {
      assert !Free([], taken, t);
    }
  }

  lemma ScanNext(valid: seq<Id>, i: nat, taken: set<Id>, cur: seq<Id>, best: seq<Id>)
    requires Ascending(valid) && i < |valid| && Current(valid[..i], taken, cur) && Longest(valid[..i], taken, best)
    ensures var cur' := if valid[i] in taken then [] else Extended(cur, valid[i]);
            Current(valid[..i + 1], taken, cur')
              && Longest(valid[..i + 1], taken, if |cur'| > |best| then cur' else best)
  {
    var v, id := valid[..i], valid[i];
    assert valid[..i + 1] == v + [id];
    assert Ascending(v + [id]);
    CurrentNext(v, id, taken, cur);
    LongestNext(v, id, taken, best, if id in taken then [] else Extended(cur, id));
  }

  lemma ScanDone(valid: seq<Id>, i: nat, taken: set<Id>, num: nat, best: seq<Id>)
    requires Ascending(valid) && i <= |valid| && Longest(valid[..i], taken, best) && |best| <= num
    requires i == |valid| || |best| >= num
    ensures BestWindow(valid, taken, num, best)
  {
    if i == |valid| {
      assert valid[..i] == valid;
      WholeBest(valid, taken, num, best);
    } else if best != [] {
      PrefixBest(valid, i, taken, best);
    }
  }
}

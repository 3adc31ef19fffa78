/** Adding buffer addresses to the 48-bit address fields of buffer descriptors, by a table of entries. */
module PatchTable {
  import opened Common

  const TWO16: int := 0x1_0000
  const TWO32: int := 0x1_0000_0000
  const TWO48: int := 0x1_0000_0000_0000
  const TWO64: int := 0x1_0000_0000_0000_0000

  /** The offset of the device's window on host memory. */
  const APERTURE: int := 0x8000_0000

  type Word = x: int | 0 <= x < 0x1_0000_0000

  /** Byte offset of a descriptor, index of an argument, and what to add to the argument. */
  datatype Entry = Entry(offset: Word, arg: Word, plus: Word)

  // ---- one descriptor

  /** Words 1 and 2 of a descriptor hold the address: all of word 1, and the low half of word 2. */
  function Address(low: Word, high: Word): (a: nat)
    ensures a < TWO48
  {
    (high as int % TWO16) * TWO32 + low as int
  }

  /** Bitwise or. */
  function Or(a: nat, b: nat): (r: nat)
    decreases a + b
  {
    if a == 0 && b == 0 then 0
    else 2 * Or(a / 2, b / 2) + if a % 2 == 1 || b % 2 == 1 then 1 else 0
  }

  lemma {:induction false} OrBound(a: nat, b: nat, n: nat)
    requires a < Pow2(n) && b < Pow2(n)
    ensures Or(a, b) < Pow2(n)
    decreases n
  {
    if n > 0 {
      OrBound(a / 2, b / 2, n - 1);
    }
  }

  /** Every one bit of `b` is a one bit of `a`. */
  predicate Within(b: nat, a: nat)
    decreases a + b
  {
    (a == 0 && b == 0) || ((b % 2 == 1 ==> a % 2 == 1) && Within(b / 2, a / 2))
  }

  lemma {:induction false} OrAbsorbs(a: nat, b: nat)
    ensures Or(a, b) == a <==> Within(b, a)
    decreases a + b
  {
    if a != 0 || b != 0 {
      OrAbsorbs(a / 2, b / 2);
    }
  }

  lemma {:induction false} OrZero(a: nat)
    ensures Or(a, 0) == a
  {
    if a != 0 {
      OrZero(a / 2);
    }
  }

  /** The address a descriptor should have: old address, argument, addend and aperture. */
  function Total(low: Word, high: Word, arg: nat, plus: Word): (t: nat)
  {
    Address(low, high) + arg + plus as int + APERTURE
  }

  /** 48 bits of the total, rounded down to a multiple of four. */
  function Rounded(total: nat): (a: int)
  {
    total % TWO48 - total % 4
  }

  /** The part of word 2 that is not address. */
  function Upper(high: Word): (u: nat)
  {
    high as int / TWO16
  }

  /** The 64-bit sum that is written back. */
  function Sum(low: Word, high: Word, arg: nat, plus: Word): (s: nat)
    ensures s < TWO64
  {
    Total(low, high, arg, plus) % TWO64
  }

  function NewLow(sum: nat): (w: Word)
  {
    sum % TWO32 / 4 * 4
  }

  /** The upper half of word 2 is kept, with whatever the sum has above bit 47 or-ed in. */
  function NewHigh(high: Word, sum: nat): (w: Word)
    requires sum < TWO64
  {
    UpperFits(high, sum);
    Or(high as int / TWO16, sum / TWO48) * TWO16 + sum / TWO32 % TWO16
  }

  lemma UpperFits(high: Word, sum: nat)
    requires sum < TWO64
    ensures Or(high as int / TWO16, sum / TWO48) < TWO16
  {
    assert Pow2(4) == 16 && Pow2(8) == 16 * Pow2(4) && Pow2(12) == 16 * Pow2(8) && Pow2(16) == 16 * Pow2(12);
    OrBound(high as int / TWO16, sum / TWO48, 16);
  }

  /** The new address is the sum within 48 bits, rounded down to a multiple of four. */
  lemma NewAddress(low: Word, high: Word, arg: nat, plus: Word)
    ensures var sum := Sum(low, high, arg, plus);
            Address(NewLow(sum), NewHigh(high, sum)) == Rounded(Total(low, high, arg, plus))
  {
    var sum := Sum(low, high, arg, plus);
    var total := Total(low, high, arg, plus);
    HighHalf(high, sum);
    SplitSum(sum);
    LowQuads(sum);
    ModMod(total);
  }

  lemma HighHalf(high: Word, sum: nat)
    requires sum < TWO64
    ensures NewHigh(high, sum) as int % TWO16 == sum / TWO32 % TWO16
    ensures NewHigh(high, sum) as int / TWO16 == Or(high as int / TWO16, sum / TWO48)
  {
  }

  lemma SplitSum(sum: nat)
    ensures sum % TWO48 == (sum / TWO32 % TWO16) * TWO32 + sum % TWO32
  {
    var q, r := sum / TWO32, sum % TWO32;
    var a, b := q / TWO16, q % TWO16;
    assert sum == a * TWO48 + (b * TWO32 + r);
  }

  lemma LowQuads(sum: nat)
    ensures sum % TWO32 / 4 * 4 == sum % TWO32 - sum % 4
  {
    var q, r := sum / TWO32, sum % TWO32;
    assert sum == 4 * (q * 0x4000_0000 + r / 4) + r % 4;
  }

  lemma ModMod(total: nat)
    ensures total % TWO64 % TWO48 == total % TWO48 && total % TWO64 % 4 == total % 4
  {
    var q, r := total / TWO64, total % TWO64;
    var a, b := r / TWO48, r % TWO48;
    assert total == (q * TWO16 + a) * TWO48 + b;
    assert total == 4 * (q * 0x4000_0000_0000_0000 + r / 4) + r % 4;
  }

  /** The rest of word 2 survives exactly if the sum has no one bit above bit 47 where word 2 has a zero. */
  lemma UpperKept(low: Word, high: Word, arg: nat, plus: Word)
    ensures var sum := Sum(low, high, arg, plus);
            Upper(NewHigh(high, sum)) == Upper(high) <==> Within(sum / TWO48, Upper(high))
  {
    var sum := Sum(low, high, arg, plus);
    HighHalf(high, sum);
    OrAbsorbs(high as int / TWO16, sum / TWO48);
  }

  /** In particular when the sum stays below 2^48. */
  lemma SmallSum(low: Word, high: Word, arg: nat, plus: Word)
    requires Total(low, high, arg, plus) < TWO48
    ensures var sum := Sum(low, high, arg, plus);
            Rounded(Total(low, high, arg, plus)) == Total(low, high, arg, plus) / 4 * 4
              && Upper(NewHigh(high, sum)) == Upper(high)
  {
    hide Address;
    SmallTotal(Total(low, high, arg, plus));
    hide Total, Rounded;
    HighHalf(high, Sum(low, high, arg, plus));
    OrZero(high as int / TWO16);
    hide NewHigh;
  }

  lemma SmallTotal(total: nat)
    requires total < TWO48
    ensures Rounded(total) == total / 4 * 4 && total % TWO64 == total && total / TWO48 == 0
  {
  }

  /** A sum that just carries into bit 48 sets the lowest bit of the other half, whatever it was. */
  lemma CarryDamages(low: Word, high: Word, arg: nat, plus: Word)
    requires TWO48 <= Total(low, high, arg, plus) < 2 * TWO48
    ensures var after := Upper(NewHigh(high, Sum(low, high, arg, plus)));
            after == Upper(high) + if Upper(high) % 2 == 0 then 1 else 0
  {
    hide Total;
    var sum := Sum(low, high, arg, plus);
    assert sum / TWO48 == 1;
    HighHalf(high, sum);
    hide NewHigh;
    OrOne(Upper(high));
  }

  lemma OrOne(a: nat)
    ensures Or(a, 1) == a + if a % 2 == 0 then 1 else 0
  {
    assert Or(a, 1) == 2 * Or(a / 2, 0) + 1;
    OrZero(a / 2);
  }

  // ---- the table

  predicate EntryOk(numWords: nat, numArgs: nat, e: Entry)
  {
    e.arg as int < numArgs && e.offset as int + 12 <= 4 * numWords && e.offset as int % 4 == 0
  }

  /** The index of the descriptor's first word. */
  function WordOf(e: Entry): (i: nat)
  {
    e.offset as int / 4
  }

  function ApplyEntry(w: seq<Word>, e: Entry, args: seq<nat>): (r: seq<Word>)
    requires EntryOk(|w|, |args|, e)
    ensures |r| == |w|
    ensures forall k :: 0 <= k < |w| && k != WordOf(e) + 1 && k != WordOf(e) + 2 ==> r[k] == w[k]
  {
    var i := WordOf(e);
    var sum := Sum(w[i + 1], w[i + 2], args[e.arg], e.plus);
    w[i + 1 := NewLow(sum)][i + 2 := NewHigh(w[i + 2], sum)]
  }

  /** Entries in order, up to the first bad one. */
  function ApplyEntries(w: seq<Word>, es: seq<Entry>, args: seq<nat>): (r: (bool, seq<Word>))
    ensures |r.1| == |w|
    decreases |es|
  {
    if es == [] then (true, w)
    else if !EntryOk(|w|, |args|, es[0]) then (false, w)
    else ApplyEntries(ApplyEntry(w, es[0], args), es[1..], args)
  }

  function EntryAt(patches: seq<Word>, k: nat): (e: Entry)
    requires 3 * k + 3 <= |patches|
  {
    Entry(patches[3 * k], patches[3 * k + 1], patches[3 * k + 2])
  }

  function EntriesFrom(patches: seq<Word>, k: nat): (es: seq<Entry>)
    requires |patches| % 3 == 0 && 3 * k <= |patches|
    decreases |patches| - 3 * k
  {
    if 3 * k == |patches| then [] else [EntryAt(patches, k)] + EntriesFrom(patches, k + 1)
  }

  method ApplyPatchTable(ctrl: array<Word>, patches: seq<Word>, args: seq<nat>) returns (ok: bool)
    modifies ctrl
    ensures |patches| % 3 != 0 ==> !ok && ctrl[..] == old(ctrl[..])
    ensures |patches| % 3 == 0 ==> (ok, ctrl[..]) == ApplyEntries(old(ctrl[..]), EntriesFrom(patches, 0), args)
  {
    if |patches| % 3 != 0 { return false; }
    var k := 0;
    while 3 * k < |patches|
      invariant 0 <= 3 * k <= |patches|
      invariant ApplyEntries(ctrl[..], EntriesFrom(patches, k), args) ==
                ApplyEntries(old(ctrl[..]), EntriesFrom(patches, 0), args)
      decreases |patches| - 3 * k
    {
      var e := EntryAt(patches, k);
      assert EntriesFrom(patches, k)[1..] == EntriesFrom(patches, k + 1);
      if e.arg as int >= |args| { return false; }
      if e.offset as int + 12 > 4 * ctrl.Length || e.offset as int % 4 != 0 { return false; }
      hide Sum, NewLow, NewHigh;
      ghost var before := ctrl[..];
      var i := WordOf(e);
      var sum := Sum(ctrl[i + 1], ctrl[i + 2], args[e.arg], e.plus);
      ctrl[i + 1] := NewLow(sum);
      ctrl[i + 2] := NewHigh(ctrl[i + 2], sum);
      assert ctrl[..] == ApplyEntry(before, e, args);
      k := k + 1;
    }
    return true;
  }

  /** Two entries address different words. */
  ghost predicate Apart(d: Entry, e: Entry)
  {
    WordOf(d) + 1 < WordOf(e) || WordOf(e) + 1 < WordOf(d)
  }

  ghost predicate AllApart(es: seq<Entry>)
  {
    forall i, j :: 0 <= i < j < |es| ==> Apart(es[i], es[j])
  }

  ghost predicate AllOk(numWords: nat, numArgs: nat, es: seq<Entry>)
  {
    forall k :: 0 <= k < |es| ==> EntryOk(numWords, numArgs, es[k])
  }

  /** Success is decided by the table alone. */
  lemma {:induction false} SucceedsIff(w: seq<Word>, es: seq<Entry>, args: seq<nat>)
    ensures ApplyEntries(w, es, args).0 <==> AllOk(|w|, |args|, es)
    decreases |es|
  {
    if es != [] && EntryOk(|w|, |args|, es[0]) {
      SucceedsIff(ApplyEntry(w, es[0], args), es[1..], args);
      assert AllOk(|w|, |args|, es) <==> AllOk(|w|, |args|, es[1..]) by {
        assert es == [es[0]] + es[1..];
      }
    }
  }

  /** What one entry makes of the words at its place. */
  ghost predicate PatchedBy(w: seq<Word>, r: seq<Word>, e: Entry, args: seq<nat>)
  {
    && EntryOk(|w|, |args|, e) && |r| == |w|
    && r[WordOf(e) + 1] == ApplyEntry(w, e, args)[WordOf(e) + 1]
    && r[WordOf(e) + 2] == ApplyEntry(w, e, args)[WordOf(e) + 2]
  }

  ghost predicate Touched(es: seq<Entry>, k: int)
  {
    exists j :: 0 <= j < |es| && (k == WordOf(es[j]) + 1 || k == WordOf(es[j]) + 2)
  }

  /** Words no entry addresses are left alone. */
  lemma {:induction false} OthersKept(w: seq<Word>, es: seq<Entry>, args: seq<nat>, k: nat)
    requires k < |w| && !Touched(es, k)
    ensures ApplyEntries(w, es, args).1[k] == w[k]
    decreases |es|
  {
    if es != [] && EntryOk(|w|, |args|, es[0]) {
      assert k != WordOf(es[0]) + 1 && k != WordOf(es[0]) + 2;
      assert !Touched(es[1..], k) by {
        assert forall j :: 0 <= j < |es| - 1 ==> es[1..][j] == es[j + 1];
      }
      OthersKept(ApplyEntry(w, es[0], args), es[1..], args, k);
    }
  }

  /** In a table whose entries are apart, every entry works on the original words. */
  lemma {:induction false} EachEntryApplied(w: seq<Word>, es: seq<Entry>, args: seq<nat>, k: nat)
    requires AllApart(es) && AllOk(|w|, |args|, es) && k < |es|
    ensures PatchedBy(w, ApplyEntries(w, es, args).1, es[k], args)
    decreases |es|
  {
    hide Sum, NewLow, NewHigh;
    var w' := ApplyEntry(w, es[0], args);
    var rest := es[1..];
    if k == 0 {
      assert !Touched(rest, WordOf(es[0]) + 1) && !Touched(rest, WordOf(es[0]) + 2);
      OthersKept(w', rest, args, WordOf(es[0]) + 1);
      OthersKept(w', rest, args, WordOf(es[0]) + 2);
    } else {
      assert Apart(es[0], es[k]);
      assert AllApart(rest) && AllOk(|w'|, |args|, rest);
      EachEntryApplied(w', rest, args, k - 1);
      var i := WordOf(es[k]);
      assert w'[i + 1] == w[i + 1] && w'[i + 2] == w[i + 2];
    }
  }

  /** The order of entries that are apart does not matter. */
  lemma OrderIrrelevant(w: seq<Word>, es: seq<Entry>, fs: seq<Entry>, args: seq<nat>)
    requires AllApart(es) && AllApart(fs) && (forall e :: e in es <==> e in fs)
    requires AllOk(|w|, |args|, es)
    ensures ApplyEntries(w, es, args) == ApplyEntries(w, fs, args)
  {
    hide Sum, NewLow, NewHigh, ApplyEntries, ApplyEntry;
    forall k | 0 <= k < |fs|
      ensures EntryOk(|w|, |args|, fs[k])
    {
      assert fs[k] in es;
    }
    SucceedsIff(w, es, args);
    SucceedsIff(w, fs, args);
    var r, q := ApplyEntries(w, es, args).1, ApplyEntries(w, fs, args).1;
    forall k | 0 <= k < |w|
      ensures r[k] == q[k]
    {
      SameWord(w, es, fs, args, k);
    }
    assert r == q;
    assert ApplyEntries(w, es, args) == (true, r) && ApplyEntries(w, fs, args) == (true, q);
  }

  lemma SameWord(w: seq<Word>, es: seq<Entry>, fs: seq<Entry>, args: seq<nat>, k: nat)
    requires AllApart(es) && AllApart(fs) && (forall e :: e in es <==> e in fs) && k < |w|
    requires AllOk(|w|, |args|, es) && AllOk(|w|, |args|, fs)
    ensures ApplyEntries(w, es, args).1[k] == ApplyEntries(w, fs, args).1[k]
  {
    hide Sum, NewLow, NewHigh, ApplyEntries, ApplyEntry;
    if Touched(es, k) {
      var j :| 0 <= j < |es| && (k == WordOf(es[j]) + 1 || k == WordOf(es[j]) + 2);
      EachEntryApplied(w, es, args, j);
      assert es[j] in fs;
      var i :| 0 <= i < |fs| && fs[i] == es[j];
      EachEntryApplied(w, fs, args, i);
    } else {
      assert !Touched(fs, k) by {
        forall j | 0 <= j < |fs| ensures k != WordOf(fs[j]) + 1 && k != WordOf(fs[j]) + 2 {
          assert fs[j] in es;
        }
      }
      OthersKept(w, es, args, k);
      OthersKept(w, fs, args, k);
    }
  }

  /** The whole table: every descriptor decodes to its old address plus argument, addend and aperture. */
  lemma TableDecodes(w: seq<Word>, es: seq<Entry>, args: seq<nat>, k: nat)
    requires AllApart(es) && AllOk(|w|, |args|, es) && k < |es|
    ensures var i := WordOf(es[k]);
            var r := ApplyEntries(w, es, args).1;
            var total := Total(w[i + 1], w[i + 2], args[es[k].arg], es[k].plus);
            && Address(r[i + 1], r[i + 2]) == Rounded(total)
            && (total < TWO48 ==> Address(r[i + 1], r[i + 2]) == total / 4 * 4 && Upper(r[i + 2]) == Upper(w[i + 2]))
  {
    hide Sum, NewLow, NewHigh, Address, ApplyEntries, ApplyEntry, AllApart, Rounded, Total, Upper;
    var e := es[k];
    var i := WordOf(e);
    assert EntryOk(|w|, |args|, e);
    EachEntryApplied(w, es, args, k);
    EntryWords(w, e, args);
    NewAddress(w[i + 1], w[i + 2], args[e.arg], e.plus);
    if Total(w[i + 1], w[i + 2], args[e.arg], e.plus) < TWO48 {
      SmallSum(w[i + 1], w[i + 2], args[e.arg], e.plus);
    }
  }

  lemma EntryWords(w: seq<Word>, e: Entry, args: seq<nat>)
    requires EntryOk(|w|, |args|, e)
    ensures var i := WordOf(e);
            var sum := Sum(w[i + 1], w[i + 2], args[e.arg], e.plus);
            var r := ApplyEntry(w, e, args);
            r[i + 1] == NewLow(sum) && r[i + 2] == NewHigh(w[i + 2], sum)
  {
    hide Sum, NewLow, NewHigh;
  }
}

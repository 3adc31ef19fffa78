/** The two patchers as the chained path uses them, and what a chained command's code says in the end. */
module CommandCode {
  import opened Common
  import opened CommandChain

  // ---- words and bytes

  function BytesOf(code: seq<Word>): (r: seq<TxnPatch.Byte>)
    ensures |r| == 4 * |code|
  {
    if code == [] then [] else TxnPatch.Bytes4(code[0] as int) + BytesOf(code[1..])
  }

  function WordsOf(bytes: seq<TxnPatch.Byte>): (r: seq<Word>)
    requires |bytes| % 4 == 0
    ensures 4 * |r| == |bytes|
  {
    if bytes == [] then [] else [TxnPatch.Word(bytes, 0)] + WordsOf(bytes[4..])
  }

  lemma {:induction false} WordsRoundTrip(code: seq<Word>)
    ensures WordsOf(BytesOf(code)) == code
  {
    if code != [] {
      var b := BytesOf(code);
      TxnPatch.WordBytes(code[0] as int);
      assert b[4..] == BytesOf(code[1..]);
      assert TxnPatch.Word(b, 0) == TxnPatch.Word(TxnPatch.Bytes4(code[0] as int), 0);
      WordsRoundTrip(code[1..]);
    }
  }

  lemma {:induction false} BytesRoundTrip(bytes: seq<TxnPatch.Byte>)
    requires |bytes| % 4 == 0
    ensures BytesOf(WordsOf(bytes)) == bytes
  {
    if bytes != [] {
      BytesOfWord(bytes);
      BytesRoundTrip(bytes[4..]);
      assert bytes == bytes[..4] + bytes[4..];
      assert WordsOf(bytes)[1..] == WordsOf(bytes[4..]);
    }
  }

  lemma BytesOfWord(s: seq<TxnPatch.Byte>)
    requires |s| >= 4
    ensures TxnPatch.Bytes4(TxnPatch.Word(s, 0)) == s[..4]
  {
    var w := TxnPatch.Word(s, 0);
    var a, b, c, d := s[0] as int, s[1] as int, s[2] as int, s[3] as int;
    assert w == a + 0x100 * (b + 0x100 * (c + 0x100 * d));
    assert w % 0x100 == a && w / 0x100 == b + 0x100 * (c + 0x100 * d);
    assert (w / 0x100) % 0x100 == b && w / 0x100 / 0x100 == c + 0x100 * d;
    assert (w / 0x100 / 0x100) % 0x100 == c && w / 0x100 / 0x100 / 0x100 == d;
  }

  // ---- the patchers

  /** Constants written into a control code. */
  function PatchCode(code: seq<Word>, constants: seq<TxnPatch.Byte>): (r: Option<seq<Word>>)
  {
    var p := TxnPatch.PatchTxn(BytesOf(code), constants);
    PatchKeepsLength(BytesOf(code), constants);
    if p.0 then Some(WordsOf(p.1)) else None
  }

  lemma PatchKeepsLength(s: seq<TxnPatch.Byte>, constants: seq<TxnPatch.Byte>)
    ensures |TxnPatch.PatchTxn(s, constants).1| == |s|
  {
    if |s| >= 16 {
      OpsKeepLength(s, 16, TxnPatch.Word(s, 8), constants);
    }
  }

  lemma {:induction false} OpsKeepLength(s: seq<TxnPatch.Byte>, p: nat, n: nat, constants: seq<TxnPatch.Byte>)
    ensures |TxnPatch.PatchOps(s, p, n, constants).1| == |s|
    decreases n
  {
    if n > 0 {
      var size := TxnPatch.OpSize(s, p);
      if size != 0 && p + size <= |s| {
        OpsKeepLength(s, p + size, n - 1, constants);
        if s[p] == 0 && TxnPatch.Tagged(TxnPatch.Word(s, p + 16))
          && TxnPatch.InBounds(TxnPatch.Word(s, p + 16), constants) {
          var v := TxnPatch.Constant(TxnPatch.Word(s, p + 16), constants);
          OpsKeepLength(TxnPatch.Overwrite(s, p + 16, v), p + size, n - 1, constants);
        }
      }
    }
  }

  /** Patching words is patching their bytes. */
  lemma PatchCodeBytes(code: seq<Word>, constants: seq<TxnPatch.Byte>)
    ensures var p := TxnPatch.PatchTxn(BytesOf(code), constants);
            match PatchCode(code, constants) case Some(r) => p == (true, BytesOf(r)) && |r| == |code| case None => !p.0
  {
    hide TxnPatch.PatchTxn, BytesOf, WordsOf;
    PatchKeepsLength(BytesOf(code), constants);
    BytesRoundTrip(TxnPatch.PatchTxn(BytesOf(code), constants).1);
  }

  /** Addresses written into a control code by its table. */
  function TableCode(code: seq<Word>, table: seq<Word>, addresses: seq<nat>): (r: Option<seq<Word>>)
  {
    if |table| % 3 != 0 then None
    else
      var p := PatchTable.ApplyEntries(code, PatchTable.EntriesFrom(table, 0), addresses);
      if p.0 then Some(p.1) else None
  }

  /** Success depends on the table, on the length of the code and on how many addresses there are. */
  lemma TableCodeSucceeds(code: seq<Word>, table: seq<Word>, addresses: seq<nat>)
    ensures TableCode(code, table, addresses).Some? <==>
            |table| % 3 == 0 && PatchTable.AllOk(|code|, |addresses|, PatchTable.EntriesFrom(table, 0))
  {
    if |table| % 3 == 0 {
      PatchTable.SucceedsIff(code, PatchTable.EntriesFrom(table, 0), addresses);
    }
  }

  /** The descriptor of entry `e` in `host` has the address the default path passes for that argument. */
  ghost predicate Decodes(code: seq<Word>, host: seq<Word>, e: PatchTable.Entry, addresses: seq<nat>)
  {
    && PatchTable.EntryOk(|code|, |addresses|, e) && |host| == |code|
    && var i := PatchTable.WordOf(e);
       PatchTable.Address(host[i + 1], host[i + 2]) ==
       PatchTable.Rounded(PatchTable.Total(code[i + 1], code[i + 2], addresses[e.arg], e.plus))
  }

  /**
   * A chained command carries its code with addresses written in: by a table of its dispatch, whose every
   * entry, when they are apart, makes its descriptor decode to its old address plus the address that
   * the default path passes, the entry's addend and the aperture.
   */
  lemma ChainedCodeDecodes(ds: seq<Dispatch>, buffers: seq<ControlBuffer>, c: Cmd, host: seq<Word>)
    requires HostOk(PatchCode, TableCode, ds, buffers, c, host) && c.args.Buffers?
    ensures exists d, run: nat ::
              && d in ds && run < |d.tables| && |d.tables[run]| % 3 == 0
              && run < |d.codes| && c == Exec(PatchCode, d, run)
              && var es := PatchTable.EntriesFrom(d.tables[run], 0);
                 PatchTable.AllApart(es) ==> forall k :: 0 <= k < |es| ==>
                   Decodes(c.code, host, es[k], c.args.addresses)
  {
    var d, run: nat, at :|
      && d in ds && run < |d.tables| && run < |d.codes|
      && c.queue == d.queue && c.cu == d.cu && PatchCode(d.codes[run], d.constants) == Some(c.code)
      && (c.args.Buffers? ==> c.args.addresses == Addresses(d.bindings))
      && TableCode(c.code, d.tables[run], HostArgs(c.args, at)) == Some(host);
    hide PatchTable.EntriesFrom, PatchTable.ApplyEntries;
    assert |d.tables[run]| % 3 == 0;
    var es, w, args := PatchTable.EntriesFrom(d.tables[run], 0), c.code, c.args.addresses;
    assert PatchTable.ApplyEntries(w, es, args) == (true, host);
    if PatchTable.AllApart(es) {
      PatchTable.SucceedsIff(w, es, args);
      hide PatchTable.AllApart;
      forall k | 0 <= k < |es|
        ensures Decodes(w, host, es[k], args)
      {
        EntryDecodes(w, es, args, host, k);
      }
    }
  }

  lemma EntryDecodes(w: seq<Word>, es: seq<PatchTable.Entry>, args: seq<nat>, host: seq<Word>, k: nat)
    requires PatchTable.AllApart(es) && PatchTable.AllOk(|w|, |args|, es) && k < |es|
    requires PatchTable.ApplyEntries(w, es, args) == (true, host)
    ensures Decodes(w, host, es[k], args)
  {
    hide PatchTable.AllApart, PatchTable.ApplyEntries, PatchTable.Rounded, PatchTable.Total, PatchTable.Address;
    assert PatchTable.EntryOk(|w|, |args|, es[k]);
    PatchTable.TableDecodes(w, es, args, k);
  }
}

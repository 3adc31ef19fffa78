/**
 * Submitting the dispatches of a command buffer one command at a time, or batched into chains.
 * Outcomes of device calls are arbitrary; what is proved holds for all of them. On a `reliable`
 * device none of them fails, and then the outcome is decided by the dispatches.
 */
module CommandChain {
  import opened Common
  import PatchTable
  import TxnPatch

  type Word = PatchTable.Word

  datatype Binding = Binding(base: nat, byteOffset: nat, offset: nat)

  /** What a command's control code works on: control-packet data, or the addresses of the bound buffers. */
  datatype Args = Control(data: seq<Word>) | Buffers(addresses: seq<nat>)

  datatype Cmd = Cmd(queue: nat, cu: nat, code: seq<Word>, args: Args)

  /** A dispatch with the parameters its executable carries. */
  datatype Dispatch = Dispatch(
    queue: nat, cu: nat,
    codes: seq<seq<Word>>,
    tables: seq<seq<Word>>,
    reconfigurations: seq<seq<Word>>,
    numKernelRuns: nat,
    numReconfigureRuns: nat,
    bindings: seq<Binding>,
    constants: seq<TxnPatch.Byte>)

  /** Replacing tagged values of a control code by dispatch constants; fails on malformed code. */
  type Patch = (seq<Word>, seq<TxnPatch.Byte>) -> Option<seq<Word>>

  /** The control codes a dispatch refers to exist. */
  predicate DispatchOk(d: Dispatch)
  {
    |d.codes| >= 1 && |d.codes| >= 2 * |d.reconfigurations|
  }

  function Addresses(bindings: seq<Binding>): (r: seq<nat>)
  {
    seq(|bindings|, j requires 0 <= j < |bindings| => bindings[j].base + bindings[j].byteOffset + bindings[j].offset)
  }

  function Patched(patch: Patch, d: Dispatch, run: nat): (code: seq<Word>)
    requires run < |d.codes|
  {
    match patch(d.codes[run], d.constants)
    case Some(code) => code
    case None => d.codes[run]
  }

  function Exec(patch: Patch, d: Dispatch, run: nat): (c: Cmd)
    requires run < |d.codes|
  {
    Cmd(d.queue, d.cu, Patched(patch, d, run), Buffers(Addresses(d.bindings)))
  }

  function Reconfigure(patch: Patch, d: Dispatch, i: nat): (c: Cmd)
    requires DispatchOk(d) && i < |d.reconfigurations|
  {
    Cmd(d.queue, d.cu, Patched(patch, d, 2 * i), Control(d.reconfigurations[i]))
  }

  function Repeat(c: Cmd, n: nat): (r: seq<Cmd>)
    ensures |r| == n && forall k :: 0 <= k < n ==> r[k] == c
  {
    seq(n, _ => c)
  }

  /** A reconfiguration, then runs of its kernel. */
  function OneReconfiguration(patch: Patch, d: Dispatch, i: nat): (r: seq<Cmd>)
    requires DispatchOk(d) && i < |d.reconfigurations|
  {
    Repeat(Reconfigure(patch, d, i), d.numReconfigureRuns) + Repeat(Exec(patch, d, 2 * i + 1), d.numKernelRuns)
  }

  function Reconfigured(patch: Patch, d: Dispatch, n: nat): (r: seq<Cmd>)
    requires DispatchOk(d) && n <= |d.reconfigurations|
  {
    if n == 0 then [] else Reconfigured(patch, d, n - 1) + OneReconfiguration(patch, d, n - 1)
  }

  lemma NoneReconfigured(patch: Patch, d: Dispatch, before: seq<Cmd>)
    requires DispatchOk(d)
    ensures before + Reconfigured(patch, d, 0) == before
  {
  }

  lemma ReconfiguredNext(patch: Patch, d: Dispatch, i: nat, before: seq<Cmd>)
    requires DispatchOk(d) && i < |d.reconfigurations|
    ensures before + Reconfigured(patch, d, i + 1) ==
      before + Reconfigured(patch, d, i) + OneReconfiguration(patch, d, i)
  {
  }

  function CommandsOf(patch: Patch, d: Dispatch): (r: seq<Cmd>)
    requires DispatchOk(d)
  {
    if d.reconfigurations == [] then Repeat(Exec(patch, d, 0), d.numKernelRuns)
    else Reconfigured(patch, d, |d.reconfigurations|)
  }

  /** What the dispatches of a command buffer ask the device to do. */
  function AllCommands(patch: Patch, ds: seq<Dispatch>): (r: seq<Cmd>)
    requires forall d :: d in ds ==> DispatchOk(d)
  {
    if ds == [] then [] else AllCommands(patch, ds[..|ds| - 1]) + CommandsOf(patch, ds[|ds| - 1])
  }

  lemma {:induction false} AllPrefix(patch: Patch, ds: seq<Dispatch>, k: nat)
    requires k <= |ds| && forall d :: d in ds ==> DispatchOk(d)
    ensures AllCommands(patch, ds[..k]) <= AllCommands(patch, ds)
    decreases |ds|
  {
    if k < |ds| {
      AllPrefix(patch, ds[..|ds| - 1], k);
      assert ds[..|ds| - 1][..k] == ds[..k];
    } else {
      assert ds[..k] == ds;
    }
  }

  lemma {:induction false} ReconfiguredPrefix(patch: Patch, d: Dispatch, k: nat, n: nat)
    requires DispatchOk(d) && k <= n <= |d.reconfigurations|
    ensures Reconfigured(patch, d, k) <= Reconfigured(patch, d, n)
    decreases n
  {
    if k < n {
      ReconfiguredPrefix(patch, d, k, n - 1);
    }
  }

  // ---- one command at a time

  /** A call into the device. */
  method Call(reliable: bool) returns (ok: bool)
    ensures reliable ==> ok
  {
    ok := *;
    ok := ok || reliable;
  }

  /** The code of a run can be patched, as far as it is used. */
  predicate CodeOk(patch: Patch, d: Dispatch, run: nat, used: bool)
    requires run < |d.codes|
  {
    used ==> patch(d.codes[run], d.constants).Some?
  }

  /** The default path patches the code of a reconfiguration even if it is to be run zero times. */
  predicate DefaultOk(patch: Patch, d: Dispatch)
    requires DispatchOk(d)
  {
    if d.reconfigurations == [] then CodeOk(patch, d, 0, d.numKernelRuns > 0)
    else forall i :: 0 <= i < |d.reconfigurations| ==>
           CodeOk(patch, d, 2 * i, true) && CodeOk(patch, d, 2 * i + 1, d.numKernelRuns > 0)
  }

  /** The command is a run of a dispatch, with constants written into its code. */
  ghost predicate FromPatched(patch: Patch, ds: seq<Dispatch>, c: Cmd)
  {
    exists d, run: nat ::
      && d in ds && run < |d.codes| && c.queue == d.queue && c.cu == d.cu
      && patch(d.codes[run], d.constants) == Some(c.code)
  }

  ghost predicate AllPatched(patch: Patch, ds: seq<Dispatch>, log: seq<Cmd>)
  {
    forall c :: c in log ==> FromPatched(patch, ds, c)
  }

  lemma RepeatPatched(patch: Patch, ds: seq<Dispatch>, c: Cmd, n: nat, log0: seq<Cmd>, log: seq<Cmd>)
    requires AllPatched(patch, ds, log0) && log <= log0 + Repeat(c, n) && FromPatched(patch, ds, c)
    ensures AllPatched(patch, ds, log)
  {
    hide FromPatched;
  }

  /** Submits a command up to `n` times; the last one submitted may have failed. */
  method SubmitRepeatedly(reliable: bool, c: Cmd, n: nat, log0: seq<Cmd>) returns (ok: bool, log: seq<Cmd>)
    ensures reliable ==> ok
    ensures log0 <= log <= log0 + Repeat(c, n)
    ensures ok ==> log == log0 + Repeat(c, n)
  {
    log := log0;
    for i := 0 to n
      invariant log == log0 + Repeat(c, i)
    {
      log := log + [c];
      ok := Call(reliable);
      if !ok { return; }
    }
    return true, log;
  }

  /** The buffer arguments of the default path: each buffer with its two offsets added up. */
  method BufferArgs(bindings: seq<Binding>) returns (r: seq<nat>)
    ensures r == Addresses(bindings)
  {
    r := [];
    for j := 0 to |bindings|
      invariant r == Addresses(bindings[..j])
    {
      var offset := bindings[j].byteOffset + bindings[j].offset;
      r := r + [bindings[j].base + offset];
    }
    assert bindings[..|bindings|] == bindings;
  }

  method NormalRun(reliable: bool, patch: Patch, d: Dispatch, run: nat, log0: seq<Cmd>, ghost ds: seq<Dispatch>)
    returns (ok: bool, log: seq<Cmd>)
    requires run < |d.codes| && d in ds && AllPatched(patch, ds, log0)
    ensures reliable && CodeOk(patch, d, run, d.numKernelRuns > 0) ==> ok
    ensures ok ==> CodeOk(patch, d, run, d.numKernelRuns > 0)
    ensures AllPatched(patch, ds, log)
    ensures log0 <= log <= log0 + Repeat(Exec(patch, d, run), d.numKernelRuns)
    ensures ok ==> log == log0 + Repeat(Exec(patch, d, run), d.numKernelRuns)
  {
    log := log0;
    if d.numKernelRuns == 0 {
      assert log0 + Repeat(Exec(patch, d, run), 0) == log0;
      return true, log;
    }
    var code := patch(d.codes[run], d.constants);
    ok := Call(reliable); // buffers, command
    if code == None || !ok { return false, log; }
    var addresses := BufferArgs(d.bindings);
    var cmd := Cmd(d.queue, d.cu, code.value, Buffers(addresses));
    ok, log := SubmitRepeatedly(reliable, cmd, d.numKernelRuns, log0);
    RepeatPatched(patch, ds, cmd, d.numKernelRuns, log0, log);
    if ok {
      ok := Call(reliable); // bindings back to the host
    }
  }

  method ReconfigureRun(reliable: bool, patch: Patch, d: Dispatch, i: nat, log0: seq<Cmd>, ghost ds: seq<Dispatch>)
    returns (ok: bool, log: seq<Cmd>)
    requires DispatchOk(d) && i < |d.reconfigurations| && d in ds && AllPatched(patch, ds, log0)
    ensures reliable && CodeOk(patch, d, 2 * i, true) ==> ok
    ensures ok ==> CodeOk(patch, d, 2 * i, true)
    ensures AllPatched(patch, ds, log)
    ensures log0 <= log <= log0 + Repeat(Reconfigure(patch, d, i), d.numReconfigureRuns)
    ensures ok ==> log == log0 + Repeat(Reconfigure(patch, d, i), d.numReconfigureRuns)
  {
    log := log0;
    var code := patch(d.codes[2 * i], d.constants);
    ok := Call(reliable); // buffers, command
    if code == None || !ok { return false, log; }
    var cmd := Cmd(d.queue, d.cu, code.value, Control(d.reconfigurations[i]));
    ok, log := SubmitRepeatedly(reliable, cmd, d.numReconfigureRuns, log0);
    RepeatPatched(patch, ds, cmd, d.numReconfigureRuns, log0, log);
  }

  method DispatchDefault(reliable: bool, patch: Patch, d: Dispatch, log0: seq<Cmd>, ghost ds: seq<Dispatch>)
    returns (ok: bool, log: seq<Cmd>)
    requires DispatchOk(d) && d in ds && AllPatched(patch, ds, log0)
    ensures reliable && DefaultOk(patch, d) ==> ok
    ensures ok ==> DefaultOk(patch, d)
    ensures AllPatched(patch, ds, log)
    ensures log <= log0 + CommandsOf(patch, d)
    ensures ok ==> log == log0 + CommandsOf(patch, d)
  {
    hide Exec, Reconfigure, Repeat, Reconfigured, CodeOk, AllPatched;
    if d.reconfigurations == [] {
      ok, log := NormalRun(reliable, patch, d, 0, log0, ds);
      return;
    }
    log := log0;
    NoneReconfigured(patch, d, log0);
    for i := 0 to |d.reconfigurations|
      invariant log == log0 + Reconfigured(patch, d, i) && AllPatched(patch, ds, log)
      invariant forall j :: 0 <= j < i ==>
                  CodeOk(patch, d, 2 * j, true) && CodeOk(patch, d, 2 * j + 1, d.numKernelRuns > 0)
    {
      ReconfiguredPrefix(patch, d, i + 1, |d.reconfigurations|);
      ReconfiguredNext(patch, d, i, log0);
      ghost var a, b := Repeat(Reconfigure(patch, d, i), d.numReconfigureRuns),
        Repeat(Exec(patch, d, 2 * i + 1), d.numKernelRuns);
      assert log0 + Reconfigured(patch, d, i + 1) == log + a + b;
      assert log + a <= log + a + b <= log0 + CommandsOf(patch, d);
      ok, log := ReconfigureRun(reliable, patch, d, i, log, ds);
      if !ok { return; }
      ok, log := NormalRun(reliable, patch, d, 2 * i + 1, log, ds);
      if !ok { return; }
    }
    return true, log;
  }

  /**
   * The default path: all commands in order, or a prefix of them and a failure. Every command submitted has
   * a patched code; success means that all codes could be patched.
   */
  method RunDefault(reliable: bool, patch: Patch, ds: seq<Dispatch>) returns (ok: bool, log: seq<Cmd>)
    requires forall d :: d in ds ==> DispatchOk(d)
    ensures reliable ==> (ok <==> AllDefaultOk(patch, ds))
    ensures ok ==> AllDefaultOk(patch, ds)
    ensures log <= AllCommands(patch, ds) && AllPatched(patch, ds, log)
    ensures ok ==> log == AllCommands(patch, ds)
  {
    hide CommandsOf, DefaultOk, AllCommands, FromPatched;
    log := [];
    NoCommands(patch);
    for k := 0 to |ds|
      invariant log == AllCommands(patch, ds[..k]) && AllPatched(patch, ds, log)
      invariant AllDefaultOk(patch, ds[..k])
    {
      hide AllPatched, AllDefaultOk;
      OneMoreDispatch(patch, ds, k);
      OneMoreDefault(patch, ds, k);
      ok, log := DispatchDefault(reliable, patch, ds[k], log, ds);
      if !ok { return; }
    }
    assert ds[..|ds|] == ds;
    return true, log;
  }

  ghost predicate AllDefaultOk(patch: Patch, ds: seq<Dispatch>)
    requires forall d :: d in ds ==> DispatchOk(d)
  {
    forall d :: d in ds ==> DefaultOk(patch, d)
  }

  lemma NoCommands(patch: Patch)
    ensures AllCommands(patch, []) == []
  {
  }

  lemma OneMoreDispatch(patch: Patch, ds: seq<Dispatch>, k: nat)
    requires k < |ds| && forall d :: d in ds ==> DispatchOk(d)
    ensures ds[k] in ds
    ensures AllCommands(patch, ds[..k + 1]) == AllCommands(patch, ds[..k]) + CommandsOf(patch, ds[k])
    ensures AllCommands(patch, ds[..k + 1]) <= AllCommands(patch, ds)
  {
    hide CommandsOf, DefaultOk;
    assert ds[..k + 1][..k] == ds[..k];
    AllPrefix(patch, ds, k + 1);
  }

  lemma OneMoreDefault(patch: Patch, ds: seq<Dispatch>, k: nat)
    requires k < |ds| && forall d :: d in ds ==> DispatchOk(d)
    ensures AllDefaultOk(patch, ds[..k + 1]) <==> AllDefaultOk(patch, ds[..k]) && DefaultOk(patch, ds[k])
    ensures AllDefaultOk(patch, ds) ==> DefaultOk(patch, ds[k])
  {
    hide DefaultOk, DispatchOk;
    assert ds[..k + 1] == ds[..k] + [ds[k]];
  }

  // ---- chains

  /** A device buffer with control-packet data, and its address. */
  datatype ControlBuffer = ControlBuffer(at: nat, data: seq<Word>)

  function DataOf(buffers: seq<ControlBuffer>): (r: seq<seq<Word>>)
    ensures |r| == |buffers|
  {
    seq(|buffers|, k requires 0 <= k < |buffers| => buffers[k].data)
  }

  /** A run of dispatches on one queue. */
  datatype Group = Group(queue: nat, cmds: seq<Cmd>, hosts: seq<seq<Word>>, controlBuffers: seq<ControlBuffer>,
    bindings: seq<Binding>)

  /** One submitted chain: commands, their codes with addresses written in, and the other buffers bound to it. */
  datatype Chunk = Chunk(queue: nat, cmds: seq<Cmd>, hosts: seq<seq<Word>>, controlBuffers: seq<ControlBuffer>,
    bindings: seq<Binding>)

  /** The buffers a chain binds: a code for each command, control-packet data, and the buffers of the dispatches. */
  function NumArgs(c: Chunk): (n: nat)
  {
    |c.cmds| + |c.controlBuffers| + |c.bindings|
  }

  /** Writing buffer addresses into a control code by its table; fails on a bad table. */
  type Table = (seq<Word>, seq<Word>, seq<nat>) -> Option<seq<Word>>

  /** The addresses the table refers to: the bound buffers, or the buffer at `at` that holds control-packet data. */
  function HostArgs(args: Args, at: nat): (r: seq<nat>)
  {
    match args
    case Buffers(addresses) => addresses
    case Control(_) => [at]
  }

  /**
   * `c` is a run of a dispatch, and `host` its code with its addresses written in by the table of that run:
   * those of the dispatch's buffers, or that of the control buffer with its data.
   */
  ghost predicate HostOk(patch: Patch, table: Table, ds: seq<Dispatch>, buffers: seq<ControlBuffer>, c: Cmd,
                         host: seq<Word>)
  {
    exists d, run: nat, at ::
      && d in ds && run < |d.tables| && run < |d.codes|
      && c.queue == d.queue && c.cu == d.cu && patch(d.codes[run], d.constants) == Some(c.code)
      && (c.args.Buffers? ==> c.args.addresses == Addresses(d.bindings))
      && (c.args.Control? ==> ControlBuffer(at, c.args.data) in buffers)
      && table(c.code, d.tables[run], HostArgs(c.args, at)) == Some(host)
  }

  ghost predicate HostsOk(patch: Patch, table: Table, ds: seq<Dispatch>, buffers: seq<ControlBuffer>, cmds: seq<Cmd>,
                          hosts: seq<seq<Word>>)
  {
    |hosts| == |cmds| && forall k :: 0 <= k < |cmds| ==> HostOk(patch, table, ds, buffers, cmds[k], hosts[k])
  }

  ghost predicate GroupHosts(patch: Patch, table: Table, ds: seq<Dispatch>, groups: seq<Group>)
  {
    forall k :: 0 <= k < |groups| ==>
      HostsOk(patch, table, ds, groups[k].controlBuffers, groups[k].cmds, groups[k].hosts)
  }

  function GroupCommands(groups: seq<Group>): (r: seq<Cmd>)
  {
    if groups == [] then [] else GroupCommands(groups[..|groups| - 1]) + groups[|groups| - 1].cmds
  }

  function ChunkCommands(chunks: seq<Chunk>): (r: seq<Cmd>)
  {
    if chunks == [] then [] else ChunkCommands(chunks[..|chunks| - 1]) + chunks[|chunks| - 1].cmds
  }

  lemma {:induction false} ChunkCommandsConcat(a: seq<Chunk>, b: seq<Chunk>)
    ensures ChunkCommands(a + b) == ChunkCommands(a) + ChunkCommands(b)
    decreases |b|
  {
    if b == [] {
      assert a + b == a;
    } else {
      var n := |b| - 1;
      assert ChunkCommands(b) == ChunkCommands(b[..n]) + b[n].cmds;
      hide ChunkCommands;
      ChunkCommandsConcat(a, b[..n]);
      ChunkCommandsNext(a + b[..n], b[n]);
      calc {
        ChunkCommands(a + b);
        { assert a + b == (a + b[..n]) + [b[n]]; }
        ChunkCommands(a + b[..n]) + b[n].cmds;
        (ChunkCommands(a) + ChunkCommands(b[..n])) + b[n].cmds;
        { Associative(ChunkCommands(a), ChunkCommands(b[..n]), b[n].cmds); }
        ChunkCommands(a) + ChunkCommands(b);
      }
    }
  }

  lemma Associative<T>(a: seq<T>, b: seq<T>, c: seq<T>)
    ensures (a + b) + c == a + (b + c)
  {
  }

  lemma ChunkCommandsNext(a: seq<Chunk>, c: Chunk)
    ensures ChunkCommands(a + [c]) == ChunkCommands(a) + c.cmds
  {
    assert (a + [c])[..|a|] == a;
  }

  /** Commands are on their group's queue, and a new group means a new queue. */
  ghost predicate GroupsOk(groups: seq<Group>)
  {
    && (forall k :: 0 <= k < |groups| ==> OnQueue(groups[k]))
    && (forall k :: 1 <= k < |groups| ==> QueueChanges(groups, k))
  }

  ghost predicate OnQueue(g: Group)
  {
    forall c :: c in g.cmds ==> c.queue == g.queue
  }

  ghost predicate QueueChanges(groups: seq<Group>, k: nat)
    requires 1 <= k < |groups|
  {
    groups[k - 1].queue != groups[k].queue
  }

  /** The group's commands from `begin` on, `maxSlots` to a chunk. */
  function ChunksFrom(g: Group, maxSlots: nat, begin: nat): (r: seq<Chunk>)
    requires maxSlots >= 1
    decreases |g.cmds| - begin
  {
    if begin >= |g.cmds| then []
    else
      var end := if begin + maxSlots < |g.cmds| then begin + maxSlots else |g.cmds|;
      [ChunkOf(g, begin, end)] + ChunksFrom(g, maxSlots, begin + maxSlots)
  }

  function ChunkOf(g: Group, begin: nat, end: nat): (c: Chunk)
    requires begin <= end <= |g.cmds|
  {
    Chunk(g.queue, g.cmds[begin..end], if end <= |g.hosts| then g.hosts[begin..end] else [], g.controlBuffers,
          g.bindings)
  }

  function AllChunks(groups: seq<Group>, maxSlots: nat): (r: seq<Chunk>)
    requires maxSlots >= 1
  {
    if groups == [] then []
    else AllChunks(groups[..|groups| - 1], maxSlots) + ChunksFrom(groups[|groups| - 1], maxSlots, 0)
  }

  /** Chunking loses, repeats and reorders nothing. */
  lemma {:induction false} ChunksFromAll(g: Group, maxSlots: nat, begin: nat)
    requires maxSlots >= 1 && begin <= |g.cmds|
    ensures ChunkCommands(ChunksFrom(g, maxSlots, begin)) == g.cmds[begin..]
    decreases |g.cmds| - begin
  {
    hide ChunkCommands, ChunkOf;
    if begin < |g.cmds| {
      var end := if begin + maxSlots < |g.cmds| then begin + maxSlots else |g.cmds|;
      var rest := ChunksFrom(g, maxSlots, begin + maxSlots);
      FirstChunk(g, begin, end, rest);
      if end < |g.cmds| {
        ChunksFromAll(g, maxSlots, end);
        assert g.cmds[begin..] == g.cmds[begin..end] + g.cmds[end..];
      } else {
        NothingLeft(g, maxSlots, begin + maxSlots);
        assert g.cmds[begin..end] + [] == g.cmds[begin..];
      }
    } else {
      NothingLeft(g, maxSlots, begin);
    }
  }

  lemma FirstChunk(g: Group, begin: nat, end: nat, rest: seq<Chunk>)
    requires begin <= end <= |g.cmds|
    ensures ChunkCommands([ChunkOf(g, begin, end)] + rest) == g.cmds[begin..end] + ChunkCommands(rest)
  {
    var c := ChunkOf(g, begin, end);
    ChunkCommandsConcat([c], rest);
    OneChunk(c);
    hide ChunkCommands;
  }

  lemma OneChunk(c: Chunk)
    ensures ChunkCommands([c]) == c.cmds
  {
    assert [c][..0] == [];
    assert ChunkCommands([]) == [];
  }

  lemma NothingLeft(g: Group, maxSlots: nat, begin: nat)
    requires maxSlots >= 1 && begin >= |g.cmds|
    ensures ChunkCommands(ChunksFrom(g, maxSlots, begin)) == []
  {
  }

  /** Chunks are never empty, and full but for the last of a group. */
  ghost predicate AllFit(r: seq<Chunk>, maxSlots: nat)
  {
    && (forall k :: 0 <= k < |r| ==> ChunkFits(r[k], maxSlots))
    && (forall k :: 0 <= k < |r| - 1 ==> |r[k].cmds| == maxSlots)
  }

  lemma {:induction false} ChunksFromFit(g: Group, maxSlots: nat, begin: nat)
    requires maxSlots >= 1 && begin <= |g.cmds| && OnQueue(g)
    ensures AllFit(ChunksFrom(g, maxSlots, begin), maxSlots)
    decreases |g.cmds| - begin
  {
    if begin + maxSlots < |g.cmds| {
      ChunksFromFit(g, maxSlots, begin + maxSlots);
      FitCons(ChunkOf(g, begin, begin + maxSlots), ChunksFrom(g, maxSlots, begin + maxSlots), maxSlots);
    } else if begin < |g.cmds| {
      assert ChunkFits(ChunkOf(g, begin, |g.cmds|), maxSlots);
      assert ChunksFrom(g, maxSlots, begin) == [ChunkOf(g, begin, |g.cmds|)];
    }
  }

  lemma FitCons(c: Chunk, rest: seq<Chunk>, maxSlots: nat)
    requires ChunkFits(c, maxSlots) && |c.cmds| == maxSlots && AllFit(rest, maxSlots)
    ensures AllFit([c] + rest, maxSlots)
  {
  }

  ghost predicate ChunkFits(c: Chunk, maxSlots: nat)
  {
    1 <= |c.cmds| <= maxSlots && forall x :: x in c.cmds ==> x.queue == c.queue
  }

  lemma {:induction false} AllChunksOk(groups: seq<Group>, maxSlots: nat)
    requires maxSlots >= 1 && GroupsOk(groups)
    ensures ChunkCommands(AllChunks(groups, maxSlots)) == GroupCommands(groups)
    ensures forall k :: 0 <= k < |AllChunks(groups, maxSlots)| ==> ChunkFits(AllChunks(groups, maxSlots)[k], maxSlots)
    decreases |groups|
  {
    if groups != [] {
      var n := |groups| - 1;
      GroupsPrefix(groups, n);
      AllChunksOk(groups[..n], maxSlots);
      ChunksFromAll(groups[n], maxSlots, 0);
      ChunksFromFit(groups[n], maxSlots, 0);
      ChunkCommandsConcat(AllChunks(groups[..n], maxSlots), ChunksFrom(groups[n], maxSlots, 0));
    }
  }

  lemma GroupsPrefix(groups: seq<Group>, n: nat)
    requires GroupsOk(groups) && n < |groups|
    ensures GroupsOk(groups[..n]) && GroupsOk([groups[n]])
  {
    forall k | 1 <= k < n
      ensures QueueChanges(groups[..n], k)
    {
      assert QueueChanges(groups, k);
    }
  }

  lemma {:induction false} AllChunksPrefix(groups: seq<Group>, maxSlots: nat, k: nat)
    requires maxSlots >= 1 && k <= |groups|
    ensures AllChunks(groups[..k], maxSlots) <= AllChunks(groups, maxSlots)
    decreases |groups|
  {
    if k < |groups| {
      AllChunksPrefix(groups[..|groups| - 1], maxSlots, k);
      assert groups[..|groups| - 1][..k] == groups[..k];
    } else {
      assert groups[..k] == groups;
    }
  }

  lemma ChunkPrefix(a: seq<Chunk>, b: seq<Chunk>)
    requires a <= b
    ensures ChunkCommands(a) <= ChunkCommands(b)
  {
    assert b == a + b[|a|..];
    ChunkCommandsConcat(a, b[|a|..]);
  }

  /** The code of a run can be patched with constants and addresses, as far as it is used. */
  ghost predicate SlotOk(patch: Patch, table: Table, d: Dispatch, run: nat, args: Args, used: bool)
    requires run < |d.codes| == |d.tables|
  {
    used ==>
      match patch(d.codes[run], d.constants)
      case Some(code) => forall at: nat :: table(code, d.tables[run], HostArgs(args, at)).Some?
      case None => false
  }

  /** The chained path needs a table per code, and only uses codes that are to be run. */
  ghost predicate ChainOk(patch: Patch, table: Table, d: Dispatch)
    requires DispatchOk(d)
  {
    && |d.tables| == |d.codes|
    && (d.reconfigurations == [] ==> SlotOk(patch, table, d, 0, Buffers(Addresses(d.bindings)), d.numKernelRuns > 0))
    && (forall i :: 0 <= i < |d.reconfigurations| ==> ReconfigurationOk(patch, table, d, i))
  }

  ghost predicate ReconfigurationOk(patch: Patch, table: Table, d: Dispatch, i: nat)
    requires DispatchOk(d) && |d.tables| == |d.codes| && i < |d.reconfigurations|
  {
    && SlotOk(patch, table, d, 2 * i, Control(d.reconfigurations[i]), d.numReconfigureRuns > 0)
    && SlotOk(patch, table, d, 2 * i + 1, Buffers(Addresses(d.bindings)), d.numKernelRuns > 0)
  }

  class CommandBuffer {
    var groups: seq<Group>
    var submitted: seq<Chunk>
    var synced: seq<Binding> // written back to the host

    constructor ()
      ensures groups == [] && submitted == [] && synced == []
    {
      groups, submitted, synced := [], [], [];
    }

    /** Adds a dispatch's commands to the last group, or to a new one if the queue changes; submits nothing. */
    method Accumulate(reliable: bool, patch: Patch, table: Table, d: Dispatch, ghost ds: seq<Dispatch>)
      returns (ok: bool)
      requires DispatchOk(d) && GroupsOk(groups) && GroupHosts(patch, table, ds, groups) && d in ds
      modifies this`groups
      ensures reliable && ChainOk(patch, table, d) ==> ok
      ensures GroupsOk(groups) && GroupHosts(patch, table, ds, groups)
      ensures GroupCommands(old(groups)) <= GroupCommands(groups) <= GroupCommands(old(groups)) + CommandsOf(patch, d)
      ensures ok ==> GroupCommands(groups) == GroupCommands(old(groups)) + CommandsOf(patch, d)
      ensures ok ==> Accumulated(patch, d, old(groups), groups)
    {
      hide GroupsOk, GroupCommands, CommandsOf, GroupHosts, Kept;
      if |d.tables| != |d.codes| { return false; }
      OpenGroup(d.queue, patch, table, ds);
      ghost var open0 := groups;
      var addresses := BindingAddresses(d.bindings);
      ok := EmitDispatch(reliable, patch, table, d, addresses, ds);
      if ok {
        ghost var emitted := groups;
        KeptNonEmpty(open0, emitted, d.reconfigurations);
        AddBindings(d.bindings, patch, table, ds);
        AccumulatedBy(patch, d, old(groups), open0, emitted, groups);
      }
    }

    /** The addresses of the chained path, for the tables. */
    method BindingAddresses(bindings: seq<Binding>) returns (r: seq<nat>)
      ensures r == Addresses(bindings)
    {
      r := [];
      for j := 0 to |bindings|
        invariant r == Addresses(bindings[..j])
      {
        r := r + [bindings[j].base + bindings[j].byteOffset + bindings[j].offset];
      }
      assert bindings[..|bindings|] == bindings;
    }

    method EmitDispatch(reliable: bool, patch: Patch, table: Table, d: Dispatch, addresses: seq<nat>,
                        ghost ds: seq<Dispatch>)
      returns (ok: bool)
      requires addresses == Addresses(d.bindings)
      requires DispatchOk(d) && |d.codes| == |d.tables| && d in ds && GroupHosts(patch, table, ds, groups)
      requires GroupsOk(groups) && groups != [] && groups[|groups| - 1].queue == d.queue
      modifies this`groups
      ensures reliable && ChainOk(patch, table, d) ==> ok
      ensures GroupsOk(groups) && groups != [] && GroupHosts(patch, table, ds, groups)
      ensures GroupCommands(old(groups)) <= GroupCommands(groups) <= GroupCommands(old(groups)) + CommandsOf(patch, d)
      ensures ok ==> GroupCommands(groups) == GroupCommands(old(groups)) + CommandsOf(patch, d)
      ensures ok ==> Kept(old(groups), groups, d.reconfigurations)
    {
      hide GroupsOk, GroupCommands, Reconfigured, Repeat, SlotOk, ReconfigurationOk, GroupHosts, Kept;
      KeptSame(groups);
      ghost var before := GroupCommands(groups);
      if d.reconfigurations == [] {
        ok := Emit(reliable, patch, table, d, 0, Buffers(addresses), 0, d.numKernelRuns, ds);
        return;
      }
      NoneReconfigured(patch, d, before);
      for i := 0 to |d.reconfigurations|
        invariant GroupsOk(groups) && groups != [] && groups[|groups| - 1].queue == d.queue
        invariant GroupHosts(patch, table, ds, groups)
        invariant GroupCommands(groups) == before + Reconfigured(patch, d, i)
        invariant Kept(old(groups), groups, d.reconfigurations[..i])
      {
        ghost var previous := groups;
        ReconfiguredPrefix(patch, d, i + 1, |d.reconfigurations|);
        ok := EmitReconfiguration(reliable, patch, table, d, i, addresses, ds);
        ReconfiguredNext(patch, d, i, before);
        if !ok { return; }
        KeptTwice(old(groups), previous, groups, d.reconfigurations[..i], [d.reconfigurations[i]]);
        assert d.reconfigurations[..i] + [d.reconfigurations[i]] == d.reconfigurations[..i + 1];
      }
      assert d.reconfigurations[..|d.reconfigurations|] == d.reconfigurations;
      return true;
    }

    method EmitReconfiguration(reliable: bool, patch: Patch, table: Table, d: Dispatch, i: nat, addresses: seq<nat>,
                               ghost ds: seq<Dispatch>)
      returns (ok: bool)
      requires addresses == Addresses(d.bindings)
      requires DispatchOk(d) && |d.codes| == |d.tables| && i < |d.reconfigurations| && d in ds
      requires GroupHosts(patch, table, ds, groups)
      requires GroupsOk(groups) && groups != [] && groups[|groups| - 1].queue == d.queue
      modifies this`groups
      ensures reliable && ReconfigurationOk(patch, table, d, i) ==> ok
      ensures GroupsOk(groups) && groups != [] && groups[|groups| - 1].queue == d.queue
      ensures GroupHosts(patch, table, ds, groups)
      ensures var all := GroupCommands(old(groups)) + OneReconfiguration(patch, d, i);
              GroupCommands(old(groups)) <= GroupCommands(groups) <= all && (ok ==> GroupCommands(groups) == all)
      ensures ok ==> Kept(old(groups), groups, [d.reconfigurations[i]])
    {
      hide GroupsOk, GroupCommands, Repeat, Patched, SlotOk, GroupHosts, Kept;
      var at;
      ok, at := AddControlBuffer(reliable, d.reconfigurations[i], patch, table, ds);
      if !ok { return; }
      ghost var open0 := groups;
      ghost var a, b := Repeat(Reconfigure(patch, d, i), d.numReconfigureRuns),
        Repeat(Exec(patch, d, 2 * i + 1), d.numKernelRuns);
      assert GroupCommands(old(groups)) + OneReconfiguration(patch, d, i) == GroupCommands(groups) + a + b;
      ok := Emit(reliable, patch, table, d, 2 * i, Control(d.reconfigurations[i]), at, d.numReconfigureRuns, ds);
      if !ok { return; }
      KeptTwice(old(groups), open0, groups, [d.reconfigurations[i]], []);
      assert [d.reconfigurations[i]] + [] == [d.reconfigurations[i]];
      open0 := groups;
      ok := Emit(reliable, patch, table, d, 2 * i + 1, Buffers(addresses), 0, d.numKernelRuns, ds);
      KeptTwice(old(groups), open0, groups, [d.reconfigurations[i]], []);
      assert [d.reconfigurations[i]] + [] == [d.reconfigurations[i]];
    }

    method OpenGroup(queue: nat, ghost patch: Patch, ghost table: Table, ghost ds: seq<Dispatch>)
      requires GroupsOk(groups) && GroupHosts(patch, table, ds, groups)
      modifies this`groups
      ensures GroupHosts(patch, table, ds, groups)
      ensures GroupsOk(groups) && groups != [] && groups[|groups| - 1].queue == queue
      ensures GroupCommands(groups) == GroupCommands(old(groups))
      ensures groups == Opened(old(groups), queue)
    {
      if groups == [] || groups[|groups| - 1].queue != queue {
        var g := Group(queue, [], [], [], []);
        AppendGroup(groups, g);
        groups := groups + [g];
      }
    }

    /** Builds `n` copies of one command; a failure leaves the ones already built. */
    method Emit(reliable: bool, patch: Patch, table: Table, d: Dispatch, run: nat, args: Args, at: nat, n: nat,
                ghost ds: seq<Dispatch>) returns (ok: bool)
      requires run < |d.codes| == |d.tables| && d in ds && GroupHosts(patch, table, ds, groups)
      requires args.Buffers? ==> args.addresses == Addresses(d.bindings)
      requires GroupsOk(groups) && groups != [] && groups[|groups| - 1].queue == d.queue
      requires args.Control? ==> ControlBuffer(at, args.data) in groups[|groups| - 1].controlBuffers
      modifies this`groups
      ensures reliable && SlotOk(patch, table, d, run, args, n > 0) ==> ok
      ensures GroupsOk(groups) && groups != [] && groups[|groups| - 1].queue == d.queue
      ensures GroupHosts(patch, table, ds, groups)
      ensures var all := GroupCommands(old(groups)) + Repeat(Cmd(d.queue, d.cu, Patched(patch, d, run), args), n);
              GroupCommands(old(groups)) <= GroupCommands(groups) <= all && (ok ==> GroupCommands(groups) == all)
      ensures Kept(old(groups), groups, [])
    {
      hide GroupsOk, GroupCommands, GroupHosts, SlotOk, Patched, Kept;
      KeptSame(groups);
      ghost var c := Cmd(d.queue, d.cu, Patched(patch, d, run), args);
      assert Repeat(c, 0) == [] && GroupCommands(groups) + [] == GroupCommands(groups);
      for r := 0 to n
        invariant GroupsOk(groups) && groups != [] && groups[|groups| - 1].queue == d.queue
        invariant GroupHosts(patch, table, ds, groups)
        invariant groups[|groups| - 1].controlBuffers == old(groups[|groups| - 1].controlBuffers)
        invariant GroupCommands(groups) == GroupCommands(old(groups)) + Repeat(c, r) && Kept(old(groups), groups, [])
      {
        ghost var previous := groups;
        ok := EmitOne(reliable, patch, table, d, run, args, at, ds);
        KeptTwice(old(groups), previous, groups, [], []);
        KeptBuffers(previous, groups);
        assert Repeat(c, r + 1) == Repeat(c, r) + [c];
        assert Repeat(c, r) <= Repeat(c, n);
        if !ok { return; }
      }
      return true;
    }

    method EmitOne(reliable: bool, patch: Patch, table: Table, d: Dispatch, run: nat, args: Args, at: nat,
                   ghost ds: seq<Dispatch>) returns (ok: bool)
      requires run < |d.codes| == |d.tables| && d in ds && GroupHosts(patch, table, ds, groups)
      requires args.Buffers? ==> args.addresses == Addresses(d.bindings)
      requires GroupsOk(groups) && groups != [] && groups[|groups| - 1].queue == d.queue
      requires args.Control? ==> ControlBuffer(at, args.data) in groups[|groups| - 1].controlBuffers
      modifies this`groups
      ensures reliable && SlotOk(patch, table, d, run, args, true) ==> ok
      ensures !ok ==> groups == old(groups)
      ensures GroupsOk(groups) && groups != [] && groups[|groups| - 1].queue == d.queue
      ensures GroupHosts(patch, table, ds, groups)
      ensures ok ==>
                GroupCommands(groups) == GroupCommands(old(groups)) + [Cmd(d.queue, d.cu, Patched(patch, d, run), args)]
      ensures Kept(old(groups), groups, [])
    {
      hide GroupsOk, GroupCommands, GroupHosts;
      var code := patch(d.codes[run], d.constants);
      ok := Call(reliable); // buffers, command
      if !ok || code == None { return false; }
      var host := table(code.value, d.tables[run], HostArgs(args, at));
      if host == None { return false; }
      var cmd := Cmd(d.queue, d.cu, code.value, args);
      assert HostOk(patch, table, ds, groups[|groups| - 1].controlBuffers, cmd, host.value);
      hide HostOk, Appended;
      PushCommand(groups, cmd, host.value, patch, table, ds);
      groups := Appended(groups, cmd, host.value);
    }

    method AddControlBuffer(reliable: bool, data: seq<Word>, ghost patch: Patch, ghost table: Table,
                            ghost ds: seq<Dispatch>)
      returns (ok: bool, at: nat)
      requires GroupsOk(groups) && groups != [] && GroupHosts(patch, table, ds, groups)
      modifies this`groups
      ensures reliable ==> ok
      ensures GroupsOk(groups) && |groups| == |old(groups)|
      ensures groups[|groups| - 1].queue == old(groups[|groups| - 1].queue)
      ensures GroupCommands(groups) == GroupCommands(old(groups)) && GroupHosts(patch, table, ds, groups)
      ensures ok ==> Kept(old(groups), groups, [data])
      ensures ok ==> ControlBuffer(at, data) in groups[|groups| - 1].controlBuffers
    {
      at := *; // where the device puts the buffer
      ok := Call(reliable);
      if !ok { return; }
      var last := |groups| - 1;
      var g := groups[last].(controlBuffers := groups[last].controlBuffers + [ControlBuffer(at, data)]);
      SameCommands(groups, g);
      MoreBuffers(groups, g, patch, table, ds);
      MoreData(groups[last].controlBuffers, ControlBuffer(at, data));
      groups := groups[last := g];
    }

    method AddBindings(bindings: seq<Binding>, ghost patch: Patch, ghost table: Table, ghost ds: seq<Dispatch>)
      requires GroupsOk(groups) && groups != [] && GroupHosts(patch, table, ds, groups)
      modifies this`groups
      ensures GroupsOk(groups) && GroupCommands(groups) == GroupCommands(old(groups))
      ensures GroupHosts(patch, table, ds, groups)
      ensures groups == WithBindings(old(groups), bindings)
    {
      var last := |groups| - 1;
      var g := groups[last].(bindings := groups[last].bindings + bindings);
      SameCommands(groups, g);
      groups := groups[last := g];
    }

    /** Submits one chain, unless it would bind more buffers than the device allows. */
    method SubmitChain(reliable: bool, c: Chunk, ceiling: nat) returns (ok: bool)
      modifies this`submitted
      ensures reliable && NumArgs(c) <= ceiling ==> ok
      ensures submitted == old(submitted) || submitted == old(submitted) + [c]
      ensures ok ==> submitted == old(submitted) + [c]
      ensures submitted != old(submitted) ==> NumArgs(c) <= ceiling
    {
      ok := Call(reliable); // chain command
      if !ok || NumArgs(c) > ceiling { return false; }
      submitted := submitted + [c];
      ok := Call(reliable); // the device's answer
    }

    /** Submits all groups in order, chunk by chunk; stops at the first failure, and drops the groups in any case. */
    method FlushChains(reliable: bool, maxSlots: nat, ceiling: nat) returns (ok: bool, queried: bool)
      requires maxSlots >= 1
      modifies this
      ensures reliable && WithinCeiling(AllChunks(old(groups), maxSlots), ceiling) ==> ok
      ensures old(submitted) <= submitted <= old(submitted) + AllChunks(old(groups), maxSlots)
      ensures ok ==> submitted == old(submitted) + AllChunks(old(groups), maxSlots)
      ensures old(synced) <= synced <= old(synced) + AllBindings(old(groups))
      ensures ok ==> synced == old(synced) + AllBindings(old(groups))
      ensures WithinCeiling(submitted[|old(submitted)|..], ceiling)
      ensures queried ==> groups == []
      ensures !queried ==> !ok && groups == old(groups) && submitted == old(submitted) && synced == old(synced)
    {
      hide ChunksFrom, WithinCeiling, AllChunks, AllBindings;
      NothingFlushed(groups, maxSlots, ceiling);
      assert submitted[|submitted|..] == [];
      if groups == [] { return true, true; }
      queried := Call(reliable); // the slot count may have to be asked for
      if !queried { return false, false; }
      for n := 0 to |groups|
        invariant groups == old(groups) && submitted == old(submitted) + AllChunks(groups[..n], maxSlots)
        invariant synced == old(synced) + AllBindings(groups[..n])
        invariant WithinCeiling(AllChunks(groups[..n], maxSlots), ceiling)
      {
        FlushNext(groups, maxSlots, n, ceiling);
        ok := FlushGroup(reliable, groups[n], maxSlots, ceiling);
        FlushedPart(old(submitted), AllChunks(groups[..n], maxSlots), submitted, ceiling);
        if ok {
          ok := SyncBindings(reliable, groups[n].bindings);
        }
        if !ok { groups := []; return false, true; }
      }
      assert groups[..|groups|] == groups;
      assert submitted[|old(submitted)|..] == AllChunks(groups, maxSlots);
      groups := [];
      return true, true;
    }

    /** Writes the buffers back to the host, in order, up to the first failure. */
    method SyncBindings(reliable: bool, bindings: seq<Binding>) returns (ok: bool)
      modifies this`synced
      ensures reliable ==> ok
      ensures old(synced) <= synced <= old(synced) + bindings
      ensures ok ==> synced == old(synced) + bindings
    {
      for k := 0 to |bindings|
        invariant synced == old(synced) + bindings[..k]
      {
        ok := Call(reliable);
        if !ok { return; }
        assert bindings[..k + 1] == bindings[..k] + [bindings[k]];
        synced := synced + [bindings[k]];
      }
      assert bindings[..|bindings|] == bindings;
      return true;
    }

    method FlushGroup(reliable: bool, g: Group, maxSlots: nat, ceiling: nat) returns (ok: bool)
      requires maxSlots >= 1
      modifies this`submitted
      ensures reliable && WithinCeiling(ChunksFrom(g, maxSlots, 0), ceiling) ==> ok
      ensures old(submitted) <= submitted <= old(submitted) + ChunksFrom(g, maxSlots, 0)
      ensures ok ==> submitted == old(submitted) + ChunksFrom(g, maxSlots, 0)
      ensures WithinCeiling(submitted[|old(submitted)|..], ceiling)
    {
      hide ChunkOf, NumArgs, ChunksFrom, WithinCeiling;
      ghost var all := old(submitted) + ChunksFrom(g, maxSlots, 0);
      assert submitted[|submitted|..] == [];
      NothingSubmitted(ceiling);
      var begin := 0;
      while begin < |g.cmds|
        invariant 0 <= begin && old(submitted) <= submitted && submitted + ChunksFrom(g, maxSlots, begin) == all
        invariant WithinCeiling(submitted[|old(submitted)|..], ceiling)
        decreases |g.cmds| - begin
      {
        var end := if begin + maxSlots < |g.cmds| then begin + maxSlots else |g.cmds|;
        ghost var before := submitted;
        NextChunk(g, maxSlots, begin, old(submitted), before, ceiling);
        ok := SubmitChain(reliable, ChunkOf(g, begin, end), ceiling);
        if !ok { return; }
        begin := begin + maxSlots;
      }
      NoMoreChunks(g, maxSlots, begin);
      assert submitted + [] == submitted;
      return true;
    }
  }

  lemma NothingSubmitted(ceiling: nat)
    ensures WithinCeiling([], ceiling)
  {
  }

  lemma NoMoreChunks(g: Group, maxSlots: nat, begin: nat)
    requires maxSlots >= 1 && begin >= |g.cmds|
    ensures ChunksFrom(g, maxSlots, begin) == []
  {
  }

  /** The next chunk of a group, and what submitting it leads to. */
  lemma NextChunk(g: Group, maxSlots: nat, begin: nat, before: seq<Chunk>, now: seq<Chunk>, ceiling: nat)
    requires maxSlots >= 1 && begin < |g.cmds| && before <= now
    requires now + ChunksFrom(g, maxSlots, begin) == before + ChunksFrom(g, maxSlots, 0)
    requires WithinCeiling(now[|before|..], ceiling)
    ensures var end := if begin + maxSlots < |g.cmds| then begin + maxSlots else |g.cmds|;
            var c := ChunkOf(g, begin, end);
            && now <= now + [c] <= before + ChunksFrom(g, maxSlots, 0)
            && (now + [c]) + ChunksFrom(g, maxSlots, begin + maxSlots) == before + ChunksFrom(g, maxSlots, 0)
            && (NumArgs(c) <= ceiling ==> WithinCeiling((now + [c])[|before|..], ceiling))
            && (WithinCeiling(ChunksFrom(g, maxSlots, 0), ceiling) ==> NumArgs(c) <= ceiling)
  {
    var end := if begin + maxSlots < |g.cmds| then begin + maxSlots else |g.cmds|;
    var c, rest, all := ChunkOf(g, begin, end), ChunksFrom(g, maxSlots, begin + maxSlots), ChunksFrom(g, maxSlots, 0);
    assert ChunksFrom(g, maxSlots, begin) == [c] + rest;
    hide ChunkOf, ChunksFrom, NumArgs;
    Advance(before, now, c, rest, all);
  }

  lemma Advance<T>(before: seq<T>, now: seq<T>, c: T, rest: seq<T>, all: seq<T>)
    requires before <= now && now + ([c] + rest) == before + all
    ensures now + [c] <= before + all && (now + [c]) + rest == before + all
    ensures (now + [c])[|before|..] == now[|before|..] + [c]
    ensures |now| - |before| < |all| && all[|now| - |before|] == c
  {
    Associative(now, [c], rest);
    var k := |now| - |before|;
    assert (now + ([c] + rest))[|now|] == c;
    assert (before + all)[|before| + k] == all[k];
  }

  /** The bindings of all groups, in order. */
  function AllBindings(groups: seq<Group>): (r: seq<Binding>)
  {
    if groups == [] then [] else AllBindings(groups[..|groups| - 1]) + groups[|groups| - 1].bindings
  }

  lemma {:induction false} AllBindingsPrefix(groups: seq<Group>, k: nat)
    requires k <= |groups|
    ensures AllBindings(groups[..k]) <= AllBindings(groups)
    decreases |groups|
  {
    if k < |groups| {
      AllBindingsPrefix(groups[..|groups| - 1], k);
      assert groups[..|groups| - 1][..k] == groups[..k];
    } else {
      assert groups[..k] == groups;
    }
  }

  ghost predicate WithinCeiling(chunks: seq<Chunk>, ceiling: nat)
  {
    forall k :: 0 <= k < |chunks| ==> NumArgs(chunks[k]) <= ceiling
  }

  lemma NothingFlushed(groups: seq<Group>, maxSlots: nat, ceiling: nat)
    requires maxSlots >= 1
    ensures AllChunks(groups[..0], maxSlots) == [] && AllBindings(groups[..0]) == [] && WithinCeiling([], ceiling)
    ensures groups == [] ==> AllChunks(groups, maxSlots) == [] && AllBindings(groups) == []
  {
  }

  lemma FlushNext(groups: seq<Group>, maxSlots: nat, n: nat, ceiling: nat)
    requires maxSlots >= 1 && n < |groups|
    ensures AllChunks(groups[..n + 1], maxSlots) ==
            AllChunks(groups[..n], maxSlots) + ChunksFrom(groups[n], maxSlots, 0)
    ensures AllChunks(groups[..n + 1], maxSlots) <= AllChunks(groups, maxSlots)
    ensures AllBindings(groups[..n + 1]) == AllBindings(groups[..n]) + groups[n].bindings
    ensures AllBindings(groups[..n + 1]) <= AllBindings(groups)
    ensures WithinCeiling(AllChunks(groups, maxSlots), ceiling) ==>
              WithinCeiling(ChunksFrom(groups[n], maxSlots, 0), ceiling)
  {
    hide ChunksFrom, WithinCeiling;
    assert groups[..n + 1][..n] == groups[..n];
    AllChunksPrefix(groups, maxSlots, n + 1);
    AllBindingsPrefix(groups, n + 1);
    GroupWithin(groups, maxSlots, n, ceiling);
  }

  lemma FlushedPart(before: seq<Chunk>, done: seq<Chunk>, after: seq<Chunk>, ceiling: nat)
    requires before + done <= after && WithinCeiling(done, ceiling)
    requires WithinCeiling(after[|before + done|..], ceiling)
    ensures WithinCeiling(after[|before|..], ceiling)
  {
    hide NumArgs;
    assert after[|before|..] == done + after[|before + done|..];
  }

  lemma GroupWithin(groups: seq<Group>, maxSlots: nat, n: nat, ceiling: nat)
    requires maxSlots >= 1 && n < |groups|
    ensures WithinCeiling(AllChunks(groups, maxSlots), ceiling) ==>
              WithinCeiling(ChunksFrom(groups[n], maxSlots, 0), ceiling)
  {
    hide ChunksFrom;
    var all, before, here := AllChunks(groups, maxSlots), AllChunks(groups[..n], maxSlots),
      ChunksFrom(groups[n], maxSlots, 0);
    assert groups[..n + 1][..n] == groups[..n];
    AllChunksPrefix(groups, maxSlots, n + 1);
    assert before + here <= all;
    hide AllChunks;
    forall k | 0 <= k < |here|
      ensures all[|before| + k] == here[k]
    {
    }
  }

  lemma AppendGroup(groups: seq<Group>, g: Group)
    requires GroupsOk(groups) && (groups == [] || groups[|groups| - 1].queue != g.queue) && g.cmds == []
    ensures GroupsOk(groups + [g]) && GroupCommands(groups + [g]) == GroupCommands(groups)
  {
    AppendedCommands(groups, g);
    var after := groups + [g];
    assert OnQueue(g);
    hide GroupCommands, OnQueue;
    forall k | 1 <= k < |after|
      ensures QueueChanges(after, k)
    {
      if k < |groups| {
        assert QueueChanges(groups, k);
      }
    }
    hide QueueChanges;
  }

  lemma AppendedCommands(groups: seq<Group>, g: Group)
    ensures GroupCommands(groups + [g]) == GroupCommands(groups) + g.cmds
  {
    assert (groups + [g])[..|groups|] == groups;
  }

  /** One more command in the last group. */
  function Appended(groups: seq<Group>, c: Cmd, host: seq<Word>): (r: seq<Group>)
    requires groups != []
  {
    var g := groups[|groups| - 1];
    groups[|groups| - 1 := g.(cmds := g.cmds + [c], hosts := g.hosts + [host])]
  }

  /** Only the last group changed, in its commands and by control buffers with `data`. */
  ghost predicate Kept(before: seq<Group>, after: seq<Group>, data: seq<seq<Word>>)
  {
    && |after| == |before| >= 1
    && var last := |before| - 1;
       && after[..last] == before[..last]
       && after[last].queue == before[last].queue && after[last].bindings == before[last].bindings
       && before[last].controlBuffers <= after[last].controlBuffers
       && DataOf(after[last].controlBuffers) == DataOf(before[last].controlBuffers) + data
  }

  lemma KeptSame(groups: seq<Group>)
    ensures groups != [] ==> Kept(groups, groups, [])
  {
  }

  lemma KeptNonEmpty(before: seq<Group>, after: seq<Group>, data: seq<seq<Word>>)
    requires Kept(before, after, data)
    ensures |before| == |after| >= 1
  {
  }

  lemma KeptBuffers(before: seq<Group>, after: seq<Group>)
    requires Kept(before, after, [])
    ensures |after| == |before| >= 1
    ensures after[|after| - 1].controlBuffers == before[|before| - 1].controlBuffers
  {
  }

  lemma KeptTwice(a: seq<Group>, b: seq<Group>, c: seq<Group>, x: seq<seq<Word>>, y: seq<seq<Word>>)
    ensures Kept(a, b, x) && Kept(b, c, y) ==> Kept(a, c, x + y)
  {
    if Kept(a, b, x) && Kept(b, c, y) {
      var last := |a| - 1;
      Associative(DataOf(a[last].controlBuffers), x, y);
    }
  }

  lemma MoreData(buffers: seq<ControlBuffer>, b: ControlBuffer)
    ensures DataOf(buffers + [b]) == DataOf(buffers) + [b.data]
  {
  }

  /** More control buffers do no harm to the codes. */
  lemma MoreBuffers(groups: seq<Group>, g: Group, patch: Patch, table: Table, ds: seq<Dispatch>)
    requires GroupHosts(patch, table, ds, groups) && groups != []
    requires var was := groups[|groups| - 1];
             g.cmds == was.cmds && g.hosts == was.hosts && was.controlBuffers <= g.controlBuffers
    ensures GroupHosts(patch, table, ds, groups[|groups| - 1 := g])
  {
    var was := groups[|groups| - 1];
    assert HostsOk(patch, table, ds, was.controlBuffers, was.cmds, was.hosts);
    forall k | 0 <= k < |g.cmds|
      ensures HostOk(patch, table, ds, g.controlBuffers, g.cmds[k], g.hosts[k])
    {
      assert HostOk(patch, table, ds, was.controlBuffers, was.cmds[k], was.hosts[k]);
    }
    hide HostOk;
  }

  /** The groups with one for `queue` at the end. */
  function Opened(groups: seq<Group>, queue: nat): (r: seq<Group>)
    ensures r != [] && r[|r| - 1].queue == queue
  {
    if groups == [] || groups[|groups| - 1].queue != queue then groups + [Group(queue, [], [], [], [])] else groups
  }

  function WithBindings(groups: seq<Group>, bindings: seq<Binding>): (r: seq<Group>)
    requires groups != []
  {
    var g := groups[|groups| - 1];
    groups[|groups| - 1 := g.(bindings := g.bindings + bindings)]
  }

  /** What a dispatch adds to the group of its queue: commands, a control buffer per reconfiguration, its bindings. */
  ghost predicate Accumulated(patch: Patch, d: Dispatch, before: seq<Group>, after: seq<Group>)
    requires DispatchOk(d)
  {
    var open0 := Opened(before, d.queue);
    var last := |open0| - 1;
    && |after| == |open0| && after[..last] == open0[..last]
    && after[last].queue == d.queue
    && after[last].cmds == open0[last].cmds + CommandsOf(patch, d)
    && DataOf(after[last].controlBuffers) == DataOf(open0[last].controlBuffers) + d.reconfigurations
    && after[last].bindings == open0[last].bindings + d.bindings
  }

  lemma AccumulatedBy(patch: Patch, d: Dispatch, before: seq<Group>, open0: seq<Group>, emitted: seq<Group>,
                      after: seq<Group>)
    requires DispatchOk(d) && open0 == Opened(before, d.queue) && Kept(open0, emitted, d.reconfigurations)
    requires GroupCommands(emitted) == GroupCommands(open0) + CommandsOf(patch, d)
    requires after == WithBindings(emitted, d.bindings)
    ensures Accumulated(patch, d, before, after)
  {
    hide CommandsOf;
    var last := |open0| - 1;
    var head, a, b := GroupCommands(open0[..last]), open0[last].cmds, emitted[last].cmds;
    assert head + b == head + a + CommandsOf(patch, d);
    hide GroupCommands;
    assert head + a + CommandsOf(patch, d) == head + (a + CommandsOf(patch, d));
    SameTail(head, b, a + CommandsOf(patch, d));
    assert after[..last] == emitted[..last];
  }

  lemma SameTail<T>(head: seq<T>, a: seq<T>, b: seq<T>)
    requires head + a == head + b
    ensures a == b
  {
    assert a == (head + a)[|head|..] && b == (head + b)[|head|..];
  }

  lemma PushCommand(groups: seq<Group>, c: Cmd, host: seq<Word>, patch: Patch, table: Table, ds: seq<Dispatch>)
    requires GroupsOk(groups) && groups != [] && groups[|groups| - 1].queue == c.queue
    requires GroupHosts(patch, table, ds, groups)
    requires HostOk(patch, table, ds, groups[|groups| - 1].controlBuffers, c, host)
    ensures var after := Appended(groups, c, host);
            && GroupsOk(after) && GroupCommands(after) == GroupCommands(groups) + [c]
            && GroupHosts(patch, table, ds, after)
            && after != [] && after[|after| - 1].queue == c.queue
  {
    hide HostOk;
    var last := |groups| - 1;
    var after := Appended(groups, c, host);
    assert after[..last] == groups[..last];
    assert OnQueue(groups[last]) && OnQueue(after[last]);
    assert HostsOk(patch, table, ds, groups[last].controlBuffers, groups[last].cmds, groups[last].hosts);
    assert HostsOk(patch, table, ds, after[last].controlBuffers, after[last].cmds, after[last].hosts);
    hide OnQueue, HostsOk;
    forall k | 1 <= k < |after|
      ensures QueueChanges(after, k)
    {
      assert QueueChanges(groups, k);
    }
  }

  lemma SameCommands(groups: seq<Group>, g: Group)
    requires GroupsOk(groups) && groups != [] && g.queue == groups[|groups| - 1].queue
    requires g.cmds == groups[|groups| - 1].cmds
    ensures GroupsOk(groups[|groups| - 1 := g]) && GroupCommands(groups[|groups| - 1 := g]) == GroupCommands(groups)
  {
    var after := groups[|groups| - 1 := g];
    assert after[..|groups| - 1] == groups[..|groups| - 1];
    assert OnQueue(groups[|groups| - 1]) && OnQueue(g);
    hide OnQueue;
    forall k | 1 <= k < |after|
      ensures QueueChanges(after, k)
    {
      assert QueueChanges(groups, k);
    }
  }

  lemma OneChunkHosts(g: Group, begin: nat, end: nat, patch: Patch, table: Table, ds: seq<Dispatch>)
    requires HostsOk(patch, table, ds, g.controlBuffers, g.cmds, g.hosts) && begin <= end <= |g.cmds|
    ensures var c := ChunkOf(g, begin, end);
            HostsOk(patch, table, ds, c.controlBuffers, c.cmds, c.hosts)
  {
    hide HostOk;
  }

  lemma {:induction false} ChunksHosts(g: Group, maxSlots: nat, begin: nat, patch: Patch, table: Table,
                                       ds: seq<Dispatch>)
    requires maxSlots >= 1 && HostsOk(patch, table, ds, g.controlBuffers, g.cmds, g.hosts)
    ensures ChunkHosts(patch, table, ds, ChunksFrom(g, maxSlots, begin))
    decreases |g.cmds| - begin
  {
    hide HostsOk, ChunkOf;
    if begin < |g.cmds| {
      OneChunkHosts(g, begin, if begin + maxSlots < |g.cmds| then begin + maxSlots else |g.cmds|, patch, table, ds);
      ChunksHosts(g, maxSlots, begin + maxSlots, patch, table, ds);
    }
  }

  ghost predicate ChunkHosts(patch: Patch, table: Table, ds: seq<Dispatch>, chunks: seq<Chunk>)
  {
    forall k :: 0 <= k < |chunks| ==>
      HostsOk(patch, table, ds, chunks[k].controlBuffers, chunks[k].cmds, chunks[k].hosts)
  }

  lemma {:induction false} AllChunksHosts(groups: seq<Group>, maxSlots: nat, patch: Patch, table: Table,
                                          ds: seq<Dispatch>)
    requires maxSlots >= 1 && GroupHosts(patch, table, ds, groups)
    ensures ChunkHosts(patch, table, ds, AllChunks(groups, maxSlots))
    decreases |groups|
  {
    hide HostsOk, ChunksFrom;
    if groups != [] {
      var n := |groups| - 1;
      AllChunksHosts(groups[..n], maxSlots, patch, table, ds);
      ChunksHosts(groups[n], maxSlots, 0, patch, table, ds);
    }
  }

  /** What a prefix of the planned chunks inherits. */
  lemma PrefixInherits(chunks: seq<Chunk>, planned: seq<Chunk>, maxSlots: nat, patch: Patch, table: Table,
                       ds: seq<Dispatch>)
    requires chunks <= planned && ChunkHosts(patch, table, ds, planned)
    requires forall k :: 0 <= k < |planned| ==> ChunkFits(planned[k], maxSlots)
    ensures ChunkCommands(chunks) <= ChunkCommands(planned) && ChunkHosts(patch, table, ds, chunks)
    ensures forall k :: 0 <= k < |chunks| ==> ChunkFits(chunks[k], maxSlots)
  {
    hide HostsOk, ChunkFits;
    ChunkPrefix(chunks, planned);
    forall k | 0 <= k < |chunks|
      ensures chunks[k] == planned[k]
    {
    }
  }

  lemma NoGroups(patch: Patch, table: Table, ds: seq<Dispatch>)
    ensures GroupsOk([]) && GroupHosts(patch, table, ds, [])
  {
  }

  lemma NoChunks(patch: Patch, table: Table, ds: seq<Dispatch>)
    ensures ChunkHosts(patch, table, ds, []) && ChunkCommands([]) == []
  {
  }
}

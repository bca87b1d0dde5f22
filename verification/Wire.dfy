/** The blocks of the link as bytes: what build_and_send_command puts on the wire
    (klippy/chelper/serialqueue.c) is what command_find_block finds there (src/command.c). */
module Wire {
  import opened Message
  import opened HostSpec
  import opened Link
  import LinkProofs
  import Framing

  /** The payload of a block: the bodies of its commands, one after the other. */
  function Bodies(cmds: seq<Command>): seq<byte> {
    if cmds == [] then [] else Bodies(cmds[..|cmds| - 1]) + cmds[|cmds| - 1].body
  }

  lemma {:induction false} BodiesLength(cmds: seq<Command>)
    ensures |Bodies(cmds)| == HostSpec.Bytes(cmds)
  {
    if cmds != [] {
      BodiesLength(cmds[..|cmds| - 1]);
    }
  }

  predicate Fits(cmds: seq<Command>) { |Bodies(cmds)| <= MESSAGE_PAYLOAD_MAX }

  /** The bytes of a block in flight. */
  function Encoded(d: Down): seq<byte>
    requires Fits(d.cmds)
  {
    Framing.Frame(d.seqNo, Bodies(d.cmds))
  }

  /** The blocks in a row.  retransmit_event sends a sync byte ahead of the blocks it repeats, and more than
      one may be left in a row when blocks are lost: `syncs` are their numbers ahead of each block. */
  function Stream(down: seq<Down>, syncs: seq<nat>): seq<byte>
    requires |syncs| == |down| && forall d <- down :: Fits(d.cmds)
  {
    if down == [] then [] else Synced(syncs[0]) + Encoded(down[0]) + Stream(down[1..], syncs[1..])
  }

  function Synced(n: nat): seq<byte> { seq(n, i => Framing.MESSAGE_SYNC) }

  function FoundAll(down: seq<Down>): seq<Framing.Event>
    requires forall d <- down :: Fits(d.cmds)
  {
    if down == [] then [] else [Framing.Found(Encoded(down[0]))] + FoundAll(down[1..])
  }

  const SYNCED := Framing.Sync(false, false)

  lemma FindsBlock(f: seq<byte>, rest: seq<byte>)
    requires Framing.Good(f)
    ensures Framing.FindBlock(SYNCED, f + rest) == Framing.Pop(|f|, [Framing.Found(f)], SYNCED)
  {
    Framing.CheckBlock(f, rest);
    assert (f + rest)[..|f|] == f;
  }

  /** Sync bytes ahead of a block are passed over. */
  lemma {:induction false} SyncsPassed(n: nat, f: seq<byte>, rest: seq<byte>)
    requires |f| >= MESSAGE_MIN
    ensures Framing.Parse(SYNCED, Synced(n) + f + rest) == Framing.Parse(SYNCED, f + rest)
  {
    hide Framing.Parse, Framing.FindBlock;
    if n == 0 {
      assert Synced(0) + f + rest == f + rest;
    } else {
      SyncedHead(n, f + rest);
      var next := Synced(n - 1) + (f + rest);
      SyncFirst(next);
      Framing.ParseStep(SYNCED, [Framing.MESSAGE_SYNC] + next);
      assert Synced(n - 1) + f + rest == next && Synced(n) + f + rest == Synced(n) + (f + rest);
      SyncsPassed(n - 1, f, rest);
    }
  }

  lemma SyncedHead(n: nat, rest: seq<byte>)
    requires n > 0
    ensures Synced(n) + rest == [Framing.MESSAGE_SYNC] + (Synced(n - 1) + rest)
    ensures ([Framing.MESSAGE_SYNC] + (Synced(n - 1) + rest))[1..] == Synced(n - 1) + rest
  {
  }

  lemma SyncFirst(next: seq<byte>)
    requires |next| >= MESSAGE_MIN
    ensures Framing.FindBlock(SYNCED, [Framing.MESSAGE_SYNC] + next) == Framing.Pop(1, [], SYNCED)
  {
  }

  /** A stream of blocks is taken apart into these blocks. */
  lemma {:induction false} StreamFound(down: seq<Down>, syncs: seq<nat>)
    requires |syncs| == |down| && forall d <- down :: Fits(d.cmds)
    ensures Framing.Parse(SYNCED, Stream(down, syncs)) == Framing.Parsed(FoundAll(down), [], SYNCED)
    decreases |down|
  {
    hide Framing.FindBlock;
    if down == [] {
      Framing.Nothing(SYNCED);
    } else {
      var f, rest := Encoded(down[0]), Stream(down[1..], syncs[1..]);
      Framing.FrameGood(down[0].seqNo, Bodies(down[0].cmds));
      SyncsPassed(syncs[0], f, rest);
      FindsBlock(f, rest);
      Framing.ParseStep(SYNCED, f + rest);
      assert (f + rest)[|f|..] == rest;
      StreamFound(down[1..], syncs[1..]);
    }
  }

  /** Every block that was ever built fits. */
  lemma {:induction false} BuiltFits(run: LinkProofs.Run, i: nat)
    requires LinkProofs.ValidRun(run) && i < |run.last.built|
    ensures Fits(run.last.built[i].cmds)
  {
    hide HostStep, McuStep, LossStep, Init;
    match run
    case Start(l) => NothingBuilt(l);
    case Then(prev, a, l) =>
      BuiltBy(prev.last, l, a);
      if i < |prev.last.built| {
        BuiltFits(prev, i);
      } else {
        BodiesLength(l.built[i].cmds);
      }
  }

  lemma NothingBuilt(l: Link)
    requires Init(l)
    ensures l.built == []
  {
  }

  /** A step builds nothing, or one block that fits. */
  lemma BuiltBy(l: Link, l': Link, a: Action)
    requires Next(l, l', a)
    ensures l.built <= l'.built && |l'.built| <= |l.built| + 1
    ensures |l'.built| == |l.built| + 1 ==> HostSpec.Bytes(l'.built[|l.built|].cmds) <= MESSAGE_PAYLOAD_MAX
  {
    hide SendBatch, CheckSend, HandleMessage, RetransmitEvent, StoreBlock, Write;
  }

  /** The bytes of a block have the four bits that are compared, and the bodies of its commands. */
  predicate Carries(f: seq<byte>, d: Down) {
    && Framing.Good(f) && f[1] == d.nibble + Framing.MESSAGE_DEST
    && f[MESSAGE_HEADER_SIZE..|f| - MESSAGE_TRAILER_SIZE] == Bodies(d.cmds)
  }

  lemma EncodedCarries(d: Down)
    requires Fits(d.cmds) && d.nibble == d.seqNo % MESSAGE_SEQ_SPAN
    ensures Carries(Encoded(d), d)
  {
    hide Framing.CrcHigh, Framing.CrcLow, Framing.Good;
    Framing.FrameGood(d.seqNo, Bodies(d.cmds));
  }

  /** In every run, the bytes in flight, whatever sync bytes are among them, are found by the micro-controller
      as these blocks, each with the number it compares and the bodies of the commands the host built into it. */
  lemma BytesCarryBlocks(run: LinkProofs.Run, syncs: seq<nat>)
    requires LinkProofs.ValidRun(run) && |syncs| == |run.last.down|
    ensures var down := run.last.down;
      && (forall d <- down :: Fits(d.cmds) && Carries(Encoded(d), d))
      && Framing.Parse(SYNCED, Stream(down, syncs)) == Framing.Parsed(FoundAll(down), [], SYNCED)
  {
    hide LinkProofs.ValidRun, LinkOk, Fits, Carries, Encoded, Framing.Parse;
    var l := run.last;
    LinkProofs.RunOk(run);
    forall d <- l.down ensures Fits(d.cmds) && Carries(Encoded(d), d) {
      InFlight(l, d);
      BuiltFits(run, d.seqNo - l.base);
      EncodedCarries(d);
    }
    StreamFound(l.down, syncs);
  }

  lemma InFlight(l: Link, d: Down)
    requires LinkOk(l) && d in l.down
    ensures 0 <= d.seqNo - l.base < |l.built| && d.cmds == l.built[d.seqNo - l.base].cmds && d.nibble == d.seqNo % MESSAGE_SEQ_SPAN
  {
    assert DownOk(l.base, Expected(l), l.built, l.down);
  }
}

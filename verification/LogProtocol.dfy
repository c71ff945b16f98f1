/**
 Streaming one attempt's log from a worker's spool file to the hub's log file
 (internal/workerhub/hub.go handleLogChunk and adoptOrphans, internal/worker/worker.go
 pumpLogs and handleAck), over a network that may lose, repeat and reorder messages.
 */
module LogProtocol {
  import opened Text

  const CHUNK := 0x8000

  datatype Option<T> = None | Some(value: T)

  /** Wire messages. An eof flag only tells the hub to close its file handle. */
  datatype Chunk = Chunk(off: nat, data: Bytes, eof: bool)
  datatype Ack = Ack(off: nat, rewind: bool)

  // ---- the hub's half ----

  /** The hub's row for an attempt: bytes written so far, and whether its file handle is open. */
  datatype HubRow = HubRow(hw: nat, open: bool)

  /** What the file system does with this chunk; a failed write leaves the file as it was. */
  datatype Disk = OpenFails | WriteFails | Works

  datatype Received = Received(row: HubRow, file: Bytes, reply: Option<Ack>)

  /** handleLogChunk for a tracked attempt with a log path. */
  function Receive(row: HubRow, file: Bytes, c: Chunk, disk: Disk): Received {
    if c.off < row.hw && |c.data| <= row.hw - c.off then
      Received(row, file, Some(Ack(row.hw, false)))
    else if c.off > row.hw then
      Received(row, file, Some(Ack(row.hw, true)))
    else if !row.open && disk.OpenFails? then
      Received(row, file, None)
    else
      var unseen := c.data[row.hw - c.off..];
      var wrote := if disk.Works? then unseen else [];
      var hw := row.hw + |wrote|;
      Received(HubRow(hw, !c.eof), file + wrote, Some(Ack(hw, false)))
  }

  // ---- the worker's half ----

  datatype Track = Track(ackOff: nat, rewind: bool, exited: bool)

  datatype Acked = Acked(track: Track, collect: bool)

  /** handleAck: only a rewind moves the cursor back; an exited, fully acknowledged spool is collected. */
  function HandleAck(t: Track, a: Ack, spoolSize: nat): Acked {
    var t' := if a.rewind then t.(ackOff := a.off, rewind := true)
              else if a.off > t.ackOff then t.(ackOff := a.off)
              else t;
    Acked(t', t'.exited && t'.ackOff >= spoolSize)
  }

  datatype Pump = Pump(sendOff: nat, eofSent: bool)

  function Min(a: nat, b: nat): nat {
    if a <= b then a else b
  }

  /** The chunk a pump reads at its cursor. */
  function NextChunk(p: Pump, spool: Bytes, n: nat, eof: bool): Chunk
    requires p.sendOff + n <= |spool|
  {
    Chunk(p.sendOff, spool[p.sendOff..p.sendOff + n], eof)
  }

  // ---- both halves and the network ----

  /**
   `spool` is everything the attempt has written, `ended` that it will write no more,
   `deleted` that the worker has removed the file. `hub` is empty while the hub process
   has no row for the attempt. `wire` and `acks` are all messages ever sent: any of
   them may arrive at any time, any number of times, or never.
   */
  datatype System = System(
    file: Bytes,
    hub: Option<HubRow>,
    spool: Bytes,
    ended: bool,
    deleted: bool,
    track: Option<Track>,
    pumps: map<nat, Pump>,
    wire: set<Chunk>,
    acks: set<Ack>)

  function Start(): System {
    System([], Some(HubRow(0, false)), [], false, false, None, map[], {}, {})
  }

  datatype Step =
    | Produce(bytes: Bytes)
    | End
    | Assign
    | NoticeExit
    | StartPump(id: nat)
    | StopPump(id: nat)
    | TakeRewind(id: nat)
    | Send(id: nat, n: nat, flagEof: bool)
    | FinishPump(id: nat)
    | HubReceives(c: Chunk, disk: Disk)
    | HubForgets
    | HubAdopts
    | WorkerReceives(a: Ack)
    | WorkerRestarts(readopted: bool)

  /** One step; a step that is not enabled changes nothing. */
  function Next(s: System, step: Step): System {
    match step
    case Produce(bytes) =>
      if s.ended then s else s.(spool := s.spool + bytes)
    case End =>
      s.(ended := true)
    case Assign =>
      if s.track.Some? || s.deleted then s else s.(track := Some(Track(0, false, false)))
    case NoticeExit =>
      if s.track.Some? && s.ended then s.(track := Some(s.track.value.(exited := true))) else s
    case StartPump(id) =>
      if s.track.Some? && id !in s.pumps then s.(pumps := s.pumps[id := Pump(s.track.value.ackOff, false)]) else s
    case StopPump(id) =>
      s.(pumps := s.pumps - {id})
    case TakeRewind(id) =>
      if s.track.Some? && s.track.value.rewind && id in s.pumps then
        s.(pumps := s.pumps[id := Pump(s.track.value.ackOff, false)],
           track := Some(s.track.value.(rewind := false)))
      else s
    case Send(id, n, flagEof) =>
      if && id in s.pumps && !s.deleted && s.track.Some?
         && 0 < n <= CHUNK && s.pumps[id].sendOff + n <= |s.spool|
         && (flagEof ==> s.track.value.exited)
      then
        s.(wire := s.wire + {NextChunk(s.pumps[id], s.spool, n, flagEof)},
           pumps := s.pumps[id := Pump(s.pumps[id].sendOff + n, flagEof)])
      else s
    case FinishPump(id) =>
      if id in s.pumps && !s.deleted && s.track.Some? && s.track.value.exited && s.pumps[id].sendOff <= |s.spool| then
        s.(wire := if s.pumps[id].eofSent then s.wire else s.wire + {NextChunk(s.pumps[id], s.spool, 0, true)},
           pumps := s.pumps - {id})
      else s
    case HubReceives(c, disk) =>
      if c in s.wire && s.hub.Some? then
        var r := Receive(s.hub.value, s.file, c, disk);
        s.(file := r.file, hub := Some(r.row),
           acks := if r.reply.Some? then s.acks + {r.reply.value} else s.acks)
      else s
    case HubForgets =>
      s.(hub := None)
    case HubAdopts =>
      if s.hub.None? then s.(hub := Some(HubRow(|s.file|, false))) else s
    case WorkerReceives(a) =>
      if a in s.acks && s.track.Some? then
        var r := HandleAck(s.track.value, a, |s.spool|);
        if r.collect then s.(track := None, deleted := true) else s.(track := Some(r.track))
      else s
    case WorkerRestarts(readopted) =>
      s.(pumps := map[],
         track := if readopted && !s.deleted then Some(Track(0, false, false)) else None)
  }

  function Run(s: System, steps: seq<Step>): System
    decreases |steps|
  {
    if |steps| == 0 then s else Run(Next(s, steps[0]), steps[1..])
  }

  // ---- what holds at every moment ----

  /** A chunk is a true copy of a stretch of the spool. */
  ghost predicate Genuine(c: Chunk, spool: Bytes) {
    c.off + |c.data| <= |spool| && c.data == spool[c.off..c.off + |c.data|]
  }

  ghost predicate Inv(s: System) {
    && s.file <= s.spool
    && (s.hub.Some? ==> s.hub.value.hw == |s.file|)
    && (forall c :: c in s.wire ==> Genuine(c, s.spool))
    && (forall a :: a in s.acks ==> a.off <= |s.file|)
    && (s.track.Some? ==> s.track.value.ackOff <= |s.file| && (s.track.value.exited ==> s.ended) && !s.deleted)
    && (forall id :: id in s.pumps ==> s.pumps[id].sendOff <= |s.spool|)
    && (s.deleted ==> s.ended && s.file == s.spool)
  }

  lemma GenuineStays(c: Chunk, spool: Bytes, more: Bytes)
    requires Genuine(c, spool)
    ensures Genuine(c, spool + more)
  {
    assert (spool + more)[c.off..c.off + |c.data|] == spool[c.off..c.off + |c.data|];
  }

  /** Whatever arrives, and whatever the disk does, the file stays a prefix of the spool and only grows. */
  lemma ReceiveExtendsPrefix(row: HubRow, file: Bytes, c: Chunk, disk: Disk, spool: Bytes)
    requires file <= spool && row.hw == |file| && Genuine(c, spool)
    ensures var r := Receive(row, file, c, disk);
      && file <= r.file <= spool && r.row.hw == |r.file|
      && (r.reply.Some? ==> r.reply.value.off == |r.file|)
  {
    var r := Receive(row, file, c, disk);
    if |r.file| > |file| {
      assert c.data[row.hw - c.off..] == spool[|file|..c.off + |c.data|];
      assert r.file == spool[..c.off + |c.data|];
    }
  }

  lemma ProduceKeepsInv(s: System, bytes: Bytes)
    requires Inv(s)
    ensures Inv(Next(s, Produce(bytes))) && Next(s, Produce(bytes)).file == s.file
  {
    forall c | c in s.wire
      ensures Genuine(c, s.spool + bytes)
    {
      GenuineStays(c, s.spool, bytes);
    }
  }

  lemma HubReceivesKeepsInv(s: System, c: Chunk, disk: Disk)
    requires Inv(s)
    ensures Inv(Next(s, HubReceives(c, disk))) && s.file <= Next(s, HubReceives(c, disk)).file
  {
    if c in s.wire && s.hub.Some? {
      ReceiveExtendsPrefix(s.hub.value, s.file, c, disk, s.spool);
    }
  }

  lemma PumpKeepsInv(s: System, step: Step)
    requires Inv(s) && (step.StartPump? || step.StopPump? || step.TakeRewind? || step.FinishPump?)
    ensures Inv(Next(s, step)) && Next(s, step).file == s.file
  {
  }

  lemma SendKeepsInv(s: System, id: nat, n: nat, flagEof: bool)
    requires Inv(s)
    ensures Inv(Next(s, Send(id, n, flagEof))) && Next(s, Send(id, n, flagEof)).file == s.file
  {
  }

  lemma AckKeepsInv(s: System, a: Ack)
    requires Inv(s)
    ensures Inv(Next(s, WorkerReceives(a))) && Next(s, WorkerReceives(a)).file == s.file
  {
  }

  lemma StepKeepsInv(s: System, step: Step)
    requires Inv(s)
    ensures Inv(Next(s, step))
    ensures s.file <= Next(s, step).file
  {
    match step
    case Produce(bytes) => ProduceKeepsInv(s, bytes);
    case HubReceives(c, disk) => HubReceivesKeepsInv(s, c, disk);
    case Send(id, n, flagEof) => SendKeepsInv(s, id, n, flagEof);
    case WorkerReceives(a) => AckKeepsInv(s, a);
    case StartPump(_) => PumpKeepsInv(s, step);
    case StopPump(_) => PumpKeepsInv(s, step);
    case TakeRewind(_) => PumpKeepsInv(s, step);
    case FinishPump(_) => PumpKeepsInv(s, step);
    case _ =>
  }

  lemma {:induction false} RunKeepsInv(s: System, steps: seq<Step>)
    requires Inv(s)
    ensures Inv(Run(s, steps))
    ensures s.file <= Run(s, steps).file
    decreases |steps|
  {
    if |steps| > 0 {
      StepKeepsInv(s, steps[0]);
      RunKeepsInv(Next(s, steps[0]), steps[1..]);
    }
  }

  /**
   Over every run: the hub's file is a prefix of the spool and its high-water mark is
   that file's length; every acknowledgement ever sent and the worker's cursor stay
   at or below it; and a spool is deleted only once the hub holds all of it.
   */
  lemma HubHoldsAPrefix(steps: seq<Step>)
    ensures var s := Run(Start(), steps);
      && s.file <= s.spool
      && (s.hub.Some? ==> s.hub.value.hw == |s.file|)
      && (forall a :: a in s.acks ==> a.off <= |s.file|)
      && (s.track.Some? ==> s.track.value.ackOff <= |s.file|)
      && (s.deleted ==> s.ended && s.file == s.spool)
  {
    RunKeepsInv(Start(), steps);
  }

  lemma {:induction false} RunAppend(s: System, a: seq<Step>, b: seq<Step>)
    ensures Run(s, a + b) == Run(Run(s, a), b)
    decreases |a|
  {
    if |a| == 0 {
      assert a + b == b;
    } else {
      assert (a + b)[0] == a[0] && (a + b)[1..] == a[1..] + b;
      RunAppend(Next(s, a[0]), a[1..], b);
    }
  }

  /** What the hub holds at one moment of a run it still holds, in place, at every later one. */
  lemma HighWaterNeverFalls(earlier: seq<Step>, later: seq<Step>)
    ensures Run(Start(), earlier).file <= Run(Start(), earlier + later).file
  {
    RunKeepsInv(Start(), earlier);
    RunAppend(Start(), earlier, later);
    RunKeepsInv(Run(Start(), earlier), later);
  }

  // ---- the protocol cannot get stuck ----

  /** The attempt has ended, hub and worker both know it, and a pump stands at or below the high-water mark. */
  ghost predicate Pumping(s: System, id: nat) {
    && Inv(s) && s.hub.Some? && s.track.Some? && s.track.value.exited
    && id in s.pumps && s.pumps[id].sendOff <= |s.file|
    && (s.pumps[id].sendOff == |s.spool| ==> !s.pumps[id].eofSent)
  }

  lemma RunOne(s: System, a: Step)
    ensures Run(s, [a]) == Next(s, a)
  {
    assert [a][1..] == [];
    assert Run(Next(s, a), []) == Next(s, a);
  }

  lemma RunThree(s: System, a: Step, b: Step, c: Step)
    ensures Run(s, [a, b, c]) == Next(Next(Next(s, a), b), c)
  {
    var s1 := Next(s, a);
    var s2 := Next(s1, b);
    assert [a, b, c][1..] == [b, c] && [b, c][1..] == [c];
    RunOne(s2, c);
    assert Run(s1, [b, c]) == Run(s2, [c]);
  }

  /** One chunk sent and received moves the cursor and, if needed, the file. */
  lemma SendOne(s: System, id: nat) returns (n: nat, c: Chunk)
    requires Pumping(s, id) && s.pumps[id].sendOff < |s.spool|
    ensures var t := Next(Next(s, Send(id, n, false)), HubReceives(c, Works));
      Pumping(t, id) && t.pumps[id].sendOff == s.pumps[id].sendOff + n && n > 0 && t.spool == s.spool
  {
    n := Min(CHUNK, |s.spool| - s.pumps[id].sendOff);
    c := NextChunk(s.pumps[id], s.spool, n, false);
    var sent := Next(s, Send(id, n, false));
    StepKeepsInv(s, Send(id, n, false));
    StepKeepsInv(sent, HubReceives(c, Works));
  }

  /** At the end of the spool, the closing eof chunk draws the acknowledgement that lets it be deleted. */
  lemma FinishUp(s: System, id: nat) returns (steps: seq<Step>)
    requires Pumping(s, id) && s.pumps[id].sendOff == |s.spool|
    ensures Run(s, steps).deleted && InSession(steps)
  {
    var c := NextChunk(s.pumps[id], s.spool, 0, true);
    var a := Ack(|s.spool|, false);
    var sent := Next(s, FinishPump(id));
    var got := Next(sent, HubReceives(c, Works));
    assert s.file == s.spool;
    assert c in sent.wire && a in got.acks;
    RunThree(s, FinishPump(id), HubReceives(c, Works), WorkerReceives(a));
    steps := [FinishPump(id), HubReceives(c, Works), WorkerReceives(a)];
  }

  lemma {:induction false} PumpToTheEnd(s: System, id: nat) returns (steps: seq<Step>)
    requires Pumping(s, id)
    ensures Run(s, steps).deleted && InSession(steps)
    decreases |s.spool| - s.pumps[id].sendOff
  {
    if s.pumps[id].sendOff == |s.spool| {
      steps := FinishUp(s, id);
    } else {
      var n, c := SendOne(s, id);
      var sent := Next(s, Send(id, n, false));
      var more := PumpToTheEnd(Next(sent, HubReceives(c, Works)), id);
      steps := [Send(id, n, false), HubReceives(c, Works)] + more;
      assert steps[1..] == [HubReceives(c, Works)] + more && steps[1..][1..] == more;
    }
  }

  /** The worker learns of the exit and reconnects; the hub re-derives its row if it had lost it. */
  lemma Reconnect(s0: System) returns (steps: seq<Step>)
    requires Inv(s0) && s0.track.Some?
    ensures Pumping(Run(s0, steps), 0)
  {
    var s1 := Next(s0, End);
    var s2 := Next(s1, NoticeExit);
    var s3 := Next(s2, HubAdopts);
    RunThree(s0, End, NoticeExit, HubAdopts);
    var s4 := Next(s3, StopPump(0));
    var s5 := Next(s4, StartPump(0));
    assert s5.pumps[0].sendOff <= |s5.file| <= |s5.spool|;
    RunThree(s3, StopPump(0), StartPump(0), End);
    RunAppend(s0, [End, NoticeExit, HubAdopts], [StopPump(0), StartPump(0), End]);
    steps := [End, NoticeExit, HubAdopts] + [StopPump(0), StartPump(0), End];
    RunKeepsInv(s0, steps);
  }

  /**
   From every reachable state in which the worker still tracks the attempt, some
   continuation delivers the whole spool and deletes it: no loss, gap, rewind,
   restart or failed write ever leaves the two sides unable to finish.
   */
  lemma DeliveryStaysPossible(steps: seq<Step>)
    requires Run(Start(), steps).track.Some?
    ensures exists more :: var s := Run(Start(), steps + more); s.deleted && s.file == s.spool
  {
    RunKeepsInv(Start(), steps);
    var s0 := Run(Start(), steps);
    var first := Reconnect(s0);
    var rest := PumpToTheEnd(Run(s0, first), 0);
    RunAppend(s0, first, rest);
    RunAppend(Start(), steps, first + rest);
    RunKeepsInv(Start(), steps + (first + rest));
  }

  // ---- gaps ----

  /** After a chunk that begins beyond the file's end, and the reply to it. */
  ghost function Rewound(s: System, c: Chunk, disk: Disk, id: nat): System {
    Next(Next(Next(s, HubReceives(c, disk)), WorkerReceives(Ack(|s.file|, true))), TakeRewind(id))
  }

  /**
   A chunk that begins beyond the end of the hub's file is not written but answered with an
   order to rewind to that end, and no other chunk draws such an order; once the worker has
   the order and its pump has taken it, the pump stands at that end.
   */
  lemma GapIsRewound(steps: seq<Step>, c: Chunk, disk: Disk, id: nat)
    requires var s := Run(Start(), steps); c in s.wire && s.hub.Some?
    ensures
      var s := Run(Start(), steps);
      var t := Next(s, HubReceives(c, disk));
      && (c.off > |s.file| ==> t == s.(acks := s.acks + {Ack(|s.file|, true)}))
      && (c.off <= |s.file| ==> forall a :: a in t.acks && a.rewind ==> a in s.acks)
    ensures
      var s := Run(Start(), steps);
      c.off > |s.file| && s.track.Some? && id in s.pumps ==>
        && id in Rewound(s, c, disk, id).pumps
        && Rewound(s, c, disk, id).pumps[id].sendOff == |s.file|
  {
    RunKeepsInv(Start(), steps);
  }

  /**
   A chunk that does not lie beyond the file's end, on a disk that works, leaves the file
   with everything the spool has up to the chunk's end, and is acknowledged at the file's length.
   */
  lemma ChunkIsWritten(steps: seq<Step>, c: Chunk)
    requires var s := Run(Start(), steps); c in s.wire && s.hub.Some? && c.off <= |s.file|
    ensures
      var s := Run(Start(), steps);
      var t := Next(s, HubReceives(c, Works));
      && |s.file| <= |s.spool| && c.off + |c.data| <= |s.spool|
      && t.file == s.spool[..if c.off + |c.data| > |s.file| then c.off + |c.data| else |s.file|]
      && Ack(|t.file|, false) in t.acks
  {
    var s := Run(Start(), steps);
    RunKeepsInv(Start(), steps);
    StepKeepsInv(s, HubReceives(c, Works));
    assert Genuine(c, s.spool);
  }

  /** Nothing but an order to rewind moves a pump back, and only a gap gives rise to one. */
  lemma OnlyAGapRewinds(s: System, step: Step, id: nat)
    requires Inv(s)
    ensures
      var t := Next(s, step);
      && (id in s.pumps && id in t.pumps && t.pumps[id].sendOff < s.pumps[id].sendOff ==>
            step == TakeRewind(id) && s.track.Some? && s.track.value.rewind)
      && (t.track.Some? && t.track.value.rewind && !(s.track.Some? && s.track.value.rewind) ==>
            step.WorkerReceives? && step.a.rewind && step.a in s.acks)
      && (forall a :: a in t.acks && a !in s.acks && a.rewind ==>
            step.HubReceives? && step.c.off > |s.file| && a.off == |s.file|)
  {
  }

  // ---- recovery within one session ----

  predicate KeepsSession(step: Step) {
    !step.StartPump? && !step.StopPump? && !step.WorkerRestarts? && !step.HubForgets? && !step.HubAdopts?
  }

  ghost predicate InSession(steps: seq<Step>) {
    forall k :: 0 <= k < |steps| ==> KeepsSession(steps[k])
  }

  /** Every message under way is lost. */
  function Lossy(s: System): System {
    s.(wire := {}, acks := {})
  }

  /** More is to come, a rewind is pending, or the pump has not read to the end. */
  predicate CanStillSend(s: System, id: nat) {
    id in s.pumps && s.track.Some? && (!s.ended || s.track.value.rewind || s.pumps[id].sendOff < |s.spool|)
  }

  /** One more chunk beyond the gap is sent, and the pump brought back by the answer. */
  lemma ProbeGap(s: System, id: nat) returns (steps: seq<Step>)
    requires Inv(s) && s.hub.Some? && s.track.Some? && s.track.value.exited
    requires id in s.pumps && |s.file| < s.pumps[id].sendOff < |s.spool|
    ensures InSession(steps) && Pumping(Run(s, steps), id)
  {
    var c := NextChunk(s.pumps[id], s.spool, 1, false);
    var sent := Next(s, Send(id, 1, false));
    var a := Ack(|s.file|, true);
    steps := [Send(id, 1, false)] + [HubReceives(c, Works), WorkerReceives(a), TakeRewind(id)];
    RunOne(s, Send(id, 1, false));
    RunThree(sent, HubReceives(c, Works), WorkerReceives(a), TakeRewind(id));
    RunAppend(s, [Send(id, 1, false)], [HubReceives(c, Works), WorkerReceives(a), TakeRewind(id)]);
    RunKeepsInv(s, steps);
  }

  lemma BackToTheMark(s: System, id: nat) returns (steps: seq<Step>)
    requires Inv(s) && s.hub.Some? && s.track.Some? && s.track.value.exited
    requires id in s.pumps && (s.track.value.rewind || s.pumps[id].sendOff < |s.spool|)
    ensures InSession(steps) && Pumping(Run(s, steps), id)
  {
    if s.track.value.rewind {
      steps := [TakeRewind(id)];
      RunOne(s, TakeRewind(id));
      StepKeepsInv(s, TakeRewind(id));
    } else if s.pumps[id].sendOff <= |s.file| {
      steps := [];
    } else {
      steps := ProbeGap(s, id);
    }
  }

  /** The attempt writes another byte if it still can, ends, and the worker notices. */
  lemma WriteAndEnd(s: System, id: nat)
    requires Inv(s) && s.hub.Some? && CanStillSend(s, id)
    ensures
      var t := Run(s, [Produce([0]), End, NoticeExit]);
      && Inv(t) && t.hub.Some? && t.track.Some? && t.track.value.exited
      && id in t.pumps && (t.track.value.rewind || t.pumps[id].sendOff < |t.spool|)
  {
    RunThree(s, Produce([0]), End, NoticeExit);
    RunKeepsInv(s, [Produce([0]), End, NoticeExit]);
  }

  lemma SessionRecovers(s: System, id: nat) returns (steps: seq<Step>)
    requires Inv(s) && s.hub.Some? && CanStillSend(s, id)
    ensures InSession(steps) && Run(s, steps).deleted && Run(s, steps).file == Run(s, steps).spool
  {
    var first := [Produce([0]), End, NoticeExit];
    WriteAndEnd(s, id);
    var second := BackToTheMark(Run(s, first), id);
    var third := PumpToTheEnd(Run(Run(s, first), second), id);
    RunAppend(Run(s, first), second, third);
    RunAppend(s, first, second + third);
    steps := first + (second + third);
    RunKeepsInv(s, steps);
  }

  /** The hub lacks the end of a finished spool, and whatever pump there is has read to its end. */
  ghost predicate Stalled(s: System, id: nat) {
    && |s.file| < |s.spool| && s.ended
    && (forall c :: c in s.wire ==> c.off == |s.spool|)
    && (s.pumps == map[] || (s.pumps.Keys == {id} && s.pumps[id].sendOff == |s.spool| && s.wire == {} && s.acks == {}
                             && s.track.Some? && !s.track.value.rewind))
  }

  lemma StepKeepsStalled(s: System, step: Step, id: nat)
    requires Inv(s) && Stalled(s, id) && KeepsSession(step)
    ensures Stalled(Next(s, step), id)
  {
    if step.FinishPump? {
      assert s.pumps - {id} == map[];
    }
  }

  lemma {:induction false} StalledForGood(s: System, steps: seq<Step>, id: nat)
    requires Inv(s) && Stalled(s, id) && InSession(steps)
    ensures Stalled(Run(s, steps), id)
    decreases |steps|
  {
    if |steps| > 0 {
      StepKeepsInv(s, steps[0]);
      StepKeepsStalled(s, steps[0], id);
      StalledForGood(Next(s, steps[0]), steps[1..], id);
    }
  }

  /** Without reconnecting, the two sides can still bring the whole spool to the hub. */
  ghost predicate Recovers(s: System) {
    exists more :: InSession(more) && Run(s, more).file == Run(s, more).spool
  }

  /**
   Recovery within a session, from any reachable state in which hub and worker track the
   attempt and its pump runs, though every message under way be lost: the whole spool can
   still be delivered without a reconnect exactly when it already is, or more output is to
   come, or a rewind is pending, or the pump has not yet read to the end. (A gap that only
   the closing chunk could show is left to the next session: the pump stops on sending it.)
   */
  lemma RecoversInSessionIff(steps: seq<Step>, id: nat)
    requires var s := Run(Start(), steps); s.hub.Some? && s.track.Some? && s.pumps.Keys == {id}
    ensures
      var s := Run(Start(), steps);
      Recovers(Lossy(s)) <==>
        || s.file == s.spool
        || !s.ended
        || s.track.value.rewind
        || s.pumps[id].sendOff < |s.spool|
  {
    RunKeepsInv(Start(), steps);
    var s := Lossy(Run(Start(), steps));
    if s.file == s.spool {
      assert InSession([]) && Run(s, []) == s;
    } else if CanStillSend(s, id) {
      var more := SessionRecovers(s, id);
    } else {
      forall more | InSession(more)
        ensures Run(s, more).file != Run(s, more).spool
      {
        StalledForGood(s, more, id);
      }
    }
  }

  /** What lies between the hub's mark and a pump's cursor is under way. */
  ghost predicate UnderWay(s: System) {
    forall id, x :: id in s.pumps && |s.file| <= x < s.pumps[id].sendOff ==> Carried(s, x)
  }

  ghost predicate Carried(s: System, x: int) {
    exists c :: c in s.wire && c.off <= x < c.off + |c.data|
  }

  lemma SendKeepsUnderWay(s: System, id: nat, n: nat, flagEof: bool)
    requires Inv(s) && UnderWay(s)
    ensures UnderWay(Next(s, Send(id, n, flagEof)))
  {
    var t := Next(s, Send(id, n, flagEof));
    forall i, x | i in t.pumps && |t.file| <= x < t.pumps[i].sendOff
      ensures Carried(t, x)
    {
      if i in s.pumps && x < s.pumps[i].sendOff {
        assert Carried(s, x);
        var c :| c in s.wire && c.off <= x < c.off + |c.data|;
        assert c in t.wire;
      } else {
        var c := NextChunk(s.pumps[id], s.spool, n, flagEof);
        assert c in t.wire && c.off <= x < c.off + |c.data|;
      }
    }
  }

  lemma StepKeepsUnderWay(s: System, step: Step)
    requires Inv(s) && UnderWay(s)
    ensures UnderWay(Next(s, step))
  {
    if step.Send? {
      SendKeepsUnderWay(s, step.id, step.n, step.flagEof);
    } else {
      var t := Next(s, step);
      StepKeepsInv(s, step);
      forall i, x | i in t.pumps && |t.file| <= x < t.pumps[i].sendOff
        ensures Carried(t, x)
      {
        assert i in s.pumps && x < s.pumps[i].sendOff && Carried(s, x);
        var c :| c in s.wire && c.off <= x < c.off + |c.data|;
        assert c in t.wire;
      }
    }
  }

  lemma {:induction false} RunKeepsUnderWay(s: System, steps: seq<Step>)
    requires Inv(s) && UnderWay(s)
    ensures UnderWay(Run(s, steps))
    decreases |steps|
  {
    if |steps| > 0 {
      StepKeepsInv(s, steps[0]);
      StepKeepsUnderWay(s, steps[0]);
      RunKeepsUnderWay(Next(s, steps[0]), steps[1..]);
    }
  }

  lemma {:induction false} Arrives(s: System, id: nat) returns (steps: seq<Step>)
    requires Inv(s) && UnderWay(s) && s.hub.Some? && id in s.pumps && s.pumps[id].sendOff == |s.spool|
    ensures InSession(steps) && Run(s, steps).file == Run(s, steps).spool
    decreases |s.spool| - |s.file|
  {
    if s.file == s.spool {
      steps := [];
    } else {
      assert Carried(s, |s.file|);
      var c :| c in s.wire && c.off <= |s.file| < c.off + |c.data|;
      StepKeepsInv(s, HubReceives(c, Works));
      StepKeepsUnderWay(s, HubReceives(c, Works));
      var more := Arrives(Next(s, HubReceives(c, Works)), id);
      steps := [HubReceives(c, Works)] + more;
      assert steps[1..] == more;
    }
  }

  /**
   And if nothing under way is lost: from every reachable state in which hub and worker track
   the attempt and a pump runs, the whole spool can be delivered without a reconnect.
   */
  lemma DeliversInSession(steps: seq<Step>, id: nat)
    requires var s := Run(Start(), steps); s.hub.Some? && s.track.Some? && id in s.pumps
    ensures Recovers(Run(Start(), steps))
  {
    var s := Run(Start(), steps);
    RunKeepsInv(Start(), steps);
    RunKeepsUnderWay(Start(), steps);
    if CanStillSend(s, id) {
      var more := SessionRecovers(s, id);
    } else {
      var more := Arrives(s, id);
    }
  }
}

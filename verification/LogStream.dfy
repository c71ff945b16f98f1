/**
 The two ends of the log stream as the programs run them: the hub's table of attempts
 and its log files, the worker's table and its pump. Each method is one of the
 protocol's steps (see LogProtocol).
 */
module LogStream {
  import opened Text
  import opened LogProtocol

  type Files = map<string, Bytes>

  /** A missing file reads as empty and is created by the first append. */
  function Content(files: Files, path: string): Bytes {
    if path in files then files[path] else []
  }

  /** `after` is `before` except for the one file at `path`. */
  ghost predicate OnlyFile(before: Files, after: Files, path: string) {
    && before.Keys <= after.Keys <= before.Keys + {path}
    && forall p :: p in before && p != path ==> after[p] == before[p]
  }

  datatype RefState = RefState(workerID: string, logPath: string, row: HubRow)

  class Hub {
    var refs: map<string, RefState>
    var files: Files

    constructor (disk: Files)
      ensures refs == map[] && files == disk
    {
      refs, files := map[], disk;
    }

    method HandleLogChunk(sessionWorker: string, ref: string, chunk: Chunk, disk: Disk) returns (reply: Option<Ack>)
      modifies this
      ensures !(ref in old(refs) && old(refs)[ref].workerID == sessionWorker) ==>
        reply.None? && refs == old(refs) && files == old(files)
      ensures ref in old(refs) && old(refs)[ref].workerID == sessionWorker && old(refs)[ref].logPath != "" ==>
        var rs := old(refs)[ref];
        var r := Receive(rs.row, Content(old(files), rs.logPath), chunk, disk);
        && reply == r.reply
        && refs == old(refs)[ref := rs.(row := r.row)]
        && Content(files, rs.logPath) == r.file
        && OnlyFile(old(files), files, rs.logPath)
      ensures ref in old(refs) && old(refs)[ref].workerID == sessionWorker ==>
        && (chunk.off > old(refs)[ref].row.hw <==> reply.Some? && reply.value.rewind)
        && (reply.Some? ==> ref in refs && reply.value.off == refs[ref].row.hw)
      ensures ref in old(refs) && old(refs)[ref].logPath == "" ==>
        files == old(files) && refs.Keys == old(refs).Keys && refs[ref].row.hw == old(refs)[ref].row.hw
    {
      if ref !in refs || refs[ref].workerID != sessionWorker {
        return None;
      }
      var rs := refs[ref];
      var c := chunk;
      if c.off < rs.row.hw {
        if |c.data| <= rs.row.hw - c.off {
          return Some(Ack(rs.row.hw, false));
        }
        c := Chunk(rs.row.hw, c.data[rs.row.hw - c.off..], c.eof);
      }
      if c.off > rs.row.hw {
        return Some(Ack(rs.row.hw, true));
      }
      var hw, open := rs.row.hw, rs.row.open;
      if !open && rs.logPath != "" {
        if disk.OpenFails? {
          return None;
        }
        if rs.logPath !in files {
          files := files[rs.logPath := []];
        }
        open := true;
      }
      if open && rs.logPath != "" && |c.data| > 0 {
        if disk.Works? {
          files := files[rs.logPath := Content(files, rs.logPath) + c.data];
          hw := hw + |c.data|;
        }
      }
      if c.eof {
        open := false;
      }
      refs := refs[ref := rs.(row := HubRow(hw, open))];
      reply := Some(Ack(hw, false));
    }

    /** adoptOrphans, for one reference whose log path was looked up in the task's row. */
    method AdoptOrphan(workerID: string, ref: string, logPath: string)
      modifies this
      ensures files == old(files)
      ensures ref in old(refs) ==> refs == old(refs)
      ensures ref !in old(refs) ==>
        refs == old(refs)[ref := RefState(workerID, logPath,
                                  HubRow(if logPath == "" then 0 else |Content(files, logPath)|, false))]
    {
      if ref !in refs {
        var hw := 0;
        if logPath != "" && logPath in files {
          hw := |files[logPath]|;
        }
        refs := refs[ref := RefState(workerID, logPath, HubRow(hw, false))];
      }
    }
  }

  class Agent {
    var refs: map<string, Track>
    /** The spool file of each attempt, while it exists. */
    var spools: Files

    constructor (disk: Files)
      ensures refs == map[] && spools == disk
    {
      refs, spools := map[], disk;
    }

    method HandleLogAck(ref: string, a: Ack)
      modifies this
      ensures ref !in old(refs) ==> refs == old(refs) && spools == old(spools)
      ensures ref in old(refs) && ref in old(spools) ==>
        var r := HandleAck(old(refs)[ref], a, |old(spools)[ref]|);
        if r.collect then refs == old(refs) - {ref} && spools == old(spools) - {ref}
        else refs == old(refs)[ref := r.track] && spools == old(spools)
    {
      if ref !in refs {
        return;
      }
      var tr := refs[ref];
      if a.rewind {
        tr := tr.(ackOff := a.off, rewind := true);
      } else if a.off > tr.ackOff {
        tr := tr.(ackOff := a.off);
      }
      refs := refs[ref := tr];
      if tr.exited && ref in spools && tr.ackOff >= |spools[ref]| {
        spools := spools - {ref};
        refs := refs - {ref};
      }
    }
  }

  /** Where a pump stands once it has looked at the rewind flag. */
  function Cursor(p: Pump, t: Track): Pump {
    if t.rewind then Pump(t.ackOff, false) else p
  }

  class LogPump {
    const ref: string
    var sendOff: nat
    var eofSent: bool
    var running: bool

    constructor (r: string, agent: Agent)
      requires r in agent.refs
      ensures ref == r && State() == Pump(agent.refs[r].ackOff, false) && running
    {
      ref, sendOff, eofSent, running := r, agent.refs[r].ackOff, false, true;
    }

    ghost function State(): Pump
      reads this
    {
      Pump(sendOff, eofSent)
    }

    /**
     One round of the pump loop: take a pending rewind, then send the next chunk,
     or the closing eof chunk, or nothing yet. A pump outlives its collected attempt,
     whose spool is gone: it then finds nothing to send.
     */
    method Turn(agent: Agent) returns (msg: Option<Chunk>)
      requires running && (ref in agent.refs || ref !in agent.spools)
      requires ref in agent.spools ==> Cursor(State(), agent.refs[ref]).sendOff <= |agent.spools[ref]|
      modifies this, agent
      ensures agent.spools == old(agent.spools)
      ensures ref !in old(agent.refs) ==>
        agent.refs == old(agent.refs) && msg.None? && running && State() == old(State())
      ensures ref in old(agent.refs) ==> agent.refs == old(agent.refs)[ref := old(agent.refs)[ref].(rewind := false)]
      ensures ref in old(agent.refs) && ref !in agent.spools ==>
        msg.None? && running && State() == old(Cursor(State(), agent.refs[ref]))
      ensures ref in agent.spools ==>
        var p := old(Cursor(State(), agent.refs[ref]));
        var exited := old(agent.refs)[ref].exited;
        var n := Min(CHUNK, |agent.spools[ref]| - p.sendOff);
        if n > 0 then
          var atEnd := n < CHUNK;
          && msg == Some(NextChunk(p, agent.spools[ref], n, exited && atEnd))
          && State() == Pump(p.sendOff + n, exited && atEnd) && running
        else
          && msg == (if exited && !p.eofSent then Some(NextChunk(p, agent.spools[ref], 0, true)) else None)
          && running == !exited && sendOff == p.sendOff
    {
      if ref !in agent.refs {
        return None;
      }
      var tr := agent.refs[ref];
      if tr.rewind {
        sendOff, eofSent := tr.ackOff, false;
      }
      agent.refs := agent.refs[ref := tr.(rewind := false)];
      if ref !in agent.spools {
        return None;
      }
      var spool := agent.spools[ref];
      var n := Min(CHUNK, |spool| - sendOff);
      if n > 0 {
        var data := spool[sendOff..sendOff + n];
        var atEOF := n < CHUNK;
        msg := Some(Chunk(sendOff, data, tr.exited && atEOF));
        sendOff, eofSent := sendOff + n, tr.exited && atEOF;
      } else if tr.exited {
        msg := None;
        if !eofSent {
          assert spool[sendOff..sendOff + 0] == [];
          msg := Some(Chunk(sendOff, [], true));
          eofSent := true;
        }
        running := false;
      } else {
        msg := None;
      }
    }
  }
}

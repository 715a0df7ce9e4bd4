/**
 * The transfer protocol as the engine runs it: `send_file` and
 * `receive_file` with the chunk loops they spawn, over a message channel to
 * the peer and the shared transfer registry.  A spawned chunk task is run to
 * its end before the spawning call returns, and what it ended with is
 * returned beside the call's own result.  Each loop is proved to do what the
 * reference functions of module ProtocolSpec say.
 */
module Protocol {
  import opened Common
  import opened Api
  import opened TransferRegistry
  import opened ProtocolSpec

  /**
   * The connection to the peer as the protocol sees it: the messages the peer
   * will send, in order, and the log of messages sent to it.  A wait for the
   * next message fails once the peer has nothing more to send.
   */
  class Channel {
    var incoming: seq<Message>
    var sent: seq<Message>

    constructor (incoming: seq<Message>)
      ensures this.incoming == incoming && sent == []
    {
      this.incoming := incoming;
      sent := [];
    }

    /** Sends one message; nothing else changes. */
    method Send(m: Message)
      modifies this
      ensures sent == old(sent) + [m] && incoming == old(incoming)
    {
      sent := sent + [m];
    }

    /** Waits for the peer's next message, which is taken off the incoming queue. */
    method Receive() returns (r: Result<Message>)
      modifies this
      ensures sent == old(sent)
      ensures old(incoming) == [] ==> r == Err(ReceiveFailed) && incoming == []
      ensures old(incoming) != [] ==> r == Ok(old(incoming)[0]) && incoming == old(incoming)[1..]
    {
      if incoming == [] {
        return Err(ReceiveFailed);
      }
      r := Ok(incoming[0]);
      incoming := incoming[1..];
    }
  }

  /**
   * The position at which updates for a pushed record's id land: the record
   * itself when no earlier record has its id, else that earlier record.
   */
  function SlotAfterPush(ts: seq<FileTransfer>, t: FileTransfer): (k: nat)
    ensures FirstIndex(ts + [t], t.id) == Some(k)
    ensures k == |ts| <==> forall j :: 0 <= j < |ts| ==> ts[j].id != t.id
  {
    FirstIndexAppend(ts, t);
    if FirstIndex(ts, t.id).Some? then FirstIndex(ts, t.id).value else |ts|
  }

  /** Where a destination file is created: the save directory joined with the announced file name. */
  datatype SavePath = SavePath(dir: string, fileName: string)

  /**
   * What the receiver's spawned task ended with: where it saved, the bytes
   * the created file holds (None when it could not be created), and its result.
   */
  datatype ReceiverTask = ReceiverTask(savePath: SavePath, written: Option<seq<byte>>, result: Result<()>)


  /** Recording progress `bytes` at slot `k` extends the run's recorded progress; the slot stays first for `id`. */
  lemma {:induction false} TrackProgress(ts: seq<FileTransfer>, k: nat, progress: seq<nat>, status: TransferStatus,
                                         id: string, bytes: nat)
    requires FirstIndex(ts, id) == Some(k)
    ensures var cur := ts[k := Tracked(ts[k], progress, status)];
      && FirstIndex(cur, id) == Some(k)
      && cur[k := cur[k].(transferredBytes := bytes)] == ts[k := Tracked(ts[k], progress + [bytes], status)]
  {
    FirstIndexStable(ts, k, Tracked(ts[k], progress, status), id);
    assert (progress + [bytes])[|progress + [bytes]| - 1] == bytes;
  }

  /** Setting status `next` at slot `k` replaces the run's status; the slot stays first for `id`. */
  lemma {:induction false} TrackStatus(ts: seq<FileTransfer>, k: nat, progress: seq<nat>, status: TransferStatus,
                                       id: string, next: TransferStatus)
    requires FirstIndex(ts, id) == Some(k)
    ensures var cur := ts[k := Tracked(ts[k], progress, status)];
      && FirstIndex(cur, id) == Some(k)
      && cur[k := cur[k].(status := next)] == ts[k := Tracked(ts[k], progress, next)]
  {
    FirstIndexStable(ts, k, Tracked(ts[k], progress, status), id);
  }

  /** A run that starts from a status change alone composes with it into a single run. */
  lemma TrackedAfterStatus(ts: seq<FileTransfer>, k: nat, status: TransferStatus, progress: seq<nat>,
                           next: TransferStatus)
    requires k < |ts|
    ensures var cur := ts[k := Tracked(ts[k], [], status)];
      cur[k := Tracked(cur[k], progress, next)] == ts[k := Tracked(ts[k], progress, next)]
  {
    var cur := ts[k := Tracked(ts[k], [], status)];
    assert Tracked(cur[k], progress, next) == Tracked(ts[k], progress, next);
  }

  /**
   * Records progress `bytes` for `id` once its record sits at slot `k` of
   * `ts`, as the chunk loops do: the update cannot miss, since records are
   * never removed.
   */
  method RecordProgress(reg: Registry, id: string, bytes: nat, ghost ts: seq<FileTransfer>, ghost k: nat,
                        ghost progress: seq<nat>, ghost status: TransferStatus)
    requires FirstIndex(ts, id) == Some(k)
    requires reg.transfers == ts[k := Tracked(ts[k], progress, status)]
    modifies reg
    ensures reg.transfers == ts[k := Tracked(ts[k], progress + [bytes], status)]
  {
    TrackProgress(ts, k, progress, status, id, bytes);
    var p := reg.UpdateTransferProgress(id, bytes);
    assert p.Ok?;
  }

  /** Sets the status of `id` once its record sits at slot `k` of `ts`; the update cannot miss. */
  method RecordStatus(reg: Registry, id: string, next: TransferStatus, ghost ts: seq<FileTransfer>, ghost k: nat,
                      ghost progress: seq<nat>, ghost status: TransferStatus)
    requires FirstIndex(ts, id) == Some(k)
    requires reg.transfers == ts[k := Tracked(ts[k], progress, status)]
    modifies reg
    ensures reg.transfers == ts[k := Tracked(ts[k], progress, next)]
  {
    TrackStatus(ts, k, progress, status, id, next);
    var u := reg.UpdateTransferStatus(id, next);
    assert u.Ok?;
  }

  /** A sender run whose first steps already happened: what they did, followed by the rest of the run. */
  ghost function SendAfter(sent: seq<Message>, progress: seq<nat>, rest: SendRun): SendRun
  {
    SendRun(sent + rest.sent, rest.unread, progress + rest.progress, rest.completed, rest.result)
  }

  /** An acknowledged chunk that is not the last moves one step of the run into the part already done. */
  lemma SendContinueStep(id: string, content: seq<byte>, transferred: nat, next: nat, index: nat,
                         replies: seq<Message>, sent: seq<Message>, progress: seq<nat>)
    requires transferred < next < |content| && next == transferred + Min(CHUNK_SIZE, |content| - transferred)
    requires replies != [] && replies[0] == ChunkAck(id, index)
    ensures SendAfter(sent, progress, SendLoop(id, content, transferred, index, replies))
      == SendAfter(sent + [DataChunk(id, index, content[transferred..next], false)], progress + [next],
                   SendLoop(id, content, next, index + 1, replies[1..]))
  {
    var chunk := DataChunk(id, index, content[transferred..next], false);
    var rest := SendLoop(id, content, next, index + 1, replies[1..]);
    assert sent + [chunk] + rest.sent == sent + ([chunk] + rest.sent);
    assert progress + [next] + rest.progress == progress + ([next] + rest.progress);
  }

  /**
   * The end of a sender run whose next step stops the loop: nothing left to
   * read, no reply, a reply other than the expected acknowledgement, or the
   * acknowledgement of the last chunk.
   */
  lemma SendFinalStep(id: string, content: seq<byte>, transferred: nat, index: nat, replies: seq<Message>,
                      sent: seq<Message>, progress: seq<nat>)
    requires transferred <= |content|
    requires var n := Min(CHUNK_SIZE, |content| - transferred);
      !(n > 0 && transferred + n < |content| && replies != [] && replies[0] == ChunkAck(id, index))
    ensures var n := Min(CHUNK_SIZE, |content| - transferred);
      var chunk := DataChunk(id, index, content[transferred..transferred + n], transferred + n >= |content|);
      var run := SendAfter(sent, progress, SendLoop(id, content, transferred, index, replies));
      && (n == 0 ==> run == SendRun(sent, replies, progress, false, Ok(())))
      && (n > 0 && replies == [] ==> run == SendRun(sent + [chunk], [], progress, false, Err(ReceiveFailed)))
      && (n > 0 && replies != [] && replies[0] != ChunkAck(id, index) ==>
            run == SendRun(sent + [chunk], replies[1..], progress, false, Err(InvalidAcknowledgment)))
      && (n > 0 && replies != [] && replies[0] == ChunkAck(id, index) ==>
            run == SendRun(sent + [chunk] + [TransferComplete(id, true)], replies[1..], progress + [transferred + n],
                           true, Ok(())))
  {
    var n := Min(CHUNK_SIZE, |content| - transferred);
    var chunk := DataChunk(id, index, content[transferred..transferred + n], transferred + n >= |content|);
    assert sent + [] == sent && progress + [] == progress;
    assert sent + [chunk] + [TransferComplete(id, true)] == sent + [chunk, TransferComplete(id, true)];
  }

  /**
   * One pass of the sender's chunk loop, at byte offset `transferred` and
   * chunk `index`, while the record of `id` sits at slot `k` of `ts` with
   * `progress` recorded so far: reads the next chunk; at the end of the file
   * stops; otherwise sends it, waits for its acknowledgement and records the
   * new byte total, and after the last chunk sends the completion and marks
   * the transfer Completed.  `done` is false only when the loop goes on, at
   * offset `next`.
   */
  method SendNextChunk(reg: Registry, ch: Channel, id: string, content: seq<byte>, transferred: nat, index: nat,
                       ghost ts: seq<FileTransfer>, ghost k: nat, ghost progress: seq<nat>)
    returns (done: bool, r: Result<()>, next: nat)
    requires transferred <= |content|
    requires FirstIndex(ts, id) == Some(k)
    requires reg.transfers == ts[k := Tracked(ts[k], progress, Transferring)]
    modifies reg, ch
    ensures var run := SendLoop(id, content, transferred, index, old(ch.incoming));
      done ==>
        && r == run.result
        && ch.sent == old(ch.sent) + run.sent
        && ch.incoming == run.unread
        && reg.transfers == ts[k := Tracked(ts[k], progress + run.progress,
                                           if run.completed then Completed else Transferring)]
    ensures !done ==>
      && transferred < next < |content| && next == transferred + Min(CHUNK_SIZE, |content| - transferred)
      && old(ch.incoming) != [] && old(ch.incoming)[0] == ChunkAck(id, index)
      && ch.sent == old(ch.sent) + [DataChunk(id, index, content[transferred..next], false)]
      && ch.incoming == old(ch.incoming)[1..]
      && reg.transfers == ts[k := Tracked(ts[k], progress + [next], Transferring)]
  {
    next := transferred;
    var n := Min(CHUNK_SIZE, |content| - transferred);
    if !(n > 0 && transferred + n < |content| && ch.incoming != [] && ch.incoming[0] == ChunkAck(id, index)) {
      SendFinalStep(id, content, transferred, index, ch.incoming, [], []);
    }
    if n == 0 {
      assert progress + [] == progress;
      return true, Ok(()), next;
    }
    var isLast := transferred + n >= |content|;
    var chunk := DataChunk(id, index, content[transferred..transferred + n], isLast);
    ch.Send(chunk);
    var reply := ch.Receive();
    if reply.Err? {
      assert progress + [] == progress;
      return true, Err(reply.error), next;
    }
    if !(reply.value.ChunkAck? && reply.value.id == id && reply.value.chunkIndex == index) {
      assert progress + [] == progress;
      return true, Err(InvalidAcknowledgment), next;
    }
    next := transferred + n;
    RecordProgress(reg, id, next, ts, k, progress, Transferring);
    if isLast {
      ch.Send(TransferComplete(id, true));
      RecordStatus(reg, id, Completed, ts, k, progress + [next], Transferring);
      return true, Ok(()), next;
    }
    done, r := false, Ok(());
  }

  /**
   * The sender's chunk loop: marks the transfer Transferring, then sends the
   * file in 64 KiB chunks, each after the previous one was acknowledged,
   * recording the acknowledged byte total after each acknowledgement, and
   * marks Completed after sending a completion once the last chunk was
   * acknowledged.  `content` is the file as its reads return it.
   */
  method SendFileChunks(reg: Registry, ch: Channel, id: string, content: seq<byte>) returns (r: Result<()>)
    modifies reg, ch
    ensures FirstIndex(old(reg.transfers), id).None? ==>
      r == Err(TransferNotFound(id)) && reg.transfers == old(reg.transfers)
      && ch.sent == old(ch.sent) && ch.incoming == old(ch.incoming)
    ensures FirstIndex(old(reg.transfers), id).Some? ==>
      var k := FirstIndex(old(reg.transfers), id).value;
      var run := SendLoop(id, content, 0, 0, old(ch.incoming));
      && r == run.result
      && ch.sent == old(ch.sent) + run.sent
      && ch.incoming == run.unread
      && reg.transfers == old(reg.transfers)[k := Tracked(old(reg.transfers)[k], run.progress,
                                                          if run.completed then Completed else Transferring)]
  {
    var u := reg.UpdateTransferStatus(id, Transferring);
    if u.Err? {
      return u;
    }
    ghost var ts0 := old(reg.transfers);
    ghost var k := FirstIndex(ts0, id).value;
    ghost var run := SendLoop(id, content, 0, 0, old(ch.incoming));
    ghost var total := SendAfter(old(ch.sent), [], run);
    assert total.progress == run.progress;
    var transferred: nat := 0;
    var index := 0;
    ghost var progress: seq<nat> := [];
    ghost var remaining := ch.incoming;
    while true
      invariant transferred <= |content|
      invariant ch.incoming == remaining
      invariant total == SendAfter(ch.sent, progress, SendLoop(id, content, transferred, index, remaining))
      invariant reg.transfers == ts0[k := Tracked(ts0[k], progress, Transferring)]
      decreases |content| - transferred
    {
      ghost var before := ch.sent;
      var done, res, next := SendNextChunk(reg, ch, id, content, transferred, index, ts0, k, progress);
      if done {
        return res;
      }
      SendContinueStep(id, content, transferred, next, index, remaining, before, progress);
      remaining := remaining[1..];
      progress := progress + [next];
      transferred := next;
      index := index + 1;
    }
  }

  /**
   * The sender's entry point.  `file` is the file at `path` (None when the
   * path does not exist), `fileName` its final path component (None when it
   * has none), `transferId` the fresh transfer id.  Pushes a Pending record,
   * sends the request, marks Connecting and waits for the reply; on an
   * acceptance of this transfer it runs the chunk loop, and a failure of the
   * loop marks the transfer Failed; a refusal or any other reply marks it
   * Failed at once and no chunk is sent.
   */
  method SendFile(reg: Registry, ch: Channel, path: string, file: Option<seq<byte>>, fileName: Option<string>,
                  transferId: string) returns (r: Result<string>, task: Option<Result<()>>)
    modifies reg, ch
    ensures file.None? ==>
      r == Err(FileNotFound(path)) && task == None
      && reg.transfers == old(reg.transfers) && ch.sent == old(ch.sent) && ch.incoming == old(ch.incoming)
    ensures file.Some? && fileName.None? ==>
      r == Err(InvalidFileName) && task == None
      && reg.transfers == old(reg.transfers) && ch.sent == old(ch.sent) && ch.incoming == old(ch.incoming)
    ensures file.Some? && fileName.Some? ==>
      var record := FileTransfer(transferId, fileName.value, |file.value|, 0, Pending);
      var pushed := old(reg.transfers) + [record];
      var k := SlotAfterPush(old(reg.transfers), record);
      var sentBefore := old(ch.sent) + [TransferRequest(transferId, fileName.value, |file.value|)];
      var replies := old(ch.incoming);
      && (replies == [] ==>
            r == Err(ReceiveFailed) && task == None && ch.sent == sentBefore && ch.incoming == []
            && reg.transfers == pushed[k := Tracked(pushed[k], [], Connecting)])
      && (replies != [] && replies[0] == TransferResponse(transferId, true) ==>
            var run := SendLoop(transferId, file.value, 0, 0, replies[1..]);
            r == Ok(transferId) && task == Some(run.result)
            && ch.sent == sentBefore + run.sent && ch.incoming == run.unread
            && reg.transfers == pushed[k := Tracked(pushed[k], run.progress,
                                                    if run.result.Err? then Failed
                                                    else if run.completed then Completed else Transferring)])
      && (replies != [] && replies[0] == TransferResponse(transferId, false) ==>
            r == Err(TransferRejected) && task == None && ch.sent == sentBefore && ch.incoming == replies[1..]
            && reg.transfers == pushed[k := Tracked(pushed[k], [], Failed)])
      && (replies != [] && !(replies[0].TransferResponse? && replies[0].id == transferId) ==>
            r == Err(InvalidResponse) && task == None && ch.sent == sentBefore && ch.incoming == replies[1..]
            && reg.transfers == pushed[k := Tracked(pushed[k], [], Failed)])
  {
    task := None;
    if file.None? {
      return Err(FileNotFound(path)), None;
    }
    if fileName.None? {
      return Err(InvalidFileName), None;
    }
    var content := file.value;
    var record := FileTransfer(transferId, fileName.value, |content|, 0, Pending);
    ghost var k := SlotAfterPush(reg.transfers, record);
    reg.Push(record);
    ghost var pushed := reg.transfers;
    assert pushed[k := Tracked(pushed[k], [], pushed[k].status)] == pushed;
    ch.Send(TransferRequest(transferId, fileName.value, |content|));
    RecordStatus(reg, transferId, Connecting, pushed, k, [], pushed[k].status);
    var response := ch.Receive();
    if response.Err? {
      return Err(response.error), None;
    }
    var reply := response.value;
    if reply.TransferResponse? && reply.id == transferId {
      if reply.accepted {
        ghost var connecting := reg.transfers;
        TrackStatus(pushed, k, [], pushed[k].status, transferId, Connecting);
        ghost var run := SendLoop(transferId, content, 0, 0, ch.incoming);
        ghost var status := if run.completed then Completed else Transferring;
        var outcome := SendFileChunks(reg, ch, transferId, content);
        TrackedAfterStatus(pushed, k, Connecting, run.progress, status);
        if outcome.Err? {
          RecordStatus(reg, transferId, Failed, pushed, k, run.progress, status);
        }
        return Ok(transferId), Some(outcome);
      } else {
        RecordStatus(reg, transferId, Failed, pushed, k, [], Connecting);
        return Err(TransferRejected), None;
      }
    }
    RecordStatus(reg, transferId, Failed, pushed, k, [], Connecting);
    r := Err(InvalidResponse);
  }

  /** A receiver run whose first steps already happened: what they did, followed by the rest of the run. */
  ghost function RecvAfter(sent: seq<Message>, written: seq<byte>, progress: seq<nat>, rest: RecvRun): RecvRun
  {
    RecvRun(sent + rest.sent, rest.unread, written + rest.written, progress + rest.progress, rest.completed, rest.result)
  }

  /** Accepting a chunk that is not flagged last moves one step of the run into the part already done. */
  lemma RecvAcceptStep(id: string, expected: nat, transferred: nat, incoming: seq<Message>, data: seq<byte>,
                       sent: seq<Message>, written: seq<byte>, progress: seq<nat>)
    requires incoming != [] && incoming[0] == DataChunk(id, expected, data, false)
    ensures RecvAfter(sent, written, progress, RecvLoop(id, expected, transferred, incoming))
      == RecvAfter(sent + [ChunkAck(id, expected)], written + data, progress + [transferred + |data|],
                   RecvLoop(id, expected + 1, transferred + |data|, incoming[1..]))
  {
    var rest := RecvLoop(id, expected + 1, transferred + |data|, incoming[1..]);
    assert sent + [ChunkAck(id, expected)] + rest.sent == sent + ([ChunkAck(id, expected)] + rest.sent);
    assert written + data + rest.written == written + (data + rest.written);
    assert progress + [transferred + |data|] + rest.progress == progress + ([transferred + |data|] + rest.progress);
  }

  /**
   * The end of a receiver run whose next message stops the loop: a chunk
   * flagged last (after which one more message is awaited), or a message
   * that is not an acceptable chunk.
   */
  lemma RecvFinalStep(id: string, expected: nat, transferred: nat, incoming: seq<Message>,
                      sent: seq<Message>, written: seq<byte>, progress: seq<nat>)
    requires incoming != []
    requires !(incoming[0].DataChunk? && incoming[0].id == id && incoming[0].chunkIndex == expected
               && !incoming[0].isLast)
    ensures var m := incoming[0];
      var run := RecvAfter(sent, written, progress, RecvLoop(id, expected, transferred, incoming));
      if m.DataChunk? && m.id == id && m.chunkIndex == expected then
        run == RecvRun(sent + [ChunkAck(id, expected)], if |incoming| == 1 then [] else incoming[2..],
                       written + m.data, progress + [transferred + |m.data|],
                       |incoming| > 1 && incoming[1] == TransferComplete(id, true),
                       if |incoming| == 1 then Err(ReceiveFailed)
                       else if incoming[1] == TransferComplete(id, true) then Ok(())
                       else Err(InvalidCompletion))
      else
        run == RecvRun(sent, incoming[1..], written, progress, m == TransferComplete(id, true),
                       if m.DataChunk? && m.id == id then Err(UnexpectedChunkIndex(expected, m.chunkIndex))
                       else if m == TransferComplete(id, true) then Ok(())
                       else if m.TransferComplete? && m.id == id then Err(TransferFailed)
                       else Err(InvalidMessage))
  {
    assert sent + [] == sent && written + [] == written && progress + [] == progress;
  }

  /**
   * One pass of the receiver's chunk loop, expecting chunk `expected` after
   * `transferred` bytes, while the record of `id` sits at slot `k` of `ts`
   * with `progress` recorded so far: waits for the next message; a chunk of
   * this transfer with the expected index is written (`data` is what was
   * written), recorded and acknowledged, and when flagged last is followed by
   * a wait for the completion; a successful completion marks the transfer
   * Completed.  `done` is false only when the loop goes on.
   */
  method ReceiveNextChunk(reg: Registry, ch: Channel, id: string, expected: nat, transferred: nat,
                          ghost ts: seq<FileTransfer>, ghost k: nat, ghost progress: seq<nat>)
    returns (done: bool, r: Result<()>, data: seq<byte>)
    requires FirstIndex(ts, id) == Some(k)
    requires reg.transfers == ts[k := Tracked(ts[k], progress, Transferring)]
    modifies reg, ch
    ensures var run := RecvLoop(id, expected, transferred, old(ch.incoming));
      done ==>
        && r == run.result && data == run.written
        && ch.sent == old(ch.sent) + run.sent
        && ch.incoming == run.unread
        && reg.transfers == ts[k := Tracked(ts[k], progress + run.progress,
                                           if run.completed then Completed else Transferring)]
    ensures !done ==>
      && old(ch.incoming) != [] && old(ch.incoming)[0] == DataChunk(id, expected, data, false)
      && ch.sent == old(ch.sent) + [ChunkAck(id, expected)]
      && ch.incoming == old(ch.incoming)[1..]
      && reg.transfers == ts[k := Tracked(ts[k], progress + [transferred + |data|], Transferring)]
  {
    data := [];
    if ch.incoming == [] {
      assert progress + [] == progress;
    } else if !(ch.incoming[0].DataChunk? && ch.incoming[0].id == id && ch.incoming[0].chunkIndex == expected
                && !ch.incoming[0].isLast) {
      RecvFinalStep(id, expected, transferred, ch.incoming, [], [], []);
    }
    var received := ch.Receive();
    if received.Err? {
      return true, Err(received.error), data;
    }
    var m := received.value;
    if m.DataChunk? && m.id == id {
      if m.chunkIndex != expected {
        assert progress + [] == progress;
        return true, Err(UnexpectedChunkIndex(expected, m.chunkIndex)), data;
      }
      data := m.data;
      RecordProgress(reg, id, transferred + |m.data|, ts, k, progress, Transferring);
      ch.Send(ChunkAck(id, m.chunkIndex));
      if !m.isLast {
        return false, Ok(()), data;
      }
      var completion := ch.Receive();
      if completion.Err? {
        return true, Err(completion.error), data;
      }
      var c := completion.value;
      if c.TransferComplete? && c.id == id && c.success {
        RecordStatus(reg, id, Completed, ts, k, progress + [transferred + |m.data|], Transferring);
        return true, Ok(()), data;
      }
      return true, Err(InvalidCompletion), data;
    }
    assert progress + [] == progress;
    if m.TransferComplete? && m.id == id {
      if m.success {
        RecordStatus(reg, id, Completed, ts, k, progress, Transferring);
        return true, Ok(()), data;
      }
      return true, Err(TransferFailed), data;
    }
    return true, Err(InvalidMessage), data;
  }

  /**
   * The receiver's chunk loop: creates the destination file (`create` is what
   * creating it reported), marks the transfer Transferring, then accepts
   * chunks in index order, writing, recording and acknowledging each, until
   * a successful completion of this transfer marks it Completed.  Returns the
   * bytes the created file holds.
   */
  method ReceiveFileChunks(reg: Registry, ch: Channel, id: string, create: Outcome)
    returns (written: Option<seq<byte>>, r: Result<()>)
    modifies reg, ch
    ensures create.Fail? ==>
      written == None && r == Err(Library(create.cause)) && reg.transfers == old(reg.transfers)
      && ch.sent == old(ch.sent) && ch.incoming == old(ch.incoming)
    ensures create.Pass? && FirstIndex(old(reg.transfers), id).None? ==>
      written == Some([]) && r == Err(TransferNotFound(id)) && reg.transfers == old(reg.transfers)
      && ch.sent == old(ch.sent) && ch.incoming == old(ch.incoming)
    ensures create.Pass? && FirstIndex(old(reg.transfers), id).Some? ==>
      var k := FirstIndex(old(reg.transfers), id).value;
      var run := RecvLoop(id, 0, 0, old(ch.incoming));
      && written == Some(run.written) && r == run.result
      && ch.sent == old(ch.sent) + run.sent
      && ch.incoming == run.unread
      && reg.transfers == old(reg.transfers)[k := Tracked(old(reg.transfers)[k], run.progress,
                                                          if run.completed then Completed else Transferring)]
  {
    if create.Fail? {
      return None, Err(Library(create.cause));
    }
    var u := reg.UpdateTransferStatus(id, Transferring);
    if u.Err? {
      return Some([]), u;
    }
    ghost var ts0 := old(reg.transfers);
    ghost var k := FirstIndex(ts0, id).value;
    ghost var run := RecvLoop(id, 0, 0, old(ch.incoming));
    ghost var total := RecvAfter(old(ch.sent), [], [], run);
    assert total.written == run.written && total.progress == run.progress;
    var data: seq<byte> := [];
    var transferred: nat := 0;
    var expected := 0;
    ghost var progress: seq<nat> := [];
    ghost var remaining := ch.incoming;
    while true
      invariant ch.incoming == remaining
      invariant total == RecvAfter(ch.sent, data, progress, RecvLoop(id, expected, transferred, remaining))
      invariant reg.transfers == ts0[k := Tracked(ts0[k], progress, Transferring)]
      decreases |remaining|
    {
      ghost var before := ch.sent;
      var done, res, chunk := ReceiveNextChunk(reg, ch, id, expected, transferred, ts0, k, progress);
      if done {
        return Some(data + chunk), res;
      }
      RecvAcceptStep(id, expected, transferred, remaining, chunk, before, data, progress);
      remaining := remaining[1..];
      data := data + chunk;
      transferred := transferred + |chunk|;
      progress := progress + [transferred];
      expected := expected + 1;
    }
  }

  /**
   * The receiver's entry point: waits for a transfer request, pushes a
   * Pending record carrying the announced name and size, accepts, marks
   * Transferring and runs the chunk loop into `saveDir`; a failure of the
   * loop marks the transfer Failed.  The announced size is recorded but
   * never compared with the bytes received.
   */
  method ReceiveFile(reg: Registry, ch: Channel, saveDir: string, create: Outcome)
    returns (r: Result<string>, task: Option<ReceiverTask>)
    modifies reg, ch
    ensures old(ch.incoming) == [] ==>
      r == Err(ReceiveFailed) && task == None
      && reg.transfers == old(reg.transfers) && ch.sent == old(ch.sent) && ch.incoming == []
    ensures old(ch.incoming) != [] && !old(ch.incoming)[0].TransferRequest? ==>
      r == Err(InvalidRequest) && task == None
      && reg.transfers == old(reg.transfers) && ch.sent == old(ch.sent) && ch.incoming == old(ch.incoming)[1..]
    ensures old(ch.incoming) != [] && old(ch.incoming)[0].TransferRequest? ==>
      var request := old(ch.incoming)[0];
      var record := FileTransfer(request.id, request.fileName, request.fileSize, 0, Pending);
      var pushed := old(reg.transfers) + [record];
      var k := SlotAfterPush(old(reg.transfers), record);
      var sentBefore := old(ch.sent) + [TransferResponse(request.id, true)];
      && r == Ok(request.id) && task.Some? && task.value.savePath == SavePath(saveDir, request.fileName)
      && (create.Fail? ==>
            task.value.written == None && task.value.result == Err(Library(create.cause))
            && ch.sent == sentBefore && ch.incoming == old(ch.incoming)[1..]
            && reg.transfers == pushed[k := pushed[k].(status := Failed)])
      && (create.Pass? ==>
            var run := RecvLoop(request.id, 0, 0, old(ch.incoming)[1..]);
            task.value.written == Some(run.written) && task.value.result == run.result
            && ch.sent == sentBefore + run.sent && ch.incoming == run.unread
            && reg.transfers == pushed[k := Tracked(pushed[k], run.progress,
                                                    if run.result.Ok? then Completed else Failed)])
  {
    task := None;
    var received := ch.Receive();
    if received.Err? {
      return Err(received.error), None;
    }
    var request := received.value;
    if !request.TransferRequest? {
      return Err(InvalidRequest), None;
    }
    var id := request.id;
    var record := FileTransfer(id, request.fileName, request.fileSize, 0, Pending);
    ghost var k := SlotAfterPush(reg.transfers, record);
    reg.Push(record);
    ghost var pushed := reg.transfers;
    var savePath := SavePath(saveDir, request.fileName);
    ch.Send(TransferResponse(id, true));
    assert pushed[k := Tracked(pushed[k], [], pushed[k].status)] == pushed;
    RecordStatus(reg, id, Transferring, pushed, k, [], pushed[k].status);
    TrackStatus(pushed, k, [], pushed[k].status, id, Transferring);
    ghost var run := RecvLoop(id, 0, 0, ch.incoming);
    ghost var status := if run.completed then Completed else Transferring;
    var written, outcome := ReceiveFileChunks(reg, ch, id, create);
    RecvLoopEnds(id, 0, 0, old(ch.incoming)[1..]);
    TrackedAfterStatus(pushed, k, Transferring, run.progress, status);
    if outcome.Err? {
      if create.Pass? {
        RecordStatus(reg, id, Failed, pushed, k, run.progress, status);
      } else {
        RecordStatus(reg, id, Failed, pushed, k, [], Transferring);
      }
    }
    r := Ok(id);
    task := Some(ReceiverTask(savePath, written, outcome));
  }
}

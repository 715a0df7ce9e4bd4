/**
 * The transfer protocol's messages, and the sender and receiver chunk loops
 * as functions of what the peer sends.  `SendLoop` and `RecvLoop` are the
 * reference definitions the imperative loops of module Protocol are proved
 * against; the lemmas here say what those loops do over every input: index
 * sequencing, acknowledgement matching, progress accumulation and when a
 * transfer counts as completed.
 */
module ProtocolSpec {
  import opened Common
  import opened Api
  import opened Chunking

  /** The sender's read buffer: 64 KiB. */
  const CHUNK_SIZE: nat := 64 * 1024

  /** The messages of the protocol, one variant per message kind. */
  datatype Message =
    | TransferRequest(id: string, fileName: string, fileSize: nat)
    | TransferResponse(id: string, accepted: bool)
    | DataChunk(id: string, chunkIndex: nat, data: seq<byte>, isLast: bool)
    | ChunkAck(id: string, chunkIndex: nat)
    | TransferComplete(id: string, success: bool)

  /**
   * What a run of the sender's chunk loop did: the messages it sent, the
   * replies it left unread, the progress values it recorded (one per accepted
   * acknowledgement), whether it marked the transfer Completed, and its result.
   */
  datatype SendRun = SendRun(sent: seq<Message>, unread: seq<Message>, progress: seq<nat>, completed: bool,
                             result: Result<()>)

  /**
   * What a run of the receiver's chunk loop did: the acknowledgements it
   * sent, the messages it left unread, the bytes it wrote to the created
   * file, the progress values it recorded (one per accepted chunk), whether it
   * marked the transfer Completed, and its result.
   */
  datatype RecvRun = RecvRun(sent: seq<Message>, unread: seq<Message>, written: seq<byte>, progress: seq<nat>,
                             completed: bool, result: Result<()>)

  /**
   * The sender's chunk loop from byte `transferred` and chunk `index`, facing
   * `replies`: read up to CHUNK_SIZE bytes (a read of the whole remaining
   * buffer), stop when nothing is left, otherwise send the chunk, flagged
   * last when it reaches the file size, and wait for its acknowledgement.
   */
  function SendLoop(id: string, content: seq<byte>, transferred: nat, index: nat, replies: seq<Message>): (run: SendRun)
    requires transferred <= |content|
    ensures |run.progress| <= |replies|
    ensures run.completed ==> run.result == Ok(()) && |run.sent| == |run.progress| + 1
    decreases |content| - transferred
  {
    var n := Min(CHUNK_SIZE, |content| - transferred);
    if n == 0 then SendRun([], replies, [], false, Ok(()))
    else
      var isLast := transferred + n >= |content|;
      var chunk := DataChunk(id, index, content[transferred..transferred + n], isLast);
      if replies == [] then SendRun([chunk], [], [], false, Err(ReceiveFailed))
      else if replies[0] != ChunkAck(id, index) then SendRun([chunk], replies[1..], [], false, Err(InvalidAcknowledgment))
      else if isLast then SendRun([chunk, TransferComplete(id, true)], replies[1..], [transferred + n], true, Ok(()))
      else
        var rest := SendLoop(id, content, transferred + n, index + 1, replies[1..]);
        SendRun([chunk] + rest.sent, rest.unread, [transferred + n] + rest.progress, rest.completed, rest.result)
  }

  /**
   * The receiver's chunk loop expecting chunk `expected` after `transferred`
   * bytes, facing `incoming`.  A chunk of this transfer with another index is
   * refused before anything is written; a chunk with the expected index is
   * written, recorded and acknowledged, and when it is flagged last the next
   * message must be a successful completion.  A completion of this transfer
   * ends the loop at any point.  The declared file size plays no part.
   */
  function RecvLoop(id: string, expected: nat, transferred: nat, incoming: seq<Message>): (run: RecvRun)
    ensures run.completed ==> run.result == Ok(())
    decreases |incoming|
  {
    if incoming == [] then RecvRun([], [], [], [], false, Err(ReceiveFailed))
    else
      var m := incoming[0];
      if m.DataChunk? && m.id == id then
        if m.chunkIndex != expected then
          RecvRun([], incoming[1..], [], [], false, Err(UnexpectedChunkIndex(expected, m.chunkIndex)))
        else
          var total := transferred + |m.data|;
          var ack := ChunkAck(id, m.chunkIndex);
          if m.isLast then
            if |incoming| == 1 then RecvRun([ack], [], m.data, [total], false, Err(ReceiveFailed))
            else if incoming[1] == TransferComplete(id, true) then RecvRun([ack], incoming[2..], m.data, [total], true, Ok(()))
            else RecvRun([ack], incoming[2..], m.data, [total], false, Err(InvalidCompletion))
          else
            var rest := RecvLoop(id, expected + 1, total, incoming[1..]);
            RecvRun([ack] + rest.sent, rest.unread, m.data + rest.written, [total] + rest.progress,
                     rest.completed, rest.result)
      else if m.TransferComplete? && m.id == id then
        if m.success then RecvRun([], incoming[1..], [], [], true, Ok(()))
        else RecvRun([], incoming[1..], [], [], false, Err(TransferFailed))
      else RecvRun([], incoming[1..], [], [], false, Err(InvalidMessage))
  }

  /** The data chunks the sender sends for `cs`, numbered from `index`; only the final one is flagged last. */
  function ChunkMessages(id: string, cs: seq<seq<byte>>, index: nat): (ms: seq<Message>)
    ensures |ms| == |cs|
  {
    if cs == [] then [] else [DataChunk(id, index, cs[0], |cs| == 1)] + ChunkMessages(id, cs[1..], index + 1)
  }

  /** The acknowledgements of `m` chunks numbered from `index`. */
  function Acks(id: string, index: nat, m: nat): (as_: seq<Message>)
    ensures |as_| == m
    decreases m
  {
    if m == 0 then [] else [ChunkAck(id, index)] + Acks(id, index + 1, m - 1)
  }

  /** The byte totals after each of `cs`, counted from `base`. */
  function RunningTotals(base: nat, cs: seq<seq<byte>>): (ps: seq<nat>)
    ensures |ps| == |cs|
    decreases cs
  {
    if cs == [] then [] else [base + |cs[0]|] + RunningTotals(base + |cs[0]|, cs[1..])
  }

  /** The bytes each message carries: a data chunk's payload, nothing for any other message. */
  function Payloads(ms: seq<Message>): (ds: seq<seq<byte>>)
    ensures |ds| == |ms|
  {
    if ms == [] then [] else [if ms[0].DataChunk? then ms[0].data else []] + Payloads(ms[1..])
  }

  /** The record of a transfer after a run that recorded `progress` and then set `status`. */
  function Tracked(t: FileTransfer, progress: seq<nat>, status: TransferStatus): FileTransfer
  {
    t.(transferredBytes := if progress == [] then t.transferredBytes else progress[|progress| - 1], status := status)
  }

  /**
   * Progress is the running byte total: each value is `base` plus the bytes
   * of the chunks up to it, the values never decrease, they strictly
   * increase when no chunk is empty, and the last one counts every byte.
   */
  lemma {:induction false} RunningTotalsAccumulate(base: nat, cs: seq<seq<byte>>)
    ensures var ps := RunningTotals(base, cs);
      && (forall j :: 0 <= j < |cs| ==> ps[j] == base + |Flatten(cs[..j + 1])|)
      && (forall i, j :: 0 <= i < j < |cs| ==> ps[i] <= ps[j])
      && ((forall j :: 0 <= j < |cs| ==> |cs[j]| > 0) ==> forall i, j :: 0 <= i < j < |cs| ==> ps[i] < ps[j])
      && (cs != [] ==> ps[|cs| - 1] == base + |Flatten(cs)|)
    decreases cs
  {
    if cs != [] {
      var ps := RunningTotals(base, cs);
      var rest := RunningTotals(base + |cs[0]|, cs[1..]);
      RunningTotalsAccumulate(base + |cs[0]|, cs[1..]);
      assert ps == [base + |cs[0]|] + rest;
      forall j | 0 <= j < |cs|
        ensures ps[j] == base + |Flatten(cs[..j + 1])|
      {
        if j > 0 {
          assert cs[..j + 1] == [cs[0]] + cs[1..][..j];
          assert cs[..j + 1][1..] == cs[1..][..j];
          assert ps[j] == rest[j - 1];
        } else {
          assert cs[..1][1..] == [];
        }
      }
      forall i, j | 0 <= i < j < |cs|
        ensures ps[i] <= ps[j]
        ensures (forall k :: 0 <= k < |cs| ==> |cs[k]| > 0) ==> ps[i] < ps[j]
      {
        assert ps[j] == rest[j - 1];
        if i > 0 {
          assert ps[i] == rest[i - 1];
        } else if j - 1 > 0 {
          assert rest[0] <= rest[j - 1];
        }
        if forall k :: 0 <= k < |cs| ==> |cs[k]| > 0 {
          assert |cs[1..][0]| > 0 by { assert cs[1..][0] == cs[1]; }
        }
      }
      assert cs[..|cs|] == cs;
    }
  }

  /**
   * The sender's chunk messages one by one: message `j` carries chunk `j`
   * with index `index + j`, and only the final one is flagged last.
   */
  lemma {:induction false} ChunkMessagesAt(id: string, cs: seq<seq<byte>>, index: nat, j: nat)
    requires j < |cs|
    decreases j
    ensures ChunkMessages(id, cs, index)[j] == DataChunk(id, index + j, cs[j], j == |cs| - 1)
  {
    if j > 0 {
      ChunkMessagesAt(id, cs[1..], index + 1, j - 1);
    }
  }

  /** The acknowledgements one by one: acknowledgement `j` names chunk `index + j`. */
  lemma {:induction false} AcksAt(id: string, index: nat, m: nat, j: nat)
    requires j < m
    decreases j
    ensures Acks(id, index, m)[j] == ChunkAck(id, index + j)
  {
    if j > 0 {
      AcksAt(id, index + 1, m - 1, j - 1);
    }
  }

  /** The chunks from `pos` are the next chunk followed by the chunks after it. */
  lemma ChunksStep(content: seq<byte>, pos: nat)
    requires pos < |content|
    ensures var n := Min(CHUNK_SIZE, |content| - pos);
      Chunks(content, pos, CHUNK_SIZE) == [content[pos..pos + n]] + Chunks(content, pos + n, CHUNK_SIZE)
  {
  }

  /** The first `b + 1` messages for a chunk list split at its head. */
  lemma ChunkMessagesPrefix(id: string, chunk: seq<byte>, tail: seq<seq<byte>>, index: nat, b: nat)
    requires b <= |tail|
    ensures ChunkMessages(id, [chunk] + tail, index)[..b + 1]
      == [DataChunk(id, index, chunk, tail == [])] + ChunkMessages(id, tail, index + 1)[..b]
  {
    var cs := [chunk] + tail;
    assert cs[1..] == tail;
  }

  /** The running totals of the first `b + 1` chunks of a chunk list split at its head. */
  lemma RunningTotalsPrefix(base: nat, chunk: seq<byte>, tail: seq<seq<byte>>, b: nat)
    requires b <= |tail|
    ensures RunningTotals(base, ([chunk] + tail)[..b + 1]) == [base + |chunk|] + RunningTotals(base + |chunk|, tail[..b])
  {
    assert ([chunk] + tail)[..b + 1] == [chunk] + tail[..b];
    assert ([chunk] + tail[..b])[1..] == tail[..b];
  }

  /**
   * The acknowledgements the sender's chunk loop accepts, over every sequence
   * of replies.  With `cs` the chunks still to read and `a` the number of
   * acknowledgements accepted: each accepted reply acknowledged exactly the
   * chunk just sent, with indices increasing by one from `index`.
   */
  lemma {:induction false} SendLoopAcks(id: string, content: seq<byte>, transferred: nat, index: nat,
                                        replies: seq<Message>)
    requires transferred <= |content|
    decreases |content| - transferred
    ensures var run := SendLoop(id, content, transferred, index, replies);
      var a := |run.progress|;
      && a <= |Chunks(content, transferred, CHUNK_SIZE)| && a <= |replies|
      && (forall j :: 0 <= j < a ==> replies[j] == ChunkAck(id, index + j))
  {
    var n := Min(CHUNK_SIZE, |content| - transferred);
    if n > 0 && replies != [] && replies[0] == ChunkAck(id, index) && transferred + n < |content| {
      var rest := SendLoop(id, content, transferred + n, index + 1, replies[1..]);
      SendLoopAcks(id, content, transferred + n, index + 1, replies[1..]);
      var b := |rest.progress|;
      forall j | 0 <= j < b + 1
        ensures replies[j] == ChunkAck(id, index + j)
      {
        if j > 0 {
          assert replies[j] == replies[1..][j - 1];
        }
      }
    }
  }

  /**
   * The progress the sender's chunk loop records: with `cs` the chunks still
   * to read and `a` the acknowledgements accepted, the running byte total of
   * the first `a` chunks, one value per acknowledgement.
   */
  lemma {:induction false} SendLoopProgress(id: string, content: seq<byte>, transferred: nat, index: nat,
                                            replies: seq<Message>)
    requires transferred <= |content|
    decreases |content| - transferred
    ensures var run := SendLoop(id, content, transferred, index, replies);
      var cs := Chunks(content, transferred, CHUNK_SIZE);
      var a := |run.progress|;
      a <= |cs| && run.progress == RunningTotals(transferred, cs[..a])
  {
    SendLoopAcks(id, content, transferred, index, replies);
    var n := Min(CHUNK_SIZE, |content| - transferred);
    if n > 0 {
      var chunk := content[transferred..transferred + n];
      var tail := Chunks(content, transferred + n, CHUNK_SIZE);
      ChunksStep(content, transferred);
      if replies != [] && replies[0] == ChunkAck(id, index) {
        var rest := SendLoop(id, content, transferred + n, index + 1, replies[1..]);
        if transferred + n < |content| {
          SendLoopProgress(id, content, transferred + n, index + 1, replies[1..]);
          RunningTotalsPrefix(transferred, chunk, tail, |rest.progress|);
        } else {
          RunningTotalsPrefix(transferred, chunk, tail, 0);
        }
      }
    }
  }

  /**
   * When the sender's chunk loop succeeds.  With `cs` the chunks still to
   * read and `a` the acknowledgements accepted: the transfer is marked
   * Completed exactly when the last chunk was acknowledged, and then every
   * chunk was sent in order, with its index and last flag, followed by a
   * successful completion; an empty remainder ends the loop at once with Ok,
   * nothing sent and no completion.
   */
  lemma {:induction false} SendLoopCompletes(id: string, content: seq<byte>, transferred: nat, index: nat,
                                             replies: seq<Message>)
    requires transferred <= |content|
    decreases |content| - transferred
    ensures var run := SendLoop(id, content, transferred, index, replies);
      var cs := Chunks(content, transferred, CHUNK_SIZE);
      var a := |run.progress|;
      && (run.completed <==> cs != [] && a == |cs|)
      && (cs == [] ==> run == SendRun([], replies, [], false, Ok(())))
      && (run.completed ==>
            run.result == Ok(()) && a <= |replies| && run.unread == replies[a..]
            && run.sent == ChunkMessages(id, cs, index) + [TransferComplete(id, true)])
  {
    var cs := Chunks(content, transferred, CHUNK_SIZE);
    var n := Min(CHUNK_SIZE, |content| - transferred);
    if n > 0 && replies != [] && replies[0] == ChunkAck(id, index) {
      var chunk := content[transferred..transferred + n];
      var isLast := transferred + n >= |content|;
      var tail := Chunks(content, transferred + n, CHUNK_SIZE);
      assert cs == [chunk] + tail;
      assert isLast <==> tail == [];
      assert ChunkMessages(id, cs, index) == [DataChunk(id, index, chunk, isLast)] + ChunkMessages(id, tail, index + 1);
      if !isLast {
        SendLoopCompletes(id, content, transferred + n, index + 1, replies[1..]);
      }
    }
  }

  /**
   * What a failed sender's chunk loop sent.  With `cs` the chunks still to
   * read and `a` the acknowledgements accepted, a loop that did not complete
   * over a non-empty remainder sent the chunks up to the unacknowledged one
   * and nothing else.
   */
  lemma {:induction false} SendLoopFailsSent(id: string, content: seq<byte>, transferred: nat, index: nat,
                                             replies: seq<Message>)
    requires transferred <= |content|
    decreases |content| - transferred
    ensures var run := SendLoop(id, content, transferred, index, replies);
      var cs := Chunks(content, transferred, CHUNK_SIZE);
      var a := |run.progress|;
      cs != [] && !run.completed ==> a < |cs| && run.sent == ChunkMessages(id, cs, index)[..a + 1]
  {
    var n := Min(CHUNK_SIZE, |content| - transferred);
    if n > 0 {
      var chunk := content[transferred..transferred + n];
      var tail := Chunks(content, transferred + n, CHUNK_SIZE);
      ChunksStep(content, transferred);
      if replies != [] && replies[0] == ChunkAck(id, index) && transferred + n < |content| {
        var rest := SendLoop(id, content, transferred + n, index + 1, replies[1..]);
        SendLoopFailsSent(id, content, transferred + n, index + 1, replies[1..]);
        if !rest.completed {
          ChunkMessagesPrefix(id, chunk, tail, index, |rest.progress| + 1);
        }
      } else {
        ChunkMessagesPrefix(id, chunk, tail, index, 0);
      }
    }
  }

  /**
   * Why a sender's chunk loop fails.  With `a` the acknowledgements
   * accepted, a loop that did not complete over a non-empty remainder failed
   * with InvalidAcknowledgment on a reply other than the expected
   * acknowledgement, or with a failed receive because no reply came.
   */
  lemma {:induction false} SendLoopFails(id: string, content: seq<byte>, transferred: nat, index: nat,
                                         replies: seq<Message>)
    requires transferred <= |content|
    decreases |content| - transferred
    ensures var run := SendLoop(id, content, transferred, index, replies);
      var a := |run.progress|;
      Chunks(content, transferred, CHUNK_SIZE) != [] && !run.completed ==>
        && (a < |replies| ==> run.unread == replies[a + 1..] && replies[a] != ChunkAck(id, index + a)
                              && run.result == Err(InvalidAcknowledgment))
        && (a >= |replies| ==> run.unread == [] && run.result == Err(ReceiveFailed))
  {
    var n := Min(CHUNK_SIZE, |content| - transferred);
    if n > 0 && replies != [] && replies[0] == ChunkAck(id, index) && transferred + n < |content| {
      var rest := SendLoop(id, content, transferred + n, index + 1, replies[1..]);
      SendLoopFails(id, content, transferred + n, index + 1, replies[1..]);
      assert Chunks(content, transferred + n, CHUNK_SIZE) != [];
      if |rest.progress| + 1 < |replies| {
        assert replies[|rest.progress| + 1] == replies[1..][|rest.progress|];
      }
    }
  }

  /**
   * The chunks the receiver's chunk loop accepts, over every sequence of
   * incoming messages.  With `a` the number accepted: they are the first `a`
   * messages, data chunks of this transfer numbered consecutively from
   * `expected`, none but possibly the final one flagged last.
   */
  lemma {:induction false} RecvLoopAccepts(id: string, expected: nat, transferred: nat, incoming: seq<Message>)
    decreases |incoming|
    ensures var run := RecvLoop(id, expected, transferred, incoming);
      var a := |run.progress|;
      && a <= |incoming|
      && (forall j :: 0 <= j < a ==>
            incoming[j].DataChunk? && incoming[j].id == id && incoming[j].chunkIndex == expected + j)
      && (forall j :: 0 <= j < a - 1 ==> !incoming[j].isLast)
  {
    if incoming != [] {
      var m := incoming[0];
      if m.DataChunk? && m.id == id && m.chunkIndex == expected && !m.isLast {
        var tail := incoming[1..];
        var total := transferred + |m.data|;
        var rest := RecvLoop(id, expected + 1, total, tail);
        RecvLoopAccepts(id, expected + 1, total, tail);
        var b := |rest.progress|;
        forall j | 0 <= j < b + 1
          ensures incoming[j].DataChunk? && incoming[j].id == id && incoming[j].chunkIndex == expected + j
        {
          if j > 0 {
            assert incoming[j] == tail[j - 1];
          }
        }
        forall j | 0 <= j < b
          ensures !incoming[j].isLast
        {
          if j > 0 {
            assert incoming[j] == tail[j - 1];
          }
        }
      }
    }
  }

  /** The payloads of the first `b + 1` messages of a list split at its head, and their bytes. */
  lemma PayloadsPrefix(m: Message, tail: seq<Message>, b: nat)
    requires m.DataChunk? && b <= |tail|
    ensures Payloads(([m] + tail)[..b + 1]) == [m.data] + Payloads(tail[..b])
    ensures Flatten([m.data] + Payloads(tail[..b])) == m.data + Flatten(Payloads(tail[..b]))
  {
    var ms := ([m] + tail)[..b + 1];
    assert ms == [m] + tail[..b];
    assert ms[1..] == tail[..b];
    assert ([m.data] + Payloads(tail[..b]))[1..] == Payloads(tail[..b]);
  }

  /**
   * The acknowledgements the receiver's chunk loop sends: with `a` the
   * number of chunks accepted, one per accepted chunk, numbered from
   * `expected`.
   */
  lemma {:induction false} RecvLoopAcked(id: string, expected: nat, transferred: nat, incoming: seq<Message>)
    decreases |incoming|
    ensures var run := RecvLoop(id, expected, transferred, incoming);
      run.sent == Acks(id, expected, |run.progress|)
  {
    if incoming != [] {
      var m := incoming[0];
      if m.DataChunk? && m.id == id && m.chunkIndex == expected && !m.isLast {
        RecvLoopAcked(id, expected + 1, transferred + |m.data|, incoming[1..]);
      }
    }
  }

  /**
   * The bytes the receiver's chunk loop writes: with `a` the number of
   * chunks accepted, exactly the payloads of the first `a` messages, in order.
   */
  lemma {:induction false} RecvLoopWritten(id: string, expected: nat, transferred: nat, incoming: seq<Message>)
    decreases |incoming|
    ensures var run := RecvLoop(id, expected, transferred, incoming);
      var a := |run.progress|;
      a <= |incoming| && run.written == Flatten(Payloads(incoming[..a]))
  {
    if incoming != [] {
      var m := incoming[0];
      if m.DataChunk? && m.id == id && m.chunkIndex == expected {
        if !m.isLast {
          var tail := incoming[1..];
          var rest := RecvLoop(id, expected + 1, transferred + |m.data|, tail);
          RecvLoopWritten(id, expected + 1, transferred + |m.data|, tail);
          assert incoming == [m] + tail;
          PayloadsPrefix(m, tail, |rest.progress|);
        } else {
          assert incoming[..1] == [m];
          assert Flatten([m.data]) == m.data + Flatten([]);
        }
      } else {
        assert incoming[..0] == [];
      }
    }
  }

  /**
   * The progress the receiver's chunk loop records: with `a` the number of
   * chunks accepted, the running byte total after each of the first `a`
   * payloads, counted from `transferred`.
   */
  lemma {:induction false} RecvLoopProgress(id: string, expected: nat, transferred: nat, incoming: seq<Message>)
    decreases |incoming|
    ensures var run := RecvLoop(id, expected, transferred, incoming);
      var a := |run.progress|;
      a <= |incoming| && run.progress == RunningTotals(transferred, Payloads(incoming[..a]))
  {
    if incoming != [] {
      var m := incoming[0];
      if m.DataChunk? && m.id == id && m.chunkIndex == expected {
        if !m.isLast {
          var tail := incoming[1..];
          var rest := RecvLoop(id, expected + 1, transferred + |m.data|, tail);
          RecvLoopProgress(id, expected + 1, transferred + |m.data|, tail);
          assert incoming == [m] + tail;
          PayloadsPrefix(m, tail, |rest.progress|);
        } else {
          assert incoming[..1] == [m];
        }
      } else {
        assert incoming[..0] == [];
      }
    }
  }

  /**
   * How the receiver's chunk loop ends.  With `a` the chunks accepted, the
   * message after them decides: a successful completion of this transfer is
   * the only way to Ok, and Ok happens exactly when Completed is marked;
   * after a chunk flagged last anything else is an invalid completion;
   * otherwise the error names why the message was refused, and running out
   * of messages is a failed receive.
   */
  lemma {:induction false} RecvLoopEnds(id: string, expected: nat, transferred: nat, incoming: seq<Message>)
    decreases |incoming|
    ensures var run := RecvLoop(id, expected, transferred, incoming);
      var a := |run.progress|;
      && (run.completed <==> run.result.Ok?)
      && a <= |incoming|
      && run.unread == (if a < |incoming| then incoming[a + 1..] else [])
      && (a >= |incoming| ==> run.result == Err(ReceiveFailed))
      && (a < |incoming| ==>
            var m := incoming[a];
            run.result == (if m == TransferComplete(id, true) then Ok(())
                           else if a > 0 && incoming[a - 1].DataChunk? && incoming[a - 1].isLast then Err(InvalidCompletion)
                           else if m.DataChunk? && m.id == id then Err(UnexpectedChunkIndex(expected + a, m.chunkIndex))
                           else if m.TransferComplete? && m.id == id then Err(TransferFailed)
                           else Err(InvalidMessage)))
  {
    if incoming != [] {
      var m := incoming[0];
      if m.DataChunk? && m.id == id && m.chunkIndex == expected && !m.isLast {
        var tail := incoming[1..];
        var total := transferred + |m.data|;
        var rest := RecvLoop(id, expected + 1, total, tail);
        RecvLoopEnds(id, expected + 1, total, tail);
        RecvLoopAccepts(id, expected + 1, total, tail);
        var b := |rest.progress|;
        if b + 1 < |incoming| {
          assert incoming[b + 1] == tail[b];
          if b > 0 {
            assert incoming[b] == tail[b - 1];
          }
        }
      }
    }
  }

  /** The sender's loop when the chunk it sends next is acknowledged and not the last one. */
  lemma SendLoopAcked(id: string, content: seq<byte>, transferred: nat, index: nat, tail: seq<Message>)
    requires transferred + CHUNK_SIZE < |content|
    ensures var rest := SendLoop(id, content, transferred + CHUNK_SIZE, index + 1, tail);
      SendLoop(id, content, transferred, index, [ChunkAck(id, index)] + tail)
      == SendRun([DataChunk(id, index, content[transferred..transferred + CHUNK_SIZE], false)] + rest.sent,
                 rest.unread, [transferred + CHUNK_SIZE] + rest.progress, rest.completed, rest.result)
  {
    assert ([ChunkAck(id, index)] + tail)[1..] == tail;
  }

  /** The acknowledgements of `m + 1` chunks are the first one followed by the others. */
  lemma AcksStep(id: string, index: nat, m: nat, later: seq<Message>)
    ensures Acks(id, index, m + 1) + later == [ChunkAck(id, index)] + (Acks(id, index + 1, m) + later)
  {
  }

  /**
   * The sender's side of a transfer that goes well: when every chunk is
   * acknowledged in turn, it sends every chunk in order, then a successful
   * completion, records the running totals and marks Completed, reading no
   * reply beyond the acknowledgements.
   */
  lemma {:induction false} SenderHappyPath(id: string, content: seq<byte>, transferred: nat, index: nat,
                                           later: seq<Message>)
    requires transferred < |content|
    decreases |content| - transferred
    ensures var cs := Chunks(content, transferred, CHUNK_SIZE);
      SendLoop(id, content, transferred, index, Acks(id, index, |cs|) + later)
      == SendRun(ChunkMessages(id, cs, index) + [TransferComplete(id, true)], later,
                 RunningTotals(transferred, cs), true, Ok(()))
  {
    var cs := Chunks(content, transferred, CHUNK_SIZE);
    var n := Min(CHUNK_SIZE, |content| - transferred);
    var tail := Chunks(content, transferred + n, CHUNK_SIZE);
    ChunksStep(content, transferred);
    AcksStep(id, index, |tail|, later);
    if transferred + n < |content| {
      SendLoopAcked(id, content, transferred, index, Acks(id, index + 1, |tail|) + later);
      SenderHappyPath(id, content, transferred + n, index + 1, later);
      assert ChunkMessages(id, cs, index)
        == [DataChunk(id, index, cs[0], false)] + ChunkMessages(id, tail, index + 1);
      assert RunningTotals(transferred, cs) == [transferred + n] + RunningTotals(transferred + n, tail);
    } else {
      assert tail == [];
      assert ChunkMessages(id, cs, index) == [DataChunk(id, index, cs[0], true)];
      assert RunningTotals(transferred, cs) == [transferred + n];
    }
  }

  /** The receiver's loop when the next message is the expected chunk and is not flagged last. */
  lemma RecvLoopAccepted(id: string, expected: nat, transferred: nat, data: seq<byte>, tail: seq<Message>)
    ensures var rest := RecvLoop(id, expected + 1, transferred + |data|, tail);
      RecvLoop(id, expected, transferred, [DataChunk(id, expected, data, false)] + tail)
      == RecvRun([ChunkAck(id, expected)] + rest.sent, rest.unread, data + rest.written,
                 [transferred + |data|] + rest.progress, rest.completed, rest.result)
  {
    assert ([DataChunk(id, expected, data, false)] + tail)[1..] == tail;
  }

  /**
   * The receiver's side of a transfer that goes well: fed the chunks of any
   * list in order, the last one flagged, then a successful completion, it
   * acknowledges each chunk, writes their concatenation, records the running
   * totals and marks Completed, reading nothing further.
   */
  lemma {:induction false} ReceiverHappyPath(id: string, cs: seq<seq<byte>>, index: nat, transferred: nat,
                                             later: seq<Message>)
    requires cs != []
    decreases |cs|
    ensures RecvLoop(id, index, transferred, ChunkMessages(id, cs, index) + [TransferComplete(id, true)] + later)
      == RecvRun(Acks(id, index, |cs|), later, Flatten(cs), RunningTotals(transferred, cs), true, Ok(()))
  {
    var m := DataChunk(id, index, cs[0], |cs| == 1);
    var tail := ChunkMessages(id, cs[1..], index + 1) + [TransferComplete(id, true)] + later;
    assert ChunkMessages(id, cs, index) == [m] + ChunkMessages(id, cs[1..], index + 1);
    assert ChunkMessages(id, cs, index) + [TransferComplete(id, true)] + later == [m] + tail;
    assert Flatten(cs) == cs[0] + Flatten(cs[1..]);
    assert RunningTotals(transferred, cs) == [transferred + |cs[0]|] + RunningTotals(transferred + |cs[0]|, cs[1..]);
    var ack := ChunkAck(id, index);
    if |cs| == 1 {
      assert ([m] + tail)[1] == TransferComplete(id, true) && ([m] + tail)[2..] == later;
      assert RecvLoop(id, index, transferred, [m] + tail)
        == RecvRun([ack], later, cs[0], [transferred + |cs[0]|], true, Ok(()));
      assert Flatten(cs[1..]) == [] && cs[0] + [] == cs[0];
      assert Acks(id, index, 1) == [ack];
    } else {
      RecvLoopAccepted(id, index, transferred, cs[0], tail);
      ReceiverHappyPath(id, cs[1..], index + 1, transferred + |cs[0]|, later);
      assert Acks(id, index, |cs|) == [ack] + Acks(id, index + 1, |cs| - 1);
    }
  }

  /**
   * A transfer in lockstep: the receiver, fed what the sender sends, writes
   * exactly the file's bytes; the sender, fed the receiver's
   * acknowledgements, sends exactly what the receiver was fed; both mark
   * Completed and both record the file size as the final progress.
   */
  lemma LockstepTransfer(id: string, content: seq<byte>)
    requires |content| > 0
    ensures var cs := Chunks(content, 0, CHUNK_SIZE);
      var toReceiver := ChunkMessages(id, cs, 0) + [TransferComplete(id, true)];
      var recv := RecvLoop(id, 0, 0, toReceiver);
      var send := SendLoop(id, content, 0, 0, recv.sent);
      && recv.completed && recv.result == Ok(()) && recv.written == content
      && send.completed && send.result == Ok(()) && send.sent == toReceiver
      && send.progress == recv.progress
      && send.progress[|send.progress| - 1] == |content|
  {
    var cs := Chunks(content, 0, CHUNK_SIZE);
    var toReceiver := ChunkMessages(id, cs, 0) + [TransferComplete(id, true)];
    ReceiverHappyPath(id, cs, 0, 0, []);
    assert toReceiver + [] == toReceiver;
    SenderHappyPath(id, content, 0, 0, []);
    assert Acks(id, 0, |cs|) + [] == Acks(id, 0, |cs|);
    ChunksConcatenate(content, 0, CHUNK_SIZE);
    RunningTotalsAccumulate(0, cs);
  }

  /**
   * An empty file, as the code is written: the sender reads nothing, so it
   * ends its loop with Ok having sent no chunk and no completion and without
   * marking Completed, whatever the peer replies; a receiver fed what it sent
   * waits in vain and never completes.
   */
  lemma EmptyFileNeverCompletes(id: string, replies: seq<Message>)
    ensures var send := SendLoop(id, [], 0, 0, replies);
      var recv := RecvLoop(id, 0, 0, send.sent);
      && send == SendRun([], replies, [], false, Ok(()))
      && recv == RecvRun([], [], [], [], false, Err(ReceiveFailed))
  {
  }

  /** A 200 KiB file travels as four chunks, the first three full, the last one of 8 KiB. */
  lemma FourChunksFor200KiB(content: seq<byte>)
    requires |content| == 200 * 1024
    ensures var cs := Chunks(content, 0, CHUNK_SIZE);
      |cs| == 4 && |cs[0]| == |cs[1]| == |cs[2]| == CHUNK_SIZE && |cs[3]| == 8 * 1024
  {
    var c3 := Chunks(content, 3 * CHUNK_SIZE, CHUNK_SIZE);
    assert c3 == [content[3 * CHUNK_SIZE..3 * CHUNK_SIZE + 8 * 1024]] + Chunks(content, |content|, CHUNK_SIZE);
    var c2 := Chunks(content, 2 * CHUNK_SIZE, CHUNK_SIZE);
    assert c2 == [content[2 * CHUNK_SIZE..3 * CHUNK_SIZE]] + c3;
    var c1 := Chunks(content, CHUNK_SIZE, CHUNK_SIZE);
    assert c1 == [content[CHUNK_SIZE..2 * CHUNK_SIZE]] + c2;
    assert Chunks(content, 0, CHUNK_SIZE) == [content[..CHUNK_SIZE]] + c1;
  }
}

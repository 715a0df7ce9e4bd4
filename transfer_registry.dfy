/**
 * The transfer registry: the process-wide list of transfer records that the
 * sender and receiver push to and update by id, and that the host polls.
 * Records are appended without any uniqueness check, and an update touches
 * the first record whose id matches.
 */
module TransferRegistry {
  import opened Common
  import opened Api

  /** The position of the first record with `id`, if any. */
  function FirstIndex(ts: seq<FileTransfer>, id: string): (k: Option<nat>)
    ensures k.None? <==> forall j :: 0 <= j < |ts| ==> ts[j].id != id
    ensures k.Some? ==> k.value < |ts| && ts[k.value].id == id
                        && forall j :: 0 <= j < k.value ==> ts[j].id != id
  {
    if ts == [] then None
    else if ts[0].id == id then Some(0)
    else match FirstIndex(ts[1..], id) {
      case None => None
      case Some(j) => Some(j + 1)
    }
  }

  /** Overwriting a record without changing its id leaves every lookup where it was. */
  lemma FirstIndexStable(ts: seq<FileTransfer>, m: nat, t: FileTransfer, id: string)
    requires m < |ts| && t.id == ts[m].id
    ensures FirstIndex(ts[m := t], id) == FirstIndex(ts, id)
  {
    var us := ts[m := t];
    assert forall j :: 0 <= j < |ts| ==> us[j].id == ts[j].id;
    var a, b := FirstIndex(us, id), FirstIndex(ts, id);
    if a.Some? && b.Some? {
      assert !(a.value < b.value) && !(b.value < a.value);
    }
  }

  /** A pushed record is found by its id only when no earlier record has that id. */
  lemma FirstIndexAppend(ts: seq<FileTransfer>, t: FileTransfer)
    ensures FirstIndex(ts + [t], t.id) == if FirstIndex(ts, t.id).Some? then FirstIndex(ts, t.id) else Some(|ts|)
  {
    var us := ts + [t];
    assert forall j :: 0 <= j < |ts| ==> us[j] == ts[j];
    var a, b := FirstIndex(us, t.id), FirstIndex(ts, t.id);
    assert us[|ts|] == t;
    if b.Some? {
      assert a.Some?;
      assert !(a.value < b.value) && !(b.value < a.value);
    } else {
      assert a.Some? && !(a.value < |ts|);
    }
  }

  class Registry {
    var transfers: seq<FileTransfer>

    constructor ()
      ensures transfers == []
    {
      transfers := [];
    }

    /** Appends a record, whatever ids are already present. */
    method Push(t: FileTransfer)
      modifies this
      ensures transfers == old(transfers) + [t]
    {
      transfers := transfers + [t];
    }

    /** Sets the status of the first record with `id`; nothing else changes. */
    method UpdateTransferStatus(id: string, status: TransferStatus) returns (r: Result<()>)
      modifies this
      ensures FirstIndex(old(transfers), id).None? ==>
        r == Err(TransferNotFound(id)) && transfers == old(transfers)
      ensures FirstIndex(old(transfers), id).Some? ==>
        var k := FirstIndex(old(transfers), id).value;
        r == Ok(()) && transfers == old(transfers)[k := old(transfers)[k].(status := status)]
    {
      var i := 0;
      while i < |transfers|
        invariant 0 <= i <= |transfers| && transfers == old(transfers)
        invariant forall j :: 0 <= j < i ==> transfers[j].id != id
      {
        if transfers[i].id == id {
          transfers := transfers[i := transfers[i].(status := status)];
          return Ok(());
        }
        i := i + 1;
      }
      r := Err(TransferNotFound(id));
    }

    /** Sets the transferred byte count of the first record with `id`; nothing else changes. */
    method UpdateTransferProgress(id: string, transferredBytes: nat) returns (r: Result<()>)
      modifies this
      ensures FirstIndex(old(transfers), id).None? ==>
        r == Err(TransferNotFound(id)) && transfers == old(transfers)
      ensures FirstIndex(old(transfers), id).Some? ==>
        var k := FirstIndex(old(transfers), id).value;
        r == Ok(()) && transfers == old(transfers)[k := old(transfers)[k].(transferredBytes := transferredBytes)]
    {
      var i := 0;
      while i < |transfers|
        invariant 0 <= i <= |transfers| && transfers == old(transfers)
        invariant forall j :: 0 <= j < i ==> transfers[j].id != id
      {
        if transfers[i].id == id {
          transfers := transfers[i := transfers[i].(transferredBytes := transferredBytes)];
          return Ok(());
        }
        i := i + 1;
      }
      r := Err(TransferNotFound(id));
    }

    /** A snapshot of every record, in the order they were pushed. */
    method GetTransfers() returns (ts: seq<FileTransfer>)
      ensures ts == transfers
    {
      ts := transfers;
    }
  }
}

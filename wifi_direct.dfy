/**
 * The Wi-Fi Direct / TCP session manager: the process-wide connection status
 * and the single stored stream, overwritten by `connect`, `disconnect` and
 * the listener's accept loop.  Socket operations are not modelled; each
 * method takes what the socket layer reported as a parameter, and a stream
 * is an opaque token.
 */
module WifiDirect {
  import opened Common

  datatype ConnectionStatus = Disconnected | Connecting | Connected | Failed

  /** An open TCP stream, known only by its identity. */
  datatype Stream = Stream(handle: nat)

  /** What a TCP connect attempt returned. */
  datatype ConnectAttempt = Established(stream: Stream) | Refused(cause: string)

  /** What one `accept` on the listener returned. */
  datatype AcceptAttempt = Accepted(stream: Stream) | AcceptFailed(cause: string)

  /** What one read from the stream returned: the bytes the peer had sent, or an I/O error. */
  datatype ReadAttempt = Arrived(bytes: seq<byte>) | ReadFailed(cause: string)

  /** The port a successful bind of `requested` listens on; port 0 asks the OS for `ephemeral`. */
  function BoundPort(requested: Port, ephemeral: Port): (p: Port)
    ensures p == requested || p == ephemeral
    ensures requested != 0 ==> p == requested
  {
    if requested == 0 then ephemeral else requested
  }

  /** How many attempts at the front of `accepts` succeeded before the first failure. */
  function AcceptedPrefix(accepts: seq<AcceptAttempt>): (k: nat)
    ensures k <= |accepts|
    ensures forall j :: 0 <= j < k ==> accepts[j].Accepted?
    ensures k < |accepts| ==> accepts[k].AcceptFailed?
  {
    if accepts == [] || accepts[0].AcceptFailed? then 0
    else 1 + AcceptedPrefix(accepts[1..])
  }

  class ConnectionManager {
    var status: ConnectionStatus
    var current: Option<Stream>

    constructor ()
      ensures status == Disconnected && current == None
    {
      status := Disconnected;
      current := None;
    }

    /**
     * Marks the session Connecting, then either stores the new stream and
     * becomes Connected, or becomes Failed and leaves the stored stream alone.
     */
    method ConnectToDevice(attempt: ConnectAttempt) returns (r: Result<()>)
      modifies this
      ensures attempt.Established? ==>
        r == Ok(()) && status == Connected && current == Some(attempt.stream)
      ensures attempt.Refused? ==>
        r == Err(ConnectFailed(attempt.cause)) && status == Failed && current == old(current)
    {
      status := Connecting;
      match attempt {
        case Established(stream) =>
          status := Connected;
          current := Some(stream);
          r := Ok(());
        case Refused(cause) =>
          status := Failed;
          r := Err(ConnectFailed(cause));
      }
    }

    method Disconnect() returns (r: Result<()>)
      modifies this
      ensures r == Ok(()) && status == Disconnected && current == None
    {
      status := Disconnected;
      current := None;
      r := Ok(());
    }

    method GetConnectionStatus() returns (s: ConnectionStatus)
      ensures s == status
    {
      s := status;
    }

    /**
     * Binds `port`, falling back to port 0 when that fails, and reports the
     * port actually bound; then serves the accept loop.  When both binds fail
     * nothing changes.
     */
    method StartServer(port: Port, firstBind: Outcome, fallbackBind: Outcome, ephemeral: Port,
                       accepts: seq<AcceptAttempt>) returns (r: Result<Port>)
      modifies this
      ensures firstBind.Pass? ==> r == Ok(BoundPort(port, ephemeral))
      ensures firstBind.Fail? && fallbackBind.Pass? ==> r == Ok(ephemeral)
      ensures firstBind.Fail? && fallbackBind.Fail? ==>
        r == Err(Library(fallbackBind.cause)) && status == old(status) && current == old(current)
      ensures r.Ok? ==> Served(old(status), old(current), accepts)
    {
      var actual: Port;
      if firstBind.Pass? {
        actual := BoundPort(port, ephemeral);
      } else if fallbackBind.Pass? {
        actual := ephemeral;
      } else {
        return Err(Library(fallbackBind.cause));
      }
      AcceptConnections(accepts);
      r := Ok(actual);
    }

    /** The state after the accept loop ran over `accepts` from `status0`/`current0`. */
    ghost predicate Served(status0: ConnectionStatus, current0: Option<Stream>, accepts: seq<AcceptAttempt>)
      reads this
    {
      var k := AcceptedPrefix(accepts);
      if k == 0 then status == status0 && current == current0
      else status == Connected && current == Some(accepts[k - 1].stream)
    }

    /**
     * The background accept loop: every accepted connection marks the session
     * Connected and replaces the stored stream; the first failed accept ends it.
     */
    method AcceptConnections(accepts: seq<AcceptAttempt>)
      modifies this
      ensures Served(old(status), old(current), accepts)
    {
      var i := 0;
      while i < |accepts| && accepts[i].Accepted?
        invariant 0 <= i <= AcceptedPrefix(accepts)
        invariant i == 0 ==> status == old(status) && current == old(current)
        invariant i > 0 ==> status == Connected && current == Some(accepts[i - 1].stream)
      {
        status := Connected;
        current := Some(accepts[i].stream);
        i := i + 1;
      }
    }

    /** Writes `data` to the stored stream; `write` is what the socket reported. */
    method SendData(data: seq<byte>, write: Outcome) returns (r: Result<()>)
      ensures current.None? ==> r == Err(NoActiveConnection)
      ensures current.Some? && write.Pass? ==> r == Ok(())
      ensures current.Some? && write.Fail? ==> r == Err(Library(write.cause))
    {
      if current.None? {
        return Err(NoActiveConnection);
      }
      if write.Fail? {
        return Err(Library(write.cause));
      }
      r := Ok(());
    }

    /**
     * Reads once from the stored stream into a buffer of `maxSize` bytes and
     * returns the buffer cut to the number of bytes read.
     */
    method ReceiveData(maxSize: nat, read: ReadAttempt) returns (r: Result<seq<byte>>)
      ensures current.None? ==> r == Err(NoActiveConnection)
      ensures current.Some? && read.ReadFailed? ==> r == Err(Library(read.cause))
      ensures current.Some? && read.Arrived? ==>
        r.Ok? && |r.value| == Min(|read.bytes|, maxSize) && r.value == read.bytes[..|r.value|]
      ensures r.Ok? ==> |r.value| <= maxSize
    {
      if current.None? {
        return Err(NoActiveConnection);
      }
      var buffer := new byte[maxSize](_ => 0);
      match read {
        case ReadFailed(cause) =>
          r := Err(Library(cause));
        case Arrived(bytes) =>
          var n := Min(|bytes|, maxSize);
          forall i | 0 <= i < n {
            buffer[i] := bytes[i];
          }
          r := Ok(buffer[..n]);
      }
    }
  }
}

/**
 * The local-network (mDNS / DNS-SD) discovery directory: a running flag, the
 * list of resolved peers, and the stored daemon handle.  The daemon is a
 * library; it is an opaque token here, and what it reports is given to the
 * methods as parameters: the outcome of creating or browsing, and the
 * resolve/remove events, one call per event.
 */
module Mdns {
  import opened Common

  /** The DNS-SD service type this application browses and advertises (RFC 6763, section 7). */
  const SERVICE_TYPE: string := "_nearbysend._tcp.local."

  /** An IP address, known only by its identity. */
  datatype IpAddr = IpAddr(text: string)

  datatype MdnsDevice = MdnsDevice(id: string, name: string, ipAddress: IpAddr, port: Port, deviceType: string)

  /** A resolved service instance, as the daemon reports it. */
  datatype ResolvedService = ResolvedService(
    fullname: string,
    addresses: seq<IpAddr>,
    port: Port,
    properties: map<string, string>)

  datatype ServiceEvent =
    | ServiceResolved(info: ResolvedService)
    | ServiceRemoved(serviceType: string, fullname: string)
    | OtherEvent

  /** A running mDNS daemon. */
  datatype Daemon = Daemon(handle: nat)

  /** What creating a daemon returned. */
  datatype DaemonAttempt = Created(daemon: Daemon) | CreateFailed(cause: string)

  /** A service record handed to a daemon for advertisement. */
  datatype ServiceInfo = ServiceInfo(
    serviceType: string,
    instanceName: string,
    hostName: string,
    ip: string,
    port: Port,
    properties: map<string, string>)

  datatype Registration = Registration(daemon: Daemon, info: ServiceInfo)

  ghost predicate UniqueIds(ds: seq<MdnsDevice>)
  {
    forall i, j :: 0 <= i < j < |ds| ==> ds[i].id != ds[j].id
  }

  predicate HasId(ds: seq<MdnsDevice>, id: string)
  {
    exists d :: d in ds && d.id == id
  }

  /** The list after a sighting of `d`: appended unless a device with its id is already listed. */
  function InsertNew(ds: seq<MdnsDevice>, d: MdnsDevice): (r: seq<MdnsDevice>)
    ensures HasId(ds, d.id) ==> r == ds
    ensures !HasId(ds, d.id) ==> r == ds + [d]
    ensures UniqueIds(ds) ==> UniqueIds(r)
  {
    if HasId(ds, d.id) then ds else ds + [d]
  }

  /** The list with every device whose id is `id` removed, the rest kept in order. */
  function RemoveId(ds: seq<MdnsDevice>, id: string): (r: seq<MdnsDevice>)
    ensures forall d :: d in r ==> d in ds && d.id != id
    ensures forall d :: d in ds && d.id != id ==> d in r
    ensures |r| <= |ds|
  {
    if ds == [] then []
    else if ds[0].id == id then RemoveId(ds[1..], id)
    else [ds[0]] + RemoveId(ds[1..], id)
  }

  /** Removal works element by element, so it keeps the order of what it keeps. */
  lemma {:induction false} RemoveIdDistributes(a: seq<MdnsDevice>, b: seq<MdnsDevice>, id: string)
    ensures RemoveId(a + b, id) == RemoveId(a, id) + RemoveId(b, id)
  {
    if a != [] {
      assert (a + b)[1..] == a[1..] + b;
      RemoveIdDistributes(a[1..], b, id);
    } else {
      assert a + b == b;
    }
  }

  /** Removing an id nobody has changes nothing. */
  lemma {:induction false} RemoveAbsentId(ds: seq<MdnsDevice>, id: string)
    requires !HasId(ds, id)
    ensures RemoveId(ds, id) == ds
  {
    if ds != [] {
      assert ds[0] in ds;
      assert !HasId(ds[1..], id) by {
        forall d | d in ds[1..] ensures d.id != id {
          assert d in ds;
        }
      }
      RemoveAbsentId(ds[1..], id);
      assert ds == [ds[0]] + ds[1..];
    }
  }

  /** Dropping the head keeps ids unique. */
  lemma UniqueTail(ds: seq<MdnsDevice>)
    requires ds != [] && UniqueIds(ds)
    ensures UniqueIds(ds[1..])
  {
    var tail := ds[1..];
    forall i, j | 0 <= i < j < |tail| ensures tail[i].id != tail[j].id {
      assert tail[i] == ds[i + 1] && tail[j] == ds[j + 1];
    }
  }

  /** Prepending a device whose id is not among the rest keeps ids unique. */
  lemma UniqueCons(d: MdnsDevice, rest: seq<MdnsDevice>)
    requires UniqueIds(rest) && forall x :: x in rest ==> x.id != d.id
    ensures UniqueIds([d] + rest)
  {
    var r := [d] + rest;
    forall i, j | 0 <= i < j < |r| ensures r[i].id != r[j].id {
      assert r[j] == rest[j - 1];
      if i > 0 {
        assert r[i] == rest[i - 1];
      } else {
        assert rest[j - 1] in rest;
      }
    }
  }

  lemma {:induction false} RemoveIdKeepsUnique(ds: seq<MdnsDevice>, id: string)
    requires UniqueIds(ds)
    ensures UniqueIds(RemoveId(ds, id))
  {
    if ds != [] {
      var tail := ds[1..];
      UniqueTail(ds);
      RemoveIdKeepsUnique(tail, id);
      if ds[0].id != id {
        var rest := RemoveId(tail, id);
        forall d | d in rest ensures d.id != ds[0].id {
          assert d in tail;
          var j :| 0 <= j < |tail| && tail[j] == d;
          assert ds[j + 1] == d;
        }
        UniqueCons(ds[0], rest);
      }
    }
  }

  /** The device recorded for a resolved service with at least one address. */
  function DeviceFromInfo(info: ResolvedService): (d: MdnsDevice)
    requires |info.addresses| > 0
    ensures d.id == info.fullname && d.ipAddress == info.addresses[0] && d.port == info.port
    ensures d.name == if "name" in info.properties then info.properties["name"] else "Unknown Device"
    ensures d.deviceType == if "device_type" in info.properties then info.properties["device_type"] else "unknown"
  {
    MdnsDevice(
      info.fullname,
      if "name" in info.properties then info.properties["name"] else "Unknown Device",
      info.addresses[0],
      info.port,
      if "device_type" in info.properties then info.properties["device_type"] else "unknown")
  }

  /** The platform tag advertised for an operating system name. */
  function OsDeviceType(os: string): (tag: string)
    ensures tag == "macos" || tag == "android" || tag == "ios" || tag == "windows" || tag == "unknown"
    ensures tag != "unknown" ==> tag == os
    ensures os == "macos" || os == "android" || os == "ios" || os == "windows" ==> tag == os
  {
    match os
    case "macos" => "macos"
    case "android" => "android"
    case "ios" => "ios"
    case "windows" => "windows"
    case _ => "unknown"
  }

  /** A mutex, as far as whether it is held. */
  datatype MutexState = Unlocked | Locked

  /** Locking: a held std mutex is not reentrant, so locking it again never returns (None). */
  function Lock(m: MutexState): Option<MutexState>
  {
    if m == Locked then None else Some(Locked)
  }

  datatype DaemonLookup = Reused(daemon: Daemon) | CreatedNew(daemon: Daemon) | LookupFailed(cause: string) | SelfDeadlock

  /**
   * How `register_device` obtains its daemon, as written: it locks the
   * daemon slot, and in the empty case it creates a daemon and locks the slot
   * again while the first guard is still held.
   */
  function LookupDaemonAsWritten(stored: Option<Daemon>, created: DaemonAttempt): (l: DaemonLookup)
    ensures l.SelfDeadlock? <==> stored.None? && created.Created?
    ensures stored.Some? ==> l == Reused(stored.value)
  {
    var guard := Lock(Unlocked);
    match stored
    case Some(d) => Reused(d)
    case None =>
      match created
      case CreateFailed(cause) => LookupFailed(cause)
      case Created(d) =>
        if guard.Some? && Lock(guard.value).Some? then CreatedNew(d) else SelfDeadlock
  }

  /** Registering before any daemon exists never returns. */
  lemma RegisterWithoutDaemonBlocks(d: Daemon)
    ensures LookupDaemonAsWritten(None, Created(d)) == SelfDeadlock
  {
  }

  /**
   * The evident intent: reuse the stored daemon, or create one and store it,
   * releasing the first guard before the slot is locked again.
   */
  function LookupDaemon(stored: Option<Daemon>, created: DaemonAttempt): (l: DaemonLookup)
    ensures !l.SelfDeadlock?
    ensures stored.Some? ==> l == Reused(stored.value)
    ensures stored.None? && created.Created? ==> l == CreatedNew(created.daemon)
    ensures stored.None? && created.CreateFailed? ==> l == LookupFailed(created.cause)
  {
    match stored
    case Some(d) => Reused(d)
    case None =>
      match created
      case CreateFailed(cause) => LookupFailed(cause)
      case Created(d) => CreatedNew(d)
  }

  class MdnsDiscovery {
    var running: bool
    var devices: seq<MdnsDevice>
    var daemon: Option<Daemon>
    /** The services handed to a daemon for advertisement so far. */
    var published: seq<Registration>

    ghost predicate Valid()
      reads this
    {
      UniqueIds(devices)
    }

    constructor ()
      ensures Valid()
      ensures !running && devices == [] && daemon == None && published == []
    {
      running := false;
      devices := [];
      daemon := None;
      published := [];
    }

    /**
     * Idempotent start: while running, nothing happens.  Otherwise the flag is
     * set and the list cleared before the daemon is created and asked to
     * browse SERVICE_TYPE; only when both succeed is the daemon stored and the
     * listener started (`listening`).  A failure leaves the flag set.
     */
    method StartMdnsDiscovery(created: DaemonAttempt, browse: Outcome) returns (r: Result<()>, listening: bool)
      requires Valid()
      modifies this
      ensures Valid() && running && published == old(published)
      ensures old(running) ==>
        r == Ok(()) && !listening && devices == old(devices) && daemon == old(daemon)
      ensures !old(running) ==> devices == []
      ensures !old(running) && created.CreateFailed? ==>
        r == Err(Library(created.cause)) && !listening && daemon == old(daemon)
      ensures !old(running) && created.Created? && browse.Fail? ==>
        r == Err(Library(browse.cause)) && !listening && daemon == old(daemon)
      ensures !old(running) && created.Created? && browse.Pass? ==>
        r == Ok(()) && listening && daemon == Some(created.daemon)
    {
      listening := false;
      if running {
        r := Ok(());
        return;
      }
      running := true;
      devices := [];
      match created {
        case CreateFailed(cause) =>
          r := Err(Library(cause));
        case Created(d) =>
          if browse.Fail? {
            r := Err(Library(browse.cause));
            return;
          }
          daemon := Some(d);
          listening := true;
          r := Ok(());
      }
    }

    /**
     * One turn of the background listener: a resolved service with an
     * address is added unless its fullname is already listed, a removed
     * service is dropped from the list; then the listener goes on only while
     * the running flag is set.
     */
    method HandleEvent(e: ServiceEvent) returns (keepListening: bool)
      requires Valid()
      modifies this`devices
      ensures Valid()
      ensures e.ServiceResolved? && |e.info.addresses| > 0 ==>
        devices == InsertNew(old(devices), DeviceFromInfo(e.info))
      ensures e.ServiceResolved? && |e.info.addresses| == 0 ==> devices == old(devices)
      ensures e.ServiceRemoved? ==> devices == RemoveId(old(devices), e.fullname)
      ensures e.OtherEvent? ==> devices == old(devices)
      ensures keepListening == running
    {
      match e {
        case ServiceResolved(info) =>
          if |info.addresses| > 0 {
            var device := DeviceFromInfo(info);
            if !HasId(devices, device.id) {
              devices := devices + [device];
            }
          }
        case ServiceRemoved(_, fullname) =>
          RemoveIdKeepsUnique(devices, fullname);
          devices := RemoveId(devices, fullname);
        case OtherEvent =>
      }
      keepListening := running;
    }

    /** Clears the flag and drops the daemon; the device list stays as it is. */
    method StopMdnsDiscovery() returns (r: Result<()>)
      requires Valid()
      modifies this
      ensures Valid()
      ensures r == Ok(()) && !running && daemon == None
      ensures devices == old(devices) && published == old(published)
    {
      running := false;
      daemon := None;
      r := Ok(());
    }

    method GetDiscoveredMdnsDevices() returns (ds: seq<MdnsDevice>)
      requires Valid()
      ensures ds == devices && UniqueIds(ds)
    {
      ds := devices;
    }

    /**
     * Advertises this device under SERVICE_TYPE with its name and platform
     * tag, through the stored daemon, or through a new one that is then
     * stored.  `infoBuilt` and `registered` are what the daemon library
     * reported for building the record and for registering it.  The daemon
     * is obtained by the corrected `LookupDaemon`: as written, the call with
     * no stored daemon and a successful creation never returns
     * (`RegisterWithoutDaemonBlocks`).
     */
    method RegisterDevice(name: string, port: Port, os: string, created: DaemonAttempt,
                          infoBuilt: Outcome, registered: Outcome) returns (r: Result<()>)
      requires Valid()
      modifies this
      ensures Valid() && running == old(running) && devices == old(devices)
      ensures old(daemon).Some? ==> daemon == old(daemon)
      ensures old(daemon).None? && created.Created? ==> daemon == Some(created.daemon)
      ensures old(daemon).None? && created.CreateFailed? ==>
        r == Err(Library(created.cause)) && daemon == None && published == old(published)
      ensures r.Ok? <==> (old(daemon).Some? || created.Created?) && infoBuilt.Pass? && registered.Pass?
      ensures r.Ok? ==> daemon.Some? && published == old(published) + [Registration(daemon.value,
        ServiceInfo(SERVICE_TYPE, name, name, "", port,
          map["name" := name, "device_type" := OsDeviceType(os)]))]
      ensures r.Err? ==> published == old(published)
    {
      var d: Daemon;
      match LookupDaemon(daemon, created) {
        case Reused(existing) =>
          d := existing;
        case CreatedNew(made) =>
          daemon := Some(made);
          d := made;
        case LookupFailed(cause) =>
          return Err(Library(cause));
        case SelfDeadlock =>
          assert false;
          return Err(Library(""));
      }
      var properties := map["name" := name, "device_type" := OsDeviceType(os)];
      if infoBuilt.Fail? {
        return Err(Library(infoBuilt.cause));
      }
      var info := ServiceInfo(SERVICE_TYPE, name, name, "", port, properties);
      if registered.Fail? {
        return Err(Library(registered.cause));
      }
      published := published + [Registration(d, info)];
      r := Ok(());
    }
  }
}

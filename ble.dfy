/**
 * The Bluetooth LE discovery directory: a running flag and the list of
 * sighted peripherals, fed by a scan task through a channel.  The Bluetooth
 * stack is a library: what it reports is given to the methods as parameters,
 * and the scan is a sequence of the moments the scan loop reacts to.
 */
module Ble {
  import opened Common

  /** A peripheral handle held by the Bluetooth stack. */
  datatype Peripheral = Peripheral(handle: nat)

  datatype BleDevice = BleDevice(id: string, name: string, peripheral: Peripheral)

  /**
   * What asking the adapter about a discovered peripheral gave: its handle
   * and advertised local name, or nothing usable (the lookup failed, reading
   * its properties failed, or it has no properties).
   */
  datatype PeripheralLookup = Unavailable | Described(peripheral: Peripheral, localName: Option<string>)

  datatype CentralEvent = DeviceDiscovered(id: string, lookup: PeripheralLookup) | OtherCentralEvent

  /**
   * What wakes the scan loop: the 30-second timer, the next item of the
   * adapter's event stream (None once the stream has ended), or the poller
   * that has seen the running flag cleared.
   */
  datatype ScanStep = TimerFired | Event(event: Option<CentralEvent>) | StopSeen

  /** The device a stream item is forwarded as: only discoveries of named peripherals are. */
  function Sighting(e: Option<CentralEvent>): (d: Option<BleDevice>)
    ensures d.Some? <==> e.Some? && e.value.DeviceDiscovered? && e.value.lookup.Described?
                         && e.value.lookup.localName.Some?
    ensures d.Some? ==> d.value.id == e.value.id && d.value.name == e.value.lookup.localName.value
                        && d.value.peripheral == e.value.lookup.peripheral
  {
    match e
    case Some(DeviceDiscovered(id, Described(p, Some(name)))) => Some(BleDevice(id, name, p))
    case _ => None
  }

  /**
   * The devices the scan loop forwards: one per sighting, until the timer
   * fires or a stop is seen.  The timer always fires within 30 seconds, so
   * the end of `steps` stands for it too.
   */
  function Forwarded(steps: seq<ScanStep>): (fs: seq<BleDevice>)
    ensures |fs| <= |steps|
  {
    if steps == [] || !steps[0].Event? then []
    else (if Sighting(steps[0].event).Some? then [Sighting(steps[0].event).value] else [])
         + Forwarded(steps[1..])
  }

  /** The position of the step that ends the loop, or |steps|. */
  function ScanEnd(steps: seq<ScanStep>): (k: nat)
    ensures k <= |steps|
    ensures forall j :: 0 <= j < k ==> steps[j].Event?
    ensures k < |steps| ==> !steps[k].Event?
  {
    if steps == [] || !steps[0].Event? then 0 else 1 + ScanEnd(steps[1..])
  }

  /** The loop forwards at most one device per step it reacts to. */
  lemma {:induction false} ForwardedPerStepReacted(steps: seq<ScanStep>)
    ensures |Forwarded(steps)| <= ScanEnd(steps)
  {
    if steps != [] && steps[0].Event? {
      ForwardedPerStepReacted(steps[1..]);
    }
  }

  /** Every forwarded device was sighted, with that id and local name, before the loop ended. */
  lemma {:induction false} ForwardedWereSighted(steps: seq<ScanStep>, d: BleDevice)
    requires d in Forwarded(steps)
    ensures exists j :: 0 <= j < ScanEnd(steps) && steps[j].Event? && Sighting(steps[j].event) == Some(d)
  {
    var head := if Sighting(steps[0].event).Some? then [Sighting(steps[0].event).value] else [];
    assert Forwarded(steps) == head + Forwarded(steps[1..]);
    if d in head {
      assert steps[0].Event? && Sighting(steps[0].event) == Some(d);
    } else {
      ForwardedWereSighted(steps[1..], d);
      var j :| 0 <= j < ScanEnd(steps[1..]) && steps[1..][j].Event? && Sighting(steps[1..][j].event) == Some(d);
      assert steps[j + 1] == steps[1..][j];
    }
  }

  /** Nothing after the step that ends the loop is looked at. */
  lemma {:induction false} ForwardedStopsAtEnd(steps: seq<ScanStep>, later: seq<ScanStep>)
    ensures Forwarded(steps[..ScanEnd(steps)] + later) == Forwarded(steps) + Forwarded(later)
  {
    if steps == [] || !steps[0].Event? {
      assert steps[..ScanEnd(steps)] + later == later;
    } else {
      ForwardedStopsAtEnd(steps[1..], later);
      var k := ScanEnd(steps);
      assert (steps[..k] + later)[1..] == steps[1..][..ScanEnd(steps[1..])] + later;
    }
  }

  /**
   * The scan task: get the first adapter, start scanning, forward every
   * named peripheral the loop sees until the timer or a stop ends it, then
   * stop scanning.  `manager` stands for creating the Bluetooth manager and
   * listing adapters, `scan` for starting the scan and subscribing to events,
   * `stopScan` for stopping the scan.
   */
  method DiscoverDevices(manager: Outcome, adapterCount: nat, scan: Outcome, steps: seq<ScanStep>, stopScan: Outcome)
    returns (forwarded: seq<BleDevice>, r: Result<()>)
    ensures manager.Fail? ==> forwarded == [] && r == Err(Library(manager.cause))
    ensures manager.Pass? && adapterCount == 0 ==> forwarded == [] && r == Err(NoBluetoothAdapter)
    ensures manager.Pass? && adapterCount > 0 && scan.Fail? ==> forwarded == [] && r == Err(Library(scan.cause))
    ensures manager.Pass? && adapterCount > 0 && scan.Pass? ==>
      forwarded == Forwarded(steps) && r == if stopScan.Pass? then Ok(()) else Err(Library(stopScan.cause))
  {
    forwarded := [];
    if manager.Fail? {
      return [], Err(Library(manager.cause));
    }
    if adapterCount == 0 {
      return [], Err(NoBluetoothAdapter);
    }
    if scan.Fail? {
      return [], Err(Library(scan.cause));
    }
    var i := 0;
    while i < |steps| && steps[i].Event?
      invariant 0 <= i <= |steps|
      invariant forwarded + Forwarded(steps[i..]) == Forwarded(steps)
    {
      var sighting := Sighting(steps[i].event);
      assert steps[i..][1..] == steps[i + 1..];
      if sighting.Some? {
        forwarded := forwarded + [sighting.value];
      }
      i := i + 1;
    }
    r := if stopScan.Pass? then Ok(()) else Err(Library(stopScan.cause));
  }

  ghost predicate UniqueIds(ds: seq<BleDevice>)
  {
    forall i, j :: 0 <= i < j < |ds| ==> ds[i].id != ds[j].id
  }

  predicate HasId(ds: seq<BleDevice>, id: string)
  {
    exists d :: d in ds && d.id == id
  }

  /** The list after the consumer receives `d`: appended unless its id is already listed. */
  function InsertNew(ds: seq<BleDevice>, d: BleDevice): (r: seq<BleDevice>)
    ensures HasId(ds, d.id) ==> r == ds
    ensures !HasId(ds, d.id) ==> r == ds + [d]
    ensures UniqueIds(ds) ==> UniqueIds(r)
  {
    if HasId(ds, d.id) then ds else ds + [d]
  }

  /** The list after the consumer receives each of `xs` in turn. */
  function InsertAll(ds: seq<BleDevice>, xs: seq<BleDevice>): (r: seq<BleDevice>)
    ensures |ds| <= |r| <= |ds| + |xs|
    decreases xs
  {
    if xs == [] then ds else InsertAll(InsertNew(ds, xs[0]), xs[1..])
  }

  /**
   * First sighting wins: what was listed stays in place, ids stay unique, and
   * every received id ends up listed.
   */
  lemma {:induction false} InsertAllProperties(ds: seq<BleDevice>, xs: seq<BleDevice>)
    requires UniqueIds(ds)
    decreases xs
    ensures var r := InsertAll(ds, xs);
      && UniqueIds(r)
      && |ds| <= |r| && r[..|ds|] == ds
      && forall x :: x in xs ==> HasId(r, x.id)
  {
    if xs != [] {
      var next := InsertNew(ds, xs[0]);
      InsertAllProperties(next, xs[1..]);
      var r := InsertAll(next, xs[1..]);
      assert r[..|ds|] == r[..|next|][..|ds|];
      assert HasId(next, xs[0].id) by {
        if !HasId(ds, xs[0].id) {
          assert next[|ds|] == xs[0];
        }
      }
      var w :| w in next && w.id == xs[0].id;
      var k :| 0 <= k < |next| && next[k] == w;
      assert r[k] == r[..|next|][k];
      assert r[k] in r;
      forall x | x in xs ensures HasId(r, x.id) {
        if x != xs[0] {
          assert x in xs[1..];
        }
      }
    }
  }

  class BleDiscovery {
    var running: bool
    var devices: seq<BleDevice>

    ghost predicate Valid()
      reads this
    {
      UniqueIds(devices)
    }

    constructor ()
      ensures Valid() && !running && devices == []
    {
      running := false;
      devices := [];
    }

    /**
     * Idempotent start: while running nothing happens; otherwise the flag is
     * set, the list cleared, and the scan task and the consumer are spawned.
     */
    method StartBleDiscovery() returns (r: Result<()>, spawned: bool)
      requires Valid()
      modifies this
      ensures Valid() && r == Ok(()) && running
      ensures spawned == !old(running)
      ensures old(running) ==> devices == old(devices)
      ensures !old(running) ==> devices == []
    {
      r := Ok(());
      if running {
        spawned := false;
        return;
      }
      running := true;
      devices := [];
      spawned := true;
    }

    /** Clears the flag; the list stays as it is. */
    method StopBleDiscovery() returns (r: Result<()>)
      requires Valid()
      modifies this`running
      ensures Valid() && r == Ok(()) && !running
    {
      running := false;
      r := Ok(());
    }

    method GetDiscoveredDevices() returns (ds: seq<BleDevice>)
      requires Valid()
      ensures ds == devices && UniqueIds(ds)
    {
      ds := devices;
    }

    /**
     * The first spawned task: run the scan (its error is only logged), then
     * clear the running flag however the scan ended.  Returns what it sent
     * into the channel.
     */
    method RunScanTask(manager: Outcome, adapterCount: nat, scan: Outcome, steps: seq<ScanStep>, stopScan: Outcome)
      returns (sent: seq<BleDevice>)
      requires Valid()
      modifies this`running
      ensures Valid() && !running
      ensures sent == if manager.Pass? && adapterCount > 0 && scan.Pass? then Forwarded(steps) else []
    {
      var outcome;
      sent, outcome := DiscoverDevices(manager, adapterCount, scan, steps, stopScan);
      running := false;
    }

    /** The second spawned task: the consumer, which receives each device in turn and deduplicates by id. */
    method ConsumeDevices(received: seq<BleDevice>)
      requires Valid()
      modifies this`devices
      ensures Valid()
      ensures devices == InsertAll(old(devices), received)
    {
      var i := 0;
      while i < |received|
        invariant 0 <= i <= |received|
        invariant Valid()
        invariant InsertAll(devices, received[i..]) == InsertAll(old(devices), received)
      {
        var device := received[i];
        assert received[i..][1..] == received[i + 1..];
        if !HasId(devices, device.id) {
          devices := devices + [device];
        }
        i := i + 1;
      }
    }
  }
}

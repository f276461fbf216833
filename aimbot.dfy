/**
 * The `ColorAimbot` object: the serial connection and the capture session it
 * holds, the `running` flag, and the methods that set them up, send a move,
 * drive the control loop and release the devices. The devices themselves are
 * not modelled. Every call made into them is appended to `calls`, except
 * `dxcam.create()` and `get_latest_frame()`, whose results are parameters
 * instead; what a device answers (a port opens or not, a write fails, a frame
 * arrives) is a parameter of the method that asks.
 */
module Aimbot {
  import opened Options
  import opened Frames
  import opened Segmentation
  import opened Targeting
  import opened Command
  import opened Pipeline

  /** The serial port numbers tried, in order: `range(2, 11)`, COM2 to COM10. */
  const PortRange: seq<int> := seq(9, k => k + 2)

  /** An open serial connection, by port number (`COMn`). */
  datatype Port = Com(number: int)

  /** A capture session returned by `dxcam.create()`. */
  datatype Camera = Camera(id: nat)

  /** What `dxcam.create()` does: raise, return None, or return a session. */
  datatype CreateOutcome = CreateRaises | CreateReturnsNone | CreateReturns(camera: Camera)

  /** One pass of the control loop as the outside world shapes it: the frame
      `get_latest_frame()` returns, and whether a serial write would succeed. */
  datatype Tick = Tick(frame: Option<Image<Bgr>>, writeOk: bool)

  /** A call into a device and whether it succeeded. */
  datatype Event =
    | OpenAttempt(port: Port, ok: bool)
    | CameraStart(camera: Camera, ok: bool)
    | Write(port: Port, bytes: seq<Byte>, ok: bool)
    | CameraStop(camera: Camera, ok: bool)
    | SerialClose(port: Port)

  /** Position in `ports` of the first port that opens. */
  function FirstOpenIndex(opens: int -> bool, ports: seq<int>): (r: Option<nat>)
    ensures r.Some? ==> r.value < |ports| && opens(ports[r.value])
    ensures r.Some? ==> forall j :: 0 <= j < r.value ==> !opens(ports[j])
    ensures r.None? <==> forall j :: 0 <= j < |ports| ==> !opens(ports[j])
  {
    if ports == [] then None
    else if opens(ports[0]) then Some(0)
    else
      match FirstOpenIndex(opens, ports[1..])
      case Some(k) => Some(k + 1)
      case None => None
  }

  /** The first port in `ports` that opens. */
  function FirstOpenPort(opens: int -> bool, ports: seq<int>): Option<int> {
    match FirstOpenIndex(opens, ports)
    case Some(k) => Some(ports[k])
    case None => None
  }

  /** The open attempts the port scan makes over `ports`. */
  function ScanEvents(opens: int -> bool, ports: seq<int>): seq<Event> {
    if ports == [] then []
    else [OpenAttempt(Com(ports[0]), opens(ports[0]))] + (if opens(ports[0]) then [] else ScanEvents(opens, ports[1..]))
  }

  /** The connection `setup_serial` leaves: the first port that opens, else the one held before. */
  function ConnAfterScan(before: Option<Port>, opens: int -> bool, ports: seq<int>): Option<Port> {
    match FirstOpenPort(opens, ports)
    case Some(n) => Some(Com(n))
    case None => before
  }

  /** The camera field after `setup_camera`. */
  function CameraAfterSetup(before: Option<Camera>, create: CreateOutcome): Option<Camera> {
    match create
    case CreateRaises => before
    case CreateReturnsNone => None
    case CreateReturns(c) => Some(c)
  }

  function CameraSetupEvents(create: CreateOutcome, startOk: bool): seq<Event> {
    if create.CreateReturns? then [CameraStart(create.camera, startOk)] else []
  }

  /** What `send_mouse_move(x, y)` asks of the serial connection: one write of
      the encoded command, or nothing when there is no connection. */
  function SendEvents(conn: Option<Port>, x: int, y: int, writeOk: bool): seq<Event> {
    match conn
    case Some(p) => [Write(p, MoveBytes(x, y), writeOk)]
    case None => []
  }

  /** The offset `process_frame` reports for a tick's frame, when it reports one. */
  function TickTarget(tick: Tick, ops: Vision): (t: Option<(int, int)>)
    requires ValidVision(ops)
    ensures t.Some? <==> tick.frame.Some? && ProcessFrame(tick.frame, ops).0.Some?
    ensures t.Some? ==> t.value == (ProcessFrame(tick.frame, ops).0.value, ProcessFrame(tick.frame, ops).1.value)
  {
    match tick.frame
    case None => None
    case Some(_) =>
      var (tx, ty) := ProcessFrame(tick.frame, ops);
      if tx.Some? && ty.Some? then Some((tx.value, ty.value)) else None
  }

  /** Whether a tick's frame yields a target. */
  predicate HasTarget(tick: Tick, ops: Vision)
    requires ValidVision(ops)
  {
    TickTarget(tick, ops).Some?
  }

  /** The targets of the ticks that yield one, in tick order. */
  function Targets(ticks: seq<Tick>, ops: Vision): seq<(int, int)>
    requires ValidVision(ops)
  {
    if ticks == [] then []
    else
      var last := TickTarget(ticks[|ticks| - 1], ops);
      Targets(ticks[..|ticks| - 1], ops) + (if last.Some? then [last.value] else [])
  }

  /** The device calls made by one iteration of the loop. */
  function IterationEvents(port: Port, tick: Tick, ops: Vision): (r: seq<Event>)
    requires ValidVision(ops)
    ensures |r| <= 1
    ensures r != [] <==> HasTarget(tick, ops)
    ensures forall e :: e in r ==> e.Write? && e.port == port
    ensures r != [] ==> r[0].ok == tick.writeOk && ParseMove(DecodeAscii(r[0].bytes)) == TickTarget(tick, ops)
  {
    match TickTarget(tick, ops)
    case None => []
    case Some((x, y)) => SendEvents(Some(port), x, y, tick.writeOk)
  }

  /** The device calls made by the loop over `ticks`, in order. */
  function LoopEvents(port: Port, ticks: seq<Tick>, ops: Vision): seq<Event>
    requires ValidVision(ops)
  {
    if ticks == [] then []
    else LoopEvents(port, ticks[..|ticks| - 1], ops) + IterationEvents(port, ticks[|ticks| - 1], ops)
  }

  /** Number of ticks whose frame yields a target. */
  function TargetTicks(ticks: seq<Tick>, ops: Vision): (n: nat)
    requires ValidVision(ops)
    ensures n <= |ticks|
  {
    if ticks == [] then 0
    else TargetTicks(ticks[..|ticks| - 1], ops) + (if HasTarget(ticks[|ticks| - 1], ops) then 1 else 0)
  }

  function CountWrites(es: seq<Event>): nat {
    if es == [] then 0 else CountWrites(es[..|es| - 1]) + (if es[|es| - 1].Write? then 1 else 0)
  }

  /** Whether `cleanup` raises: only `camera.stop()` is modelled as able to fail. */
  predicate CleanupRaises(camera: Option<Camera>, stopOk: bool) {
    camera.Some? && !stopOk
  }

  /** The device calls `cleanup` makes: stop the camera if there is one, then
      close the serial connection if there is one, unless stopping raised. */
  function CleanupEvents(camera: Option<Camera>, conn: Option<Port>, stopOk: bool): (r: seq<Event>)
    ensures |r| <= 2
    ensures (|r| > 0 && r[0].CameraStop?) <==> camera.Some?
    ensures camera.Some? ==> r[0] == CameraStop(camera.value, stopOk)
    ensures (|r| > 0 && r[|r| - 1].SerialClose?) <==> conn.Some? && !CleanupRaises(camera, stopOk)
    ensures forall i, j :: 0 <= i < |r| && 0 <= j < |r| && r[i].CameraStop? && r[j].SerialClose? ==> i < j
    ensures forall e :: e in r ==> e.CameraStop? || e.SerialClose?
    ensures conn.Some? && !CleanupRaises(camera, stopOk) ==> r[|r| - 1] == SerialClose(conn.value)
    ensures |r| == (if camera.Some? then 1 else 0) + (if conn.Some? && !CleanupRaises(camera, stopOk) then 1 else 0)
  {
    match (camera, conn)
    case (Some(c), Some(p)) => if stopOk then [CameraStop(c, stopOk), SerialClose(p)] else [CameraStop(c, stopOk)]
    case (Some(c), None) => [CameraStop(c, stopOk)]
    case (None, Some(p)) => [SerialClose(p)]
    case (None, None) => []
  }

  class ColorAimbot {
    var serialConn: Option<Port>
    var camera: Option<Camera>
    var running: bool
    /** The calls this object has made into the serial port and the capture
        device, oldest first: all of them except `dxcam.create()` and
        `get_latest_frame()`, whose results are parameters. */
    var calls: seq<Event>

    /** `__init__`: no devices, not running, then the port scan and the camera setup. */
    constructor (opens: int -> bool, create: CreateOutcome, startOk: bool)
      ensures serialConn == ConnAfterScan(None, opens, PortRange)
      ensures camera == CameraAfterSetup(None, create)
      ensures !running
      ensures calls == ScanEvents(opens, PortRange) + CameraSetupEvents(create, startOk)
    {
      serialConn := None;
      camera := None;
      running := false;
      calls := [];
      new;
      SetupSerial(opens);
      SetupCamera(create, startOk);
    }

    /** `setup_serial`: try COM2..COM10 in order; the first port that opens is kept. */
    method SetupSerial(opens: int -> bool)
      modifies this`serialConn, this`calls
      ensures serialConn == ConnAfterScan(old(serialConn), opens, PortRange)
      ensures calls == old(calls) + ScanEvents(opens, PortRange)
    {
      var i := 0;
      ghost var done := [];
      while i < |PortRange|
        invariant 0 <= i <= |PortRange|
        invariant forall j :: 0 <= j < i ==> !opens(PortRange[j])
        invariant ScanEvents(opens, PortRange) == done + ScanEvents(opens, PortRange[i..])
        invariant serialConn == old(serialConn)
        invariant calls == old(calls) + done
      {
        var n := PortRange[i];
        ScanStep(opens, done, i);
        if opens(n) {
          calls := calls + [OpenAttempt(Com(n), true)];
          done := done + [OpenAttempt(Com(n), true)];
          serialConn := Some(Com(n));
          FirstOpenAt(opens, PortRange, i);
          return;
        }
        calls := calls + [OpenAttempt(Com(n), false)];
        done := done + [OpenAttempt(Com(n), false)];
        i := i + 1;
      }
    }

    /** `setup_camera`: create a session and start it; an exception from either is swallowed. */
    method SetupCamera(create: CreateOutcome, startOk: bool)
      modifies this`camera, this`calls
      ensures camera == CameraAfterSetup(old(camera), create)
      ensures calls == old(calls) + CameraSetupEvents(create, startOk)
    {
      match create
      case CreateRaises =>
      case CreateReturnsNone =>
        camera := None;
      case CreateReturns(c) =>
        camera := Some(c);
        calls := calls + [CameraStart(c, startOk)];
    }

    /** `send_mouse_move(x, y)`: write the command if connected; a failed write is swallowed. */
    method SendMouseMove(x: int, y: int, writeOk: bool)
      modifies this`calls
      ensures calls == old(calls) + SendEvents(serialConn, x, y, writeOk)
    {
      if serialConn.Some? {
        calls := calls + [Write(serialConn.value, MoveBytes(x, y), writeOk)];
      }
    }

    /** `run`: refuse to start without both devices; otherwise loop over the
        ticks, sending at most one command each, until the operator's interrupt
        (after the last tick), then clean up. `raised` tells whether an
        exception from `cleanup` leaves `run`. */
    method Run(ticks: seq<Tick>, ops: Vision, stopOk: bool) returns (raised: bool)
      requires ValidVision(ops)
      modifies this`running, this`calls
      ensures old(camera).None? || old(serialConn).None? ==>
                !raised && running == old(running) && calls == old(calls)
      ensures old(camera).Some? && old(serialConn).Some? ==>
                && !running
                && raised == CleanupRaises(camera, stopOk)
                && calls == old(calls) + LoopEvents(serialConn.value, ticks, ops)
                                       + CleanupEvents(camera, serialConn, stopOk)
    {
      if camera.None? || serialConn.None? {
        return false;
      }
      running := true;
      Loop(ticks, ops);
      raised := Cleanup(stopOk);
    }

    /** `while self.running:` in `run`, over the ticks before the operator's interrupt. */
    method Loop(ticks: seq<Tick>, ops: Vision)
      requires ValidVision(ops) && running && serialConn.Some?
      modifies this`calls
      ensures calls == old(calls) + LoopEvents(serialConn.value, ticks, ops)
    {
      var i := 0;
      // `running` stays true here (this method cannot change it); it is in the
      // guard to mirror `while self.running:`.
      while running && i < |ticks|
        invariant 0 <= i <= |ticks|
        invariant calls == old(calls) + LoopEvents(serialConn.value, ticks[..i], ops)
      {
        Iterate(ticks[i], ops);
        LoopEventsStep(serialConn.value, ticks, i, ops);
        i := i + 1;
      }
      assert ticks[..i] == ticks;
    }

    /** One pass of the loop in `run`: take the latest frame and, when it
        yields a target, send the move. */
    method Iterate(tick: Tick, ops: Vision)
      requires ValidVision(ops) && serialConn.Some?
      modifies this`calls
      ensures calls == old(calls) + IterationEvents(serialConn.value, tick, ops)
    {
      if tick.frame.Some? {
        var (tx, ty) := ProcessFrame(tick.frame, ops);
        if tx.Some? && ty.Some? {
          SendMouseMove(tx.value, ty.value, tick.writeOk);
        }
      }
    }

    /** `cleanup`: clear `running`, stop the camera, then close the serial port.
        An exception from `camera.stop()` leaves before the port is closed. */
    method Cleanup(stopOk: bool) returns (raised: bool)
      modifies this`running, this`calls
      ensures !running
      ensures raised == CleanupRaises(camera, stopOk)
      ensures calls == old(calls) + CleanupEvents(camera, serialConn, stopOk)
    {
      running := false;
      raised := false;
      if camera.Some? {
        calls := calls + [CameraStop(camera.value, stopOk)];
        if !stopOk {
          raised := true;
          return;
        }
      }
      if serialConn.Some? {
        calls := calls + [SerialClose(serialConn.value)];
      }
    }
  }

  /** A port that opens after ports that all failed is the first that opens. */
  lemma FirstOpenAt(opens: int -> bool, ports: seq<int>, i: nat)
    requires i < |ports| && opens(ports[i])
    requires forall j :: 0 <= j < i ==> !opens(ports[j])
    ensures FirstOpenPort(opens, ports) == Some(ports[i])
  {
    var r := FirstOpenIndex(opens, ports);
    assert r.Some?;
    assert !(r.value < i) && !(i < r.value);
  }

  /** One port of the scan: it is tried, and the scan stops there if it opens. */
  lemma ScanStep(opens: int -> bool, done: seq<Event>, i: nat)
    requires i < |PortRange|
    requires ScanEvents(opens, PortRange) == done + ScanEvents(opens, PortRange[i..])
    ensures var n := PortRange[i];
            opens(n) ==> ScanEvents(opens, PortRange) == done + [OpenAttempt(Com(n), true)]
    ensures var n := PortRange[i];
            !opens(n) ==> ScanEvents(opens, PortRange) == (done + [OpenAttempt(Com(n), false)]) + ScanEvents(opens, PortRange[i + 1..])
  {
    var rest := PortRange[i..];
    assert rest[0] == PortRange[i] && rest[1..] == PortRange[i + 1..];
  }

  /** The scan tries the ports in the order given, one attempt each, and
      stops right after the first one that opens. */
  lemma {:induction false} ScanIsOrdered(opens: int -> bool, ports: seq<int>)
    ensures var r := ScanEvents(opens, ports);
            && |r| == (match FirstOpenIndex(opens, ports)
                       case Some(k) => k + 1
                       case None => |ports|)
            && (forall i :: 0 <= i < |r| ==> r[i] == OpenAttempt(Com(ports[i]), opens(ports[i])))
    decreases |ports|
  {
    if ports != [] && !opens(ports[0]) {
      ScanIsOrdered(opens, ports[1..]);
    }
  }

  /** `setup_serial` tries COM2, COM3, ... in ascending order, one attempt
      each; when some port opens it connects to the lowest-numbered one and
      tries no further; when none opens it has tried all nine and keeps the
      connection it held. */
  lemma SerialScanOrder(opens: int -> bool, before: Option<Port>)
    ensures var r := ScanEvents(opens, PortRange);
            forall i :: 0 <= i < |r| ==> r[i] == OpenAttempt(Com(2 + i), opens(2 + i))
    ensures (exists q :: 2 <= q <= 10 && opens(q)) ==>
              var conn := ConnAfterScan(before, opens, PortRange);
              && conn.Some? && 2 <= conn.value.number <= 10 && opens(conn.value.number)
              && (forall q :: 2 <= q < conn.value.number ==> !opens(q))
              && |ScanEvents(opens, PortRange)| == conn.value.number - 1
    ensures (forall q :: 2 <= q <= 10 ==> !opens(q)) ==>
              ConnAfterScan(before, opens, PortRange) == before && |ScanEvents(opens, PortRange)| == 9
  {
    ScanIsOrdered(opens, PortRange);
    var r := FirstOpenIndex(opens, PortRange);
    if exists q :: 2 <= q <= 10 && opens(q) {
      var q :| 2 <= q <= 10 && opens(q);
      assert PortRange[q - 2] == q;
    }
    if r.Some? {
      var k := r.value;
      forall q | 2 <= q < 2 + k
        ensures !opens(q)
      {
        assert PortRange[q - 2] == q;
      }
    } else {
      assert forall j :: 0 <= j < |PortRange| ==> PortRange[j] == 2 + j;
    }
  }

  lemma LoopEventsStep(port: Port, ticks: seq<Tick>, i: nat, ops: Vision)
    requires ValidVision(ops) && i < |ticks|
    ensures LoopEvents(port, ticks[..i + 1], ops) == LoopEvents(port, ticks[..i], ops) + IterationEvents(port, ticks[i], ops)
  {
    assert ticks[..i + 1][..i] == ticks[..i];
  }

  lemma {:induction false} CountWritesAppend(a: seq<Event>, b: seq<Event>)
    ensures CountWrites(a + b) == CountWrites(a) + CountWrites(b)
    decreases |b|
  {
    if b != [] {
      var last := b[|b| - 1];
      assert (a + b)[..|a + b| - 1] == a + b[..|b| - 1];
      CountWritesAppend(a, b[..|b| - 1]);
    } else {
      assert a + b == a;
    }
  }

  lemma CountWritesOfWrites(es: seq<Event>)
    requires |es| <= 1 && forall e :: e in es ==> e.Write?
    ensures CountWrites(es) == |es|
  {
    if es != [] {
      assert es[0] in es;
      assert es[..0] == [];
    }
  }

  /** The loop writes exactly once per tick whose frame yields a target, so
      never more than once per iteration. */
  lemma {:induction false} OneCommandPerTargetTick(port: Port, ticks: seq<Tick>, ops: Vision)
    requires ValidVision(ops)
    ensures CountWrites(LoopEvents(port, ticks, ops)) == TargetTicks(ticks, ops) <= |ticks|
    decreases |ticks|
  {
    if ticks != [] {
      var front, last := ticks[..|ticks| - 1], ticks[|ticks| - 1];
      OneCommandPerTargetTick(port, front, ops);
      var it := IterationEvents(port, last, ops);
      CountWritesAppend(LoopEvents(port, front, ops), it);
      CountWritesOfWrites(it);
    }
  }

  /** The loop's calls are the targets of the ticks that yield one, in tick
      order: the i-th call is a write to the connected port whose bytes read
      back as the i-th target. */
  lemma {:induction false} LoopWritesTargets(port: Port, ticks: seq<Tick>, ops: Vision)
    requires ValidVision(ops)
    ensures var es, ts := LoopEvents(port, ticks, ops), Targets(ticks, ops);
            && |es| == |ts|
            && forall i :: 0 <= i < |es| ==>
                 es[i].Write? && es[i].port == port && ParseMove(DecodeAscii(es[i].bytes)) == Some(ts[i])
    decreases |ticks|
  {
    if ticks != [] {
      var front, last := ticks[..|ticks| - 1], ticks[|ticks| - 1];
      LoopWritesTargets(port, front, ops);
      var it := IterationEvents(port, last, ops);
      if it != [] {
        assert it[0] in it;
      }
    }
  }

  /** When every reported box lies inside its mask, every logged call the loop makes
      is a write to the connected port whose bytes read back as a move within
      [-50, 49] on both axes, whatever the size of the frames. */
  lemma {:induction false} WrittenMovesStayInRoi(port: Port, ticks: seq<Tick>, ops: Vision)
    requires ValidVision(ops) && BoxesInsideMask(ops)
    ensures forall e :: e in LoopEvents(port, ticks, ops) ==>
              && e.Write? && e.port == port
              && ParseMove(DecodeAscii(e.bytes)).Some?
              && -50 <= ParseMove(DecodeAscii(e.bytes)).value.0 <= 49
              && -50 <= ParseMove(DecodeAscii(e.bytes)).value.1 <= 49
    decreases |ticks|
  {
    if ticks != [] {
      var front, last := ticks[..|ticks| - 1], ticks[|ticks| - 1];
      WrittenMovesStayInRoi(port, front, ops);
      if last.frame.Some? {
        TargetWithinRoi(last.frame.value, ops);
      }
    }
  }
}

/** The bookkeeping of the udev backend (udev.rs): devices with their surfaces, the flat map of outputs,
    and the flags, idle callbacks and timers of the frame scheduler. */
module Udev {
  import opened Common

  type Node = nat
  type Crtc = nat
  type Connector = nat

  datatype Target = Target(node: Node, crtc: Crtc)

  datatype Surface = Surface(scheduled: bool, pending: bool, waiting: bool)

  const FRESH := Surface(false, false, false)

  /** `scanned` is what the connector scanner currently reports as connected. */
  datatype Device = Device(
    surfaces: map<Crtc, Surface>,
    nonDesktop: seq<(Connector, Crtc)>,
    scanned: map<Crtc, Connector>)

  /** Outputs are told apart by `serial`; those of other backends have no target. */
  datatype Output = Output(serial: nat, target: Option<Target>)

  /** `idles` are the queued render callbacks, `timers` the outstanding repaint timers. */
  datatype State = State(
    backends: map<Node, Device>,
    outputs: map<string, Output>,
    created: nat,
    idles: seq<Target>,
    timers: multiset<Target>)

  predicate Live(u: State, t: Target) {
    t.node in u.backends && t.crtc in u.backends[t.node].surfaces
  }

  function SurfaceOf(u: State, t: Target): Surface
    requires Live(u, t)
  {
    u.backends[t.node].surfaces[t.crtc]
  }

  function WithSurface(u: State, t: Target, s: Surface): (u': State)
    requires t.node in u.backends
    ensures forall t' :: Live(u', t') <==> Live(u, t') || t' == t
    ensures forall t' :: Live(u', t') ==> SurfaceOf(u', t') == if t' == t then s else SurfaceOf(u, t')
  {
    var device := u.backends[t.node];
    u.(backends := u.backends[t.node := device.(surfaces := device.surfaces[t.crtc := s])])
  }

  // Frame scheduling

  function ScheduleRender(u: State, t: Target): State {
    if !Live(u, t) || SurfaceOf(u, t).scheduled then u
    else if SurfaceOf(u, t).pending then WithSurface(u, t, SurfaceOf(u, t).(waiting := true))
    else WithSurface(u, t, SurfaceOf(u, t).(scheduled := true)).(idles := u.idles + [t])
  }

  /** A render request for all surfaces, in the order the maps are walked. */
  function ScheduleAll(u: State, order: seq<Target>): State {
    if order == [] then u
    else ScheduleRender(ScheduleAll(u, order[..|order| - 1]), order[|order| - 1])
  }

  predicate HasOutput(u: State, t: Target) {
    exists name :: name in u.outputs && u.outputs[name].target == Some(t)
  }

  /** A vertical blank. `repaint` says that the frame was submitted or has to be repeated, the session is
      not paused and the output has a mode. */
  function FrameFinish(u: State, t: Target, repaint: bool): State {
    if Live(u, t) && HasOutput(u, t) && repaint then
      WithSurface(u, t, SurfaceOf(u, t).(pending := true)).(timers := u.timers + multiset{t})
    else u
  }

  function TimerFires(u: State, t: Target): State {
    var u' := u.(timers := u.timers - multiset{t});
    if !Live(u, t) then u'
    else
      var s := SurfaceOf(u, t);
      var cleared := WithSurface(u', t, s.(pending := false, waiting := false));
      if s.waiting then ScheduleRender(cleared, t) else cleared
  }

  /** The oldest idle callback runs and attempts a render, unless the surface is gone. */
  function IdleRuns(u: State): State
    requires u.idles != []
  {
    var t := u.idles[0];
    var u' := u.(idles := u.idles[1..]);
    if Live(u, t) then WithSurface(u', t, SurfaceOf(u, t).(scheduled := false)) else u'
  }

  // Hotplug

  datatype Setup = NonDesktop | SurfaceFailed | Ready

  datatype ScanEvent =
    | Connected(connector: Connector, crtc: Crtc, name: string, setup: Setup)
    | Disconnected(connector: Connector, crtc: Crtc)

  function WithDevice(u: State, node: Node, d: Device): State {
    u.(backends := u.backends[node := d])
  }

  function ConnectorConnected(u: State, node: Node, e: ScanEvent): State
    requires e.Connected?
  {
    if node !in u.backends then u
    else
      var d := u.backends[node];
      match e.setup
      case NonDesktop => WithDevice(u, node, d.(nonDesktop := d.nonDesktop + [(e.connector, e.crtc)]))
      case SurfaceFailed => u
      case Ready =>
        var t := Target(node, e.crtc);
        WithSurface(u, t, FRESH).(outputs := u.outputs[e.name := Output(u.created, Some(t))], created := u.created + 1)
  }

  function IndexOf(entries: seq<(Connector, Crtc)>, connector: Connector): (r: Option<nat>)
    ensures r.Some? ==> r.value < |entries| && entries[r.value].0 == connector
    ensures r.None? ==> forall i :: 0 <= i < |entries| ==> entries[i].0 != connector
  {
    if entries == [] then None
    else if entries[0].0 == connector then Some(0)
    else match IndexOf(entries[1..], connector)
      case None => None
      case Some(i) => Some(i + 1)
  }

  function WithoutTarget(outputs: map<string, Output>, t: Target): map<string, Output> {
    map name | name in outputs && outputs[name].target != Some(t) :: outputs[name]
  }

  function ConnectorDisconnected(u: State, node: Node, connector: Connector, crtc: Crtc): State {
    if node !in u.backends then u
    else
      var d := u.backends[node];
      match IndexOf(d.nonDesktop, connector)
      case Some(i) => WithDevice(u, node, d.(nonDesktop := d.nonDesktop[..i] + d.nonDesktop[i + 1..]))
      case None =>
        WithDevice(u, node, d.(surfaces := d.surfaces - {crtc}))
        .(outputs := WithoutTarget(u.outputs, Target(node, crtc)))
  }

  /** What the scanner may report next: a connector that is not connected, on a free crtc, or the end of
      a current connection. */
  predicate CanReport(d: Device, e: ScanEvent) {
    match e
    case Connected(connector, crtc, _, _) =>
      crtc !in d.scanned && forall c :: c in d.scanned ==> d.scanned[c] != connector
    case Disconnected(connector, crtc) => crtc in d.scanned && d.scanned[crtc] == connector
  }

  /** The scanner notes its report, then the report is handled. */
  function HandleScan(u: State, node: Node, e: ScanEvent): State
    requires node in u.backends
  {
    var d := u.backends[node];
    match e
    case Connected(connector, crtc, _, _) =>
      ConnectorConnected(WithDevice(u, node, d.(scanned := d.scanned[crtc := connector])), node, e)
    case Disconnected(connector, crtc) =>
      ConnectorDisconnected(WithDevice(u, node, d.(scanned := d.scanned - {crtc})), node, connector, crtc)
  }

  /** Handles the reports of one scan. */
  function HandleScans(u: State, node: Node, reports: seq<ScanEvent>): (u': State)
    requires node in u.backends
    ensures node in u'.backends
  {
    if reports == [] then u
    else HandleScan(HandleScans(u, node, reports[..|reports| - 1]), node, reports[|reports| - 1])
  }

  predicate CanReportAll(u: State, node: Node, reports: seq<ScanEvent>)
    requires node in u.backends
  {
    reports != [] ==>
      var first := reports[..|reports| - 1];
      CanReportAll(u, node, first) && CanReport(HandleScans(u, node, first).backends[node], reports[|reports| - 1])
  }

  lemma {:induction false} CanReportEach(u: State, node: Node, reports: seq<ScanEvent>, i: nat)
    requires node in u.backends && CanReportAll(u, node, reports) && i < |reports|
    ensures CanReport(HandleScans(u, node, reports[..i]).backends[node], reports[i])
  {
    if i < |reports| - 1 {
      CanReportEach(u, node, reports[..|reports| - 1], i);
      assert reports[..|reports| - 1][..i] == reports[..i];
    }
  }

  /** `order` lists exactly the entries of `scanned`. */
  ghost predicate Lists(order: seq<(Connector, Crtc)>, scanned: map<Crtc, Connector>) {
    && (forall i :: 0 <= i < |order| ==> order[i].1 in scanned && scanned[order[i].1] == order[i].0)
    && (forall crtc :: crtc in scanned ==> (scanned[crtc], crtc) in order)
  }

  function DeviceAdded(u: State, node: Node): State {
    WithDevice(u, node, Device(map[], [], map[]))
  }

  /** The output refers to the device. */
  predicate Names(o: Output, node: Node) { o.target.Some? && o.target.value.node == node }

  function DeviceRemoved(u: State, node: Node): State {
    if node !in u.backends then u
    else
      u.(backends := u.backends - {node},
      outputs := map name | name in u.outputs && !Names(u.outputs[name], node) :: u.outputs[name])
  }

  // What holds between events

  /** The scanner and the device agree: a surface or a leasable connector is where the scanner says. */
  ghost predicate DeviceInv(d: Device) {
    && d.surfaces.Keys <= d.scanned.Keys
    && (forall c1, c2 :: c1 in d.scanned && c2 in d.scanned && d.scanned[c1] == d.scanned[c2] ==> c1 == c2)
    && (forall i :: 0 <= i < |d.nonDesktop| ==>
                      var (connector, crtc) := d.nonDesktop[i];
                      crtc in d.scanned && d.scanned[crtc] == connector && crtc !in d.surfaces)
    && (forall i, j :: 0 <= i < j < |d.nonDesktop| ==> d.nonDesktop[i].0 != d.nonDesktop[j].0)
  }

  /** Every output that names a target names a live surface, and no two name the same one. */
  ghost predicate Agree(u: State) {
    && (forall name :: name in u.outputs && u.outputs[name].target.Some? ==> Live(u, u.outputs[name].target.value))
    && (forall n1, n2 | n1 in u.outputs && n2 in u.outputs && u.outputs[n1].target.Some? ::
          u.outputs[n1].target == u.outputs[n2].target ==> n1 == n2)
  }

  /** No two names hold the same output. */
  ghost predicate SerialsDiffer(u: State) {
    && (forall name :: name in u.outputs ==> u.outputs[name].serial < u.created)
    && (forall n1, n2 :: n1 in u.outputs && n2 in u.outputs && u.outputs[n1].serial == u.outputs[n2].serial ==>
                           n1 == n2)
  }

  ghost predicate Inv(u: State) {
    && Agree(u)
    && SerialsDiffer(u)
    && (forall node :: node in u.backends ==> DeviceInv(u.backends[node]))
  }

  /** Which surfaces live after a report, and which outputs there are. */
  lemma ConnectEffect(u: State, node: Node, e: ScanEvent)
    requires node in u.backends && e.Connected?
    ensures var u', t := HandleScan(u, node, e), Target(node, e.crtc);
            && (forall t' :: Live(u', t') <==> Live(u, t') || (t' == t && e.setup.Ready?))
            && (e.setup.Ready? ==>
                  u'.outputs == u.outputs[e.name := Output(u.created, Some(t))] && u'.created == u.created + 1)
            && (!e.setup.Ready? ==> u'.outputs == u.outputs && u'.created == u.created)
            && u'.backends == u.backends[node := u'.backends[node]]
  {
  }

  lemma DisconnectEffect(u: State, node: Node, e: ScanEvent)
    requires node in u.backends && e.Disconnected?
    ensures var u', t := HandleScan(u, node, e), Target(node, e.crtc);
            var leasable := IndexOf(u.backends[node].nonDesktop, e.connector).Some?;
            && (forall t' :: Live(u', t') <==> Live(u, t') && (t' == t ==> leasable))
            && u'.outputs == (if leasable then u.outputs else WithoutTarget(u.outputs, t)) && u'.created == u.created
            && u'.backends == u.backends[node := u'.backends[node]]
  {
  }

  lemma ConnectKeepsDeviceInv(u: State, node: Node, e: ScanEvent)
    requires node in u.backends && DeviceInv(u.backends[node]) && CanReport(u.backends[node], e) && e.Connected?
    ensures DeviceInv(HandleScan(u, node, e).backends[node])
  {
  }

  lemma DisconnectKeepsDeviceInv(u: State, node: Node, e: ScanEvent)
    requires node in u.backends && DeviceInv(u.backends[node]) && CanReport(u.backends[node], e) && e.Disconnected?
    ensures DeviceInv(HandleScan(u, node, e).backends[node])
  {
    var d := u.backends[node];
    var unplugged := IndexOf(d.nonDesktop, e.connector);
    if unplugged.Some? {
      LeasableUnplugged(d, unplugged.value, e.crtc);
    } else {
      SurfaceUnplugged(d, e.crtc);
    }
  }

  lemma LeasableUnplugged(d: Device, i: nat, crtc: Crtc)
    requires DeviceInv(d) && i < |d.nonDesktop| && crtc in d.scanned && d.scanned[crtc] == d.nonDesktop[i].0
    ensures DeviceInv(d.(scanned := d.scanned - {crtc}, nonDesktop := d.nonDesktop[..i] + d.nonDesktop[i + 1..]))
  {
    var after := d.nonDesktop[..i] + d.nonDesktop[i + 1..];
    assert forall k :: 0 <= k < |after| ==> after[k] == d.nonDesktop[if k < i then k else k + 1];
  }

  lemma SurfaceUnplugged(d: Device, crtc: Crtc)
    requires DeviceInv(d) && crtc in d.scanned && IndexOf(d.nonDesktop, d.scanned[crtc]).None?
    ensures DeviceInv(d.(scanned := d.scanned - {crtc}, surfaces := d.surfaces - {crtc}))
  {
  }

  lemma ConnectKeepsAgreement(u: State, node: Node, e: ScanEvent)
    requires Inv(u) && node in u.backends && CanReport(u.backends[node], e) && e.Connected?
    ensures Agree(HandleScan(u, node, e)) && SerialsDiffer(HandleScan(u, node, e))
    ensures forall t :: Live(u, t) ==> Live(HandleScan(u, node, e), t)
  {
    assert DeviceInv(u.backends[node]);
    ConnectEffect(u, node, e);
    assert !Live(u, Target(node, e.crtc));
  }

  lemma DisconnectKeepsAgreement(u: State, node: Node, e: ScanEvent)
    requires Inv(u) && node in u.backends && CanReport(u.backends[node], e) && e.Disconnected?
    ensures Agree(HandleScan(u, node, e)) && SerialsDiffer(HandleScan(u, node, e))
  {
    DisconnectEffect(u, node, e);
  }

  lemma ScanKeepsInv(u: State, node: Node, e: ScanEvent)
    requires Inv(u) && node in u.backends && CanReport(u.backends[node], e)
    ensures Inv(HandleScan(u, node, e))
  {
    assert DeviceInv(u.backends[node]);
    if e.Connected? {
      ConnectEffect(u, node, e);
      ConnectKeepsDeviceInv(u, node, e);
      ConnectKeepsAgreement(u, node, e);
    } else {
      DisconnectEffect(u, node, e);
      DisconnectKeepsDeviceInv(u, node, e);
      DisconnectKeepsAgreement(u, node, e);
    }
  }

  /** Removing a device leaves no output that refers to it, and leaves the outputs of all others. */
  lemma DeviceRemovedKeepsInv(u: State, node: Node)
    requires Inv(u)
    ensures var u' := DeviceRemoved(u, node);
            && Inv(u')
            && (forall t :: Live(u', t) <==> Live(u, t) && t.node != node)
            && (forall t :: HasOutput(u', t) <==> HasOutput(u, t) && t.node != node)
  {
    var u' := DeviceRemoved(u, node);
    assert forall t :: Live(u, t) && t.node != node ==> Live(u', t);
    forall t
      ensures HasOutput(u', t) <==> HasOutput(u, t) && t.node != node
    {
      if HasOutput(u, t) && t.node != node {
        var name :| name in u.outputs && u.outputs[name].target == Some(t);
        assert name in u'.outputs && u'.outputs[name].target == Some(t);
      }
    }
  }

  /** `u` is `start` with some connectors of a device disconnected. */
  ghost predicate Removing(start: State, u: State, node: Node) {
    && node in start.backends && node in u.backends
    && Agree(u) && SerialsDiffer(u)
    && u.backends == start.backends[node := u.backends[node]]
    && u.backends[node].surfaces.Keys <= start.backends[node].surfaces.Keys
    && (forall entry :: entry in u.backends[node].nonDesktop ==> entry in start.backends[node].nonDesktop)
    && u == start.(backends := u.backends, outputs := u.outputs)
    && (forall name :: name in u.outputs ==> name in start.outputs && u.outputs[name] == start.outputs[name])
    && (forall name :: name in start.outputs && name !in u.outputs ==>
                         start.outputs[name].target.Some? && start.outputs[name].target.value.node == node)
  }

  lemma DisconnectedKeepsAgreement(u: State, node: Node, connector: Connector, crtc: Crtc)
    requires Agree(u) && SerialsDiffer(u)
    ensures var u' := ConnectorDisconnected(u, node, connector, crtc);
            Agree(u') && SerialsDiffer(u')
  {
    var u' := ConnectorDisconnected(u, node, connector, crtc);
    if node in u.backends {
      assert forall t :: Live(u, t) && t != Target(node, crtc) ==> Live(u', t);
      if IndexOf(u.backends[node].nonDesktop, connector).Some? {
        assert forall t :: Live(u, t) ==> Live(u', t);
      }
    }
  }

  /** A leasable connector of the scanner has no surface on its crtc. */
  lemma LeasableHasNoSurface(start: State, u: State, node: Node, connector: Connector, crtc: Crtc)
    requires Inv(start) && Removing(start, u, node)
    requires crtc in start.backends[node].scanned && start.backends[node].scanned[crtc] == connector
    requires IndexOf(u.backends[node].nonDesktop, connector).Some?
    ensures crtc !in u.backends[node].surfaces
  {
    assert DeviceInv(start.backends[node]);
    var entries := u.backends[node].nonDesktop;
    assert entries[IndexOf(entries, connector).value] in start.backends[node].nonDesktop;
  }

  lemma RemovingStep(start: State, u: State, node: Node, connector: Connector, crtc: Crtc)
    requires Inv(start) && Removing(start, u, node)
    requires crtc in start.backends[node].scanned && start.backends[node].scanned[crtc] == connector
    ensures var u' := ConnectorDisconnected(u, node, connector, crtc);
            && Removing(start, u', node)
            && u'.backends[node].surfaces.Keys == u.backends[node].surfaces.Keys - {crtc}
  {
    DisconnectedKeepsAgreement(u, node, connector, crtc);
    if IndexOf(u.backends[node].nonDesktop, connector).Some? {
      LeasableHasNoSurface(start, u, node, connector, crtc);
    }
  }

  /** None of the listed crtcs has a surface. */
  predicate Unplugged(u: State, node: Node, order: seq<(Connector, Crtc)>) {
    forall j :: 0 <= j < |order| ==> !Live(u, Target(node, order[j].1))
  }

  lemma RemovingNext(start: State, u: State, node: Node, order: seq<(Connector, Crtc)>, i: nat)
    requires Inv(start) && Removing(start, u, node) && Lists(order, start.backends[node].scanned)
    requires i < |order| && Unplugged(u, node, order[..i])
    ensures Agree(u) && SerialsDiffer(u)
    ensures var u' := ConnectorDisconnected(u, node, order[i].0, order[i].1);
            Removing(start, u', node) && Unplugged(u', node, order[..i + 1])
  {
    RemovingStep(start, u, node, order[i].0, order[i].1);
    UnpluggedNext(u, ConnectorDisconnected(u, node, order[i].0, order[i].1), node, order, i);
  }

  lemma UnpluggedNext(u: State, u': State, node: Node, order: seq<(Connector, Crtc)>, i: nat)
    requires node in u.backends && node in u'.backends
    requires i < |order| && Unplugged(u, node, order[..i])
    requires u'.backends[node].surfaces.Keys == u.backends[node].surfaces.Keys - {order[i].1}
    ensures Unplugged(u', node, order[..i + 1])
  {
    var first := order[..i + 1];
    forall j | 0 <= j < |first|
      ensures !Live(u', Target(node, first[j].1))
    {
      if j < i { assert !Live(u, Target(node, order[..i][j].1)); }
    }
  }

  lemma RemovingEnds(start: State, u: State, node: Node, order: seq<(Connector, Crtc)>)
    requires Inv(start) && Removing(start, u, node) && Lists(order, start.backends[node].scanned)
    requires Unplugged(u, node, order)
    ensures u.(backends := u.backends - {node}) == DeviceRemoved(start, node)
  {
    assert DeviceInv(start.backends[node]);
    forall crtc | crtc in start.backends[node].scanned
      ensures !Live(u, Target(node, crtc))
    {
      assert (start.backends[node].scanned[crtc], crtc) in order;
    }
    assert forall crtc :: !Live(u, Target(node, crtc));
    assert u.outputs == DeviceRemoved(start, node).outputs;
    assert u.backends - {node} == start.backends - {node};
  }

  class UdevState {
    var backends: map<Node, Device>
    var outputs: map<string, Output>
    var created: nat
    var idles: seq<Target>
    var timers: multiset<Target>

    ghost function View(): State
      reads this
    {
      State(backends, outputs, created, idles, timers)
    }

    constructor ()
      ensures View() == State(map[], map[], 0, [], multiset{})
      ensures Inv(View())
    {
      backends := map[];
      outputs := map[];
      created := 0;
      idles := [];
      timers := multiset{};
    }

    method SetSurface(t: Target, s: Surface)
      requires t.node in backends
      modifies this`backends
      ensures View() == WithSurface(old(View()), t, s)
    {
      var device := backends[t.node];
      backends := backends[t.node := device.(surfaces := device.surfaces[t.crtc := s])];
    }

    method ScheduleSurface(t: Target)
      modifies this`backends, this`idles
      ensures View() == ScheduleRender(old(View()), t)
    {
      if t.node !in backends { return; }
      if t.crtc in backends[t.node].surfaces {
        var surface := backends[t.node].surfaces[t.crtc];
        if !surface.scheduled && surface.pending {
          SetSurface(t, surface.(waiting := true));
        }
        if !surface.scheduled && !surface.pending {
          SetSurface(t, surface.(scheduled := true));
          idles := idles + [t];
        }
      }
    }

    method ScheduleSurfaces(order: seq<Target>)
      modifies this`backends, this`idles
      ensures View() == ScheduleAll(old(View()), order)
    {
      for i := 0 to |order|
        invariant View() == ScheduleAll(old(View()), order[..i])
      {
        assert order[..i + 1][..i] == order[..i];
        ScheduleSurface(order[i]);
      }
      assert order[..|order|] == order;
    }

    /** The name of some output that names the target. */
    method FindOutput(t: Target) returns (found: Option<string>)
      ensures found.Some? ==> found.value in outputs && outputs[found.value].target == Some(t)
      ensures found.None? ==> !HasOutput(View(), t)
    {
      var names := outputs.Keys;
      while names != {}
        invariant names <= outputs.Keys
        invariant forall name :: name in outputs && name !in names ==> outputs[name].target != Some(t)
      {
        var name :| name in names;
        if outputs[name].target == Some(t) { return Some(name); }
        names := names - {name};
      }
      return None;
    }

    method FrameFinished(t: Target, repaint: bool)
      modifies this`backends, this`timers
      ensures View() == FrameFinish(old(View()), t, repaint)
    {
      if t.node !in backends { return; }
      if t.crtc !in backends[t.node].surfaces { return; }
      var output := FindOutput(t);
      if output.None? { return; }
      assert HasOutput(View(), t);
      if repaint {
        SetSurface(t, backends[t.node].surfaces[t.crtc].(pending := true));
        timers := timers + multiset{t};
      }
    }

    method TimerFired(t: Target)
      requires t in timers
      modifies this`backends, this`idles, this`timers
      ensures View() == TimerFires(old(View()), t)
    {
      timers := timers - multiset{t};
      if t.node !in backends { return; }
      if t.crtc !in backends[t.node].surfaces { return; }
      var surface := backends[t.node].surfaces[t.crtc].(pending := false);
      var waited := surface.waiting;
      if waited { surface := surface.(waiting := false); }
      SetSurface(t, surface);
      if waited { ScheduleSurface(t); }
    }

    /** Yields the surface whose render was attempted, if it still exists. */
    method IdleRan() returns (attempted: Option<Target>)
      requires idles != []
      modifies this`backends, this`idles
      ensures View() == IdleRuns(old(View()))
      ensures attempted == if Live(old(View()), old(idles)[0]) then Some(old(idles)[0]) else None
    {
      var t := idles[0];
      idles := idles[1..];
      if t.node !in backends { return None; }
      if t.crtc !in backends[t.node].surfaces { return None; }
      SetSurface(t, backends[t.node].surfaces[t.crtc].(scheduled := false));
      return Some(t);
    }

    method Connect(node: Node, e: ScanEvent)
      requires e.Connected?
      modifies this`backends, this`outputs, this`created
      ensures View() == ConnectorConnected(old(View()), node, e)
    {
      if node !in backends { return; }
      match e.setup
      case NonDesktop =>
        var device := backends[node];
        backends := backends[node := device.(nonDesktop := device.nonDesktop + [(e.connector, e.crtc)])];
      case SurfaceFailed =>
      case Ready =>
        var output := Output(created, Some(Target(node, e.crtc)));
        created := created + 1;
        SetSurface(Target(node, e.crtc), FRESH);
        outputs := outputs[e.name := output];
    }

    method Disconnect(node: Node, connector: Connector, crtc: Crtc)
      requires Agree(View()) && SerialsDiffer(View())
      modifies this`backends, this`outputs
      ensures View() == ConnectorDisconnected(old(View()), node, connector, crtc)
    {
      if node !in backends { return; }
      var device := backends[node];
      var position := IndexOf(device.nonDesktop, connector);
      if position.Some? {
        var i := position.value;
        backends := backends[node := device.(nonDesktop := device.nonDesktop[..i] + device.nonDesktop[i + 1..])];
      } else {
        backends := backends[node := device.(surfaces := device.surfaces - {crtc})];
        var found := FindOutput(Target(node, crtc));
        if found.Some? {
          var output := outputs[found.value];
          outputs := map name | name in outputs && outputs[name] != output :: outputs[name];
        }
        assert outputs == WithoutTarget(old(outputs), Target(node, crtc));
      }
    }

    method HandleReport(node: Node, e: ScanEvent)
      requires Inv(View()) && node in backends && CanReport(backends[node], e)
      modifies this`backends, this`outputs, this`created
      ensures View() == HandleScan(old(View()), node, e)
      ensures Inv(View())
    {
      ScanKeepsInv(View(), node, e);
      var device := backends[node];
      match e
      case Connected(connector, crtc, _, _) =>
        backends := backends[node := device.(scanned := device.scanned[crtc := connector])];
        Connect(node, e);
      case Disconnected(connector, crtc) =>
        backends := backends[node := device.(scanned := device.scanned - {crtc})];
        assert forall t :: Live(View(), t) == Live(old(View()), t);
        Disconnect(node, connector, crtc);
    }

    /** The reports of a scan are handled in order; each must be possible when its turn comes. */
    method ChangeDevice(node: Node, reports: seq<ScanEvent>)
      requires Inv(View()) && node in backends && CanReportAll(View(), node, reports)
      modifies this`backends, this`outputs, this`created
      ensures Inv(View())
      ensures View() == HandleScans(old(View()), node, reports)
    {
      for i := 0 to |reports|
        invariant Inv(View())
        invariant View() == HandleScans(old(View()), node, reports[..i])
      {
        assert reports[..i + 1][..i] == reports[..i];
        CanReportEach(old(View()), node, reports, i);
        HandleReport(node, reports[i]);
      }
      assert reports[..|reports|] == reports;
    }

    method AddDevice(node: Node, reports: seq<ScanEvent>)
      requires Inv(View()) && node !in backends && CanReportAll(DeviceAdded(View(), node), node, reports)
      modifies this`backends, this`outputs, this`created
      ensures Inv(View())
      ensures View() == HandleScans(DeviceAdded(old(View()), node), node, reports)
    {
      backends := backends[node := Device(map[], [], map[])];
      assert forall t :: Live(View(), t) == Live(old(View()), t);
      ChangeDevice(node, reports);
    }

    /** `order` is how the scanner lists its connectors. */
    method RemoveDevice(node: Node, order: seq<(Connector, Crtc)>)
      requires Inv(View())
      requires node in backends ==> Lists(order, backends[node].scanned)
      modifies this`backends, this`outputs
      ensures View() == DeviceRemoved(old(View()), node)
      ensures Inv(View())
    {
      DeviceRemovedKeepsInv(View(), node);
      if node !in backends { return; }
      DisconnectAll(node, order);
      backends := backends - {node};
    }

    method DisconnectAll(node: Node, order: seq<(Connector, Crtc)>)
      requires Inv(View()) && node in backends && Lists(order, backends[node].scanned)
      modifies this`backends, this`outputs
      ensures View().(backends := backends - {node}) == DeviceRemoved(old(View()), node)
    {
      ghost var start := View();
      for i := 0 to |order|
        invariant Removing(start, View(), node) && Unplugged(View(), node, order[..i])
      {
        RemovingNext(start, View(), node, order, i);
        Disconnect(node, order[i].0, order[i].1);
      }
      assert order[..|order|] == order;
      RemovingEnds(start, View(), node, order);
    }
  }
}

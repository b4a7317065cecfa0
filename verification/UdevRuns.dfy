/** Properties of the udev backend over whole runs: hotplug agreement and frame scheduling. */
module UdevRuns {
  import opened Common
  import opened Udev

  datatype Event =
    | Request(t: Target)
    | RequestAll(order: seq<Target>)
    | VBlank(t: Target, repaint: bool)
    | Timer(t: Target)
    | Idle
    | Added(node: Node)
    | Scan(node: Node, report: ScanEvent)
    | Removed(node: Node)

  /** A device is added only when it is absent, the scanner reports changes only, and callbacks run only
      when they are queued. */
  predicate Enabled(u: State, e: Event) {
    match e
    case Timer(t) => t in u.timers
    case Idle => u.idles != []
    case Added(node) => node !in u.backends
    case Scan(node, report) => node in u.backends && CanReport(u.backends[node], report)
    case _ => true
  }

  function Step(u: State, e: Event): State {
    if !Enabled(u, e) then u
    else
      match e
      case Request(t) => ScheduleRender(u, t)
      case RequestAll(order) => ScheduleAll(u, order)
      case VBlank(t, repaint) => FrameFinish(u, t, repaint)
      case Timer(t) => TimerFires(u, t)
      case Idle => IdleRuns(u)
      case Added(node) => DeviceAdded(u, node)
      case Scan(node, report) => HandleScan(u, node, report)
      case Removed(node) => DeviceRemoved(u, node)
  }

  predicate IsHotplug(e: Event) { e.Added? || e.Scan? || e.Removed? }

  function After(u: State, run: seq<Event>): State
    decreases |run|
  {
    if run == [] then u else After(Step(u, run[0]), run[1..])
  }

  const EMPTY := State(map[], map[], 0, [], multiset{})

  // Hotplug agreement

  /** `u'` has the devices, surfaces and outputs of `u`; only flags, idles and timers may differ. */
  ghost predicate SameStructure(u: State, u': State) {
    && u'.outputs == u.outputs && u'.created == u.created
    && u'.backends.Keys == u.backends.Keys
    && forall node :: node in u.backends ==>
                        && u'.backends[node].surfaces.Keys == u.backends[node].surfaces.Keys
                        && u'.backends[node].nonDesktop == u.backends[node].nonDesktop
                        && u'.backends[node].scanned == u.backends[node].scanned
  }

  lemma WithSurfaceKeepsStructure(u: State, t: Target, s: Surface)
    requires Live(u, t)
    ensures SameStructure(u, WithSurface(u, t, s))
  {
  }

  lemma ScheduleRenderKeepsStructure(u: State, t: Target)
    ensures SameStructure(u, ScheduleRender(u, t))
  {
    if Live(u, t) {
      WithSurfaceKeepsStructure(u, t, SurfaceOf(u, t).(waiting := true));
      WithSurfaceKeepsStructure(u, t, SurfaceOf(u, t).(scheduled := true));
    }
  }

  lemma {:induction false} ScheduleAllKeepsStructure(u: State, order: seq<Target>)
    ensures SameStructure(u, ScheduleAll(u, order))
  {
    if order != [] {
      ScheduleAllKeepsStructure(u, order[..|order| - 1]);
      ScheduleRenderKeepsStructure(ScheduleAll(u, order[..|order| - 1]), order[|order| - 1]);
    }
  }

  lemma TimerKeepsStructure(u: State, t: Target)
    ensures SameStructure(u, TimerFires(u, t))
  {
    if Live(u, t) {
      var u' := u.(timers := u.timers - multiset{t});
      var s := SurfaceOf(u, t).(pending := false, waiting := false);
      WithSurfaceKeepsStructure(u', t, s);
      ScheduleRenderKeepsStructure(WithSurface(u', t, s), t);
    }
  }

  lemma SchedulingKeepsStructure(u: State, e: Event)
    requires !IsHotplug(e)
    ensures SameStructure(u, Step(u, e))
  {
    if Enabled(u, e) {
      match e
      case Request(t) => ScheduleRenderKeepsStructure(u, t);
      case RequestAll(order) => ScheduleAllKeepsStructure(u, order);
      case VBlank(t, _) => if Live(u, t) { WithSurfaceKeepsStructure(u, t, SurfaceOf(u, t).(pending := true)); }
      case Timer(t) => TimerKeepsStructure(u, t);
      case Idle =>
        var t := u.idles[0];
        if Live(u, t) {
          WithSurfaceKeepsStructure(u.(idles := u.idles[1..]), t, SurfaceOf(u, t).(scheduled := false));
        }
    }
  }

  lemma SameStructureKeepsInv(u: State, u': State)
    requires Inv(u) && SameStructure(u, u')
    ensures Inv(u')
    ensures forall t :: Live(u', t) <==> Live(u, t)
  {
    forall node | node in u'.backends
      ensures DeviceInv(u'.backends[node])
    {
      assert DeviceInv(u.backends[node]);
    }
  }

  lemma StepKeepsInv(u: State, e: Event)
    requires Inv(u)
    ensures Inv(Step(u, e))
  {
    if !IsHotplug(e) {
      SchedulingKeepsStructure(u, e);
      SameStructureKeepsInv(u, Step(u, e));
    } else if Enabled(u, e) {
      match e
      case Scan(node, report) => ScanKeepsInv(u, node, report);
      case Removed(node) => DeviceRemovedKeepsInv(u, node);
      case Added(node) => assert forall t :: Live(u, t) ==> Live(Step(u, e), t);
    }
  }

  /** Over every run each udev output names a live surface and no two outputs name the same one. */
  lemma {:induction false} OutputsAgreeWithSurfaces(u: State, run: seq<Event>)
    requires Inv(u)
    ensures Inv(After(u, run)) && Agree(After(u, run))
    decreases |run|
  {
    if run != [] {
      StepKeepsInv(u, run[0]);
      OutputsAgreeWithSurfaces(Step(u, run[0]), run[1..]);
    }
  }

  ghost predicate EverySurfaceHasOutput(u: State) {
    forall t :: Live(u, t) ==> HasOutput(u, t)
  }

  /** Output names do not mention the device, so a connector of one device can take the name of another's.
      `e` does that if it sets up an output under a name that a udev output already has. */
  predicate TakesName(u: State, e: Event) {
    && Enabled(u, e) && e.Scan? && e.report.Connected? && e.report.setup.Ready?
    && e.report.name in u.outputs && u.outputs[e.report.name].target.Some?
  }

  lemma TakenNameLosesOutput(u: State, e: Event)
    requires Inv(u) && EverySurfaceHasOutput(u) && TakesName(u, e)
    ensures !EverySurfaceHasOutput(Step(u, e))
  {
    var u' := Step(u, e);
    var lost := u.outputs[e.report.name].target.value;
    ConnectKeepsAgreement(u, e.node, e.report);
    assert DeviceInv(u.backends[e.node]);
    assert Live(u', lost);
    assert !HasOutput(u', lost);
  }

  lemma FreeNameKeepsOutputs(u: State, node: Node, report: ScanEvent)
    requires Inv(u) && EverySurfaceHasOutput(u)
    requires Enabled(u, Scan(node, report)) && !TakesName(u, Scan(node, report))
    ensures EverySurfaceHasOutput(HandleScan(u, node, report))
  {
    var u' := HandleScan(u, node, report);
    if report.Connected? { ConnectEffect(u, node, report); } else { DisconnectEffect(u, node, report); }
    forall t | Live(u', t)
      ensures HasOutput(u', t)
    {
      if Live(u, t) {
        var name :| name in u.outputs && u.outputs[name].target == Some(t);
        if report.Disconnected? { LeasableOrGone(u, node, report, t); }
        assert name in u'.outputs && u'.outputs[name].target == Some(t);
      } else {
        assert report.name in u'.outputs && u'.outputs[report.name].target == Some(t);
      }
    }
  }

  /** The surface of a connector reported as disconnected is gone. */
  lemma LeasableOrGone(u: State, node: Node, report: ScanEvent, t: Target)
    requires Inv(u) && node in u.backends && CanReport(u.backends[node], report) && report.Disconnected?
    requires Live(HandleScan(u, node, report), t)
    ensures t != Target(node, report.crtc)
  {
    assert DeviceInv(u.backends[node]);
    DisconnectEffect(u, node, report);
  }

  lemma RemovalKeepsOutputs(u: State, node: Node)
    requires EverySurfaceHasOutput(u)
    ensures EverySurfaceHasOutput(DeviceRemoved(u, node))
  {
    var u' := DeviceRemoved(u, node);
    forall t | Live(u', t)
      ensures HasOutput(u', t)
    {
      assert Live(u, t);
      var name :| name in u.outputs && u.outputs[name].target == Some(t);
      assert name in u'.outputs && u'.outputs[name].target == Some(t);
    }
  }

  /** A step leaves every live surface with an output if and only if it does not take a name in use. */
  lemma SurfacesKeepOutputsIffNoNameTaken(u: State, e: Event)
    requires Inv(u) && EverySurfaceHasOutput(u)
    ensures EverySurfaceHasOutput(Step(u, e)) <==> !TakesName(u, e)
  {
    var u' := Step(u, e);
    if TakesName(u, e) {
      TakenNameLosesOutput(u, e);
    } else if !IsHotplug(e) {
      SchedulingKeepsStructure(u, e);
      SameStructureKeepsInv(u, u');
      forall t | Live(u', t)
        ensures HasOutput(u', t)
      {
        assert HasOutput(u, t);
      }
    } else if Enabled(u, e) {
      match e
      case Scan(node, report) => FreeNameKeepsOutputs(u, node, report);
      case Removed(node) => RemovalKeepsOutputs(u, node);
      case Added(node) =>
        assert u'.outputs == u.outputs;
        forall t | Live(u', t)
          ensures HasOutput(u', t)
        {
          assert HasOutput(u, t);
        }
    }
  }

  predicate NamesStayDistinct(u: State, run: seq<Event>)
    decreases |run|
  {
    run != [] ==> !TakesName(u, run[0]) && NamesStayDistinct(Step(u, run[0]), run[1..])
  }

  /** While names stay distinct, udev outputs and live surfaces are in bijection. */
  lemma {:induction false} DistinctNamesGiveBijection(u: State, run: seq<Event>)
    requires Inv(u) && EverySurfaceHasOutput(u) && NamesStayDistinct(u, run)
    ensures Agree(After(u, run)) && EverySurfaceHasOutput(After(u, run))
    decreases |run|
  {
    if run != [] {
      StepKeepsInv(u, run[0]);
      SurfacesKeepOutputsIffNoNameTaken(u, run[0]);
      DistinctNamesGiveBijection(Step(u, run[0]), run[1..]);
    }
  }

  // What the reports say

  /** The connection of a crtc, from the events alone: what the last report about it set up, if it has not been
      disconnected and its device not removed since. */
  function Connection(u: State, e: Event, t: Target, before: Option<ScanEvent>): Option<ScanEvent> {
    if !Enabled(u, e) then before
    else
      match e
      case Scan(node, report) =>
        if Target(node, report.crtc) != t then before else if report.Connected? then Some(report) else None
      case Added(node) => if node == t.node then None else before
      case Removed(node) => if node == t.node then None else before
      case _ => before
  }

  function ConnectionAfter(u: State, run: seq<Event>, t: Target, before: Option<ScanEvent>): Option<ScanEvent>
    decreases |run|
  {
    if run == [] then before else ConnectionAfter(Step(u, run[0]), run[1..], t, Connection(u, run[0], t, before))
  }

  /** The crtc has a surface, or a leasable connector, exactly as it was set up, and only an output with the name
      of its connector refers to it. */
  ghost predicate IsAsReported(u: State, t: Target, c: Option<ScanEvent>) {
    && (c.None? ==> t.node !in u.backends || t.crtc !in u.backends[t.node].scanned)
    && (c.Some? ==>
          && c.value.Connected? && c.value.crtc == t.crtc
          && t.node in u.backends && t.crtc in u.backends[t.node].scanned
          && u.backends[t.node].scanned[t.crtc] == c.value.connector
          && ((c.value.connector, t.crtc) in u.backends[t.node].nonDesktop <==> c.value.setup.NonDesktop?))
    && (Live(u, t) <==> c.Some? && c.value.setup.Ready?)
    && forall name :: name in u.outputs && u.outputs[name].target == Some(t) ==> c.Some? && c.value.name == name
  }

  lemma OwnReport(u: State, node: Node, report: ScanEvent, c: Option<ScanEvent>)
    requires Inv(u) && node in u.backends && CanReport(u.backends[node], report)
    requires IsAsReported(u, Target(node, report.crtc), c)
    ensures IsAsReported(HandleScan(u, node, report), Target(node, report.crtc),
                         if report.Connected? then Some(report) else None)
  {
    assert DeviceInv(u.backends[node]);
    if report.Connected? {
      ConnectEffect(u, node, report);
    } else {
      DisconnectEffect(u, node, report);
      DisconnectKeepsDeviceInv(u, node, report);
    }
  }

  lemma LeasableStays(u: State, node: Node, report: ScanEvent, entry: (Connector, Crtc))
    requires Inv(u) && node in u.backends && CanReport(u.backends[node], report) && entry.1 != report.crtc
    ensures entry in HandleScan(u, node, report).backends[node].nonDesktop <==> entry in u.backends[node].nonDesktop
  {
    var d := u.backends[node];
    assert DeviceInv(d);
    if report.Disconnected? {
      var i := IndexOf(d.nonDesktop, report.connector);
      if i.Some? { RemovedEntry(d.nonDesktop, i.value, entry); }
    }
  }

  lemma RemovedEntry(entries: seq<(Connector, Crtc)>, i: nat, entry: (Connector, Crtc))
    requires i < |entries| && entries[i] != entry
    ensures entry in entries[..i] + entries[i + 1..] <==> entry in entries
  {
    assert entries == entries[..i] + [entries[i]] + entries[i + 1..];
  }

  lemma OtherReport(u: State, node: Node, report: ScanEvent, t: Target, c: Option<ScanEvent>)
    requires Inv(u) && node in u.backends && CanReport(u.backends[node], report)
    requires IsAsReported(u, t, c) && t != Target(node, report.crtc)
    ensures IsAsReported(HandleScan(u, node, report), t, c)
  {
    if report.Connected? { ConnectEffect(u, node, report); } else { DisconnectEffect(u, node, report); }
    if t.node == node && c.Some? { LeasableStays(u, node, report, (c.value.connector, t.crtc)); }
    ScannedStays(u, node, report, t);
  }

  lemma ScannedStays(u: State, node: Node, report: ScanEvent, t: Target)
    requires node in u.backends && t != Target(node, report.crtc)
    ensures var u' := HandleScan(u, node, report);
            && u'.backends.Keys == u.backends.Keys
            && (t.node in u.backends ==>
                  && (t.crtc in u'.backends[t.node].scanned <==> t.crtc in u.backends[t.node].scanned)
                  && (t.crtc in u.backends[t.node].scanned ==>
                        u'.backends[t.node].scanned[t.crtc] == u.backends[t.node].scanned[t.crtc])
                  && (t.node != node ==> u'.backends[t.node] == u.backends[t.node]))
  {
  }

  lemma SameStructureKeepsReports(u: State, u': State, t: Target, c: Option<ScanEvent>)
    requires Inv(u) && SameStructure(u, u') && IsAsReported(u, t, c)
    ensures IsAsReported(u', t, c)
  {
    SameStructureKeepsInv(u, u');
  }

  lemma StepIsAsReported(u: State, e: Event, t: Target, c: Option<ScanEvent>)
    requires Inv(u) && IsAsReported(u, t, c)
    ensures IsAsReported(Step(u, e), t, Connection(u, e, t, c))
  {
    if Enabled(u, e) {
      match e
      case Scan(node, report) =>
        if Target(node, report.crtc) == t {
          OwnReport(u, node, report, c);
        } else {
          OtherReport(u, node, report, t, c);
        }
      case Added(node) => AddedIsAsReported(u, node, t, c);
      case Removed(node) => RemovedIsAsReported(u, node, t, c);
      case _ =>
        SchedulingKeepsStructure(u, e);
        SameStructureKeepsReports(u, Step(u, e), t, c);
    }
  }

  lemma AddedIsAsReported(u: State, node: Node, t: Target, c: Option<ScanEvent>)
    requires Inv(u) && IsAsReported(u, t, c) && node !in u.backends
    ensures IsAsReported(DeviceAdded(u, node), t, if node == t.node then None else c)
  {
  }

  lemma RemovedIsAsReported(u: State, node: Node, t: Target, c: Option<ScanEvent>)
    requires Inv(u) && IsAsReported(u, t, c)
    ensures IsAsReported(DeviceRemoved(u, node), t, if node == t.node then None else c)
  {
    DeviceRemovedKeepsInv(u, node);
  }

  /** Over every run each crtc has a surface if and only if the last report about it set one up, a leasable
      connector if and only if it said so, and no output with a name other than its connector's. */
  lemma {:induction false} SurfacesAreAsReported(u: State, run: seq<Event>, t: Target, c: Option<ScanEvent>)
    requires Inv(u) && IsAsReported(u, t, c)
    ensures IsAsReported(After(u, run), t, ConnectionAfter(u, run, t, c))
    decreases |run|
  {
    if run != [] {
      StepKeepsInv(u, run[0]);
      StepIsAsReported(u, run[0], t, c);
      SurfacesAreAsReported(Step(u, run[0]), run[1..], t, Connection(u, run[0], t, c));
    }
  }

  /** So from the start, while names stay distinct, the output under a name refers to a crtc if and only if the
      last report about the crtc set up a connector of that name. */
  lemma OutputsAreAsReported(run: seq<Event>, t: Target, name: string)
    requires NamesStayDistinct(EMPTY, run)
    ensures var u, c := After(EMPTY, run), ConnectionAfter(EMPTY, run, t, None);
            name in u.outputs && u.outputs[name].target == Some(t)
            <==> c.Some? && c.value.Connected? && c.value.setup.Ready? && c.value.name == name
  {
    SurfacesAreAsReported(EMPTY, run, t, None);
    DistinctNamesGiveBijection(EMPTY, run);
    var u := After(EMPTY, run);
    if Live(u, t) {
      assert HasOutput(u, t);
    } else {
      assert name in u.outputs && u.outputs[name].target == Some(t) ==> Live(u, t);
    }
  }

  /** The step sets up an output under the name. */
  predicate SetsUp(u: State, e: Event, name: string) {
    Enabled(u, e) && e.Scan? && e.report.Connected? && e.report.setup.Ready? && e.report.name == name
  }

  predicate SetsUpIn(u: State, run: seq<Event>, name: string)
    decreases |run|
  {
    run != [] && (SetsUp(u, run[0], name) || SetsUpIn(Step(u, run[0]), run[1..], name))
  }

  lemma StepKeepsForeignOutput(u: State, e: Event, name: string)
    requires Inv(u) && name in u.outputs && u.outputs[name].target.None? && !SetsUp(u, e, name)
    ensures name in Step(u, e).outputs && Step(u, e).outputs[name] == u.outputs[name]
  {
    if Enabled(u, e) {
      match e
      case Scan(node, report) =>
        if report.Connected? { ConnectEffect(u, node, report); } else { DisconnectEffect(u, node, report); }
      case Added(_) =>
      case Removed(_) =>
      case _ => SchedulingKeepsStructure(u, e);
    }
  }

  /** The outputs of other backends are left alone, unless a connector takes their name. */
  lemma {:induction false} ForeignOutputsStay(u: State, run: seq<Event>, name: string)
    requires Inv(u) && name in u.outputs && u.outputs[name].target.None? && !SetsUpIn(u, run, name)
    ensures name in After(u, run).outputs && After(u, run).outputs[name] == u.outputs[name]
    decreases |run|
  {
    if run != [] {
      StepKeepsInv(u, run[0]);
      StepKeepsForeignOutput(u, run[0], name);
      ForeignOutputsStay(Step(u, run[0]), run[1..], name);
    }
  }
}

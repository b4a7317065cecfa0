/** No render request is lost, and every one is served after a bounded number of callbacks. */
module FrameScheduler {
  import opened Udev
  import opened UdevRuns

  /** The backend together with the surfaces that were asked to render since their last attempt. */
  datatype Sched = Sched(u: State, owed: set<Target>)

  function OwedAfter(r: Sched, e: Event): set<Target> {
    match e
    case Request(t) => r.owed + {t}
    case RequestAll(order) => r.owed + set t | t in order
    case Idle => if r.u.idles != [] then r.owed - {r.u.idles[0]} else r.owed
    case _ => r.owed
  }

  function Next(r: Sched, e: Event): Sched {
    var u' := Step(r.u, e);
    Sched(u', set t | t in OwedAfter(r, e) && Live(u', t))
  }

  function Run(r: Sched, run: seq<Event>): Sched
    decreases |run|
  {
    if run == [] then r else Run(Next(r, run[0]), run[1..])
  }

  predicate FlagsOk(u: State, t: Target)
    requires Live(u, t)
  {
    var s := SurfaceOf(u, t);
    && (s.scheduled ==> t in u.idles)
    && (s.pending ==> t in u.timers)
    && (s.waiting ==> s.pending)
    && !(s.scheduled && s.waiting)
  }

  ghost predicate AllFlagsOk(u: State) {
    forall t :: Live(u, t) ==> FlagsOk(u, t)
  }

  predicate Promised(u: State, t: Target)
    requires Live(u, t)
  {
    SurfaceOf(u, t).scheduled || SurfaceOf(u, t).waiting
  }

  /** A flag is backed by the callback that will clear it, and an owed render is promised. */
  ghost predicate NothingLost(r: Sched) {
    && AllFlagsOk(r.u)
    && (forall t :: t in r.owed ==> Live(r.u, t) && Promised(r.u, t))
  }

  lemma ScheduleRenderPromises(u: State, t: Target)
    requires AllFlagsOk(u)
    ensures var u' := ScheduleRender(u, t);
            && (forall t' :: Live(u', t') <==> Live(u, t'))
            && AllFlagsOk(u')
            && (forall t' :: Live(u', t') ==> (Promised(u', t') <==> t' == t || Promised(u, t')))
  {
  }

  lemma {:induction false} ScheduleAllPromises(u: State, order: seq<Target>)
    requires AllFlagsOk(u)
    ensures var u' := ScheduleAll(u, order);
            && (forall t' :: Live(u', t') <==> Live(u, t'))
            && AllFlagsOk(u')
            && (forall t' :: Live(u', t') ==> (Promised(u', t') <==> t' in order || Promised(u, t')))
  {
    if order != [] {
      var first := order[..|order| - 1];
      ScheduleAllPromises(u, first);
      var u1 := ScheduleAll(u, first);
      ScheduleRenderPromises(u1, order[|order| - 1]);
      assert order == first + [order[|order| - 1]];
    }
  }

  lemma FrameFinishKeepsPromises(u: State, t: Target, repaint: bool)
    requires AllFlagsOk(u)
    ensures var u' := FrameFinish(u, t, repaint);
            && (forall t' :: Live(u', t') <==> Live(u, t'))
            && AllFlagsOk(u')
            && (forall t' :: Live(u', t') ==> Promised(u, t') == Promised(u', t'))
  {
  }

  lemma TimerKeepsPromises(u: State, t: Target)
    requires t in u.timers
    requires AllFlagsOk(u)
    ensures var u' := TimerFires(u, t);
            && (forall t' :: Live(u', t') <==> Live(u, t'))
            && AllFlagsOk(u')
            && (forall t' :: Live(u', t') ==> Promised(u, t') == Promised(u', t'))
  {
    if Live(u, t) {
      var s := SurfaceOf(u, t);
      var cleared := WithSurface(u.(timers := u.timers - multiset{t}), t, s.(pending := false, waiting := false));
      forall t' | Live(cleared, t')
        ensures FlagsOk(cleared, t')
      {
        assert FlagsOk(u, t');
      }
      if s.waiting { ScheduleRenderPromises(cleared, t); }
    }
  }

  lemma IdleKeepsPromises(u: State)
    requires u.idles != []
    requires AllFlagsOk(u)
    ensures var u' := IdleRuns(u);
            && (forall t' :: Live(u', t') <==> Live(u, t'))
            && AllFlagsOk(u')
            && (forall t' :: Live(u', t') ==> (t' != u.idles[0] ==> Promised(u, t') == Promised(u', t')))
  {
    assert u.idles == [u.idles[0]] + u.idles[1..];
  }

  /** After a hotplug event a surface is either untouched or brand new. */
  lemma HotplugKeepsSurfaces(u: State, e: Event)
    requires IsHotplug(e)
    ensures var u' := Step(u, e);
            && u'.idles == u.idles && u'.timers == u.timers
            && forall t :: Live(u', t) ==>
                             (Live(u, t) && SurfaceOf(u', t) == SurfaceOf(u, t)) || SurfaceOf(u', t) == FRESH
    ensures !e.Scan? ==> forall t :: Live(Step(u, e), t) ==> Live(u, t)
  {
    if Enabled(u, e) {
      match e
      case Added(_) =>
      case Scan(node, report) => ScanKeepsSurfaces(u, node, report);
      case Removed(_) =>
    }
  }

  lemma ScanKeepsSurfaces(u: State, node: Node, report: ScanEvent)
    requires node in u.backends
    ensures var u' := HandleScan(u, node, report);
            && u'.idles == u.idles && u'.timers == u.timers
            && forall t :: Live(u', t) ==>
                             (Live(u, t) && SurfaceOf(u', t) == SurfaceOf(u, t)) || SurfaceOf(u', t) == FRESH
  {
  }

  lemma HotplugLosesNothing(r: Sched, e: Event)
    requires IsHotplug(e) && NothingLost(r) && Inv(r.u)
    ensures NothingLost(Next(r, e))
  {
    HotplugKeepsSurfaces(r.u, e);
    var u' := Step(r.u, e);
    forall t | Live(u', t)
      ensures FlagsOk(u', t) && (t in r.owed ==> Promised(u', t))
    {
      if t in r.owed { HotplugKeepsLiveSurface(r.u, e, t); }
    }
  }

  /** No hotplug event replaces a surface that is alive. */
  lemma HotplugKeepsLiveSurface(u: State, e: Event, t: Target)
    requires Inv(u) && IsHotplug(e) && Live(u, t) && Live(Step(u, e), t)
    ensures SurfaceOf(Step(u, e), t) == SurfaceOf(u, t)
  {
    assert DeviceInv(u.backends[t.node]);
    if e.Scan? && Enabled(u, e) { ScanKeepsLiveSurface(u, e.node, e.report, t); }
  }

  lemma ScanKeepsLiveSurface(u: State, node: Node, report: ScanEvent, t: Target)
    requires node in u.backends && CanReport(u.backends[node], report) && DeviceInv(u.backends[node])
    requires Live(u, t) && Live(HandleScan(u, node, report), t)
    ensures SurfaceOf(HandleScan(u, node, report), t) == SurfaceOf(u, t)
  {
  }

  lemma SchedulingLosesNothing(r: Sched, e: Event)
    requires !IsHotplug(e) && Enabled(r.u, e) && NothingLost(r)
    ensures NothingLost(Next(r, e))
  {
    match e
    case Request(t) => ScheduleRenderPromises(r.u, t);
    case RequestAll(order) => ScheduleAllPromises(r.u, order);
    case VBlank(t, repaint) => FrameFinishKeepsPromises(r.u, t, repaint);
    case Timer(t) => TimerKeepsPromises(r.u, t);
    case Idle => IdleKeepsPromises(r.u);
  }

  lemma DisabledLosesNothing(r: Sched, e: Event)
    requires !Enabled(r.u, e) && NothingLost(r)
    ensures Next(r, e) == r
  {
  }

  lemma StepLosesNothing(r: Sched, e: Event)
    requires Inv(r.u) && NothingLost(r)
    ensures NothingLost(Next(r, e))
  {
    if !Enabled(r.u, e) {
      DisabledLosesNothing(r, e);
    } else if IsHotplug(e) {
      HotplugLosesNothing(r, e);
    } else {
      SchedulingLosesNothing(r, e);
    }
  }

  /** Over all runs of requests, vertical blanks, timers, idle callbacks and hotplug events, also when a
      surface reappears on the crtc of an old one: every owed render is still promised, and every flag is
      backed by a queued callback. */
  lemma {:induction false} NoRenderRequestIsLost(r: Sched, run: seq<Event>)
    requires Inv(r.u) && NothingLost(r)
    ensures Inv(Run(r, run).u) && NothingLost(Run(r, run))
    decreases |run|
  {
    if run != [] {
      StepKeepsInv(r.u, run[0]);
      StepLosesNothing(r, run[0]);
      NoRenderRequestIsLost(Next(r, run[0]), run[1..]);
    }
  }

  lemma StartLosesNothing()
    ensures Inv(EMPTY) && NothingLost(Sched(EMPTY, {}))
  {
  }

  // Bounded response

  /** How far an owed render is from its attempt: a timer and an idle callback, an idle callback, or done. */
  function Rank(r: Sched, t: Target): nat
    requires t in r.owed ==> Live(r.u, t)
  {
    if t !in r.owed then 0 else if SurfaceOf(r.u, t).waiting then 2 else 1
  }

  lemma {:induction false} ScheduleAllKeepsPromised(u: State, order: seq<Target>, t: Target)
    requires Live(u, t) && FlagsOk(u, t) && Promised(u, t)
    ensures Live(ScheduleAll(u, order), t) && SurfaceOf(ScheduleAll(u, order), t) == SurfaceOf(u, t)
  {
    if order != [] { ScheduleAllKeepsPromised(u, order[..|order| - 1], t); }
  }

  /** A promised surface is made to wait by nothing, and its timer ends its wait. */
  lemma WaitingIsNeverSet(u: State, e: Event, t: Target)
    requires Inv(u) && Live(u, t) && FlagsOk(u, t) && Promised(u, t) && Enabled(u, e) && Live(Step(u, e), t)
    ensures SurfaceOf(Step(u, e), t).waiting ==> SurfaceOf(u, t).waiting && e != Timer(t)
  {
    if IsHotplug(e) {
      HotplugKeepsLiveSurface(u, e, t);
    } else if e.RequestAll? {
      ScheduleAllKeepsPromised(u, e.order, t);
    } else if e.Timer? {
      TimerEndsWait(u, e.t, t);
    }
  }

  lemma TimerEndsWait(u: State, fired: Target, t: Target)
    requires Live(u, t) && FlagsOk(u, t)
    ensures SurfaceOf(TimerFires(u, fired), t).waiting ==> SurfaceOf(u, t).waiting && fired != t
  {
  }

  /** The rank never rises. It drops when a timer of the surface fires at rank 2 and when an idle callback
      of the surface runs. */
  lemma RankNeverRises(r: Sched, e: Event, t: Target)
    requires Inv(r.u) && NothingLost(r) && t in r.owed
    ensures NothingLost(Next(r, e))
    ensures Rank(Next(r, e), t) <= Rank(r, t)
    ensures e == Timer(t) && t in r.u.timers ==> Rank(Next(r, e), t) <= 1
    ensures e == Idle && r.u.idles != [] && r.u.idles[0] == t ==> Rank(Next(r, e), t) == 0
  {
    StepLosesNothing(r, e);
    if Enabled(r.u, e) && Live(Step(r.u, e), t) {
      WaitingIsNeverSet(r.u, e, t);
    }
  }

  /** At rank 2 a timer of the surface is outstanding, at rank 1 an idle callback of it is queued. */
  lemma RankIsBacked(r: Sched, t: Target)
    requires NothingLost(r) && t in r.owed
    ensures Rank(r, t) == 2 ==> t in r.u.timers
    ensures Rank(r, t) == 1 ==> t in r.u.idles
  {
    assert FlagsOk(r.u, t);
  }

  function Idles(run: seq<Event>): nat {
    if run == [] then 0 else (if run[0].Idle? then 1 else 0) + Idles(run[1..])
  }

  /** Some point of the run has no render owed to the surface: it was attempted, or the surface vanished. */
  predicate Served(r: Sched, run: seq<Event>, t: Target)
    decreases |run|
  {
    t !in r.owed || (run != [] && Served(Next(r, run[0]), run[1..], t))
  }

  lemma {:induction false} ScheduleAllAppends(u: State, order: seq<Target>)
    ensures u.idles <= ScheduleAll(u, order).idles
  {
    if order != [] { ScheduleAllAppends(u, order[..|order| - 1]); }
  }

  lemma IdlesOnlyGrow(u: State, e: Event)
    requires !e.Idle?
    ensures u.idles <= Step(u, e).idles
  {
    if e.RequestAll? { ScheduleAllAppends(u, e.order); }
    if IsHotplug(e) { HotplugKeepsSurfaces(u, e); }
  }

  /** With an idle callback of the surface at position `k`, the render is attempted by the time `k + 1`
      idle callbacks have run, whatever happens in between. */
  lemma {:induction false} ServedFromTheQueue(r: Sched, run: seq<Event>, t: Target, k: nat)
    requires Inv(r.u) && NothingLost(r)
    requires k < |r.u.idles| && r.u.idles[k] == t && Idles(run) > k
    ensures Served(r, run, t)
    decreases |run|
  {
    var e, r' := run[0], Next(r, run[0]);
    StepKeepsInv(r.u, e);
    StepLosesNothing(r, e);
    if !e.Idle? {
      IdlesOnlyGrow(r.u, e);
      ServedFromTheQueue(r', run[1..], t, k);
    } else if k > 0 {
      ServedFromTheQueue(r', run[1..], t, k - 1);
    }
  }

  /** Once a timer of the surface fires, the render is attempted by the time the idle callbacks then queued
      have run. */
  lemma ServedAfterTimerAndIdles(r: Sched, run: seq<Event>, t: Target)
    requires Inv(r.u) && NothingLost(r) && t in r.u.timers
    requires Idles(run) >= |TimerFires(r.u, t).idles|
    ensures Served(r, [Timer(t)] + run, t)
  {
    var r' := Next(r, Timer(t));
    assert ([Timer(t)] + run)[1..] == run;
    if t in r'.owed {
      StepKeepsInv(r.u, Timer(t));
      RankNeverRises(r, Timer(t), t);
      RankIsBacked(r', t);
      var k :| 0 <= k < |r'.u.idles| && r'.u.idles[k] == t;
      ServedFromTheQueue(r', run, t, k);
    }
  }

  // Pacing

  /** A frame of the surface is out and no further one is scheduled. */
  predicate Paced(u: State, t: Target) {
    Live(u, t) && SurfaceOf(u, t).pending && !SurfaceOf(u, t).scheduled && t !in u.idles
  }

  predicate StaysLive(u: State, run: seq<Event>, t: Target)
    decreases |run|
  {
    Live(u, t) && (run != [] ==> StaysLive(Step(u, run[0]), run[1..], t))
  }

  lemma {:induction false} ScheduleAllKeepsPaced(u: State, order: seq<Target>, t: Target)
    requires Paced(u, t)
    ensures Paced(ScheduleAll(u, order), t)
  {
    if order != [] { ScheduleAllKeepsPaced(u, order[..|order| - 1], t); }
  }

  lemma StepKeepsPaced(u: State, e: Event, t: Target)
    requires Inv(u) && Paced(u, t) && e != Timer(t) && Live(Step(u, e), t)
    ensures Paced(Step(u, e), t)
  {
    if IsHotplug(e) {
      HotplugKeepsLiveSurface(u, e, t);
      HotplugKeepsSurfaces(u, e);
    } else if e.RequestAll? {
      ScheduleAllKeepsPaced(u, e.order, t);
    } else if e.Timer? {
      OtherTimerKeepsPaced(u, e.t, t);
    }
  }

  lemma OtherTimerKeepsPaced(u: State, fired: Target, t: Target)
    requires Paced(u, t) && fired != t
    ensures Paced(TimerFires(u, fired), t)
  {
  }

  /** Frames are paced: after the vertical blank of a frame that is repainted, with no render already
      scheduled, no render of the surface is queued until its timer fires, however many are requested. */
  lemma {:induction false} NoRenderBeforeTimer(u: State, run: seq<Event>, t: Target)
    requires Inv(u) && Paced(u, t) && StaysLive(u, run, t) && Timer(t) !in run
    ensures Paced(After(u, run), t)
    decreases |run|
  {
    if run != [] {
      assert run[0] in run;
      StepKeepsInv(u, run[0]);
      StepKeepsPaced(u, run[0], t);
      NoRenderBeforeTimer(Step(u, run[0]), run[1..], t);
    }
  }

  lemma VBlankPaces(u: State, t: Target, run: seq<Event>)
    requires Inv(u) && HasOutput(u, t) && Live(u, t) && !SurfaceOf(u, t).scheduled && t !in u.idles
    requires var u' := Step(u, VBlank(t, true)); StaysLive(u', run, t) && Timer(t) !in run
    ensures t !in After(Step(u, VBlank(t, true)), run).idles
  {
    StepKeepsInv(u, VBlank(t, true));
    NoRenderBeforeTimer(Step(u, VBlank(t, true)), run, t);
  }

  // What each flag and timer goes back to

  /** A vertical blank that makes the surface pending. */
  predicate Repaints(u: State, e: Event, t: Target) {
    e == VBlank(t, true) && Live(u, t) && HasOutput(u, t)
  }

  lemma ScheduleRenderKeepsPending(u: State, s: Target, t: Target)
    requires Live(u, t)
    ensures var u' := ScheduleRender(u, s);
            && Live(u', t) && SurfaceOf(u', t).pending == SurfaceOf(u, t).pending
            && (SurfaceOf(u, t).waiting ==> SurfaceOf(u', t).waiting)
            && (SurfaceOf(u, t).pending ==>
                  && multiset(u'.idles)[t] == multiset(u.idles)[t]
                  && SurfaceOf(u', t).scheduled == SurfaceOf(u, t).scheduled)
  {
  }

  lemma {:induction false} ScheduleAllKeepsPending(u: State, order: seq<Target>, t: Target)
    requires Live(u, t)
    ensures var u' := ScheduleAll(u, order);
            && Live(u', t) && SurfaceOf(u', t).pending == SurfaceOf(u, t).pending
            && (SurfaceOf(u, t).waiting ==> SurfaceOf(u', t).waiting)
            && (SurfaceOf(u, t).pending ==>
                  && multiset(u'.idles)[t] == multiset(u.idles)[t]
                  && SurfaceOf(u', t).scheduled == SurfaceOf(u, t).scheduled)
  {
    if order != [] {
      ScheduleAllKeepsPending(u, order[..|order| - 1], t);
      ScheduleRenderKeepsPending(ScheduleAll(u, order[..|order| - 1]), order[|order| - 1], t);
    }
  }

  /** How one step changes the flags of a surface that lives through it. */
  lemma StepChangesFlags(u: State, e: Event, t: Target)
    requires Inv(u) && Live(u, t) && Live(Step(u, e), t)
    ensures var s, u' := SurfaceOf(u, t), Step(u, e);
            var s' := SurfaceOf(u', t);
            && (s'.pending <==> Repaints(u, e, t) || (s.pending && !(e == Timer(t) && t in u.timers)))
            && (s.waiting && !(e == Timer(t) && t in u.timers) ==> s'.waiting)
            && (s.pending && s'.pending ==>
                  && multiset(u'.idles)[t] <= multiset(u.idles)[t]
                  && (s'.scheduled <==> s.scheduled && !(e == Idle && u.idles != [] && u.idles[0] == t)))
  {
    if Enabled(u, e) {
      match e
      case Request(s) => ScheduleRenderKeepsPending(u, s, t);
      case RequestAll(order) => ScheduleAllKeepsPending(u, order, t);
      case Timer(fired) => TimerChangesFlags(u, fired, t);
      case Idle => IdleChangesFlags(u, t);
      case VBlank(_, _) =>
      case _ => HotplugKeepsLiveSurface(u, e, t); HotplugKeepsSurfaces(u, e);
    }
  }

  lemma IdleChangesFlags(u: State, t: Target)
    requires u.idles != [] && Live(u, t)
    ensures var u' := IdleRuns(u);
            && Live(u', t) && multiset(u'.idles)[t] <= multiset(u.idles)[t]
            && SurfaceOf(u', t) == if u.idles[0] == t then SurfaceOf(u, t).(scheduled := false) else SurfaceOf(u, t)
  {
    assert u.idles == [u.idles[0]] + u.idles[1..];
  }

  lemma TimerChangesFlags(u: State, fired: Target, t: Target)
    requires Live(u, t)
    ensures var u' := TimerFires(u, fired);
            && Live(u', t)
            && (fired == t ==> !SurfaceOf(u', t).pending)
            && (fired != t ==> SurfaceOf(u', t) == SurfaceOf(u, t) && multiset(u'.idles)[t] == multiset(u.idles)[t])
  {
    if fired == t {
      var s := SurfaceOf(u, t).(pending := false, waiting := false);
      ScheduleRenderKeepsPending(WithSurface(u.(timers := u.timers - multiset{t}), t, s), t, t);
    }
  }

  /** Requests for several surfaces are made one after the other, in their order. */
  lemma {:induction false} RequestsAreInOrder(u: State, a: seq<Target>, b: seq<Target>)
    ensures ScheduleAll(u, a + b) == ScheduleAll(ScheduleAll(u, a), b)
    ensures |a| == 1 ==> ScheduleAll(u, a) == ScheduleRender(u, a[0])
  {
    if b == [] {
      assert a + b == a;
    } else {
      var n := |b| - 1;
      RequestsAreInOrder(u, a, b[..n]);
      assert (a + b)[..|a| + n] == a + b[..n];
    }
    if |a| == 1 { assert a[..0] == []; }
  }

  /** Whether a surface is pending, from the events alone: a repaint makes it so, its timer ends it. */
  function PendingAfter(u: State, run: seq<Event>, t: Target, before: bool): bool
    decreases |run|
  {
    if run == [] then before
    else
      PendingAfter(Step(u, run[0]), run[1..], t,
                   Repaints(u, run[0], t) || (before && !(run[0] == Timer(t) && t in u.timers)))
  }

  /** Over every run in which the surface stays alive it is pending exactly if its last repaint is later than
      the last timer of it that fired. No request and no idle callback changes that. */
  lemma {:induction false} PendingFollowsRepaintsAndTimers(u: State, run: seq<Event>, t: Target)
    requires Inv(u) && StaysLive(u, run, t)
    ensures Live(After(u, run), t)
    ensures SurfaceOf(After(u, run), t).pending == PendingAfter(u, run, t, SurfaceOf(u, t).pending)
    decreases |run|
  {
    if run != [] {
      StepKeepsInv(u, run[0]);
      StepChangesFlags(u, run[0], t);
      PendingFollowsRepaintsAndTimers(Step(u, run[0]), run[1..], t);
    }
  }

  /** Once a surface is pending, it stays so over every run in which it stays alive and its timer does not fire,
      also with idle callbacks of it queued; a wait stays as well, the number of these callbacks never grows, and
      nothing schedules the surface. */
  lemma {:induction false} PendingLastsUntilTimer(u: State, run: seq<Event>, t: Target)
    requires Inv(u) && StaysLive(u, run, t) && SurfaceOf(u, t).pending && Timer(t) !in run
    ensures var u' := After(u, run);
            && Live(u', t) && SurfaceOf(u', t).pending
            && (SurfaceOf(u, t).waiting ==> SurfaceOf(u', t).waiting)
            && (SurfaceOf(u', t).scheduled ==> SurfaceOf(u, t).scheduled)
            && multiset(u'.idles)[t] <= multiset(u.idles)[t]
    decreases |run|
  {
    if run != [] {
      assert run[0] in run;
      StepKeepsInv(u, run[0]);
      StepChangesFlags(u, run[0], t);
      PendingLastsUntilTimer(Step(u, run[0]), run[1..], t);
    }
  }

  function CountRepaints(u: State, run: seq<Event>, t: Target): nat
    decreases |run|
  {
    if run == [] then 0
    else (if Repaints(u, run[0], t) then 1 else 0) + CountRepaints(Step(u, run[0]), run[1..], t)
  }

  function CountTimers(u: State, run: seq<Event>, t: Target): nat
    decreases |run|
  {
    if run == [] then 0
    else (if run[0] == Timer(t) && t in u.timers then 1 else 0) + CountTimers(Step(u, run[0]), run[1..], t)
  }

  lemma {:induction false} ScheduleAllKeepsTimers(u: State, order: seq<Target>)
    ensures ScheduleAll(u, order).timers == u.timers
  {
    if order != [] { ScheduleAllKeepsTimers(u, order[..|order| - 1]); }
  }

  lemma StepCountsTimers(u: State, e: Event, t: Target)
    ensures Step(u, e).timers[t] + (if e == Timer(t) && t in u.timers then 1 else 0)
            == u.timers[t] + if Repaints(u, e, t) then 1 else 0
  {
    if Enabled(u, e) {
      match e
      case RequestAll(order) => ScheduleAllKeepsTimers(u, order);
      case VBlank(s, repaint) => FrameFinishTimers(u, s, repaint);
      case Timer(s) => TimerFiresTimers(u, s);
      case Request(s) =>
      case Idle =>
      case _ => HotplugKeepsSurfaces(u, e);
    }
  }

  lemma FrameFinishTimers(u: State, t: Target, repaint: bool)
    ensures FrameFinish(u, t, repaint).timers
            == if Repaints(u, VBlank(t, repaint), t) then u.timers + multiset{t} else u.timers
  {
  }

  lemma TimerFiresTimers(u: State, t: Target)
    ensures TimerFires(u, t).timers == u.timers - multiset{t}
  {
  }

  /** Timers are conserved over every run: those of a surface that have fired and those still outstanding are
      those it had and one for each of its repaints. */
  lemma {:induction false} TimersAreConserved(u: State, run: seq<Event>, t: Target)
    ensures After(u, run).timers[t] + CountTimers(u, run, t) == u.timers[t] + CountRepaints(u, run, t)
    decreases |run|
  {
    if run != [] {
      StepCountsTimers(u, run[0], t);
      TimersAreConserved(Step(u, run[0]), run[1..], t);
    }
  }

  // Without hotplug

  /** As many idle callbacks of each surface are queued as it has the flag set. */
  ghost predicate OneIdleIfScheduled(u: State) {
    forall t :: Live(u, t) ==> multiset(u.idles)[t] == if SurfaceOf(u, t).scheduled then 1 else 0
  }

  lemma {:induction false} ScheduleAllCountsIdles(u: State, order: seq<Target>)
    requires OneIdleIfScheduled(u)
    ensures OneIdleIfScheduled(ScheduleAll(u, order))
  {
    if order != [] {
      ScheduleAllCountsIdles(u, order[..|order| - 1]);
      ScheduleRenderCountsIdles(ScheduleAll(u, order[..|order| - 1]), order[|order| - 1]);
    }
  }

  lemma ScheduleRenderCountsIdles(u: State, t: Target)
    requires OneIdleIfScheduled(u)
    ensures OneIdleIfScheduled(ScheduleRender(u, t))
  {
  }

  lemma TimerCountsIdles(u: State, t: Target)
    requires OneIdleIfScheduled(u)
    ensures OneIdleIfScheduled(TimerFires(u, t))
  {
    var u' := u.(timers := u.timers - multiset{t});
    if Live(u, t) {
      var s := SurfaceOf(u, t);
      var cleared := WithSurface(u', t, s.(pending := false, waiting := false));
      assert OneIdleIfScheduled(cleared);
      ScheduleRenderCountsIdles(cleared, t);
    }
  }

  lemma IdleCountsIdles(u: State)
    requires OneIdleIfScheduled(u) && u.idles != []
    ensures OneIdleIfScheduled(IdleRuns(u))
  {
    assert u.idles == [u.idles[0]] + u.idles[1..];
    var u' := IdleRuns(u);
    assert u'.idles == u.idles[1..];
    forall t | Live(u', t)
      ensures multiset(u'.idles)[t] == if SurfaceOf(u', t).scheduled then 1 else 0
    {
      assert Live(u, t);
      assert multiset(u.idles)[t] == multiset(u'.idles)[t] + if t == u.idles[0] then 1 else 0;
    }
  }

  lemma StepCountsIdles(u: State, e: Event)
    requires OneIdleIfScheduled(u) && !IsHotplug(e)
    ensures OneIdleIfScheduled(Step(u, e))
  {
    match e
    case Request(t) => ScheduleRenderCountsIdles(u, t);
    case RequestAll(order) => ScheduleAllCountsIdles(u, order);
    case Timer(t) => TimerCountsIdles(u, t);
    case Idle => if u.idles != [] { IdleCountsIdles(u); }
    case _ =>
  }

  /** While no device or connector changes, a surface has exactly one idle callback queued if it is
      scheduled and none otherwise. */
  lemma {:induction false} ExactlyOneIdleWithoutHotplug(u: State, run: seq<Event>)
    requires OneIdleIfScheduled(u)
    requires forall e :: e in run ==> !IsHotplug(e)
    ensures OneIdleIfScheduled(After(u, run))
    decreases |run|
  {
    if run != [] {
      StepCountsIdles(u, run[0]);
      ExactlyOneIdleWithoutHotplug(Step(u, run[0]), run[1..]);
    }
  }
}

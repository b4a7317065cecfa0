/** Shutting down: the main thread, four workers and the channels between them (main.rs, comms.rs). */
module Shutdown {
  datatype Worker = ConfigWorker | InputWorker | RendererWorker | DisplayWorker

  /** Whoever owns a clone of the sending ends, of all channels at once. */
  datatype Owner = MainThread | WorkerThread(w: Worker)

  datatype Message = ShutDown | OtherMessage

  // Channels

  /** A worker's channel is open while its receiver exists. Main only ever receives shutdown requests, so
      they are counted. */
  datatype Channels = Channels(queues: map<Worker, seq<Message>>, open: set<Worker>, toMain: nat, mainOpen: bool)

  predicate ChannelsOk(c: Channels) { forall w: Worker :: w in c.queues }

  function SendToMain(c: Channels): Channels {
    if c.mainOpen then c.(toMain := c.toMain + 1) else c
  }

  /** A send to a worker whose channel is closed turns into a shutdown request to main. */
  function SendTo(c: Channels, w: Worker, m: Message): Channels
    requires ChannelsOk(c)
  {
    if w in c.open then c.(queues := c.queues[w := c.queues[w] + [m]]) else SendToMain(c)
  }

  /** It panics if main's channel is closed as well. */
  predicate SendPanics(c: Channels, w: Worker) { w !in c.open && !c.mainOpen }

  class Comms {
    var queues: map<Worker, seq<Message>>
    var open: set<Worker>
    var toMain: nat
    var mainOpen: bool

    ghost function View(): Channels
      reads this
    {
      Channels(queues, open, toMain, mainOpen)
    }

    constructor ()
      ensures View() == NEW_CHANNELS
    {
      queues := NEW_CHANNELS.queues;
      open := NEW_CHANNELS.open;
      toMain := 0;
      mainOpen := true;
    }

    method RequestShutdown() returns (panicked: bool)
      modifies this
      ensures View() == SendToMain(old(View()))
      ensures panicked <==> !old(mainOpen)
    {
      if !mainOpen { return true; }
      toMain := toMain + 1;
      return false;
    }

    method Send(w: Worker, m: Message) returns (panicked: bool)
      requires ChannelsOk(View())
      modifies this
      ensures View() == SendTo(old(View()), w, m)
      ensures panicked <==> SendPanics(old(View()), w)
    {
      if w in open {
        queues := queues[w := queues[w] + [m]];
        return false;
      }
      panicked := RequestShutdown();
    }
  }

  const NEW_CHANNELS := Channels(
      map[ConfigWorker := [], InputWorker := [], RendererWorker := [], DisplayWorker := []],
      {ConfigWorker, InputWorker, RendererWorker, DisplayWorker}, 0, true)

  // The whole system

  /** A worker runs its loop, has left it (its receiver is gone), or has finished. */
  datatype Phase = Running | Leaving | Finished

  /** `owners` own sending ends: main its own clone until it stops, each worker the one it was started with
      until it leaves its loop. `asked` are the workers that have handled a shutdown message; `pending` are the
      workers main has yet to tell in its broadcast, and `broadcasts` counts these. */
  datatype System = System(
    channels: Channels,
    owners: set<Owner>,
    phases: map<Worker, Phase>,
    asked: set<Worker>,
    shuttingDown: bool,
    pending: seq<Worker>,
    timerArmed: bool,
    force: bool,
    broadcasts: nat)

  const START := System(
      NEW_CHANNELS,
      {MainThread, WorkerThread(ConfigWorker), WorkerThread(InputWorker), WorkerThread(RendererWorker),
       WorkerThread(DisplayWorker)},
      map[ConfigWorker := Running, InputWorker := Running, RendererWorker := Running, DisplayWorker := Running],
      {}, false, [], false, false, 0)

  const BROADCAST_ORDER := [InputWorker, DisplayWorker, RendererWorker, ConfigWorker]

  predicate MainStopped(s: System) { !s.channels.mainOpen }

  predicate AllFinished(s: System) {
    forall w: Worker :: w in s.phases && s.phases[w].Finished?
  }

  predicate MayStop(s: System) {
    (s.shuttingDown && AllFinished(s)) || s.force
  }

  datatype Event =
    | Talks(w: Worker, to: Worker)
    | AsksMain(w: Worker)
    | Receives(w: Worker)
    | Waits(w: Worker)
    | Fails(w: Worker)
    | ChannelCloses(w: Worker)
    | Finishes(w: Worker)
    | MainReceives
    | MainTells(timerInserted: bool)
    | TimerFires
    | MainWaits

  /** Leaving the loop drops the receiver, and with it the worker's sending ends. */
  function Leave(s: System, w: Worker): System {
    s.(phases := s.phases[w := Leaving], channels := s.channels.(open := s.channels.open - {w}),
    owners := s.owners - {WorkerThread(w)})
  }

  predicate IsRunning(s: System, w: Worker) { w in s.phases && s.phases[w].Running? }

  predicate Enabled(s: System, e: Event) {
    ChannelsOk(s.channels) &&
    match e
    case Talks(w, _) => IsRunning(s, w)
    case AsksMain(w) => IsRunning(s, w)
    case Receives(w) => IsRunning(s, w) && s.channels.queues[w] != []
    case Waits(w) => IsRunning(s, w) && w in s.asked
    case Fails(w) => IsRunning(s, w)
    case ChannelCloses(w) => IsRunning(s, w) && s.owners == {}
    case Finishes(w) => w in s.phases && s.phases[w].Leaving?
    case MainReceives => !MainStopped(s) && s.pending == [] && s.channels.toMain > 0
    case MainTells(_) => !MainStopped(s) && s.pending != []
    case TimerFires => !MainStopped(s) && s.timerArmed
    case MainWaits => !MainStopped(s) && s.pending == [] && MayStop(s)
  }

  function Step(s: System, e: Event): System
    requires Enabled(s, e)
  {
    match e
    case Talks(w, to) =>
      if SendPanics(s.channels, to) then Leave(s, w) else s.(channels := SendTo(s.channels, to, OtherMessage))
    case AsksMain(w) => if MainStopped(s) then Leave(s, w) else s.(channels := SendToMain(s.channels))
    case Receives(w) =>
      var q := s.channels.queues[w];
      s.(channels := s.channels.(queues := s.channels.queues[w := q[1..]]),
      asked := if q[0].ShutDown? then s.asked + {w} else s.asked)
    case Waits(w) => Leave(s, w)
    case Fails(w) => Leave(s, w)
    case ChannelCloses(w) => Leave(s, w)
    case Finishes(w) => s.(phases := s.phases[w := Finished], channels := SendToMain(s.channels))
    case MainReceives =>
      var s' := s.(channels := s.channels.(toMain := s.channels.toMain - 1));
      if s.shuttingDown then s'
      else s'.(shuttingDown := true, pending := BROADCAST_ORDER, broadcasts := s.broadcasts + 1)
    case MainTells(timerInserted) => Tell(s, timerInserted)
    case TimerFires => s.(timerArmed := false, force := true)
    case MainWaits => s.(channels := s.channels.(mainOpen := false), owners := s.owners - {MainThread})
  }

  /** Main tells the next worker; after the last it arms the timer, or gives up if it cannot. */
  function Tell(s: System, timerInserted: bool): System
    requires ChannelsOk(s.channels) && s.pending != []
  {
    var s' := s.(channels := SendTo(s.channels, s.pending[0], ShutDown), pending := s.pending[1..]);
    if s'.pending != [] then s'
    else if timerInserted then s'.(timerArmed := true)
    else s'.(force := true)
  }

  function Next(s: System, e: Event): System {
    if Enabled(s, e) then Step(s, e) else s
  }

  function Run(s: System, run: seq<Event>): System
    decreases |run|
  {
    if run == [] then s else Run(Next(s, run[0]), run[1..])
  }

  class MainData {
    const comms: Comms
    var shuttingDown: bool
    var forceShuttingDown: bool
    var timerArmed: bool
    ghost var broadcasts: nat

    constructor (c: Comms)
      ensures comms == c && !shuttingDown && !forceShuttingDown && !timerArmed && broadcasts == 0
    {
      comms := c;
      shuttingDown, forceShuttingDown, timerArmed, broadcasts := false, false, false, 0;
    }

    /** The first request tells every worker in turn, and arms the timer unless that fails; later ones do
        nothing. */
    method OnShutdownMessage(timerInserted: bool)
      requires ChannelsOk(comms.View()) && comms.mainOpen && comms.toMain > 0
      modifies this, comms
      ensures var taken := old(comms.View()).(toMain := old(comms.toMain) - 1);
              comms.View() == if old(shuttingDown) then taken else TellAll(taken, BROADCAST_ORDER)
      ensures shuttingDown
      ensures broadcasts == old(broadcasts) + if old(shuttingDown) then 0 else 1
      ensures timerArmed <==> old(timerArmed) || (!old(shuttingDown) && timerInserted)
      ensures forceShuttingDown <==> old(forceShuttingDown) || (!old(shuttingDown) && !timerInserted)
    {
      comms.toMain := comms.toMain - 1;
      if !shuttingDown {
        ghost var c := comms.View();
        shuttingDown := true;
        broadcasts := broadcasts + 1;
        var _ := comms.Send(InputWorker, ShutDown);
        var _ := comms.Send(DisplayWorker, ShutDown);
        var _ := comms.Send(RendererWorker, ShutDown);
        var _ := comms.Send(ConfigWorker, ShutDown);
        TellAllFour(c);
        if timerInserted { timerArmed := true; } else { forceShuttingDown := true; }
      }
    }

    method OnTimer()
      modifies this
      ensures forceShuttingDown && !timerArmed && shuttingDown == old(shuttingDown)
    {
      forceShuttingDown := true;
      timerArmed := false;
    }

    method OnWait(finished: set<Worker>) returns (stop: bool)
      ensures stop <==> (shuttingDown && forall w: Worker :: w in finished) || forceShuttingDown
    {
      stop := (shuttingDown
               && ConfigWorker in finished
               && InputWorker in finished
               && DisplayWorker in finished
               && RendererWorker in finished)
              || forceShuttingDown;
      assert (forall w: Worker :: w in finished) <==>
             {ConfigWorker, InputWorker, DisplayWorker, RendererWorker} <= finished
      by {
        forall w: Worker | {ConfigWorker, InputWorker, DisplayWorker, RendererWorker} <= finished
          ensures w in finished
        {
          match w
          case ConfigWorker =>
          case InputWorker =>
          case RendererWorker =>
          case DisplayWorker =>
        }
      }
    }
  }

  function TellAll(c: Channels, workers: seq<Worker>): (c': Channels)
    requires ChannelsOk(c)
    ensures ChannelsOk(c')
    decreases |workers|
  {
    if workers == [] then c else TellAll(SendTo(c, workers[0], ShutDown), workers[1..])
  }

  lemma TellAllFour(c: Channels)
    requires ChannelsOk(c)
    ensures TellAll(c, BROADCAST_ORDER) ==
            SendTo(SendTo(SendTo(SendTo(c, InputWorker, ShutDown), DisplayWorker, ShutDown),
                          RendererWorker, ShutDown), ConfigWorker, ShutDown)
  {
    var all := BROADCAST_ORDER;
    var c1 := SendTo(c, InputWorker, ShutDown);
    var c2 := SendTo(c1, DisplayWorker, ShutDown);
    var c3 := SendTo(c2, RendererWorker, ShutDown);
    assert TellAll(c, all) == TellAll(c1, all[1..]);
    assert all[1..][1..] == all[2..] && all[2..][1..] == all[3..] && all[3..][1..] == all[4..];
    assert TellAll(c1, all[1..]) == TellAll(c2, all[2..]);
    assert TellAll(c2, all[2..]) == TellAll(c3, all[3..]);
  }

  /** When no other thread comes in between, the telling steps amount to that: all channels told, nothing
      pending, and the timer armed or the shutdown forced. */
  lemma {:induction false} TellingStepsTellAll(s: System, timerInserted: bool, run: seq<Event>)
    requires ChannelsOk(s.channels) && !MainStopped(s) && s.pending != []
    requires |run| == |s.pending| && forall i :: 0 <= i < |run| ==> run[i] == MainTells(timerInserted)
    ensures Run(s, run) == s.(channels := TellAll(s.channels, s.pending), pending := [],
                              timerArmed := s.timerArmed || timerInserted, force := s.force || !timerInserted)
    decreases |run|
  {
    var s' := Next(s, run[0]);
    assert s' == Tell(s, timerInserted);
    if |s.pending| > 1 {
      TellingStepsTellAll(s', timerInserted, run[1..]);
    } else {
      assert run[1..] == [] && s.pending[1..] == [];
    }
  }

  // Invariants

  /** The worker has been told, is about to be, or needs no telling. */
  predicate Told(s: System, w: Worker)
    requires w in s.channels.queues
  {
    !IsRunning(s, w) || w in s.asked || ShutDown in s.channels.queues[w] || w in s.pending
  }

  ghost predicate WorkersOk(s: System) {
    && ChannelsOk(s.channels)
    && (forall w: Worker :: w in s.phases)
    && (forall w: Worker :: IsRunning(s, w) <==> w in s.channels.open)
    && (forall w: Worker :: IsRunning(s, w) <==> WorkerThread(w) in s.owners)
    && (forall w: Worker :: s.phases[w].Finished? ==> s.shuttingDown || s.channels.toMain > 0)
  }

  predicate MainOk(s: System) {
    && s.broadcasts == (if s.shuttingDown then 1 else 0)
    && (s.pending != [] || s.timerArmed || s.force || MainStopped(s) ==> s.shuttingDown)
    && (MainStopped(s) ==> MayStop(s))
  }

  ghost predicate Inv(s: System) {
    WorkersOk(s) && MainOk(s) && (s.shuttingDown ==> forall w: Worker :: Told(s, w))
  }

  lemma StepKeepsTold(s: System, e: Event, w: Worker)
    requires Inv(s) && Enabled(s, e) && Step(s, e).shuttingDown
    ensures Told(Step(s, e), w)
  {
    if !s.shuttingDown {
      BroadcastReachesAll(w);
    } else if e.MainTells? {
      assert Told(s, w);
      TellingKeepsTold(s, e.timerInserted, w);
    } else if e == Receives(w) {
      assert Told(s, w);
      var q := s.channels.queues[w];
      assert q == [q[0]] + q[1..];
    } else {
      assert Told(s, w);
      QueueOnlyGrows(s, e, w);
      if !IsRunning(s, w) || w in s.asked { StepStaysAsked(s, e, w); }
    }
  }

  lemma BroadcastReachesAll(w: Worker)
    ensures w in BROADCAST_ORDER
  {
    match w
    case InputWorker => assert BROADCAST_ORDER[0] == w;
    case DisplayWorker => assert BROADCAST_ORDER[1] == w;
    case RendererWorker => assert BROADCAST_ORDER[2] == w;
    case ConfigWorker => assert BROADCAST_ORDER[3] == w;
  }

  lemma TellingKeepsTold(s: System, timerInserted: bool, w: Worker)
    requires ChannelsOk(s.channels) && s.pending != [] && Told(s, w)
    requires IsRunning(s, w) ==> w in s.channels.open
    ensures ChannelsOk(Tell(s, timerInserted).channels) && Told(Tell(s, timerInserted), w)
  {
    assert s.pending == [s.pending[0]] + s.pending[1..];
  }

  lemma StepKeepsWorkers(s: System, e: Event)
    requires Inv(s) && Enabled(s, e)
    ensures WorkersOk(Step(s, e))
  {
    match e
    case Talks(w, _) => LeavingKeepsWorkers(s, w);
    case AsksMain(w) => LeavingKeepsWorkers(s, w);
    case Waits(w) => LeavingKeepsWorkers(s, w);
    case Fails(w) => LeavingKeepsWorkers(s, w);
    case ChannelCloses(w) => LeavingKeepsWorkers(s, w);
    case _ =>
  }

  lemma LeavingKeepsWorkers(s: System, w: Worker)
    requires WorkersOk(s)
    ensures WorkersOk(Leave(s, w))
  {
  }

  lemma StepKeepsMain(s: System, e: Event)
    requires Inv(s) && Enabled(s, e)
    ensures MainOk(Step(s, e))
  {
  }

  lemma StepKeepsInv(s: System, e: Event)
    requires Inv(s)
    ensures Inv(Next(s, e))
  {
    if Enabled(s, e) {
      StepKeepsWorkers(s, e);
      StepKeepsMain(s, e);
      forall w: Worker | Step(s, e).shuttingDown
        ensures Told(Step(s, e), w)
      {
        StepKeepsTold(s, e, w);
      }
    }
  }

  lemma StartIsInv()
    ensures Inv(START) && Undisturbed(START)
  {
    forall w: Worker
      ensures w in START.phases && w in START.channels.open
      ensures w in START.channels.queues && START.channels.queues[w] == []
      ensures START.phases[w] == Running
    {
      match w
      case ConfigWorker =>
      case InputWorker =>
      case RendererWorker =>
      case DisplayWorker =>
    }
  }

  /** In every interleaving, whatever requests come and whichever workers fail: a finished worker has its
      request queued for main or main is shutting down; main broadcasts at most once, exactly if it is
      shutting down; main has stopped only if it is shutting down and all workers have finished or the time
      ran out; and no running worker is forgotten by the broadcast. */
  lemma {:induction false} ShutdownIsOrderly(s: System, run: seq<Event>)
    requires Inv(s)
    ensures Inv(Run(s, run))
    decreases |run|
  {
    if run != [] {
      StepKeepsInv(s, run[0]);
      ShutdownIsOrderly(Next(s, run[0]), run[1..]);
    }
  }

  lemma FromTheStart(run: seq<Event>)
    ensures var s := Run(START, run);
            && s.broadcasts <= 1
            && (forall w: Worker :: w in s.phases)
            && (forall w: Worker :: s.phases[w].Finished? ==> s.shuttingDown || s.channels.toMain > 0)
            && (MainStopped(s) ==> s.shuttingDown && (AllFinished(s) || s.force))
  {
    StartIsInv();
    ShutdownIsOrderly(START, run);
  }

  /** In no run does a worker see its channel closed: while it runs it owns a sending end itself. */
  lemma ChannelsNeverClose(run: seq<Event>, w: Worker)
    ensures !Enabled(Run(START, run), ChannelCloses(w))
  {
    StartIsInv();
    ShutdownIsOrderly(START, run);
    assert IsRunning(Run(START, run), w) <==> WorkerThread(w) in Run(START, run).owners;
  }

  /** The worker is at work and nobody has told it to stop. */
  predicate AtWork(s: System, w: Worker) {
    IsRunning(s, w) && w in s.channels.open && w in s.channels.queues && ShutDown !in s.channels.queues[w]
  }

  /** Nothing has begun to end. */
  ghost predicate Undisturbed(s: System) {
    && s.channels.mainOpen && s.asked == {} && s.pending == []
    && (forall w: Worker :: AtWork(s, w))
    && !s.timerArmed && !s.force
  }

  lemma ReceivingStaysUndisturbed(s: System, w: Worker)
    requires Inv(s) && !s.shuttingDown && Undisturbed(s) && Enabled(s, Receives(w))
    ensures Undisturbed(Step(s, Receives(w)))
  {
    var q := s.channels.queues[w];
    assert AtWork(s, w) && q == [q[0]] + q[1..] && q[0] in q;
    forall v: Worker
      ensures AtWork(Step(s, Receives(w)), v)
    {
      assert AtWork(s, v);
    }
  }

  lemma TalkingStaysUndisturbed(s: System, w: Worker, to: Worker)
    requires Inv(s) && !s.shuttingDown && Undisturbed(s) && Enabled(s, Talks(w, to))
    ensures Undisturbed(Step(s, Talks(w, to)))
  {
    assert AtWork(s, to);
    forall v: Worker
      ensures AtWork(Step(s, Talks(w, to)), v)
    {
      assert AtWork(s, v);
    }
  }

  lemma OtherStepsStayUndisturbed(s: System, e: Event)
    requires Inv(s) && !e.Fails? && !s.shuttingDown && Undisturbed(s) && !e.Receives? && !e.Talks?
    ensures Next(s, e).shuttingDown || Undisturbed(Next(s, e))
  {
    if e.Finishes? || e.Waits? || e.AsksMain? {
      assert AtWork(s, e.w);
    }
    if !Next(s, e).shuttingDown {
      forall v: Worker
        ensures AtWork(Next(s, e), v)
      {
        assert AtWork(s, v);
      }
    }
  }

  lemma StepStaysUndisturbed(s: System, e: Event)
    requires Inv(s) && !e.Fails? && !s.shuttingDown && Undisturbed(s)
    ensures Next(s, e).shuttingDown || Undisturbed(Next(s, e))
  {
    if e.Receives? && Enabled(s, e) {
      ReceivingStaysUndisturbed(s, e.w);
    } else if e.Talks? && Enabled(s, e) {
      TalkingStaysUndisturbed(s, e.w, e.to);
    } else if !e.Receives? && !e.Talks? {
      OtherStepsStayUndisturbed(s, e);
    }
  }

  /** Without errors and panics no worker stops, or is even asked to, before main broadcasts. */
  lemma {:induction false} NoWorkerStopsBeforeBroadcast(s: System, run: seq<Event>)
    requires Inv(s) && (s.shuttingDown || Undisturbed(s))
    requires forall e :: e in run ==> !e.Fails?
    ensures Run(s, run).shuttingDown || Undisturbed(Run(s, run))
    decreases |run|
  {
    if run != [] {
      assert run[0] in run;
      StepKeepsInv(s, run[0]);
      if s.shuttingDown {
        StaysShuttingDown(s, run[0]);
      } else {
        StepStaysUndisturbed(s, run[0]);
      }
      NoWorkerStopsBeforeBroadcast(Next(s, run[0]), run[1..]);
    }
  }

  lemma StaysShuttingDown(s: System, e: Event)
    requires s.shuttingDown
    ensures Next(s, e).shuttingDown
  {
  }

  // Every told worker stops

  function Receipts(run: seq<Event>, w: Worker): nat {
    if run == [] then 0 else (if run[0] == Receives(w) then 1 else 0) + Receipts(run[1..], w)
  }

  lemma QueueOnlyGrows(s: System, e: Event, w: Worker)
    requires Inv(s) && e != Receives(w)
    ensures w in Next(s, e).channels.queues && s.channels.queues[w] <= Next(s, e).channels.queues[w]
  {
    if Enabled(s, e) {
      match e
      case Talks(_, to) => SendingOnlyGrows(s.channels, to, OtherMessage, w);
      case MainTells(_) => SendingOnlyGrows(s.channels, s.pending[0], ShutDown, w);
      case Receives(v) => assert v != w;
      case _ =>
    }
  }

  lemma SendingOnlyGrows(c: Channels, to: Worker, m: Message, w: Worker)
    requires ChannelsOk(c)
    ensures w in SendTo(c, to, m).queues && c.queues[w] <= SendTo(c, to, m).queues[w]
  {
  }

  /** With a shutdown message at position `k` of its queue, a worker has been asked or has left once it has
      handled `k + 1` messages, whatever the others do. */
  lemma {:induction false} ToldWorkersStop(s: System, run: seq<Event>, w: Worker, k: nat)
    requires Inv(s) && k < |s.channels.queues[w]| && s.channels.queues[w][k] == ShutDown
    requires Receipts(run, w) > k
    ensures !IsRunning(Run(s, run), w) || w in Run(s, run).asked
    decreases |run|
  {
    var e, s' := run[0], Next(s, run[0]);
    StepKeepsInv(s, e);
    if IsRunning(s, w) && w !in s.asked {
      if e == Receives(w) {
        assert Enabled(s, e);
        if k == 0 { AskedStaysAsked(s', run[1..], w); } else { ToldWorkersStop(s', run[1..], w, k - 1); }
      } else {
        QueueOnlyGrows(s, e, w);
        ToldWorkersStop(s', run[1..], w, k);
      }
    } else {
      AskedStaysAsked(s, run, w);
    }
  }

  lemma {:induction false} AskedStaysAsked(s: System, run: seq<Event>, w: Worker)
    requires !IsRunning(s, w) || w in s.asked
    ensures !IsRunning(Run(s, run), w) || w in Run(s, run).asked
    decreases |run|
  {
    if run != [] {
      StepStaysAsked(s, run[0], w);
      AskedStaysAsked(Next(s, run[0]), run[1..], w);
    }
  }

  lemma StepStaysAsked(s: System, e: Event, w: Worker)
    requires !IsRunning(s, w) || w in s.asked
    ensures !IsRunning(Next(s, e), w) || w in Next(s, e).asked
  {
  }

  // Main may stop

  lemma {:induction false} LeftStaysLeft(s: System, run: seq<Event>, w: Worker)
    requires !IsRunning(s, w)
    ensures !IsRunning(Run(s, run), w)
    decreases |run|
  {
    if run != [] {
      StepKeepsLeft(s, run[0], w);
      LeftStaysLeft(Next(s, run[0]), run[1..], w);
    }
  }

  lemma StepKeepsLeft(s: System, e: Event, w: Worker)
    requires !IsRunning(s, w)
    ensures !IsRunning(Next(s, e), w)
  {
  }

  /** A worker that was asked leaves its loop when it next waits. */
  lemma {:induction false} AskedLeaves(s: System, run: seq<Event>, w: Worker)
    requires ChannelsOk(s.channels) && (!IsRunning(s, w) || w in s.asked) && Waits(w) in run
    ensures !IsRunning(Run(s, run), w)
    decreases |run|
  {
    StepStaysAsked(s, run[0], w);
    if run[0] == Waits(w) {
      LeftStaysLeft(Next(s, run[0]), run[1..], w);
    } else {
      StepKeepsChannels(s, run[0]);
      AskedLeaves(Next(s, run[0]), run[1..], w);
    }
  }

  lemma StepKeepsChannels(s: System, e: Event)
    requires ChannelsOk(s.channels)
    ensures ChannelsOk(Next(s, e).channels)
  {
  }

  predicate HasFinished(s: System, w: Worker) { w in s.phases && s.phases[w].Finished? }

  lemma {:induction false} FinishedStays(s: System, run: seq<Event>, w: Worker)
    requires HasFinished(s, w)
    ensures HasFinished(Run(s, run), w)
    decreases |run|
  {
    if run != [] {
      StepKeepsFinished(s, run[0], w);
      FinishedStays(Next(s, run[0]), run[1..], w);
    }
  }

  lemma StepKeepsFinished(s: System, e: Event, w: Worker)
    requires HasFinished(s, w)
    ensures HasFinished(Next(s, e), w)
  {
  }

  /** A worker that has left its loop finishes when its thread ends. */
  lemma {:induction false} LeftFinishes(s: System, run: seq<Event>, w: Worker)
    requires Inv(s) && !IsRunning(s, w) && Finishes(w) in run
    ensures HasFinished(Run(s, run), w)
    decreases |run|
  {
    StepKeepsInv(s, run[0]);
    StepKeepsLeft(s, run[0], w);
    if run[0] == Finishes(w) {
      FinishedStays(Next(s, run[0]), run[1..], w);
    } else {
      LeftFinishes(Next(s, run[0]), run[1..], w);
    }
  }

  /** Each worker handles as many messages as are queued for it now, then waits, then ends its thread. */
  ghost predicate WindsDown(s: System, handling: seq<Event>, waiting: seq<Event>, ending: seq<Event>) {
    forall w: Worker :: w in s.channels.queues && Receipts(handling, w) >= |s.channels.queues[w]|
                        && Waits(w) in waiting && Finishes(w) in ending
  }

  lemma WorkerWindsDown(
    s: System, handling: seq<Event>, waiting: seq<Event>, ending: seq<Event>, w: Worker)
    requires Inv(s) && s.shuttingDown && s.pending == [] && WindsDown(s, handling, waiting, ending)
    ensures HasFinished(Run(Run(Run(s, handling), waiting), ending), w)
  {
    assert Told(s, w);
    var s1 := Run(s, handling);
    var s2 := Run(s1, waiting);
    ShutdownIsOrderly(s, handling);
    ShutdownIsOrderly(s1, waiting);
    if !IsRunning(s, w) || w in s.asked {
      AskedStaysAsked(s, handling, w);
    } else {
      var k: nat :| k < |s.channels.queues[w]| && s.channels.queues[w][k] == ShutDown;
      ToldWorkersStop(s, handling, w, k);
    }
    AskedLeaves(s1, waiting, w);
    LeftFinishes(s2, ending, w);
  }

  /** The shutdown completes: once main has told all workers, after each of them has handled the messages
      queued for it, has waited and has ended its thread, main may stop without being forced, whatever else
      happens meanwhile and in whatever order. */
  lemma MainMayStop(s: System, handling: seq<Event>, waiting: seq<Event>, ending: seq<Event>)
    requires Inv(s) && s.shuttingDown && s.pending == [] && WindsDown(s, handling, waiting, ending)
    ensures var s' := Run(Run(Run(s, handling), waiting), ending);
            s'.shuttingDown && AllFinished(s') && MayStop(s')
  {
    var s' := Run(Run(Run(s, handling), waiting), ending);
    StaysShuttingDownInRun(s, handling);
    StaysShuttingDownInRun(Run(s, handling), waiting);
    StaysShuttingDownInRun(Run(Run(s, handling), waiting), ending);
    forall w: Worker
      ensures HasFinished(s', w)
    {
      WorkerWindsDown(s, handling, waiting, ending, w);
    }
    assert forall w: Worker :: HasFinished(s', w) ==> w in s'.phases && s'.phases[w].Finished?;
  }

  lemma {:induction false} StaysShuttingDownInRun(s: System, run: seq<Event>)
    requires s.shuttingDown
    ensures Run(s, run).shuttingDown
    decreases |run|
  {
    if run != [] {
      StaysShuttingDown(s, run[0]);
      StaysShuttingDownInRun(Next(s, run[0]), run[1..]);
    }
  }
}

/** What is conserved over whole runs of the shutdown protocol: requests, messages and phases. */
module ShutdownRuns {
  import opened Shutdown

  // Requests to main

  /** The step sends main a request: directly, as the last act of a thread, or because a message goes to a
      worker that has left. */
  predicate Requests(s: System, e: Event) {
    Enabled(s, e) &&
    match e
    case Talks(_, to) => !IsRunning(s, to)
    case MainTells(_) => !IsRunning(s, s.pending[0])
    case AsksMain(_) => true
    case Finishes(_) => true
    case _ => false
  }

  function CountRequests(s: System, run: seq<Event>): nat
    decreases |run|
  {
    if run == [] then 0 else (if Requests(s, run[0]) then 1 else 0) + CountRequests(Next(s, run[0]), run[1..])
  }

  function CountTaken(s: System, run: seq<Event>): nat
    decreases |run|
  {
    if run == [] then 0
    else (if run[0].MainReceives? && Enabled(s, run[0]) then 1 else 0) + CountTaken(Next(s, run[0]), run[1..])
  }

  lemma StepCountsRequests(s: System, e: Event)
    requires Inv(s) && !MainStopped(s)
    ensures Next(s, e).channels.toMain + (if e.MainReceives? && Enabled(s, e) then 1 else 0)
            == s.channels.toMain + if Requests(s, e) then 1 else 0
  {
    match e
    case Talks(_, to) => assert IsRunning(s, to) <==> to in s.channels.open;
    case MainTells(_) =>
      if Enabled(s, e) { assert IsRunning(s, s.pending[0]) <==> s.pending[0] in s.channels.open; }
    case _ =>
  }

  lemma {:induction false} StoppedStays(s: System, run: seq<Event>)
    requires MainStopped(s)
    ensures MainStopped(Run(s, run))
    decreases |run|
  {
    if run != [] {
      StepStops(s, run[0]);
      StoppedStays(Next(s, run[0]), run[1..]);
    }
  }

  lemma StepStops(s: System, e: Event)
    ensures MainStopped(Next(s, e)) <==> MainStopped(s) || (e.MainWaits? && Enabled(s, e))
  {
  }

  /** No request is lost or made up while main runs: those it has taken and those still queued are those that
      were queued and one for each request, last act of a thread, and message to a worker that has left. */
  lemma {:induction false} RequestsAreConserved(s: System, run: seq<Event>)
    requires Inv(s) && !MainStopped(Run(s, run))
    ensures Run(s, run).channels.toMain + CountTaken(s, run) == s.channels.toMain + CountRequests(s, run)
    decreases |run|
  {
    if MainStopped(s) { StoppedStays(s, run); }
    if run != [] {
      StepKeepsInv(s, run[0]);
      StepCountsRequests(s, run[0]);
      RequestsAreConserved(Next(s, run[0]), run[1..]);
    }
  }

  lemma {:induction false} TakenShutsDown(s: System, run: seq<Event>)
    requires CountTaken(s, run) > 0
    ensures Run(s, run).shuttingDown
    decreases |run|
  {
    var s' := Next(s, run[0]);
    if run[0].MainReceives? && Enabled(s, run[0]) {
      StaysShuttingDownInRun(s', run[1..]);
    } else {
      TakenShutsDown(s', run[1..]);
    }
  }

  /** So once a worker has left and a message to it fails, a request is queued or main is shutting down, in every
      run from the start. */
  lemma FailedSendsAreNoticed(run: seq<Event>)
    requires CountRequests(START, run) > 0
    ensures Run(START, run).shuttingDown || Run(START, run).channels.toMain > 0
  {
    StartIsInv();
    ShutdownIsOrderly(START, run);
    if !MainStopped(Run(START, run)) {
      RequestsAreConserved(START, run);
      if CountTaken(START, run) > 0 { TakenShutsDown(START, run); }
    }
  }

  // Messages to workers

  /** What the step sends to the worker, if the worker has not left. */
  function SentBy(s: System, e: Event, w: Worker): seq<Message> {
    if !Enabled(s, e) || !IsRunning(s, w) then []
    else if e.Talks? && e.to == w then [OtherMessage]
    else if e.MainTells? && s.pending[0] == w then [ShutDown]
    else []
  }

  function ReceivedBy(s: System, e: Event, w: Worker): seq<Message> {
    if Enabled(s, e) && e == Receives(w) then [s.channels.queues[w][0]] else []
  }

  function Sent(s: System, run: seq<Event>, w: Worker): seq<Message>
    decreases |run|
  {
    if run == [] then [] else SentBy(s, run[0], w) + Sent(Next(s, run[0]), run[1..], w)
  }

  function Received(s: System, run: seq<Event>, w: Worker): seq<Message>
    decreases |run|
  {
    if run == [] then [] else ReceivedBy(s, run[0], w) + Received(Next(s, run[0]), run[1..], w)
  }

  predicate OpenIffRunning(s: System, w: Worker) { w in s.channels.open <==> IsRunning(s, w) }

  lemma StepMovesMessages(s: System, e: Event, w: Worker)
    requires ChannelsOk(s.channels) && OpenIffRunning(s, w)
    ensures w in Next(s, e).channels.queues
    ensures ReceivedBy(s, e, w) + Next(s, e).channels.queues[w] == s.channels.queues[w] + SentBy(s, e, w)
  {
    var q := s.channels.queues[w];
    assert [] + q == q && q + [] == q;
    if Enabled(s, e) {
      match e
      case Receives(v) => ReceivingTakesFirst(s, v, w);
      case Talks(_, to) => SendingDelivers(s.channels, to, OtherMessage, w);
      case MainTells(_) => SendingDelivers(s.channels, s.pending[0], ShutDown, w);
      case _ => OthersKeepQueues(s, e);
    }
  }

  lemma OthersKeepQueues(s: System, e: Event)
    requires Enabled(s, e) && !e.Receives? && !e.Talks? && !e.MainTells?
    ensures Step(s, e).channels.queues == s.channels.queues
  {
  }

  lemma ReceivingTakesFirst(s: System, v: Worker, w: Worker)
    requires Enabled(s, Receives(v))
    ensures w in Step(s, Receives(v)).channels.queues
    ensures ReceivedBy(s, Receives(v), w) + Step(s, Receives(v)).channels.queues[w] == s.channels.queues[w]
  {
    var queues, q := s.channels.queues, s.channels.queues[w];
    assert Step(s, Receives(v)).channels.queues == queues[v := queues[v][1..]];
    if v == w {
      assert q == [q[0]] + q[1..];
    } else {
      assert ReceivedBy(s, Receives(v), w) == [] && [] + q == q;
    }
  }

  lemma SendingDelivers(c: Channels, to: Worker, m: Message, w: Worker)
    requires ChannelsOk(c)
    ensures w in SendTo(c, to, m).queues
    ensures SendTo(c, to, m).queues[w] == c.queues[w] + if to == w && w in c.open then [m] else []
  {
    assert c.queues[w] + [] == c.queues[w];
  }

  /** Every channel delivers in order and loses nothing: what a worker has received followed by what is queued
      for it is what was queued followed by what was sent to it. */
  lemma {:induction false} MessagesAreDeliveredInOrder(s: System, run: seq<Event>, w: Worker)
    requires Inv(s)
    ensures w in Run(s, run).channels.queues
    ensures Received(s, run, w) + Run(s, run).channels.queues[w] == s.channels.queues[w] + Sent(s, run, w)
    decreases |run|
  {
    if run == [] {
      assert [] + s.channels.queues[w] == s.channels.queues[w] + [];
    } else {
      var s', rest := Next(s, run[0]), run[1..];
      StepKeepsInv(s, run[0]);
      assert OpenIffRunning(s, w);
      StepMovesMessages(s, run[0], w);
      MessagesAreDeliveredInOrder(s', rest, w);
      Regroup(ReceivedBy(s, run[0], w), Received(s', rest, w), Run(s, run).channels.queues[w],
              s'.channels.queues[w], Sent(s', rest, w), s.channels.queues[w], SentBy(s, run[0], w));
    }
  }

  lemma Regroup<T>(r1: seq<T>, r2: seq<T>, q2: seq<T>, q1: seq<T>, t2: seq<T>, q0: seq<T>, t1: seq<T>)
    requires r2 + q2 == q1 + t2 && r1 + q1 == q0 + t1
    ensures r1 + r2 + q2 == q0 + (t1 + t2)
  {
    assert r1 + r2 + q2 == r1 + (r2 + q2);
    assert r1 + (q1 + t2) == (r1 + q1) + t2;
    assert (q0 + t1) + t2 == q0 + (t1 + t2);
  }

  /** A worker was asked to stop if and only if it has received a shutdown message. */
  lemma {:induction false} AskedIffReceived(s: System, run: seq<Event>, w: Worker)
    ensures w in Run(s, run).asked <==> w in s.asked || ShutDown in Received(s, run, w)
    decreases |run|
  {
    if run != [] {
      StepAsks(s, run[0], w);
      AskedIffReceived(Next(s, run[0]), run[1..], w);
    }
  }

  lemma StepAsks(s: System, e: Event, w: Worker)
    ensures w in Next(s, e).asked <==> w in s.asked || ShutDown in ReceivedBy(s, e, w)
  {
  }

  // Phases

  /** The step makes the worker leave its loop: it waits after being asked, it fails, its channel closes, or it
      sends to main, or to a worker that has left, when main has stopped. */
  predicate LeavesBy(s: System, e: Event, w: Worker) {
    Enabled(s, e) &&
    match e
    case Waits(v) => v == w
    case Fails(v) => v == w
    case ChannelCloses(v) => v == w
    case AsksMain(v) => v == w && MainStopped(s)
    case Talks(v, to) => v == w && MainStopped(s) && !IsRunning(s, to)
    case _ => false
  }

  predicate Leaves(s: System, run: seq<Event>, w: Worker)
    decreases |run|
  {
    run != [] && (LeavesBy(s, run[0], w) || Leaves(Next(s, run[0]), run[1..], w))
  }

  lemma StepChangesPhase(s: System, e: Event, w: Worker)
    requires e.Talks? ==> OpenIffRunning(s, e.to)
    ensures IsRunning(Next(s, e), w) <==> IsRunning(s, w) && !LeavesBy(s, e, w)
  {
    if Enabled(s, e) {
      match e
      case Talks(v, to) => LeavingChangesPhase(s, v, w);
      case AsksMain(v) => LeavingChangesPhase(s, v, w);
      case Waits(v) => LeavingChangesPhase(s, v, w);
      case Fails(v) => LeavingChangesPhase(s, v, w);
      case ChannelCloses(v) => LeavingChangesPhase(s, v, w);
      case _ =>
    }
  }

  lemma LeavingChangesPhase(s: System, v: Worker, w: Worker)
    requires IsRunning(s, v)
    ensures IsRunning(Leave(s, v), w) <==> IsRunning(s, w) && v != w
  {
  }

  lemma StepFinishes(s: System, e: Event, w: Worker)
    ensures HasFinished(Next(s, e), w) <==> HasFinished(s, w) || (e == Finishes(w) && Enabled(s, e))
  {
  }

  predicate FinishesIn(s: System, run: seq<Event>, w: Worker)
    decreases |run|
  {
    run != [] && ((run[0] == Finishes(w) && Enabled(s, run[0])) || FinishesIn(Next(s, run[0]), run[1..], w))
  }

  /** And it has finished if and only if its thread ended after that. */
  lemma {:induction false} FinishedIffItEnded(s: System, run: seq<Event>, w: Worker)
    ensures HasFinished(Run(s, run), w) <==> HasFinished(s, w) || FinishesIn(s, run, w)
    decreases |run|
  {
    if run != [] {
      StepFinishes(s, run[0], w);
      FinishedIffItEnded(Next(s, run[0]), run[1..], w);
    }
  }

  /** A worker runs until a step makes it leave, and no longer. */
  lemma {:induction false} RunsUntilItLeaves(s: System, run: seq<Event>, w: Worker)
    requires Inv(s)
    ensures IsRunning(Run(s, run), w) <==> IsRunning(s, w) && !Leaves(s, run, w)
    decreases |run|
  {
    if run != [] {
      StepKeepsInv(s, run[0]);
      if run[0].Talks? { assert OpenIffRunning(s, run[0].to); }
      StepChangesPhase(s, run[0], w);
      RunsUntilItLeaves(Next(s, run[0]), run[1..], w);
    }
  }

  // Main

  function ToldBy(s: System, e: Event): seq<Worker> {
    if e.MainTells? && Enabled(s, e) then [s.pending[0]] else []
  }

  /** The workers that main has told in a run. */
  function ToldIn(s: System, run: seq<Event>): seq<Worker>
    decreases |run|
  {
    if run == [] then [] else ToldBy(s, run[0]) + ToldIn(Next(s, run[0]), run[1..])
  }

  lemma StepTells(s: System, e: Event)
    requires s.pending != [] ==> s.shuttingDown
    ensures ToldBy(s, e) + Next(s, e).pending
            == if s.shuttingDown || !Next(s, e).shuttingDown then s.pending else BROADCAST_ORDER
    ensures s.shuttingDown ==> Next(s, e).shuttingDown
    ensures !s.shuttingDown ==>
              ToldBy(s, e) == [] && (Next(s, e).shuttingDown <==> e.MainReceives? && Enabled(s, e))
    ensures Next(s, e).pending != [] ==> Next(s, e).shuttingDown
  {
    if e.MainTells? && Enabled(s, e) { assert s.pending == [s.pending[0]] + s.pending[1..]; }
  }

  lemma {:induction false} BroadcastContinues(s: System, run: seq<Event>)
    requires s.shuttingDown
    ensures ToldIn(s, run) + Run(s, run).pending == s.pending
    decreases |run|
  {
    if run != [] {
      var s', rest := Next(s, run[0]), run[1..];
      StepTells(s, run[0]);
      BroadcastContinues(s', rest);
      assert ToldBy(s, run[0]) + ToldIn(s', rest) + Run(s', rest).pending
             == ToldBy(s, run[0]) + (ToldIn(s', rest) + Run(s', rest).pending);
    }
  }

  /** Main tells the workers in the order of the broadcast, each once, if and only if it has taken a request. */
  lemma {:induction false} BroadcastIsInOrder(s: System, run: seq<Event>)
    requires !s.shuttingDown && s.pending == []
    ensures Run(s, run).shuttingDown <==> CountTaken(s, run) > 0
    ensures ToldIn(s, run) + Run(s, run).pending == if CountTaken(s, run) > 0 then BROADCAST_ORDER else []
    decreases |run|
  {
    if run != [] {
      var s', rest := Next(s, run[0]), run[1..];
      StepTells(s, run[0]);
      assert ToldIn(s, run) == ToldIn(s', rest) by { assert [] + ToldIn(s', rest) == ToldIn(s', rest); }
      if s'.shuttingDown {
        assert CountTaken(s, run) > 0;
        BroadcastContinues(s', rest);
        StaysShuttingDownInRun(s', rest);
      } else {
        assert CountTaken(s, run) == CountTaken(s', rest);
        BroadcastIsInOrder(s', rest);
      }
    }
  }

  /** The step forces the shutdown: the timer fires, or it cannot be armed when all have been told. */
  predicate Forces(s: System, e: Event) {
    Enabled(s, e) && (e.TimerFires? || (e == MainTells(false) && |s.pending| == 1))
  }

  /** The step arms the timer. */
  predicate Arms(s: System, e: Event) { Enabled(s, e) && e == MainTells(true) && |s.pending| == 1 }

  predicate ForcedIn(s: System, run: seq<Event>)
    decreases |run|
  {
    run != [] && (Forces(s, run[0]) || ForcedIn(Next(s, run[0]), run[1..]))
  }

  predicate StoppedIn(s: System, run: seq<Event>)
    decreases |run|
  {
    run != [] && ((run[0].MainWaits? && Enabled(s, run[0])) || StoppedIn(Next(s, run[0]), run[1..]))
  }

  /** The shutdown is forced if and only if the timer fired or could not be armed, and main has stopped if and
      only if it waited once when it was allowed to. */
  lemma {:induction false} ForcedAndStoppedIff(s: System, run: seq<Event>)
    ensures Run(s, run).force <==> s.force || ForcedIn(s, run)
    ensures MainStopped(Run(s, run)) <==> MainStopped(s) || StoppedIn(s, run)
    decreases |run|
  {
    if run != [] {
      StepStops(s, run[0]);
      StepForces(s, run[0]);
      ForcedAndStoppedIff(Next(s, run[0]), run[1..]);
    }
  }

  lemma StepForces(s: System, e: Event)
    ensures Next(s, e).force <==> s.force || Forces(s, e)
    ensures Next(s, e).timerArmed <==> Arms(s, e) || (s.timerArmed && !(e.TimerFires? && Enabled(s, e)))
  {
  }
}

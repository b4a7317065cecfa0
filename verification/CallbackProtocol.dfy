/** The life of a callback reference across the config thread, the input thread and the two queues
    between them. */
module CallbackProtocol {
  import opened Common
  import opened InputThread
  import opened ConfigThread

  /** `leaked` records the references no one will ever forget: replaced connector-change callbacks and
      those of bindings that have no slot. */
  datatype State = State(
    casing: Casing,
    config: Config,
    input: Input,
    toInput: seq<InputMessage>,
    toConfig: seq<ConfigMessage>,
    leaked: set<CallbackRef>)

  datatype Event =
    | KeyMapped(keyName: string, mods: Mods, f: LuaFunction)
    | StartupSet(f: LuaFunction)
    | ConnectorChangeSet(f: LuaFunction)
    | Notified(m: ConfigMessage)
    | ConfigReceives
    | InputReceives
    | KeyHit(key: KeyEvent)

  function Start(casing: Casing): State { State(casing, INITIAL_CONFIG, INITIAL, [], [], {}) }

  /** Moves what the threads have sent into the queues. */
  function Deliver(s: State, c: Config, i: Input): State {
    s.(config := c.(inputMessages := []), toInput := s.toInput + c.inputMessages,
    input := i.(configMessages := []), toConfig := s.toConfig + i.configMessages)
  }

  function SetConnectorChange(s: State, f: LuaFunction): State {
    var replaced := if s.config.onConnectorChange.Some? then {s.config.onConnectorChange.value} else {};
    Deliver(s, SetOnConnectorChange(s.config, f), s.input).(leaked := s.leaked + replaced)
  }

  /** The config thread handles the message at the head of its queue. */
  function ConfigTakes(s: State): State
    requires s.toConfig != []
  {
    Deliver(s.(toConfig := s.toConfig[1..]), Handle(s.config, s.toConfig[0]), s.input)
  }

  /** The input thread binds the callback at the head of its queue to a slot. */
  function InputTakes(s: State, slot: Slot): State
    requires s.toInput != []
  {
    var id := s.toInput[0].id;
    Deliver(s.(toInput := s.toInput[1..]), s.config, Bound(s.input, slot, id))
    .(leaked := if slot.None? then s.leaked + {id} else s.leaked)
  }

  function SlotOf(s: State, m: InputMessage): Slot { Normalise(s.casing, m.keyName, m.mods) }

  /** One step of either thread. Other threads may notify the config thread, but never with a reference. */
  function Step(s: State, e: Event): State {
    match e
    case KeyMapped(keyName, mods, f) => Deliver(s, MapKey(s.config, keyName, mods, f), s.input)
    case StartupSet(f) => Deliver(s, SetOnStartup(s.config, f), s.input)
    case ConnectorChangeSet(f) => SetConnectorChange(s, f)
    case Notified(m) => if m.RunCallback? || m.ForgetCallback? then s else s.(toConfig := s.toConfig + [m])
    case ConfigReceives => if s.toConfig == [] then s else ConfigTakes(s)
    case InputReceives =>
      if s.toInput == [] then s else InputTakes(s, SlotOf(s, s.toInput[0]))
    case KeyHit(key) => Deliver(s, s.config, Key(s.input, key))
  }

  function After(s: State, run: seq<Event>): State
    decreases |run|
  {
    if run == [] then s else After(Step(s, run[0]), run[1..])
  }

  // Where references are

  datatype Place =
    | InFlight(position: nat)
    | Binding(mods: Mods, sym: Keysym)
    | Forgetting(position: nat)
    | StartupCallback
    | ConnectorCallback
    | Leaked

  predicate At(s: State, p: Place, id: CallbackRef) {
    match p
    case InFlight(i) => i < |s.toInput| && s.toInput[i].id == id
    case Binding(mods, sym) => Lookup(s.input.keymaps, mods, sym) == Some(id)
    case Forgetting(i) => i < |s.toConfig| && s.toConfig[i] == ForgetCallback(id)
    case StartupCallback => s.config.onStartup == Some(id)
    case ConnectorCallback => s.config.onConnectorChange == Some(id)
    case Leaked => id in s.leaked
  }

  predicate Live(s: State, id: CallbackRef) { id in s.config.callbacks }

  /** Every live reference is in exactly one place, and whatever is in a place is live. */
  ghost predicate Conserved(s: State) {
    && (forall id: CallbackRef :: Live(s, id) ==> exists p :: At(s, p, id))
    && (forall p: Place, id: CallbackRef :: At(s, p, id) ==> Live(s, id))
    && (forall p: Place, q: Place, id: CallbackRef :: At(s, p, id) && At(s, q, id) ==> p == q)
  }

  /** A queued run request is for a reference that is bound, or whose forgetting is queued behind it. */
  ghost predicate RunsAreServed(s: State) {
    forall i, id: CallbackRef :: 0 <= i < |s.toConfig| && s.toConfig[i] == RunCallback(id) ==> Serves(s, i, id)
  }

  ghost predicate Serves(s: State, i: int, id: CallbackRef) {
    exists p: Place :: At(s, p, id) && (p.Binding? || (p.Forgetting? && p.position > i))
  }

  ghost predicate Inv(s: State) {
    && s.config.inputMessages == []
    && s.input.configMessages == []
    && (forall id: CallbackRef :: Live(s, id) ==> FIRST_ID <= id < s.config.counter)
    && FIRST_ID <= s.config.counter
    && Conserved(s)
    && RunsAreServed(s)
  }

  // Every step keeps the invariant

  lemma KeyMappedKeepsInv(s: State, keyName: string, mods: Mods, f: LuaFunction)
    requires Inv(s)
    ensures Inv(Deliver(s, MapKey(s.config, keyName, mods, f), s.input))
  {
    var s' := Deliver(s, MapKey(s.config, keyName, mods, f), s.input);
    var n, born := |s.toInput|, s.config.counter;
    assert At(s', InFlight(n), born);
    assert forall p: Place, id: CallbackRef :: At(s', p, id) <==> At(s, p, id) || (p == InFlight(n) && id == born);
    assert forall id: CallbackRef :: Live(s', id) <==> Live(s, id) || id == born;
    assert forall i, id: CallbackRef :: Serves(s, i, id) ==> Serves(s', i, id);
  }

  lemma StartupSetKeepsInv(s: State, f: LuaFunction)
    requires Inv(s)
    ensures Inv(Deliver(s, SetOnStartup(s.config, f), s.input))
  {
    var s' := Deliver(s, SetOnStartup(s.config, f), s.input);
    var born := s.config.counter;
    assert At(s', StartupCallback, born);
    assert forall p: Place, id: CallbackRef :: p != StartupCallback ==> At(s', p, id) == At(s, p, id);
    assert forall id: CallbackRef :: At(s', StartupCallback, id) <==> id == born;
    assert forall id: CallbackRef :: Live(s', id) <==> id == born || (Live(s, id) && !At(s, StartupCallback, id));
    assert forall i, id: CallbackRef :: Serves(s, i, id) ==> Serves(s', i, id);
  }

  lemma ConnectorChangeSetKeepsInv(s: State, f: LuaFunction)
    requires Inv(s)
    ensures Inv(SetConnectorChange(s, f))
  {
    var s' := SetConnectorChange(s, f);
    var born := s.config.counter;
    assert At(s', ConnectorCallback, born);
    assert forall p: Place, id: CallbackRef :: p != ConnectorCallback && p != Leaked ==> At(s', p, id) == At(s, p, id);
    assert forall id: CallbackRef :: At(s', ConnectorCallback, id) <==> id == born;
    assert forall id: CallbackRef :: At(s', Leaked, id) <==> At(s, Leaked, id) || At(s, ConnectorCallback, id);
    assert forall id: CallbackRef :: Live(s', id) <==> id == born || Live(s, id);
    assert forall i, id: CallbackRef :: Serves(s, i, id) ==> Serves(s', i, id);
  }

  lemma NotifiedKeepsInv(s: State, m: ConfigMessage)
    requires Inv(s) && !m.RunCallback? && !m.ForgetCallback?
    ensures Inv(s.(toConfig := s.toConfig + [m]))
  {
    var s' := s.(toConfig := s.toConfig + [m]);
    assert forall p: Place, id: CallbackRef :: At(s', p, id) == At(s, p, id);
    assert forall id: CallbackRef :: Live(s', id) == Live(s, id);
    assert forall i, id: CallbackRef :: Serves(s, i, id) ==> Serves(s', i, id);
  }

  /** Where a reference in place `p` after the head of the config queue is taken was before. */
  function BeforeConfigTakes(p: Place): Place {
    if p.Forgetting? then Forgetting(p.position + 1) else p
  }

  lemma ConfigTakesKeepsInv(s: State)
    requires Inv(s) && s.toConfig != []
    ensures Inv(ConfigTakes(s))
  {
    var s' := ConfigTakes(s);
    forall p: Place, id: CallbackRef
      ensures At(s', p, id) == At(s, BeforeConfigTakes(p), id)
    {
    }
    assert forall id: CallbackRef :: Live(s', id) <==> Live(s, id) && !At(s, Forgetting(0), id);
    forall id: CallbackRef | Live(s', id)
      ensures exists p :: At(s', p, id)
    {
      assert Live(s, id);
      var p :| At(s, p, id);
      assert At(s', if p.Forgetting? then Forgetting(p.position - 1) else p, id);
    }
    forall i, id: CallbackRef | 0 <= i < |s'.toConfig| && s'.toConfig[i] == RunCallback(id)
      ensures Serves(s', i, id)
    {
      assert Serves(s, i + 1, id);
      var p: Place :| At(s, p, id) && (p.Binding? || (p.Forgetting? && p.position > i + 1));
      assert At(s', if p.Forgetting? then Forgetting(p.position - 1) else p, id);
    }
  }

  /** Where the references that stay alive go when the head of the input queue is bound to `slot`. */
  function AfterInputTakes(s: State, slot: Slot, p: Place): Place {
    if p == InFlight(0) then (if slot.None? then Leaked else Binding(slot.value.0, slot.value.1))
    else if p.InFlight? then InFlight(p.position - 1)
    else if slot.Some? && p == Binding(slot.value.0, slot.value.1) then Forgetting(|s.toConfig|)
    else p
  }

  lemma InputTakesMoves(s: State, slot: Slot, p: Place, id: CallbackRef)
    requires Inv(s) && s.toInput != []
    requires At(s, p, id)
    ensures At(InputTakes(s, slot), AfterInputTakes(s, slot, p), id)
  {
  }

  lemma InputTakesComesFrom(s: State, slot: Slot, q: Place, id: CallbackRef) returns (p: Place)
    requires Inv(s) && s.toInput != []
    requires At(InputTakes(s, slot), q, id)
    ensures At(s, p, id) && q == AfterInputTakes(s, slot, p)
  {
    var moved := s.toInput[0].id;
    if q.InFlight? {
      p := InFlight(q.position + 1);
    } else if q == Leaked && id !in s.leaked {
      p := InFlight(0);
    } else if slot.Some? && q == Binding(slot.value.0, slot.value.1) {
      p := InFlight(0);
    } else if q == Forgetting(|s.toConfig|) {
      p := Binding(slot.value.0, slot.value.1);
    } else {
      p := q;
    }
  }

  lemma InputTakesKeepsInv(s: State, slot: Slot)
    requires Inv(s) && s.toInput != []
    ensures Inv(InputTakes(s, slot))
  {
    var s' := InputTakes(s, slot);
    assert forall id: CallbackRef :: Live(s', id) == Live(s, id);
    forall id: CallbackRef | Live(s', id)
      ensures exists p :: At(s', p, id)
    {
      assert Live(s, id);
      var p :| At(s, p, id);
      InputTakesMoves(s, slot, p, id);
    }
    forall q: Place, id: CallbackRef | At(s', q, id)
      ensures Live(s', id)
    {
      var p := InputTakesComesFrom(s, slot, q, id);
      assert Live(s, id);
    }
    forall q1: Place, q2: Place, id: CallbackRef | At(s', q1, id) && At(s', q2, id)
      ensures q1 == q2
    {
      var p1 := InputTakesComesFrom(s, slot, q1, id);
      var p2 := InputTakesComesFrom(s, slot, q2, id);
    }
    forall i, id: CallbackRef | 0 <= i < |s'.toConfig| && s'.toConfig[i] == RunCallback(id)
      ensures Serves(s', i, id)
    {
      assert s.toConfig[i] == RunCallback(id);
      assert Serves(s, i, id);
      var p: Place :| At(s, p, id) && (p.Binding? || (p.Forgetting? && p.position > i));
      InputTakesMoves(s, slot, p, id);
    }
  }

  lemma KeyHitKeepsInv(s: State, key: KeyEvent)
    requires Inv(s)
    ensures Inv(Deliver(s, s.config, Key(s.input, key)))
  {
    var s' := Deliver(s, s.config, Key(s.input, key));
    assert forall p: Place, id: CallbackRef :: At(s', p, id) == At(s, p, id);
    assert forall id: CallbackRef :: Live(s', id) == Live(s, id);
    assert forall i, id: CallbackRef :: Serves(s, i, id) ==> Serves(s', i, id);
    if Route(s.input, key).Fired? {
      assert At(s', Binding(EffectiveMods(s.input, key), key.sym), Route(s.input, key).id);
    }
  }

  lemma StepKeepsInv(s: State, e: Event)
    requires Inv(s)
    ensures Inv(Step(s, e))
  {
    match e
    case KeyMapped(keyName, mods, f) => KeyMappedKeepsInv(s, keyName, mods, f);
    case StartupSet(f) => StartupSetKeepsInv(s, f);
    case ConnectorChangeSet(f) => ConnectorChangeSetKeepsInv(s, f);
    case Notified(m) => if !m.RunCallback? && !m.ForgetCallback? { NotifiedKeepsInv(s, m); }
    case ConfigReceives => if s.toConfig != [] { ConfigTakesKeepsInv(s); }
    case InputReceives =>
      if s.toInput != [] { InputTakesKeepsInv(s, SlotOf(s, s.toInput[0])); }
    case KeyHit(key) => KeyHitKeepsInv(s, key);
  }

  lemma {:induction false} RunKeepsInv(s: State, run: seq<Event>)
    requires Inv(s)
    ensures Inv(After(s, run))
    decreases |run|
  {
    if run != [] {
      StepKeepsInv(s, run[0]);
      RunKeepsInv(Step(s, run[0]), run[1..]);
    }
  }

  // The promises of the protocol

  /** In every interleaving each live reference is in exactly one place and every placed one is live. */
  lemma EveryReferenceIsInOnePlace(casing: Casing, run: seq<Event>)
    ensures Conserved(After(Start(casing), run))
  {
    RunKeepsInv(Start(casing), run);
  }

  /** In every interleaving the config thread finds the callback it is asked to run. */
  lemma NoCallbackIsMissing(casing: Casing, run: seq<Event>)
    ensures var s := After(Start(casing), run);
            s.toConfig != [] ==>
              var ran := RunBy(s.config, s.toConfig[0]);
              && (s.toConfig[0].RunCallback? ==> ran.Some?)
              && (ran.Some? ==> ran.value.Called?)
  {
    RunKeepsInv(Start(casing), run);
    var s := After(Start(casing), run);
    if s.toConfig != [] {
      match s.toConfig[0]
      case RunCallback(id) =>
        assert Serves(s, 0, id);
        assert Live(s, id);
      case Startup =>
        if s.config.onStartup.Some? { assert At(s, StartupCallback, s.config.onStartup.value); }
      case ConnectorChange =>
        if s.config.onConnectorChange.Some? { assert At(s, ConnectorCallback, s.config.onConnectorChange.value); }
      case _ =>
    }
  }

  /** A live reference keeps its function for as long as it lives. */
  lemma {:induction false} FunctionsNeverChange(s: State, run: seq<Event>, id: CallbackRef)
    requires Inv(s) && Live(s, id) && Live(After(s, run), id)
    ensures After(s, run).config.callbacks[id] == s.config.callbacks[id]
    decreases |run|
  {
    if run != [] {
      var s' := Step(s, run[0]);
      StepKeepsInv(s, run[0]);
      if Live(s', id) {
        StepKeepsFunction(s, run[0], id);
        FunctionsNeverChange(s', run[1..], id);
      } else {
        ReferencesAreNeverReused(s', run[1..], id);
      }
    }
  }

  lemma StepKeepsFunction(s: State, e: Event, id: CallbackRef)
    requires Inv(s) && Live(s, id) && Live(Step(s, e), id)
    ensures Step(s, e).config.callbacks[id] == s.config.callbacks[id]
  {
  }

  /** Mapping a key hands out a new reference for its function, and whenever a request to run this reference
      arrives, it is this function that is called, whatever was mapped, replaced and forgotten meanwhile. */
  lemma BindingsRunTheirFunction(s: State, keyName: string, mods: Mods, f: LuaFunction, run: seq<Event>)
    requires Inv(s)
    ensures var s1, id := Step(s, KeyMapped(keyName, mods, f)), s.config.counter;
            var s2 := After(s1, run);
            && !Live(s, id) && Live(s1, id)
            && s1.toInput == s.toInput + [KeymapMessage(keyName, mods, id)]
            && (s2.toConfig != [] && s2.toConfig[0] == RunCallback(id) ==>
                  RunBy(s2.config, s2.toConfig[0]) == Some(Called(f)))
  {
    var s1, id := Step(s, KeyMapped(keyName, mods, f)), s.config.counter;
    StepKeepsInv(s, KeyMapped(keyName, mods, f));
    RunKeepsInv(s1, run);
    var s2 := After(s1, run);
    if s2.toConfig != [] && s2.toConfig[0] == RunCallback(id) {
      assert Serves(s2, 0, id);
      assert Live(s2, id);
      FunctionsNeverChange(s1, run, id);
    }
  }

  /** A queued request to forget a reference is behind every queued request to run it. */
  lemma ForgetsAreBehindRuns(casing: Casing, run: seq<Event>, i: nat, j: nat, id: CallbackRef)
    requires var q := After(Start(casing), run).toConfig;
             i < |q| && j < |q| && q[i] == RunCallback(id) && q[j] == ForgetCallback(id)
    ensures i < j
  {
    RunKeepsInv(Start(casing), run);
    var s := After(Start(casing), run);
    assert Serves(s, i, id);
    assert At(s, Forgetting(j), id);
  }

  /** Reference numbers are never reused: once given out and no longer live, a number is dead for good. */
  lemma {:induction false} ReferencesAreNeverReused(s: State, run: seq<Event>, id: CallbackRef)
    requires id < s.config.counter && !Live(s, id)
    ensures s.config.counter <= After(s, run).config.counter
    ensures !Live(After(s, run), id)
    decreases |run|
  {
    if run != [] {
      ReferencesAreNeverReused(Step(s, run[0]), run[1..], id);
    }
  }

  /** A stranded reference stays stranded, and registered, forever. */
  lemma {:induction false} LeaksAreForever(s: State, run: seq<Event>, id: CallbackRef)
    requires Inv(s) && Stranded(s, id)
    ensures Stranded(After(s, run), id)
    decreases |run|
  {
    if run != [] {
      StepKeepsInv(s, run[0]);
      StrandedAreLeaked(s, id);
      LeakedByStep(s, run[0], id);
      StrandedAreLeaked(Step(s, run[0]), id);
      LeaksAreForever(Step(s, run[0]), run[1..], id);
    }
  }

  /** What is lost: a connector-change callback that is replaced, or the callback of a binding that has no
      slot. */
  predicate Loses(s: State, e: Event, id: CallbackRef) {
    || (e.ConnectorChangeSet? && s.config.onConnectorChange == Some(id))
    || (e.InputReceives? && s.toInput != [] && s.toInput[0].id == id && SlotOf(s, s.toInput[0]).None?)
  }

  ghost predicate LosesAt(s: State, run: seq<Event>, k: nat, id: CallbackRef) {
    k < |run| && Loses(After(s, run[..k]), run[k], id)
  }

  /** The reference is live, but neither queued nor bound nor set. */
  ghost predicate Stranded(s: State, id: CallbackRef) {
    Live(s, id) && forall p: Place :: p != Leaked ==> !At(s, p, id)
  }

  lemma StrandedAreLeaked(s: State, id: CallbackRef)
    requires Inv(s)
    ensures Stranded(s, id) <==> id in s.leaked
  {
    if id in s.leaked { assert At(s, Leaked, id); }
  }

  lemma LeakedByStep(s: State, e: Event, id: CallbackRef)
    ensures id in Step(s, e).leaked <==> id in s.leaked || Loses(s, e, id)
  {
  }

  lemma {:induction false} LeakedByRun(s: State, run: seq<Event>, id: CallbackRef)
    ensures id in After(s, run).leaked <==> id in s.leaked || exists k: nat :: LosesAt(s, run, k, id)
    decreases |run|
  {
    if run != [] {
      var s', rest := Step(s, run[0]), run[1..];
      LeakedByStep(s, run[0], id);
      LeakedByRun(s', rest, id);
      assert LosesAt(s, run, 0, id) <==> Loses(s, run[0], id);
      forall k: nat | k < |rest|
        ensures LosesAt(s, run, k + 1, id) <==> LosesAt(s', rest, k, id)
      {
        assert run[..k + 1][1..] == rest[..k];
      }
      if k: nat :| LosesAt(s, run, k, id) && k > 0 { assert LosesAt(s', rest, k - 1, id); }
      if k: nat :| LosesAt(s', rest, k, id) { assert LosesAt(s, run, k + 1, id); }
    }
  }

  /** In every run, the live references that no queue, binding or setting holds, so that nothing can ever run
      or forget them, are exactly the connector-change callbacks that were replaced and the callbacks of
      bindings without a slot. */
  lemma StrandedExactly(casing: Casing, run: seq<Event>, id: CallbackRef)
    ensures Stranded(After(Start(casing), run), id) <==> exists k: nat :: LosesAt(Start(casing), run, k, id)
  {
    RunKeepsInv(Start(casing), run);
    StrandedAreLeaked(After(Start(casing), run), id);
    LeakedByRun(Start(casing), run, id);
  }
}

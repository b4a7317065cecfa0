/** Which function each message and each key runs, over whole runs of the callback protocol. */
module CallbackRuns {
  import opened Common
  import opened InputThread
  import opened ConfigThread
  import opened CallbackProtocol

  lemma {:induction false} AfterSplits(s: State, run: seq<Event>, k: nat)
    requires k <= |run|
    ensures After(s, run) == After(After(s, run[..k]), run[k..])
    decreases k
  {
    if k == 0 {
      assert run[..0] == [] && run[0..] == run;
    } else {
      AfterSplits(Step(s, run[0]), run[1..], k - 1);
      assert run[1..][..k - 1] == run[..k][1..] && run[1..][k - 1..] == run[k..];
    }
  }

  lemma AfterAppend(s: State, run: seq<Event>, e: Event)
    ensures After(s, run + [e]) == Step(After(s, run), e)
  {
    AfterSplits(s, run + [e], |run|);
    assert (run + [e])[..|run|] == run && (run + [e])[|run|..] == [e] && [e][1..] == [];
  }

  // Startup and connector changes

  lemma {:induction false} StartupStays(s: State, run: seq<Event>, id: CallbackRef)
    requires Inv(s) && s.config.onStartup == Some(id) && forall e :: e in run ==> !e.StartupSet?
    ensures After(s, run).config.onStartup == Some(id)
    ensures Live(s, id) && RunBy(After(s, run).config, Startup) == Some(Called(s.config.callbacks[id]))
    decreases |run|
  {
    assert At(s, StartupCallback, id);
    if run != [] {
      var s' := Step(s, run[0]);
      assert run[0] in run;
      StepKeepsInv(s, run[0]);
      assert At(s', StartupCallback, id);
      StepKeepsFunction(s, run[0], id);
      StartupStays(s', run[1..], id);
    }
  }

  lemma {:induction false} ConnectorChangeStays(s: State, run: seq<Event>, id: CallbackRef)
    requires Inv(s) && s.config.onConnectorChange == Some(id) && forall e :: e in run ==> !e.ConnectorChangeSet?
    ensures After(s, run).config.onConnectorChange == Some(id)
    ensures Live(s, id) && RunBy(After(s, run).config, ConnectorChange) == Some(Called(s.config.callbacks[id]))
    decreases |run|
  {
    assert At(s, ConnectorCallback, id);
    if run != [] {
      var s' := Step(s, run[0]);
      assert run[0] in run;
      StepKeepsInv(s, run[0]);
      assert At(s', ConnectorCallback, id);
      StepKeepsFunction(s, run[0], id);
      ConnectorChangeStays(s', run[1..], id);
    }
  }

  lemma {:induction false} NeverSetStaysUnset(s: State, run: seq<Event>)
    ensures s.config.onStartup.None? && (forall e :: e in run ==> !e.StartupSet?) ==>
              After(s, run).config.onStartup.None?
    ensures s.config.onConnectorChange.None? && (forall e :: e in run ==> !e.ConnectorChangeSet?) ==>
              After(s, run).config.onConnectorChange.None?
    decreases |run|
  {
    if run != [] {
      assert run[0] in run;
      NeverSetStaysUnset(Step(s, run[0]), run[1..]);
    }
  }

  predicate LastStartupSet(run: seq<Event>, k: nat) {
    k < |run| && run[k].StartupSet? && forall e :: e in run[k + 1..] ==> !e.StartupSet?
  }

  predicate LastConnectorChangeSet(run: seq<Event>, k: nat) {
    k < |run| && run[k].ConnectorChangeSet? && forall e :: e in run[k + 1..] ==> !e.ConnectorChangeSet?
  }

  /** After every run a startup message calls the function set last for startup, and nothing if none was
      set. */
  lemma StartupRunsLastSet(casing: Casing, run: seq<Event>)
    ensures forall k: nat :: LastStartupSet(run, k) ==>
                               RunBy(After(Start(casing), run).config, Startup) == Some(Called(run[k].f))
    ensures (forall e :: e in run ==> !e.StartupSet?) ==> RunBy(After(Start(casing), run).config, Startup) == None
  {
    NeverSetStaysUnset(Start(casing), run);
    forall k: nat | LastStartupSet(run, k)
      ensures RunBy(After(Start(casing), run).config, Startup) == Some(Called(run[k].f))
    {
      StartupSetRuns(casing, run, k);
    }
  }

  lemma StartupSetRuns(casing: Casing, run: seq<Event>, k: nat)
    requires LastStartupSet(run, k)
    ensures RunBy(After(Start(casing), run).config, Startup) == Some(Called(run[k].f))
  {
    var before := After(Start(casing), run[..k]);
    RunKeepsInv(Start(casing), run[..k]);
    AfterSplits(Start(casing), run, k);
    assert run[k..][0] == run[k] && run[k..][1..] == run[k + 1..];
    StepKeepsInv(before, run[k]);
    StartupStays(Step(before, run[k]), run[k + 1..], before.config.counter);
  }

  /** After every run a connector change calls the function set last for it, and nothing if none was set. */
  lemma ConnectorChangeRunsLastSet(casing: Casing, run: seq<Event>)
    ensures forall k: nat :: LastConnectorChangeSet(run, k) ==>
                               RunBy(After(Start(casing), run).config, ConnectorChange) == Some(Called(run[k].f))
    ensures (forall e :: e in run ==> !e.ConnectorChangeSet?) ==>
              RunBy(After(Start(casing), run).config, ConnectorChange) == None
  {
    NeverSetStaysUnset(Start(casing), run);
    forall k: nat | LastConnectorChangeSet(run, k)
      ensures RunBy(After(Start(casing), run).config, ConnectorChange) == Some(Called(run[k].f))
    {
      ConnectorChangeSetRuns(casing, run, k);
    }
  }

  lemma ConnectorChangeSetRuns(casing: Casing, run: seq<Event>, k: nat)
    requires LastConnectorChangeSet(run, k)
    ensures RunBy(After(Start(casing), run).config, ConnectorChange) == Some(Called(run[k].f))
  {
    var before := After(Start(casing), run[..k]);
    RunKeepsInv(Start(casing), run[..k]);
    AfterSplits(Start(casing), run, k);
    assert run[k..][0] == run[k] && run[k..][1..] == run[k + 1..];
    StepKeepsInv(before, run[k]);
    ConnectorChangeStays(Step(before, run[k]), run[k + 1..], before.config.counter);
  }

  // Keys

  /** A key that was mapped: the slot of its name, and its function. */
  datatype Mapping = Mapping(slot: Slot, f: LuaFunction)

  function Added(casing: Casing, e: Event): seq<Mapping> {
    if e.KeyMapped? then [Mapping(Normalise(casing, e.keyName, e.mods), e.f)] else []
  }

  /** The keys mapped in a run, in order. */
  function Mappings(casing: Casing, run: seq<Event>): seq<Mapping> {
    if run == [] then []
    else
      var n := |run| - 1;
      Mappings(casing, run[..n]) + Added(casing, run[n])
  }

  /** The last of the first `n` mappings to a slot. */
  predicate LastMapping(maps: seq<Mapping>, n: nat, j: nat, slot: Slot) {
    j < n <= |maps| && maps[j].slot == slot && forall i :: j < i < n ==> maps[i].slot != slot
  }

  predicate IsMapped(maps: seq<Mapping>, n: nat, slot: Slot) {
    exists j :: 0 <= j < n <= |maps| && maps[j].slot == slot
  }

  /** The `i`-th queued message carries the mapping after the first `n + i`. */
  predicate QueuedAs(s: State, maps: seq<Mapping>, n: nat, i: nat) {
    && i < |s.toInput| && n + i < |maps|
    && var m, id := maps[n + i], s.toInput[i].id;
       SlotOf(s, s.toInput[i]) == m.slot && Live(s, id) && s.config.callbacks[id] == m.f
  }

  /** A slot has the function of the last mapping to it among the first `n`, and none if there is none. */
  ghost predicate SlotFollows(s: State, maps: seq<Mapping>, n: nat, mods: Mods, sym: Keysym) {
    var id := Lookup(s.input.keymaps, mods, sym);
    && (id.Some? <==> IsMapped(maps, n, Some((mods, sym))))
    && (id.Some? ==> Live(s, id.value))
    && forall j: nat :: LastMapping(maps, n, j, Some((mods, sym))) && id.Some? && Live(s, id.value) ==>
                          s.config.callbacks[id.value] == maps[j].f
  }

  /** The first `n` mappings have been bound and the others are queued. */
  ghost predicate Follows(s: State, maps: seq<Mapping>, n: nat) {
    && n + |s.toInput| == |maps|
    && (forall i: nat :: i < |s.toInput| ==> QueuedAs(s, maps, n, i))
    && forall mods, sym :: SlotFollows(s, maps, n, mods, sym)
  }

  predicate KeepsFunction(s: State, s': State, id: CallbackRef) {
    Live(s, id) && Live(s', id) && s'.config.callbacks[id] == s.config.callbacks[id]
  }

  lemma PlacedKeepFunctions(s: State, e: Event, p: Place, id: CallbackRef)
    requires Inv(s) && At(s, p, id) && At(Step(s, e), p, id)
    ensures KeepsFunction(s, Step(s, e), id)
  {
    StepKeepsInv(s, e);
    StepKeepsFunction(s, e, id);
  }

  lemma SlotStillFollows(s: State, s': State, maps: seq<Mapping>, maps': seq<Mapping>, n: nat, mods: Mods, sym: Keysym)
    requires SlotFollows(s, maps, n, mods, sym) && n <= |maps| && maps <= maps'
    requires s'.input.keymaps == s.input.keymaps
    requires var id := Lookup(s.input.keymaps, mods, sym); id.Some? ==> KeepsFunction(s, s', id.value)
    ensures SlotFollows(s', maps', n, mods, sym)
  {
    var slot := Some((mods, sym));
    assert IsMapped(maps, n, slot) <==> IsMapped(maps', n, slot) by {
      assert forall j :: 0 <= j < n ==> maps[j] == maps'[j];
    }
    assert forall j: nat :: LastMapping(maps', n, j, slot) ==> LastMapping(maps, n, j, slot);
  }

  /** A step that binds nothing and leaves the queue, or appends to it the mappings it adds. */
  lemma StillFollows(s: State, e: Event, maps: seq<Mapping>, maps': seq<Mapping>, n: nat)
    requires Inv(s) && Follows(s, maps, n) && maps <= maps'
    requires var s' := Step(s, e);
             && s'.input.keymaps == s.input.keymaps && s'.casing == s.casing && s.toInput <= s'.toInput
             && n + |s'.toInput| == |maps'|
             && forall i: nat :: |s.toInput| <= i < |s'.toInput| ==> QueuedAs(s', maps', n, i)
    ensures Follows(Step(s, e), maps', n)
  {
    var s' := Step(s, e);
    forall i: nat | i < |s.toInput|
      ensures QueuedAs(s', maps', n, i)
    {
      assert QueuedAs(s, maps, n, i) && s'.toInput[i] == s.toInput[i];
      PlacedKeepFunctions(s, e, InFlight(i), s.toInput[i].id);
    }
    forall mods, sym
      ensures SlotFollows(s', maps', n, mods, sym)
    {
      var id := Lookup(s.input.keymaps, mods, sym);
      if id.Some? { PlacedKeepFunctions(s, e, Binding(mods, sym), id.value); }
      assert SlotFollows(s, maps, n, mods, sym);
      SlotStillFollows(s, s', maps, maps', n, mods, sym);
    }
  }

  lemma OtherStepFollows(s: State, e: Event, maps: seq<Mapping>, n: nat)
    requires Inv(s) && Follows(s, maps, n) && !e.KeyMapped? && !(e.InputReceives? && s.toInput != [])
    ensures Follows(Step(s, e), maps, n)
  {
    assert Step(s, e).toInput == s.toInput;
    StillFollows(s, e, maps, maps, n);
  }

  lemma MappingFollows(s: State, e: Event, maps: seq<Mapping>, n: nat)
    requires Inv(s) && Follows(s, maps, n) && e.KeyMapped?
    ensures Follows(Step(s, e), maps + Added(s.casing, e), n)
  {
    var m := Mapping(Normalise(s.casing, e.keyName, e.mods), e.f);
    assert QueuedAs(Step(s, e), maps + [m], n, |s.toInput|);
    StillFollows(s, e, maps, maps + [m], n);
  }

  lemma ReceivingFollows(s: State, maps: seq<Mapping>, n: nat, n': nat)
    requires Inv(s) && Follows(s, maps, n) && s.toInput != [] && n' == n + 1
    ensures Follows(Step(s, InputReceives), maps, n')
  {
    var s' := Step(s, InputReceives);
    assert QueuedAs(s, maps, n, 0);
    assert s' == InputTakes(s, maps[n].slot) && s'.config == s.config;
    forall i: nat | i < |s'.toInput|
      ensures QueuedAs(s', maps, n', i)
    {
      assert QueuedAs(s, maps, n, i + 1) && s'.toInput[i] == s.toInput[i + 1];
    }
    forall mods, sym
      ensures SlotFollows(s', maps, n', mods, sym)
    {
      assert SlotFollows(s, maps, n, mods, sym);
      SlotFollowsNext(s, s', maps, n, n', mods, sym);
    }
  }

  lemma SlotFollowsNext(s: State, s': State, maps: seq<Mapping>, n: nat, n': nat, mods: Mods, sym: Keysym)
    requires s.toInput != [] && n < |maps| && n' == n + 1 && Live(s, s.toInput[0].id)
    requires s'.config == s.config && s.config.callbacks[s.toInput[0].id] == maps[n].f
    requires s'.input.keymaps == Bound(s.input, maps[n].slot, s.toInput[0].id).keymaps
    requires SlotFollows(s, maps, n, mods, sym)
    ensures SlotFollows(s', maps, n', mods, sym)
  {
    var slot := Some((mods, sym));
    LastMappingNext(maps, n, n', slot);
    if maps[n].slot != slot {
      assert Lookup(s'.input.keymaps, mods, sym) == Lookup(s.input.keymaps, mods, sym);
    }
  }

  lemma LastMappingNext(maps: seq<Mapping>, n: nat, n': nat, slot: Slot)
    requires n' == n + 1 <= |maps|
    ensures IsMapped(maps, n', slot) <==> IsMapped(maps, n, slot) || maps[n].slot == slot
    ensures forall j: nat :: LastMapping(maps, n', j, slot) ==>
                               if maps[n].slot == slot then j == n else LastMapping(maps, n, j, slot)
  {
  }

  /** How many mappings have reached the input thread. */
  function ReachedInput(casing: Casing, run: seq<Event>): int {
    |Mappings(casing, run)| - |After(Start(casing), run).toInput|
  }

  ghost predicate Tracked(casing: Casing, s: State, maps: seq<Mapping>) {
    Inv(s) && s.casing == casing && |s.toInput| <= |maps| && Follows(s, maps, |maps| - |s.toInput|)
  }

  lemma {:induction false} RunFollows(casing: Casing, run: seq<Event>)
    ensures Tracked(casing, After(Start(casing), run), Mappings(casing, run))
  {
    if run == [] {
      RunKeepsInv(Start(casing), []);
      StartFollows(casing);
    } else {
      var n := |run| - 1;
      RunFollows(casing, run[..n]);
      assert run == run[..n] + [run[n]];
      AfterAppend(Start(casing), run[..n], run[n]);
      NextTracked(casing, After(Start(casing), run[..n]), Mappings(casing, run[..n]), run[n]);
    }
  }

  lemma NextTracked(casing: Casing, s: State, maps: seq<Mapping>, e: Event)
    requires Tracked(casing, s, maps)
    ensures Tracked(casing, Step(s, e), maps + Added(casing, e))
  {
    StepKeepsInv(s, e);
    StepKeepsCasing(s, e);
    StepFollows(s, e, maps, |maps| - |s.toInput|);
  }

  lemma StepKeepsCasing(s: State, e: Event)
    ensures Step(s, e).casing == s.casing
  {
  }

  lemma StartFollows(casing: Casing)
    ensures Follows(Start(casing), [], 0)
  {
    assert forall mods, sym :: SlotFollows(Start(casing), [], 0, mods, sym);
  }

  lemma StepFollows(s: State, e: Event, maps: seq<Mapping>, n: nat)
    requires Inv(s) && Follows(s, maps, n)
    ensures var added := Added(s.casing, e);
            && |maps + added| - |Step(s, e).toInput| >= 0
            && Follows(Step(s, e), maps + added, |maps + added| - |Step(s, e).toInput|)
  {
    if e.KeyMapped? {
      MappingFollows(s, e, maps, n);
    } else {
      assert maps + [] == maps;
      if e.InputReceives? && s.toInput != [] {
        ReceivingFollows(s, maps, n, n + 1);
      } else {
        OtherStepFollows(s, e, maps, n);
      }
    }
  }

  /** After every run a key event runs a callback if and only if one of the mappings that have reached the
      input thread, all but those still queued, is to its symbol under the modifiers in force. */
  lemma KeyFiresIffMapped(casing: Casing, run: seq<Event>, key: KeyEvent)
    ensures var s := After(Start(casing), run);
            && ReachedInput(casing, run) >= 0
            && (Route(s.input, key).Fired? <==>
                IsMapped(Mappings(casing, run), ReachedInput(casing, run),
                         Some((EffectiveMods(s.input, key), key.sym))))
  {
    RunFollows(casing, run);
    var s := After(Start(casing), run);
    assert SlotFollows(s, Mappings(casing, run), ReachedInput(casing, run), EffectiveMods(s.input, key), key.sym);
  }

  /** And when the config thread gets to it, whatever happens until then, it calls the function of the last such
      mapping. */
  lemma KeyCallsLastMapping(casing: Casing, run: seq<Event>, key: KeyEvent, later: seq<Event>, j: nat)
    requires Route(After(Start(casing), run).input, key).Fired? && ReachedInput(casing, run) >= 0
    requires var s := After(Start(casing), run);
             LastMapping(Mappings(casing, run), ReachedInput(casing, run), j,
                         Some((EffectiveMods(s.input, key), key.sym)))
    ensures var s := After(Start(casing), run);
            var s' := After(Step(s, KeyHit(key)), later);
            s'.toConfig != [] && s'.toConfig[0] == RunCallback(Route(s.input, key).id) ==>
              RunBy(s'.config, s'.toConfig[0]) == Some(Called(Mappings(casing, run)[j].f))
  {
    RunKeepsInv(Start(casing), run);
    RunFollows(casing, run);
    var s, maps := After(Start(casing), run), Mappings(casing, run);
    assert SlotFollows(s, maps, ReachedInput(casing, run), EffectiveMods(s.input, key), key.sym);
    FiredKeepsFunction(s, key, later);
  }

  lemma FiredKeepsFunction(s: State, key: KeyEvent, later: seq<Event>)
    requires Inv(s) && Route(s.input, key).Fired? && Live(s, Route(s.input, key).id)
    ensures var id, s' := Route(s.input, key).id, After(Step(s, KeyHit(key)), later);
            s'.toConfig != [] && s'.toConfig[0] == RunCallback(id) ==>
              RunBy(s'.config, s'.toConfig[0]) == Some(Called(s.config.callbacks[id]))
  {
    var s1, id := Step(s, KeyHit(key)), Route(s.input, key).id;
    StepKeepsInv(s, KeyHit(key));
    RunKeepsInv(s1, later);
    var s2 := After(s1, later);
    if s2.toConfig != [] && s2.toConfig[0] == RunCallback(id) {
      assert Serves(s2, 0, id);
      assert Live(s2, id) && Live(s1, id);
      FunctionsNeverChange(s1, later, id);
    }
  }

  /** The default keymaps are mapped and sent in order, each with its own reference and function. */
  lemma {:induction false} MapKeysMapsEach(c: Config, bindings: seq<KeyBinding>, i: nat)
    requires i < |bindings|
    ensures var c' := MapKeys(c, bindings);
            && c'.counter == c.counter + |bindings|
            && |c'.inputMessages| == |c.inputMessages| + |bindings|
            && c.inputMessages <= c'.inputMessages
            && c'.inputMessages[|c.inputMessages| + i]
               == KeymapMessage(bindings[i].keyName, bindings[i].mods, c.counter + i)
            && c.counter + i in c'.callbacks && c'.callbacks[c.counter + i] == bindings[i].f
            && c'.onStartup == c.onStartup && c'.onConnectorChange == c.onConnectorChange
  {
    var n := |bindings| - 1;
    if n > 0 {
      MapKeysMapsEach(c, bindings[..n], if i < n then i else 0);
    } else {
      assert bindings[..n] == [];
    }
  }
}

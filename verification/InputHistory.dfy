/** Properties of the input thread over whole histories of bindings and key events. */
module InputHistory {
  import opened Common
  import opened InputThread
  import opened KeyStream

  /** `slot` is the normalised key name and modifiers of a binding. */
  datatype Event = Binding(slot: Slot, id: CallbackRef) | KeyInput(key: KeyEvent)

  function Step(s: Input, e: Event): Input {
    match e
    case Binding(slot, id) => Bound(s, slot, id)
    case KeyInput(key) => Key(s, key)
  }

  function After(history: seq<Event>): Input {
    if history == [] then INITIAL
    else Step(After(history[..|history| - 1]), history[|history| - 1])
  }

  /** The outcome of every event of a history; bindings have none. */
  function Outcomes(history: seq<Event>): (r: seq<Option<Outcome>>)
    ensures |r| == |history|
  {
    if history == [] then []
    else
      var n := |history| - 1;
      Outcomes(history[..n]) +
      [if history[n].KeyInput? then Some(Route(After(history[..n]), history[n].key)) else None]
  }

  /** One event with its outcome. */
  predicate Fires(e: Event, o: Option<Outcome>, sym: Keysym) {
    e.KeyInput? && e.key.sym == sym && o.Some? && o.value.Fired?
  }

  predicate Swallows(e: Event, o: Option<Outcome>, sym: Keysym) {
    e.KeyInput? && e.key.sym == sym && o == Some(Swallowed)
  }

  ghost predicate FiredSinceSwallowed(history: seq<Event>, outcomes: seq<Option<Outcome>>, sym: Keysym)
    requires |outcomes| == |history|
  {
    exists i :: 0 <= i < |history| && Fires(history[i], outcomes[i], sym)
                && forall j :: i < j < |history| ==> !Swallows(history[j], outcomes[j], sym)
  }

  lemma SuppressedAfterStep(s: Input, e: Event, sym: Keysym)
    ensures var o := if e.KeyInput? then Some(Route(s, e.key)) else None;
            sym in Step(s, e).suppressed <==> Fires(e, o, sym) || (sym in s.suppressed && !Swallows(e, o, sym))
  {
  }

  lemma FiredSinceSwallowedStep(history: seq<Event>, outcomes: seq<Option<Outcome>>, sym: Keysym)
    requires |outcomes| == |history| > 0
    ensures var n := |history| - 1;
            FiredSinceSwallowed(history, outcomes, sym) <==>
            || Fires(history[n], outcomes[n], sym)
            || (FiredSinceSwallowed(history[..n], outcomes[..n], sym) && !Swallows(history[n], outcomes[n], sym))
  {
    var n := |history| - 1;
    if FiredSinceSwallowed(history[..n], outcomes[..n], sym) && !Swallows(history[n], outcomes[n], sym) {
      var i :| 0 <= i < n && Fires(history[..n][i], outcomes[..n][i], sym)
               && forall j :: i < j < n ==> !Swallows(history[..n][j], outcomes[..n][j], sym);
      assert forall j :: i < j < n ==> history[j] == history[..n][j] && outcomes[j] == outcomes[..n][j];
      assert Fires(history[i], outcomes[i], sym);
    }
    if FiredSinceSwallowed(history, outcomes, sym) && !Fires(history[n], outcomes[n], sym) {
      var i :| 0 <= i < |history| && Fires(history[i], outcomes[i], sym)
               && forall j :: i < j < |history| ==> !Swallows(history[j], outcomes[j], sym);
      assert Fires(history[..n][i], outcomes[..n][i], sym);
    }
  }

  /** A symbol is suppressed exactly when a shortcut fired on it and no release of it was swallowed since. */
  lemma {:induction false} SuppressedIffFiredSinceSwallowed(history: seq<Event>, sym: Keysym)
    ensures sym in After(history).suppressed <==> FiredSinceSwallowed(history, Outcomes(history), sym)
  {
    if history != [] {
      var n := |history| - 1;
      SuppressedIffFiredSinceSwallowed(history[..n], sym);
      SuppressedAfterStep(After(history[..n]), history[n], sym);
      FiredSinceSwallowedStep(history, Outcomes(history), sym);
      assert Outcomes(history)[..n] == Outcomes(history[..n]);
    }
  }

  // The messages sent

  /** The events that were forwarded, in order. */
  function Forwards(history: seq<Event>, outcomes: seq<Option<Outcome>>): seq<KeyEvent>
    requires |outcomes| == |history|
  {
    if history == [] then []
    else
      var n := |history| - 1;
      Forwards(history[..n], outcomes[..n]) +
      (if history[n].KeyInput? && outcomes[n] == Some(Forwarded) then [history[n].key] else [])
  }

  /** The callbacks of the events that fired, in order. */
  function Firings(outcomes: seq<Option<Outcome>>): seq<CallbackRef> {
    if outcomes == [] then []
    else
      var n := |outcomes| - 1;
      Firings(outcomes[..n]) + (if outcomes[n].Some? && outcomes[n].value.Fired? then [outcomes[n].value.id] else [])
  }

  function Runs(messages: seq<ConfigMessage>): seq<CallbackRef> {
    if messages == [] then []
    else
      var n := |messages| - 1;
      Runs(messages[..n]) + (if messages[n].RunCallback? then [messages[n].id] else [])
  }

  lemma MessagesAfterStep(s: Input, e: Event)
    ensures var o := if e.KeyInput? then Some(Route(s, e.key)) else None;
            && Step(s, e).keyboardInputs == s.keyboardInputs + (if o == Some(Forwarded) then [e.key] else [])
            && Runs(Step(s, e).configMessages)
               == Runs(s.configMessages) + (if o.Some? && o.value.Fired? then [o.value.id] else [])
  {
    var before, after := s.configMessages, Step(s, e).configMessages;
    if |after| > |before| {
      assert after[..|before|] == before;
    } else {
      assert after == before;
    }
  }

  /** The display gets the forwarded events and nothing else, and the config thread gets one run request
      per event that fired and no other, both in the order of the events. */
  lemma {:induction false} EveryEventHasOneOutcome(history: seq<Event>)
    ensures After(history).keyboardInputs == Forwards(history, Outcomes(history))
    ensures Runs(After(history).configMessages) == Firings(Outcomes(history))
  {
    if history != [] {
      var n := |history| - 1;
      EveryEventHasOneOutcome(history[..n]);
      MessagesAfterStep(After(history[..n]), history[n]);
      assert Outcomes(history)[..n] == Outcomes(history[..n]);
    }
  }

  // Lookup

  predicate BindsAt(history: seq<Event>, i: nat, mods: Mods, sym: Keysym) {
    && i < |history|
    && history[i].Binding?
    && history[i].slot == Some((mods, sym))
  }

  ghost predicate LastBinding(history: seq<Event>, i: nat, mods: Mods, sym: Keysym) {
    BindsAt(history, i, mods, sym) && forall j :: i < j < |history| ==> !BindsAt(history, j, mods, sym)
  }

  /** A lookup gives the callback of the last binding that normalises to the slot, and fails exactly
      when there is none. */
  lemma {:induction false} LookupIsLastBinding(history: seq<Event>, mods: Mods, sym: Keysym)
    ensures Lookup(After(history).keymaps, mods, sym).None? <==> forall i: nat :: !BindsAt(history, i, mods, sym)
    ensures forall i: nat :: LastBinding(history, i, mods, sym) ==>
                               Lookup(After(history).keymaps, mods, sym) == Some(history[i].id)
  {
    if history != [] {
      var n := |history| - 1;
      var before := history[..n];
      LookupIsLastBinding(before, mods, sym);
      assert forall i: nat :: i < n ==> BindsAt(before, i, mods, sym) == BindsAt(history, i, mods, sym);
      assert forall i: nat :: i < n && LastBinding(history, i, mods, sym) ==> LastBinding(before, i, mods, sym);
      assert BindsAt(history, n, mods, sym) || !BindsAt(history, n, mods, sym);
      assert forall i: nat :: BindsAt(before, i, mods, sym) ==> BindsAt(history, i, mods, sym);
    }
  }

  // How often a callback runs

  lemma {:induction false} OutcomeAt(history: seq<Event>, n: nat)
    requires n < |history|
    ensures Outcomes(history)[n]
            == if history[n].KeyInput? then Some(Route(After(history[..n]), history[n].key)) else None
  {
    var m := |history| - 1;
    if n < m {
      OutcomeAt(history[..m], n);
      assert history[..m][..n] == history[..n];
    }
  }

  /** The modifiers in force after a history: those that an event changed last. */
  function ModsInForce(history: seq<Event>): Mods {
    if history == [] then NO_MODS
    else
      var n := |history| - 1;
      if history[n].KeyInput? && history[n].key.newMods.Some? then history[n].key.newMods.value
      else ModsInForce(history[..n])
  }

  lemma {:induction false} ModsAreInForce(history: seq<Event>)
    ensures After(history).mods == ModsInForce(history)
  {
    if history != [] { ModsAreInForce(history[..|history| - 1]); }
  }

  /** The `i`-th event of a history binds the symbol of its `n`-th, under the modifiers then in force. */
  predicate Binds(history: seq<Event>, i: nat, n: nat) {
    i < n < |history| && history[n].KeyInput? && BindsAt(history, i, ModsInForce(history[..n + 1]), history[n].key.sym)
  }

  ghost predicate IsBound(history: seq<Event>, n: nat) {
    exists i: nat :: Binds(history, i, n)
  }

  lemma BindsInPrefix(history: seq<Event>, i: nat, n: nat)
    requires i < n < |history| && history[n].KeyInput?
    ensures Binds(history, i, n)
            <==> BindsAt(history[..n], i, EffectiveMods(After(history[..n]), history[n].key), history[n].key.sym)
  {
    ModsAreInForce(history[..n]);
    assert history[..n + 1][..n] == history[..n];
  }

  /** What becomes of any event of any history, from the history alone. It runs a callback if and only if its
      symbol was bound before, under the modifiers in force with it, and then the one that was bound last. Else
      it is swallowed if and only if it is a release of a symbol on which a callback ran that no swallowed
      release has answered, and forwarded otherwise. */
  lemma OutcomeFromHistory(history: seq<Event>, n: nat)
    requires n < |history| && history[n].KeyInput?
    ensures var o, e := Outcomes(history)[n], history[n].key;
            && o.Some?
            && (o.value.Fired? <==> IsBound(history, n))
            && (forall i: nat :: Binds(history, i, n) && (forall j: nat :: j > i ==> !Binds(history, j, n)) ==>
                                   o.value == Fired(history[i].id))
            && (o.value.Swallowed? <==>
                !IsBound(history, n) && !e.pressed && FiredSinceSwallowed(history[..n], Outcomes(history[..n]), e.sym))
  {
    var before, e := history[..n], history[n].key;
    var mods := EffectiveMods(After(before), e);
    OutcomeAt(history, n);
    LookupIsLastBinding(before, mods, e.sym);
    SuppressedIffFiredSinceSwallowed(before, e.sym);
    forall i: nat
      ensures Binds(history, i, n) <==> BindsAt(before, i, mods, e.sym)
    {
      if i < n { BindsInPrefix(history, i, n); }
    }
    forall i: nat | Binds(history, i, n) && forall j: nat :: j > i ==> !Binds(history, j, n)
      ensures Outcomes(history)[n].value == Fired(history[i].id)
    {
      assert forall j: nat :: i < j < n ==> !Binds(history, j, n);
      assert LastBinding(before, i, mods, e.sym);
    }
  }

  /** The `n`-th event is a press, or a release, of a symbol that is bound. */
  ghost predicate RunsOn(history: seq<Event>, n: nat, pressed: bool) {
    n < |history| && history[n].KeyInput? && history[n].key.pressed == pressed && IsBound(history, n)
  }

  lemma BoundInPrefix(history: seq<Event>, n: nat, k: nat)
    requires n < k <= |history|
    ensures IsBound(history[..k], n) == IsBound(history, n)
  {
    assert history[..k][..n + 1] == history[..n + 1];
    assert forall i: nat :: Binds(history[..k], i, n) == Binds(history, i, n);
  }

  /** How many presses, or releases, are of a symbol that is bound. */
  ghost function CountRuns(history: seq<Event>, pressed: bool): nat {
    if history == [] then 0
    else
      var n := |history| - 1;
      CountRuns(history[..n], pressed) + if RunsOn(history, n, pressed) then 1 else 0
  }

  lemma {:induction false} CountRunsIsZeroIff(history: seq<Event>, pressed: bool)
    ensures CountRuns(history, pressed) == 0 <==> forall n: nat :: !RunsOn(history, n, pressed)
  {
    if history != [] {
      var m := |history| - 1;
      CountRunsIsZeroIff(history[..m], pressed);
      forall n: nat | n < m
        ensures RunsOn(history, n, pressed) == RunsOn(history[..m], n, pressed)
      {
        BoundInPrefix(history, n, m);
      }
    }
  }

  lemma {:induction false} RunsAreCounted(history: seq<Event>)
    ensures |Runs(After(history).configMessages)| == CountRuns(history, true) + CountRuns(history, false)
  {
    if history != [] {
      var n := |history| - 1;
      RunsAreCounted(history[..n]);
      MessagesAfterStep(After(history[..n]), history[n]);
      OutcomeAt(history, n);
      if history[n].KeyInput? { OutcomeFromHistory(history, n); }
    }
  }

  /** Releases are looked up as well. So over every history, callbacks run exactly once for each press of a
      bound key, and at no other time, if and only if no release is of a symbol that is bound under the
      modifiers then in force. */
  lemma OneRunPerBoundPressIff(history: seq<Event>)
    ensures |Runs(After(history).configMessages)| == CountRuns(history, true)
            <==> forall n: nat :: !RunsOn(history, n, false)
  {
    RunsAreCounted(history);
    CountRunsIsZeroIff(history, false);
  }

  /** The same for one key: whatever happens between a press of a bound symbol and a release, that press
      stays the only one of the two to run one, unless the symbol of the release was ever bound, before it,
      under the modifiers in force at it. */
  lemma OneRunPerPressIffUnboundOnRelease(before: seq<Event>, press: KeyEvent, mid: seq<Event>, release: KeyEvent)
    requires press.pressed && !release.pressed
    requires exists i: nat :: BindsAt(before, i, EffectiveMods(After(before), press), press.sym)
    ensures var first := before + [KeyInput(press)] + mid;
            var outcomes := Outcomes(first + [KeyInput(release)]);
            && Fires(KeyInput(press), outcomes[|before|], press.sym)
            && (Fires(KeyInput(release), outcomes[|first|], release.sym)
                <==> exists i: nat :: BindsAt(first, i, EffectiveMods(After(first), release), release.sym))
  {
    var first := before + [KeyInput(press)] + mid;
    var history := first + [KeyInput(release)];
    OutcomeAt(history, |before|);
    LookupIsLastBinding(before, EffectiveMods(After(before), press), press.sym);
    OutcomeAt(history, |first|);
    assert history[..|before|] == before && history[..|first|] == first;
    LookupIsLastBinding(first, EffectiveMods(After(first), release), release.sym);
  }

  predicate KeepsMods(events: seq<Event>) {
    forall i :: 0 <= i < |events| && events[i].KeyInput? ==> events[i].key.newMods.None?
  }

  lemma {:induction false} BindingsStay(first: seq<Event>, mid: seq<Event>, mods: Mods, sym: Keysym)
    requires KeepsMods(mid)
    ensures After(first + mid).mods == After(first).mods
    ensures Lookup(After(first).keymaps, mods, sym).Some? ==> Lookup(After(first + mid).keymaps, mods, sym).Some?
    decreases |mid|
  {
    if mid == [] {
      assert first + mid == first;
    } else {
      var n := |mid| - 1;
      BindingsStay(first, mid[..n], mods, sym);
      assert first + mid == first + mid[..n] + [mid[n]];
      assert (first + mid)[..|first| + n] == first + mid[..n];
      BindingStays(After(first + mid[..n]), mid[n], mods, sym);
    }
  }

  lemma BindingStays(s: Input, e: Event, mods: Mods, sym: Keysym)
    requires e.KeyInput? ==> e.key.newMods.None?
    ensures Step(s, e).mods == s.mods
    ensures Lookup(s.keymaps, mods, sym).Some? ==> Lookup(Step(s, e).keymaps, mods, sym).Some?
  {
  }

  /** So a bound key whose modifiers do not change while it is held always runs its callback a second time:
      bindings are replaced but never removed. */
  lemma UnchangedModifiersRunTwice(before: seq<Event>, press: KeyEvent, mid: seq<Event>, release: KeyEvent)
    requires press.pressed && !release.pressed && press.sym == release.sym
    requires exists i: nat :: BindsAt(before, i, EffectiveMods(After(before), press), press.sym)
    requires KeepsMods(mid) && release.newMods.None?
    ensures Route(After(before), press).Fired?
    ensures Route(After(before + [KeyInput(press)] + mid), release).Fired?
  {
    var first := before + [KeyInput(press)];
    assert first[..|before|] == before;
    LookupIsLastBinding(before, EffectiveMods(After(before), press), press.sym);
    BindingsStay(first, mid, After(first).mods, release.sym);
  }

  /** An instance of the double run: press and release of a plain binding, which also leaves the symbol
      suppressed with nothing held. */
  lemma PlainBindingRunsTwice(s: Input)
    requires s == INITIAL.(keymaps := map[NO_MODS := map[Char('q') := 1]])
    ensures var s2 := Key(Key(s, KeyEvent(24, true, Char('q'), None, 0)), KeyEvent(24, false, Char('q'), None, 1));
            && s2.configMessages == [RunCallback(1), RunCallback(1)]
            && s2.pressed == {}
            && s2.suppressed == [Char('q'), Char('q')]
  {
    var s1 := Key(s, KeyEvent(24, true, Char('q'), None, 0));
    assert s1.configMessages == [RunCallback(1)] && s1.suppressed == [Char('q')];
  }

  // The display's view of the keyboard

  /** What the input thread does with each event. */
  function Handlings(history: seq<Event>): (r: seq<Handling>)
    ensures |r| == |history|
  {
    if history == [] then []
    else Handlings(history[..|history| - 1]) + [HandlingOf(After(history[..|history| - 1]), history[|history| - 1])]
  }

  function HandlingOf(s: Input, e: Event): Handling {
    match e
    case Binding(_, _) => Silent
    case KeyInput(key) => Handled(StrokeOf(key), Route(s, key).Forwarded?)
  }

  function StrokeOf(key: KeyEvent): Stroke { Stroke(key.code, key.pressed) }

  function Strokes(keys: seq<KeyEvent>): seq<Stroke> {
    if keys == [] then [] else Strokes(keys[..|keys| - 1]) + [StrokeOf(keys[|keys| - 1])]
  }

  /** The stream of forwarded events alternates per key, and the display has down exactly the held keys whose
      press was forwarded. */
  ghost predicate DisplayIsRight(history: seq<Event>) {
    Sees(Strokes(After(history).keyboardInputs), Shown(Handlings(history)))
  }

  /** A release is bound or suppressed exactly if the press of its key was not forwarded. */
  predicate ReleaseIsRight(history: seq<Event>, e: Event) {
    e.KeyInput? && !e.key.pressed ==>
      var s := After(history);
      (Lookup(s.keymaps, EffectiveMods(s, e.key), e.key.sym).Some? || e.key.sym in s.suppressed)
      <==> e.key.code !in Shown(Handlings(history))
  }

  lemma {:induction false} HandlingsOfPrefix(history: seq<Event>, n: nat)
    requires n <= |history|
    ensures Handlings(history)[..n] == Handlings(history[..n])
    ensures n < |history| ==> Handlings(history)[n] == HandlingOf(After(history[..n]), history[n])
  {
    var m := |history| - 1;
    if n == |history| {
      assert history[..n] == history && Handlings(history)[..n] == Handlings(history);
    } else {
      HandlingsOfPrefix(history[..m], n);
      assert history[..m][..n] == history[..n];
    }
  }

  lemma {:induction false} ForwardedAreThosePassed(history: seq<Event>)
    ensures Strokes(After(history).keyboardInputs) == Passed(Handlings(history))
  {
    if history != [] {
      var n := |history| - 1;
      var before := After(history[..n]);
      ForwardedAreThosePassed(history[..n]);
      MessagesAfterStep(before, history[n]);
      assert Handlings(history)[..n] == Handlings(history[..n]);
      if history[n].KeyInput? && Route(before, history[n].key).Forwarded? {
        assert (before.keyboardInputs + [history[n].key])[..|before.keyboardInputs|] == before.keyboardInputs;
      } else {
        assert After(history).keyboardInputs == before.keyboardInputs;
      }
    }
  }

  /** For every history in which keys alternate physically, whatever is bound meanwhile: after every event the
      display's view of the keyboard is right, if and only if each release is bound or suppressed exactly when
      the press of its key was not forwarded. */
  lemma {:induction false} DisplayIsRightIffReleasesAre(history: seq<Event>)
    requires Alternates(Handlings(history))
    ensures (forall n: nat :: n <= |history| ==> DisplayIsRight(history[..n]))
            <==> forall n: nat :: n < |history| ==> ReleaseIsRight(history[..n], history[n])
  {
    var events := Handlings(history);
    forall n: nat | n <= |history|
      ensures DisplayIsRight(history[..n]) <==> IsRight(events[..n])
      ensures n < |history| ==> (ReleaseIsRight(history[..n], history[n]) <==> ReleaseMatches(events[..n], events[n]))
    {
      RightnessIsOfHandlings(history, n);
    }
    AlwaysRightIff(events);
  }

  lemma RightnessIsOfHandlings(history: seq<Event>, n: nat)
    requires n <= |history|
    ensures DisplayIsRight(history[..n]) <==> IsRight(Handlings(history)[..n])
    ensures n < |history| ==>
              (ReleaseIsRight(history[..n], history[n])
               <==> ReleaseMatches(Handlings(history)[..n], Handlings(history)[n]))
  {
    HandlingsOfPrefix(history, n);
    ForwardedAreThosePassed(history[..n]);
  }

  /** The pressed keys are those that are physically held, and the tab index is never used. */
  lemma {:induction false} PressedAreHeld(history: seq<Event>)
    ensures After(history).pressed == Held(Handlings(history))
    ensures After(history).tabIndex == 0
  {
    if history != [] {
      var n := |history| - 1;
      PressedAreHeld(history[..n]);
      assert Handlings(history)[..n] == Handlings(history[..n]);
    }
  }

  /** An instance where the display keeps a key down that is up: after a shortcut with a modifier, the plain key
      is pressed and released. The press is forwarded, but the release is swallowed, since the shortcut ran on
      the earlier release as well and left the symbol suppressed. */
  lemma DisplayMissesRelease(s: Input, logo: Mods, press: KeyEvent, release: KeyEvent)
    requires logo == NO_MODS.(logo := true) && s == INITIAL.(keymaps := map[logo := map[Char('q') := 1]])
    requires press == KeyEvent(24, true, Char('q'), None, 0) && release == press.(pressed := false)
    ensures var s2 := Key(Key(s, press.(newMods := Some(logo))), release);
            var s4 := Key(Key(s2, press.(newMods := Some(NO_MODS))), release);
            && s2.keyboardInputs == [] && s2.suppressed == [Char('q'), Char('q')]
            && s4.keyboardInputs == [press.(newMods := Some(NO_MODS))] && s4.pressed == {}
  {
    var s1 := Key(s, press.(newMods := Some(logo)));
    assert Route(s, press.(newMods := Some(logo))) == Fired(1) && s1.suppressed == [Char('q')];
    var s2 := Key(s1, release);
    assert Route(s1, release) == Fired(1) && s2.suppressed == [Char('q'), Char('q')];
    var s3 := Key(s2, press.(newMods := Some(NO_MODS)));
    assert Route(s2, press.(newMods := Some(NO_MODS))).Forwarded?;
    assert Route(s3, release).Swallowed?;
  }
}

/** Which keys egui believes are down, across focus changes (egui/mod.rs). */
module EguiKeys {
  import opened Common

  type Code = int
  type Key = nat

  datatype Event = KeyEvent(key: Key, pressed: bool) | Text

  datatype PressedKey = PressedKey(key: Option<Key>, code: Code)

  /** `delivered` is what earlier frames took out of `events`; `kbd` holds the codes the xkb state has
      down, if there is such a state. */
  datatype Egui = Egui(
    pressed: seq<PressedKey>,
    events: seq<Event>,
    delivered: seq<Event>,
    kbd: Option<set<Code>>,
    focused: bool)

  /** The egui key of a key code, if it has one. */
  type KeyMap = Code -> Option<Key>

  function Emit(s: Egui, key: Option<Key>, pressed: bool): Egui {
    if key.Some? then s.(events := s.events + [KeyEvent(key.value, pressed)]) else s
  }

  function Input(s: Egui, code: Code, pressed: bool): Egui {
    if s.kbd.None? then s
    else s.(kbd := Some(if pressed then s.kbd.value + {code} else s.kbd.value - {code}))
  }

  function Down(s: Egui, keyOf: KeyMap, code: Code): Egui {
    Input(Emit(s, keyOf(code), true).(pressed := s.pressed + [PressedKey(keyOf(code), code)]), code, true)
  }

  function WithoutCode(pressed: seq<PressedKey>, code: Code): (r: seq<PressedKey>)
    ensures forall p :: p in r <==> p in pressed && p.code != code
  {
    if pressed == [] then []
    else (if pressed[0].code == code then [] else [pressed[0]]) + WithoutCode(pressed[1..], code)
  }

  function HandleKey(s: Egui, keyOf: KeyMap, code: Code, pressed: bool): Egui {
    if pressed then
      var s' := Down(s, keyOf, code);
      if s'.kbd.Some? then s'.(events := s'.events + [Text]) else s'
    else
      Input(Emit(s, keyOf(code), false).(pressed := WithoutCode(s.pressed, code)), code, false)
  }

  function DownAll(s: Egui, keyOf: KeyMap, codes: seq<Code>): Egui {
    if codes == [] then s
    else Down(DownAll(s, keyOf, codes[..|codes| - 1]), keyOf, codes[|codes| - 1])
  }

  function Enter(s: Egui, keyOf: KeyMap, codes: seq<Code>): Egui {
    DownAll(s.(focused := true), keyOf, codes)
  }

  function Up(s: Egui, p: PressedKey): Egui {
    Input(Emit(s, p.key, false), p.code, false)
  }

  function UpAll(s: Egui, keys: seq<PressedKey>): Egui {
    if keys == [] then s
    else
      Up(UpAll(s, keys[..|keys| - 1]), keys[|keys| - 1])
  }

  function Leave(s: Egui): Egui {
    UpAll(s.(focused := false, pressed := []), s.pressed)
  }

  /** A frame hands the collected events to egui. */
  function Frame(s: Egui): Egui {
    s.(events := [], delivered := s.delivered + s.events)
  }

  class EguiInner {
    var pressed: seq<PressedKey>
    var events: seq<Event>
    var delivered: seq<Event>
    var kbd: Option<set<Code>>
    var focused: bool

    ghost function View(): Egui
      reads this
    {
      Egui(pressed, events, delivered, kbd, focused)
    }

    constructor (hasKeymap: bool)
      ensures View() == New(hasKeymap)
    {
      pressed := [];
      events := [];
      delivered := [];
      kbd := if hasKeymap then Some({}) else None;
      focused := false;
    }

    method EmitKey(key: Option<Key>, down: bool)
      modifies this`events
      ensures View() == Emit(old(View()), key, down)
    {
      if key.Some? { events := events + [KeyEvent(key.value, down)]; }
    }

    method KeyInput(code: Code, down: bool)
      modifies this`kbd
      ensures View() == Input(old(View()), code, down)
    {
      if kbd.Some? {
        kbd := Some(if down then kbd.value + {code} else kbd.value - {code});
      }
    }

    method HandleKeyboard(keyOf: KeyMap, code: Code, down: bool)
      modifies this`events, this`pressed, this`kbd
      ensures View() == HandleKey(old(View()), keyOf, code, down)
    {
      var key := keyOf(code);
      EmitKey(key, down);
      if down {
        pressed := pressed + [PressedKey(key, code)];
      } else {
        pressed := WithoutCode(pressed, code);
      }
      KeyInput(code, down);
      if kbd.Some? && down { events := events + [Text]; }
    }

    method KeyboardEnter(keyOf: KeyMap, codes: seq<Code>)
      modifies this`focused, this`events, this`pressed, this`kbd
      ensures View() == Enter(old(View()), keyOf, codes)
    {
      focused := true;
      for i := 0 to |codes|
        invariant View() == Enter(old(View()), keyOf, codes[..i])
      {
        assert codes[..i + 1][..i] == codes[..i];
        EmitKey(keyOf(codes[i]), true);
        pressed := pressed + [PressedKey(keyOf(codes[i]), codes[i])];
        KeyInput(codes[i], true);
      }
      assert codes[..|codes|] == codes;
    }

    method KeyboardLeave()
      modifies this`focused, this`events, this`pressed, this`kbd
      ensures View() == Leave(old(View()))
    {
      focused := false;
      var keys := pressed;
      pressed := [];
      for i := 0 to |keys|
        invariant View() == UpAll(old(View()).(focused := false, pressed := []), keys[..i])
      {
        assert keys[..i + 1][..i] == keys[..i];
        EmitKey(keys[i].key, false);
        KeyInput(keys[i].code, false);
      }
      assert keys[..|keys|] == keys;
    }

    method Render()
      modifies this`events, this`delivered
      ensures View() == Frame(old(View()))
    {
      delivered := delivered + events;
      events := [];
    }
  }

  // What egui sees

  function KeysDown(events: seq<Event>): set<Key> {
    if events == [] then {}
    else
      var down := KeysDown(events[..|events| - 1]);
      match events[|events| - 1]
      case KeyEvent(key, pressed) => if pressed then down + {key} else down - {key}
      case Text => down
  }

  function Seen(s: Egui): set<Key> { KeysDown(s.delivered + s.events) }

  function KeysOf(keys: seq<PressedKey>): set<Key> { set p | p in keys && p.key.Some? :: p.key.value }

  function CodesOf(keys: seq<PressedKey>): set<Code> { set p | p in keys :: p.code }

  lemma KeysOfAppended(keys: seq<PressedKey>, p: PressedKey)
    ensures KeysOf(keys + [p]) == KeysOf(keys) + (if p.key.Some? then {p.key.value} else {})
    ensures CodesOf(keys + [p]) == CodesOf(keys) + {p.code}
  {
    assert forall q :: q in keys + [p] <==> q in keys || q == p;
  }

  ghost predicate Tracked(s: Egui, keyOf: KeyMap) {
    && (forall p :: p in s.pressed ==> p.key == keyOf(p.code))
    && Seen(s) <= KeysOf(s.pressed)
    && (s.kbd.Some? ==> s.kbd.value == CodesOf(s.pressed))
  }

  lemma SeenAfterEvent(s: Egui, e: Event)
    ensures Seen(s.(events := s.events + [e])) ==
            match e
            case KeyEvent(key, pressed) => if pressed then Seen(s) + {key} else Seen(s) - {key}
            case Text => Seen(s)
  {
    var all := s.delivered + (s.events + [e]);
    assert all[..|all| - 1] == s.delivered + s.events;
  }

  lemma SeenAfterEmit(s: Egui, key: Option<Key>, pressed: bool)
    ensures Seen(Emit(s, key, pressed)) ==
            if key.None? then Seen(s) else if pressed then Seen(s) + {key.value} else Seen(s) - {key.value}
  {
    if key.Some? { SeenAfterEvent(s, KeyEvent(key.value, pressed)); }
  }

  /** How each operation changes what egui sees and what is recorded as pressed. */
  lemma DownTracks(s: Egui, keyOf: KeyMap, code: Code)
    requires Tracked(s, keyOf)
    ensures var s' := Down(s, keyOf, code);
            && Tracked(s', keyOf)
            && Seen(s') == Seen(s) + (if keyOf(code).Some? then {keyOf(code).value} else {})
  {
    SeenAfterEmit(s, keyOf(code), true);
    var s' := Down(s, keyOf, code);
    var added := PressedKey(keyOf(code), code);
    assert s'.pressed == s.pressed + [added];
    KeysOfAppended(s.pressed, added);
  }

  lemma {:induction false} DownAllTracks(s: Egui, keyOf: KeyMap, codes: seq<Code>)
    requires Tracked(s, keyOf)
    ensures Tracked(DownAll(s, keyOf, codes), keyOf)
  {
    if codes != [] {
      DownAllTracks(s, keyOf, codes[..|codes| - 1]);
      DownTracks(DownAll(s, keyOf, codes[..|codes| - 1]), keyOf, codes[|codes| - 1]);
    }
  }

  lemma ReleaseTracks(s: Egui, keyOf: KeyMap, code: Code)
    requires Tracked(s, keyOf)
    ensures var s' := HandleKey(s, keyOf, code, false);
            && Tracked(s', keyOf)
            && Seen(s') == Seen(s) - (if keyOf(code).Some? then {keyOf(code).value} else {})
  {
    SeenAfterEmit(s, keyOf(code), false);
    var s' := HandleKey(s, keyOf, code, false);
    assert s'.pressed == WithoutCode(s.pressed, code);
    assert forall key :: key in Seen(s') ==> exists p :: p in s.pressed && p.key == Some(key) && p.code != code;
  }

  lemma PressTracks(s: Egui, keyOf: KeyMap, code: Code)
    requires Tracked(s, keyOf)
    ensures Tracked(HandleKey(s, keyOf, code, true), keyOf)
    ensures Seen(HandleKey(s, keyOf, code, true)) == Seen(s) + (if keyOf(code).Some? then {keyOf(code).value} else {})
  {
    DownTracks(s, keyOf, code);
    SeenAfterEvent(Down(s, keyOf, code), Text);
  }

  lemma UpReleases(s: Egui, p: PressedKey)
    ensures Up(s, p).pressed == s.pressed
    ensures Up(s, p).kbd == if s.kbd.Some? then Some(s.kbd.value - {p.code}) else None
    ensures Seen(Up(s, p)) == Seen(s) - if p.key.Some? then {p.key.value} else {}
  {
    SeenAfterEmit(s, p.key, false);
  }

  /** Releasing a list of keys takes away exactly these, from egui and from the xkb state. */
  lemma {:induction false} UpAllReleases(s: Egui, keys: seq<PressedKey>)
    ensures UpAll(s, keys).pressed == s.pressed
    ensures Seen(UpAll(s, keys)) == Seen(s) - KeysOf(keys)
    ensures UpAll(s, keys).kbd.Some? <==> s.kbd.Some?
    ensures s.kbd.Some? ==> UpAll(s, keys).kbd.value == s.kbd.value - CodesOf(keys)
  {
    if keys != [] {
      var n := |keys| - 1;
      var first, last := keys[..n], keys[n];
      UpAllReleases(s, first);
      UpReleases(UpAll(s, first), last);
      KeysOfAppended(first, last);
      assert keys == first + [last];
    }
  }

  /** After losing the focus egui sees no key down, none is recorded and none is down in the xkb state. */
  lemma LeaveReleasesEverything(s: Egui, keyOf: KeyMap)
    requires Tracked(s, keyOf)
    ensures Leave(s).pressed == [] && Seen(Leave(s)) == {} && (s.kbd.Some? ==> Leave(s).kbd == Some({}))
    ensures Tracked(Leave(s), keyOf)
  {
    UpAllReleases(s.(focused := false, pressed := []), s.pressed);
    if s.kbd.Some? { assert Leave(s).kbd.value == {}; }
  }

  // Whole runs

  datatype Step = Entered(codes: seq<Code>) | Left | KeyChanged(code: Code, pressed: bool) | Rendered

  function Next(s: Egui, keyOf: KeyMap, step: Step): Egui {
    match step
    case Entered(codes) => Enter(s, keyOf, codes)
    case Left => Leave(s)
    case KeyChanged(code, pressed) => HandleKey(s, keyOf, code, pressed)
    case Rendered => Frame(s)
  }

  function Run(s: Egui, keyOf: KeyMap, steps: seq<Step>): Egui
    decreases |steps|
  {
    if steps == [] then s else Run(Next(s, keyOf, steps[0]), keyOf, steps[1..])
  }

  function New(hasKeymap: bool): Egui { Egui([], [], [], if hasKeymap then Some({}) else None, false) }

  lemma StepTracks(s: Egui, keyOf: KeyMap, step: Step)
    requires Tracked(s, keyOf)
    ensures Tracked(Next(s, keyOf, step), keyOf)
  {
    match step
    case Entered(codes) => DownAllTracks(s.(focused := true), keyOf, codes);
    case Left => LeaveReleasesEverything(s, keyOf);
    case KeyChanged(code, pressed) =>
      if pressed { PressTracks(s, keyOf, code); } else { ReleaseTracks(s, keyOf, code); }
    case Rendered => assert s.delivered + s.events + [] == s.delivered + s.events;
  }

  /** No key is stuck: over every run of focus changes, key events and frames, what egui sees down is among
      the recorded keys, and an xkb state has down exactly the recorded codes. */
  lemma {:induction false} NoStuckKeys(s: Egui, keyOf: KeyMap, steps: seq<Step>)
    requires Tracked(s, keyOf)
    ensures Tracked(Run(s, keyOf, steps), keyOf)
    decreases |steps|
  {
    if steps != [] {
      StepTracks(s, keyOf, steps[0]);
      NoStuckKeys(Next(s, keyOf, steps[0]), keyOf, steps[1..]);
    }
  }

  lemma NothingSeenAtFirst(keyOf: KeyMap, hasKeymap: bool)
    ensures Tracked(New(hasKeymap), keyOf)
  {
  }

  /** Egui can lose a key that is still held: a release takes the egui key away for all codes that share it.
      Starting from an exact view, the view stays exact if and only if no other recorded code has the key. */
  lemma ReleaseIsExactIff(s: Egui, keyOf: KeyMap, code: Code)
    requires Tracked(s, keyOf) && Seen(s) == KeysOf(s.pressed)
    ensures var s' := HandleKey(s, keyOf, code, false);
            Seen(s') == KeysOf(s'.pressed)
            <==> !exists p :: p in s.pressed && p.code != code && p.key.Some? && p.key == keyOf(code)
  {
    ReleaseTracks(s, keyOf, code);
    var s' := HandleKey(s, keyOf, code, false);
    if p :| p in s.pressed && p.code != code && p.key.Some? && p.key == keyOf(code) {
      assert p in s'.pressed;
      assert p.key.value in KeysOf(s'.pressed) && p.key.value !in Seen(s');
    } else {
      forall key | key in KeysOf(s'.pressed)
        ensures key in Seen(s')
      {
        var p :| p in s'.pressed && p.key == Some(key);
        assert p in s.pressed;
      }
    }
  }

  // What egui is told, from the steps alone

  /** The codes recorded as pressed, in order. */
  function Recorded(steps: seq<Step>): seq<Code> {
    if steps == [] then []
    else
      var before := Recorded(steps[..|steps| - 1]);
      match steps[|steps| - 1]
      case Entered(codes) => before + codes
      case Left => []
      case KeyChanged(code, pressed) => if pressed then before + [code] else Others(before, code)
      case Rendered => before
  }

  function Others(codes: seq<Code>, code: Code): seq<Code> {
    if codes == [] then [] else (if codes[0] == code then [] else [codes[0]]) + Others(codes[1..], code)
  }

  /** One event for each code that has a key. */
  function KeyEvents(keyOf: KeyMap, codes: seq<Code>, pressed: bool): seq<Event> {
    if codes == [] then []
    else
      var n := |codes| - 1;
      KeyEvents(keyOf, codes[..n], pressed) +
      (if keyOf(codes[n]).Some? then [KeyEvent(keyOf(codes[n]).value, pressed)] else [])
  }

  /** The events of one step: presses on entry, releases of the recorded keys on leaving, and for a key its event
      and, on a press, the text that the keymap gives for it. */
  function EventsOf(keyOf: KeyMap, hasKeymap: bool, recorded: seq<Code>, step: Step): seq<Event> {
    match step
    case Entered(codes) => KeyEvents(keyOf, codes, true)
    case Left => KeyEvents(keyOf, recorded, false)
    case KeyChanged(code, pressed) =>
      KeyEvents(keyOf, [code], pressed) + if pressed && hasKeymap then [Text] else []
    case Rendered => []
  }

  function Emitted(keyOf: KeyMap, hasKeymap: bool, steps: seq<Step>): seq<Event> {
    if steps == [] then []
    else
      var n := |steps| - 1;
      Emitted(keyOf, hasKeymap, steps[..n]) + EventsOf(keyOf, hasKeymap, Recorded(steps[..n]), steps[n])
  }

  /** The keyboard was entered, and not left since. */
  predicate Focused(steps: seq<Step>) {
    steps != [] &&
    match steps[|steps| - 1]
    case Entered(_) => true
    case Left => false
    case _ => Focused(steps[..|steps| - 1])
  }

  function CodesInOrder(keys: seq<PressedKey>): (r: seq<Code>)
    ensures |r| == |keys| && forall i :: 0 <= i < |r| ==> r[i] == keys[i].code
  {
    seq(|keys|, i requires 0 <= i < |keys| => keys[i].code)
  }

  function All(s: Egui): seq<Event> { s.delivered + s.events }

  ghost predicate Follows(s: Egui, keyOf: KeyMap, hasKeymap: bool, recorded: seq<Code>) {
    && CodesInOrder(s.pressed) == recorded && s.kbd.Some? == hasKeymap
    && forall p :: p in s.pressed ==> p.key == keyOf(p.code)
  }

  lemma EventsOfOne(keyOf: KeyMap, code: Code, pressed: bool)
    ensures KeyEvents(keyOf, [code], pressed)
            == if keyOf(code).Some? then [KeyEvent(keyOf(code).value, pressed)] else []
  {
    assert [code][..0] == [];
  }

  lemma EmitAppends(s: Egui, keyOf: KeyMap, code: Code, pressed: bool)
    ensures All(Emit(s, keyOf(code), pressed)) == All(s) + KeyEvents(keyOf, [code], pressed)
  {
    EventsOfOne(keyOf, code, pressed);
    assert All(s) + [] == All(s);
  }

  lemma DownFollows(s: Egui, keyOf: KeyMap, hasKeymap: bool, recorded: seq<Code>, code: Code)
    requires Follows(s, keyOf, hasKeymap, recorded)
    ensures Follows(Down(s, keyOf, code), keyOf, hasKeymap, recorded + [code])
    ensures All(Down(s, keyOf, code)) == All(s) + KeyEvents(keyOf, [code], true)
  {
    EmitAppends(s, keyOf, code, true);
    var added := PressedKey(keyOf(code), code);
    assert Down(s, keyOf, code).pressed == s.pressed + [added];
    assert CodesInOrder(s.pressed + [added]) == CodesInOrder(s.pressed) + [code];
  }

  lemma {:induction false} DownAllFollows(
    s: Egui, keyOf: KeyMap, hasKeymap: bool, recorded: seq<Code>, codes: seq<Code>)
    requires Follows(s, keyOf, hasKeymap, recorded)
    ensures Follows(DownAll(s, keyOf, codes), keyOf, hasKeymap, recorded + codes)
    ensures DownAll(s, keyOf, codes).focused == s.focused
  {
    if codes == [] {
      assert recorded + [] == recorded;
    } else {
      var n := |codes| - 1;
      DownAllFollows(s, keyOf, hasKeymap, recorded, codes[..n]);
      DownFollows(DownAll(s, keyOf, codes[..n]), keyOf, hasKeymap, recorded + codes[..n], codes[n]);
      assert recorded + codes == recorded + codes[..n] + [codes[n]];
    }
  }

  lemma {:induction false} DownAllEmits(s: Egui, keyOf: KeyMap, codes: seq<Code>)
    ensures All(DownAll(s, keyOf, codes)) == All(s) + KeyEvents(keyOf, codes, true)
  {
    if codes == [] {
      assert All(s) + [] == All(s);
    } else {
      var n := |codes| - 1;
      DownAllEmits(s, keyOf, codes[..n]);
      EmitAppends(DownAll(s, keyOf, codes[..n]), keyOf, codes[n], true);
      EventsOfOne(keyOf, codes[n], true);
    }
  }

  lemma {:induction false} UpAllEmits(s: Egui, keyOf: KeyMap, keys: seq<PressedKey>)
    requires forall p :: p in keys ==> p.key == keyOf(p.code)
    ensures var s' := UpAll(s, keys);
            && All(s') == All(s) + KeyEvents(keyOf, CodesInOrder(keys), false)
            && s'.pressed == s.pressed && s'.kbd.Some? == s.kbd.Some? && s'.focused == s.focused
  {
    if keys == [] {
      assert All(s) + [] == All(s) && CodesInOrder(keys) == [];
    } else {
      var n := |keys| - 1;
      var first, last, codes := keys[..n], keys[n], CodesInOrder(keys);
      UpAllEmits(s, keyOf, first);
      assert codes[..n] == CodesInOrder(first) && codes[n] == last.code && last in keys;
      EmitAppends(UpAll(s, first), keyOf, last.code, false);
      EventsOfOne(keyOf, last.code, false);
      assert KeyEvents(keyOf, codes, false)
             == KeyEvents(keyOf, codes[..n], false) + KeyEvents(keyOf, [last.code], false);
    }
  }

  lemma {:induction false} WithoutCodeKeepsOrder(keys: seq<PressedKey>, code: Code)
    ensures CodesInOrder(WithoutCode(keys, code)) == Others(CodesInOrder(keys), code)
  {
    if keys != [] {
      var rest, codes := WithoutCode(keys[1..], code), CodesInOrder(keys);
      WithoutCodeKeepsOrder(keys[1..], code);
      assert codes[1..] == CodesInOrder(keys[1..]) && codes[0] == keys[0].code;
      assert CodesInOrder([keys[0]] + rest) == [keys[0].code] + CodesInOrder(rest);
      assert [] + rest == rest && [] + Others(codes[1..], code) == Others(codes[1..], code);
    }
  }

  lemma PressFollows(s: Egui, keyOf: KeyMap, hasKeymap: bool, recorded: seq<Code>, code: Code)
    requires Follows(s, keyOf, hasKeymap, recorded)
    ensures var s' := HandleKey(s, keyOf, code, true);
            && Follows(s', keyOf, hasKeymap, recorded + [code])
            && All(s') == All(s) + EventsOf(keyOf, hasKeymap, recorded, KeyChanged(code, true))
            && s'.focused == s.focused
  {
    DownFollows(s, keyOf, hasKeymap, recorded, code);
    assert KeyEvents(keyOf, [code], true) + [] == KeyEvents(keyOf, [code], true);
  }

  lemma ReleaseFollows(s: Egui, keyOf: KeyMap, hasKeymap: bool, recorded: seq<Code>, code: Code)
    requires Follows(s, keyOf, hasKeymap, recorded)
    ensures var s' := HandleKey(s, keyOf, code, false);
            && Follows(s', keyOf, hasKeymap, Others(recorded, code))
            && All(s') == All(s) + EventsOf(keyOf, hasKeymap, recorded, KeyChanged(code, false))
            && s'.focused == s.focused
  {
    EmitAppends(s, keyOf, code, false);
    WithoutCodeKeepsOrder(s.pressed, code);
    assert HandleKey(s, keyOf, code, false).pressed == WithoutCode(s.pressed, code);
    assert KeyEvents(keyOf, [code], false) + [] == KeyEvents(keyOf, [code], false);
  }

  lemma StepFollows(s: Egui, keyOf: KeyMap, hasKeymap: bool, steps: seq<Step>, step: Step)
    requires Follows(s, keyOf, hasKeymap, Recorded(steps)) && s.focused == Focused(steps)
    ensures var s', steps' := Next(s, keyOf, step), steps + [step];
            && Follows(s', keyOf, hasKeymap, Recorded(steps')) && s'.focused == Focused(steps')
            && All(s') == All(s) + EventsOf(keyOf, hasKeymap, Recorded(steps), step)
  {
    assert (steps + [step])[..|steps|] == steps;
    match step
    case Entered(codes) =>
      DownAllFollows(s.(focused := true), keyOf, hasKeymap, Recorded(steps), codes);
      DownAllEmits(s.(focused := true), keyOf, codes);
    case Left => UpAllEmits(s.(focused := false, pressed := []), keyOf, s.pressed);
    case KeyChanged(code, pressed) =>
      if pressed {
        PressFollows(s, keyOf, hasKeymap, Recorded(steps), code);
      } else {
        ReleaseFollows(s, keyOf, hasKeymap, Recorded(steps), code);
      }
    case Rendered => assert All(s) + [] + [] == All(s);
  }

  lemma {:induction false} RunAppend(s: Egui, keyOf: KeyMap, steps: seq<Step>, step: Step)
    ensures Run(s, keyOf, steps + [step]) == Next(Run(s, keyOf, steps), keyOf, step)
    decreases |steps|
  {
    if steps == [] {
      assert ([step])[1..] == [] && [] + [step] == [step];
    } else {
      RunAppend(Next(s, keyOf, steps[0]), keyOf, steps[1..], step);
      assert (steps + [step])[1..] == steps[1..] + [step];
    }
  }

  /** Over every run egui is told exactly the events of the steps, each once and in order, the recorded codes are
      those of keys pressed or found pressed and neither released nor left since, and the focus is that of the
      last enter or leave. */
  lemma {:induction false} EguiIsToldTheSteps(keyOf: KeyMap, hasKeymap: bool, steps: seq<Step>)
    ensures var s := Run(New(hasKeymap), keyOf, steps);
            && s.delivered + s.events == Emitted(keyOf, hasKeymap, steps)
            && CodesInOrder(s.pressed) == Recorded(steps) && s.focused == Focused(steps)
            && Follows(s, keyOf, hasKeymap, Recorded(steps))
            && (steps != [] && steps[|steps| - 1].Rendered? ==> s.events == [])
  {
    if steps != [] {
      var n := |steps| - 1;
      EguiIsToldTheSteps(keyOf, hasKeymap, steps[..n]);
      assert steps == steps[..n] + [steps[n]];
      RunAppend(New(hasKeymap), keyOf, steps[..n], steps[n]);
      StepFollows(Run(New(hasKeymap), keyOf, steps[..n]), keyOf, hasKeymap, steps[..n], steps[n]);
    }
  }
}

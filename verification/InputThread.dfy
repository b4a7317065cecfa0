/** The input thread: key bindings (keymap.rs) and routing of key events (keyboard.rs). */
module InputThread {
  import opened Common

  type CallbackRef = nat

  datatype Mods = Mods(ctrl: bool, alt: bool, shift: bool, logo: bool)

  /** A key symbol: one of the named keys, or the symbol of a character. */
  datatype Keysym = Named(name: string) | Char(c: char)

  /** What the config thread can receive. */
  datatype ConfigMessage =
    | RunCallback(id: CallbackRef)
    | ForgetCallback(id: CallbackRef)
    | Startup
    | ConnectorChange
    | OtherConfigMessage

  type Keymaps = map<Mods, map<Keysym, CallbackRef>>

  // Key names

  predicate IsNamed(lower: string) {
    match lower
    case "left" | "right" | "up" | "down" | "backspace"
       | "f1" | "f2" | "f3" | "f4" | "f5" | "f6" | "f7" | "f8" | "f9" | "f10" | "f11" | "f12"
       | "f13" | "f14" | "f15" | "f16" | "f17" | "f18" | "f19" | "f20" | "f21" | "f22" | "f23" | "f24"
       | "f25" | "f26" | "f27" | "f28" | "f29" | "f30" | "f31" | "f32" | "f33" | "f34" | "f35"
       | "xf86_audioplay" | "xf86_audionext" | "xf86_audioprev"
       | "xf86_audiomute" | "xf86_audioraisevolume" | "xf86_audiolowervolume" => true
    case _ => false
  }

  predicate IsUpper(c: char) { 'A' <= c <= 'Z' }

  function ToUpper(c: char): char {
    if 'a' <= c <= 'z' then (c as int - 32) as char else c
  }

  function ToLower(c: char): char {
    if IsUpper(c) then (c as int + 32) as char else c
  }

  function Lowercase(s: string): (r: string)
    ensures |r| == |s|
    ensures forall i :: 0 <= i < |r| ==> r[i] == ToLower(s[i])
  {
    if s == "" then "" else [ToLower(s[0])] + Lowercase(s[1..])
  }

  /** The backspace character has the symbol of the backspace key. */
  function FromChar(c: char): Keysym {
    if c == '\U{0008}' then Named("backspace") else Char(c)
  }

  /** Where a binding is kept. */
  type Slot = Option<(Mods, Keysym)>

  /** How letters change case. Not every capital has a lower-case form, and a case map may give no result. */
  datatype Casing = Casing(lower: string -> string, upper: char -> Option<char>, isUpper: char -> bool)

  /** Changing the case of ASCII letters only. */
  const ASCII := Casing(Lowercase, c => Some(ToUpper(c)), IsUpper)

  /** The slot a binding goes to, if it has one. */
  function Normalise(casing: Casing, keyName: string, mods: Mods): Slot {
    var lower := casing.lower(keyName);
    if IsNamed(lower) then
      Some((mods, Named(lower)))
    else if lower == "" then
      None
    else
      var mods' := if casing.isUpper(lower[0]) then mods.(shift := true) else mods;
      if !mods'.shift then Some((mods', FromChar(lower[0])))
      else match casing.upper(lower[0])
        case None => None
        case Some(c) => Some((mods', FromChar(c)))
  }

  /** A key that is named after a capital which has no lower-case form. */
  predicate KeepsCapital(casing: Casing, keyName: string) {
    var lower := casing.lower(keyName);
    lower != "" && !IsNamed(lower) && casing.isUpper(lower[0])
  }

  /** The case of a key name is looked at only after it was lowered. So a slot has the modifiers that were
      given, unless the first character is still a capital then, which adds shift. There is no slot if and
      only if nothing is left of the name, or its first character has to be, and cannot be, raised again. Names
      that are lowered to the same share a slot. */
  lemma ShiftIsAddedIffCapitalRemains(casing: Casing, keyName: string, mods: Mods, other: string)
    ensures var slot, lower := Normalise(casing, keyName, mods), casing.lower(keyName);
            && (slot.Some? ==> slot.value.0 == if KeepsCapital(casing, keyName) then mods.(shift := true) else mods)
            && (slot.None? <==>
                  || lower == ""
                  || (!IsNamed(lower) && (mods.shift || KeepsCapital(casing, keyName)) && casing.upper(lower[0]).None?))
            && (casing.lower(other) == lower ==> Normalise(casing, other, mods) == slot)
  {
    assert !IsNamed("");
  }

  /** The symbol of a slot fits its modifiers: a named key is itself, and a character is raised exactly if shift
      is among them. So with ASCII letters a slot never waits for a small letter with shift or a capital without,
      and the letter is the first of the name. */
  lemma SymbolFitsModifiers(casing: Casing, keyName: string, mods: Mods)
    requires Normalise(casing, keyName, mods).Some?
    ensures var (m, sym), lower := Normalise(casing, keyName, mods).value, casing.lower(keyName);
            && (IsNamed(lower) ==> sym == Named(lower))
            && (!IsNamed(lower) ==> lower != "" && (m.shift ==> casing.upper(lower[0]).Some?))
            && (!IsNamed(lower) ==> sym == FromChar(if m.shift then casing.upper(lower[0]).value else lower[0]))
            && (casing == ASCII && sym.Char? ==>
                  && keyName != "" && ToLower(sym.c) == ToLower(keyName[0])
                  && (m.shift ==> ToUpper(sym.c) == sym.c) && (!m.shift ==> ToLower(sym.c) == sym.c))
  {
    if casing == ASCII {
      var lower := Lowercase(keyName);
      assert lower == casing.lower(keyName);
      assert lower != "" ==> lower[0] == ToLower(keyName[0]);
    }
  }

  /** The backspace character is the backspace key. */
  lemma BackspaceIsNamed(casing: Casing, keyName: string, mods: Mods)
    requires casing.lower(keyName) in {"backspace", "\U{0008}"}
    requires !casing.isUpper('\U{0008}') && !mods.shift
    ensures Normalise(casing, keyName, mods) == Some((mods, Named("backspace")))
  {
    assert IsNamed("backspace");
    assert |"\U{0008}"| == 1 && !IsNamed("\U{0008}");
  }

  /** With ASCII letters a capital in a key name never asks for shift: the slot always has the modifiers that
      were given, only the empty name has none, and names that differ only in case share a slot. */
  lemma CapitalNamesDoNotImplyShift(keyName: string, mods: Mods)
    ensures Normalise(ASCII, keyName, mods).None? <==> keyName == ""
    ensures keyName != "" ==> Normalise(ASCII, keyName, mods).value.0 == mods
    ensures Normalise(ASCII, Lowercase(keyName), mods) == Normalise(ASCII, keyName, mods)
  {
    var lower := Lowercase(keyName);
    assert Lowercase(lower) == lower;
    assert keyName == "" <==> |keyName| == 0;
    ShiftIsAddedIffCapitalRemains(ASCII, keyName, mods, lower);
  }

  // State of the thread

  datatype KeyEvent = KeyEvent(code: int, pressed: bool, sym: Keysym, newMods: Option<Mods>, time: int)

  /** `keyboardInputs` and `configMessages` are everything sent so far. */
  datatype Input = Input(
    keymaps: Keymaps,
    pressed: set<int>,
    mods: Mods,
    suppressed: seq<Keysym>,
    tabIndex: nat,
    configMessages: seq<ConfigMessage>,
    keyboardInputs: seq<KeyEvent>)

  const NO_MODS := Mods(false, false, false, false)

  const INITIAL := Input(map[], {}, NO_MODS, [], 0, [], [])

  function Lookup(keymaps: Keymaps, mods: Mods, sym: Keysym): Option<CallbackRef> {
    if mods in keymaps && sym in keymaps[mods] then Some(keymaps[mods][sym]) else None
  }

  /** Binds `id` to a slot, leaving every other slot alone. */
  function Bind(keymaps: Keymaps, mods: Mods, sym: Keysym, id: CallbackRef): (r: Keymaps)
    ensures forall m, k :: Lookup(r, m, k) == if (m, k) == (mods, sym) then Some(id) else Lookup(keymaps, m, k)
  {
    var inner: map<Keysym, CallbackRef> := if mods in keymaps then keymaps[mods] else map[];
    keymaps[mods := inner[sym := id]]
  }

  function Without(keys: seq<Keysym>, sym: Keysym): (r: seq<Keysym>)
    ensures forall k :: k in r <==> k in keys && k != sym
  {
    if keys == [] then []
    else (if keys[0] == sym then [] else [keys[0]]) + Without(keys[1..], sym)
  }

  /** A new binding of a slot: the callback it replaces, if any, is to be forgotten. Nothing is bound
      when there is no slot. */
  function Bound(s: Input, slot: Slot, id: CallbackRef): Input {
    match slot
    case None => s
    case Some((m, k)) =>
      var messages := match Lookup(s.keymaps, m, k)
                      case None => []
                      case Some(previous) => [ForgetCallback(previous)];
      s.(keymaps := Bind(s.keymaps, m, k, id), configMessages := s.configMessages + messages)
  }

  datatype Outcome = Fired(id: CallbackRef) | Swallowed | Forwarded

  function EffectiveMods(s: Input, e: KeyEvent): Mods {
    if e.newMods.Some? then e.newMods.value else s.mods
  }

  /** What becomes of a key event. Bindings are looked up on releases too. */
  function Route(s: Input, e: KeyEvent): Outcome {
    match Lookup(s.keymaps, EffectiveMods(s, e), e.sym)
    case Some(id) => Fired(id)
    case None => if !e.pressed && e.sym in s.suppressed then Swallowed else Forwarded
  }

  function Key(s: Input, e: KeyEvent): Input {
    var s' := s.(
              pressed := if e.pressed then s.pressed + {e.code} else s.pressed - {e.code},
              mods := EffectiveMods(s, e),
              tabIndex := if EffectiveMods(s, e).alt then s.tabIndex else 0);
    match Route(s, e)
    case Fired(id) => s'.(suppressed := s.suppressed + [e.sym], configMessages := s.configMessages + [RunCallback(id)])
    case Swallowed => s'.(suppressed := Without(s.suppressed, e.sym))
    case Forwarded => s'.(keyboardInputs := s.keyboardInputs + [e])
  }

  class InputState {
    const casing: Casing
    var keymaps: Keymaps
    var pressedKeys: set<int>
    var modsState: Mods
    var suppressedKeys: seq<Keysym>
    var tabIndex: nat
    var toConfig: seq<ConfigMessage>
    var toDisplay: seq<KeyEvent>

    ghost function View(): Input
      reads this
    {
      Input(keymaps, pressedKeys, modsState, suppressedKeys, tabIndex, toConfig, toDisplay)
    }

    constructor (c: Casing)
      ensures casing == c && View() == INITIAL
    {
      casing := c;
      keymaps := map[];
      pressedKeys := {};
      modsState := NO_MODS;
      suppressedKeys := [];
      tabIndex := 0;
      toConfig := [];
      toDisplay := [];
    }

    method SetKeymap(keyName: string, givenMods: Mods, callback: CallbackRef)
      modifies this
      ensures View() == Bound(old(View()), Normalise(casing, keyName, givenMods), callback)
    {
      var mods := givenMods;
      var lower := casing.lower(keyName);
      var key;
      if IsNamed(lower) {
        key := Named(lower);
      } else {
        if lower == "" { return; }
        var c := lower[0];
        if casing.isUpper(c) { mods := mods.(shift := true); }
        if mods.shift {
          var raised := casing.upper(c);
          if raised.None? { return; }
          c := raised.value;
        }
        key := FromChar(c);
      }
      var inner: map<Keysym, CallbackRef> := if mods in keymaps then keymaps[mods] else map[];
      var previous := if key in inner then Some(inner[key]) else None;
      keymaps := keymaps[mods := inner[key := callback]];
      if previous.Some? {
        toConfig := toConfig + [ForgetCallback(previous.value)];
      }
    }

    method KeyboardShortcut(mods: Mods, sym: Keysym) returns (callback: Option<CallbackRef>)
      modifies this`tabIndex
      ensures callback == Lookup(keymaps, mods, sym)
      ensures tabIndex == if mods.alt then old(tabIndex) else 0
    {
      if !mods.alt { tabIndex := 0; }
      if mods in keymaps {
        if sym in keymaps[mods] { return Some(keymaps[mods][sym]); }
      }
      return None;
    }

    method HandleKeyboardEvent(e: KeyEvent)
      modifies this
      ensures View() == Key(old(View()), e)
    {
      if e.pressed { pressedKeys := pressedKeys + {e.code}; } else { pressedKeys := pressedKeys - {e.code}; }
      if e.newMods.Some? { modsState := e.newMods.value; }
      var callback := KeyboardShortcut(modsState, e.sym);
      if callback.Some? {
        suppressedKeys := suppressedKeys + [e.sym];
        toConfig := toConfig + [RunCallback(callback.value)];
        return;
      }
      if !e.pressed && e.sym in suppressedKeys {
        suppressedKeys := Without(suppressedKeys, e.sym);
        return;
      }
      toDisplay := toDisplay + [e];
    }
  }
}

/** The config thread: the registry of Lua callbacks (callback.rs) and who holds their references
    (lib.rs, keymap.rs and output.rs of the config crate). */
module ConfigThread {
  import opened Common
  import opened InputThread

  type LuaFunction = int

  datatype InputMessage = KeymapMessage(keyName: string, mods: Mods, id: CallbackRef)

  /** Running a callback either calls its function or finds no such callback. */
  datatype RunResult = Called(f: LuaFunction) | Missing(id: CallbackRef)

  /** `inputMessages` is everything sent to the input thread so far. */
  datatype Config = Config(
    callbacks: map<CallbackRef, LuaFunction>,
    counter: nat,
    onStartup: Option<CallbackRef>,
    onConnectorChange: Option<CallbackRef>,
    inputMessages: seq<InputMessage>)

  const FIRST_ID: nat := 1

  const INITIAL_CONFIG := Config(map[], FIRST_ID, None, None, [])

  function Register(c: Config, f: LuaFunction): Config {
    c.(callbacks := c.callbacks[c.counter := f], counter := c.counter + 1)
  }

  function Forget(c: Config, id: CallbackRef): Config {
    c.(callbacks := c.callbacks - {id})
  }

  function Run(c: Config, id: CallbackRef): RunResult {
    if id in c.callbacks then Called(c.callbacks[id]) else Missing(id)
  }

  function MapKey(c: Config, keyName: string, mods: Mods, f: LuaFunction): Config {
    Register(c, f).(inputMessages := c.inputMessages + [KeymapMessage(keyName, mods, c.counter)])
  }

  function SetOnStartup(c: Config, f: LuaFunction): Config {
    var kept := if c.onStartup.Some? then Forget(c, c.onStartup.value) else c;
    Register(kept, f).(onStartup := Some(c.counter))
  }

  function SetOnConnectorChange(c: Config, f: LuaFunction): Config {
    Register(c, f).(onConnectorChange := Some(c.counter))
  }

  function Handle(c: Config, m: ConfigMessage): Config {
    if m.ForgetCallback? then Forget(c, m.id) else c
  }

  /** The callback run by handling a message, if it asks for one. */
  function RunBy(c: Config, m: ConfigMessage): Option<RunResult> {
    match m
    case RunCallback(id) => Some(Run(c, id))
    case Startup => if c.onStartup.Some? then Some(Run(c, c.onStartup.value)) else None
    case ConnectorChange => if c.onConnectorChange.Some? then Some(Run(c, c.onConnectorChange.value)) else None
    case _ => None
  }

  datatype KeyBinding = KeyBinding(mods: Mods, keyName: string, f: LuaFunction)

  function MapKeys(c: Config, bindings: seq<KeyBinding>): Config {
    if bindings == [] then c
    else
      var last := bindings[|bindings| - 1];
      MapKey(MapKeys(c, bindings[..|bindings| - 1]), last.keyName, last.mods, last.f)
  }

  class CallbackState {
    var callbacks: map<CallbackRef, LuaFunction>
    var callbackCounter: nat

    constructor ()
      ensures callbacks == map[] && callbackCounter == FIRST_ID
    {
      callbacks := map[];
      callbackCounter := 1;
    }

    method RegisterCallback(f: LuaFunction) returns (id: CallbackRef)
      modifies this
      ensures id == old(callbackCounter) && callbackCounter == id + 1
      ensures callbacks == old(callbacks)[id := f]
    {
      id := callbackCounter;
      callbackCounter := callbackCounter + 1;
      callbacks := callbacks[id := f];
    }

    method RunCallback(id: CallbackRef) returns (r: RunResult)
      ensures r.Called? <==> id in callbacks
      ensures r.Called? ==> r.f == callbacks[id]
      ensures r.Missing? ==> r.id == id
    {
      if id !in callbacks { return Missing(id); }
      return Called(callbacks[id]);
    }

    method ForgetCallback(id: CallbackRef)
      modifies this`callbacks
      ensures callbacks == old(callbacks) - {id}
    {
      callbacks := callbacks - {id};
    }
  }

  class ConfigState {
    const callbackState: CallbackState
    var onStartup: Option<CallbackRef>
    var onConnectorChange: Option<CallbackRef>
    var toInput: seq<InputMessage>

    ghost function View(): Config
      reads this, callbackState
    {
      Config(callbackState.callbacks, callbackState.callbackCounter, onStartup, onConnectorChange, toInput)
    }

    constructor ()
      ensures fresh(callbackState) && View() == INITIAL_CONFIG
    {
      callbackState := new CallbackState();
      onStartup := None;
      onConnectorChange := None;
      toInput := [];
    }

    method OnMapKey(keyName: string, mods: Mods, f: LuaFunction)
      modifies this, callbackState
      ensures View() == MapKey(old(View()), keyName, mods, f)
    {
      var id := callbackState.RegisterCallback(f);
      toInput := toInput + [KeymapMessage(keyName, mods, id)];
    }

    method SetDefaultKeymaps(bindings: seq<KeyBinding>)
      modifies this, callbackState
      ensures View() == MapKeys(old(View()), bindings)
    {
      for i := 0 to |bindings|
        invariant View() == MapKeys(old(View()), bindings[..i])
      {
        assert bindings[..i + 1][..i] == bindings[..i];
        OnMapKey(bindings[i].keyName, bindings[i].mods, bindings[i].f);
      }
      assert bindings[..|bindings|] == bindings;
    }

    method OnStartupRegistered(f: LuaFunction)
      modifies this, callbackState
      ensures View() == SetOnStartup(old(View()), f)
    {
      if onStartup.Some? { callbackState.ForgetCallback(onStartup.value); }
      var id := callbackState.RegisterCallback(f);
      onStartup := Some(id);
    }

    method OnConnectorChangeRegistered(f: LuaFunction)
      modifies this, callbackState
      ensures View() == SetOnConnectorChange(old(View()), f)
    {
      var id := callbackState.RegisterCallback(f);
      onConnectorChange := Some(id);
    }

    method HandleMessage(m: ConfigMessage) returns (ran: Option<RunResult>)
      modifies this, callbackState
      ensures View() == Handle(old(View()), m)
      ensures ran == RunBy(old(View()), m)
    {
      ran := None;
      match m
      case RunCallback(id) =>
        var r := callbackState.RunCallback(id);
        ran := Some(r);
      case ForgetCallback(id) =>
        callbackState.ForgetCallback(id);
      case Startup =>
        if onStartup.Some? {
          var r := callbackState.RunCallback(onStartup.value);
          ran := Some(r);
        }
      case ConnectorChange =>
        if onConnectorChange.Some? {
          var r := callbackState.RunCallback(onConnectorChange.value);
          ran := Some(r);
        }
      case OtherConfigMessage =>
    }
  }
}

/** The display thread's keyboard filter (input_handler.rs): presses that trigger a shortcut are
    intercepted, and so are the releases that belong to them. */
module KeyFilter {
  import opened Common
  import opened InputThread
  import opened KeyStream

  type Action = nat

  /** `shortcut` is the action the shortcut lookup gives for a press; `inhibited` and `exclusive` say that
      shortcuts are inhibited and that an exclusive layer takes the keyboard. */
  datatype DisplayKey = DisplayKey(
    code: int, sym: Keysym, pressed: bool, alt: bool,
    shortcut: Option<Action>, inhibited: bool, exclusive: bool)

  function Intercepted(suppressed: seq<Keysym>, e: DisplayKey): bool {
    !e.exclusive && if e.pressed then !e.inhibited && e.shortcut.Some? else e.sym in suppressed
  }

  function SuppressedAfter(suppressed: seq<Keysym>, e: DisplayKey): seq<Keysym> {
    if !Intercepted(suppressed, e) then suppressed
    else if e.pressed then suppressed + [e.sym]
    else Without(suppressed, e.sym)
  }

  class DisplayKeyboard {
    var suppressedKeys: seq<Keysym>
    var tabIndex: nat
    var toClient: seq<DisplayKey>

    constructor ()
      ensures suppressedKeys == [] && tabIndex == 0 && toClient == []
    {
      suppressedKeys := [];
      tabIndex := 0;
      toClient := [];
    }

    method KeyToAction(e: DisplayKey) returns (action: Option<Action>)
      modifies this
      ensures suppressedKeys == SuppressedAfter(old(suppressedKeys), e)
      ensures toClient == old(toClient) + if Intercepted(old(suppressedKeys), e) then [] else [e]
      ensures action == if Intercepted(old(suppressedKeys), e) && e.pressed then e.shortcut else None
      ensures tabIndex == if e.exclusive || e.alt then old(tabIndex) else 0
    {
      action := None;
      var suppressed := suppressedKeys;
      if e.exclusive {
        toClient := toClient + [e];
        return;
      }
      if !e.alt { tabIndex := 0; }
      var intercept := false;
      if e.pressed {
        if !e.inhibited {
          action := e.shortcut;
          if action.Some? {
            suppressed := suppressed + [e.sym];
            intercept := true;
          }
        }
      } else if e.sym in suppressed {
        suppressed := Without(suppressed, e.sym);
        intercept := true;
      }
      if !intercept { toClient := toClient + [e]; }
      suppressedKeys := suppressed;
    }
  }

  // Whole histories

  function StrokeOf(e: DisplayKey): Stroke { Stroke(e.code, e.pressed) }

  /** What is physically held with the symbol of its press, whose press was intercepted, the suppressed
      symbols, and what the client was sent. */
  datatype World = World(
    held: map<int, Keysym>,
    intercepted: set<int>,
    suppressed: seq<Keysym>,
    toClient: seq<Stroke>)

  const NOTHING_HELD := World(map[], {}, [], [])

  function Next(w: World, e: DisplayKey): World {
    var intercepts := Intercepted(w.suppressed, e);
    World(
      if e.pressed then w.held[e.code := e.sym] else w.held - {e.code},
      if e.pressed && intercepts then w.intercepted + {e.code} else w.intercepted - {e.code},
      SuppressedAfter(w.suppressed, e),
      if intercepts then w.toClient else w.toClient + [StrokeOf(e)])
  }

  function After(history: seq<DisplayKey>): World {
    if history == [] then NOTHING_HELD
    else Next(After(history[..|history| - 1]), history[|history| - 1])
  }

  /** The client's stream alternates per key, and leaves it with these keys down. */
  predicate ClientHas(w: World, down: set<int>) { Sees(w.toClient, down) }

  /** The client has down exactly the held keys whose press it got. */
  predicate ClientIsRight(w: World) {
    w.intercepted <= w.held.Keys && ClientHas(w, w.held.Keys - w.intercepted)
  }

  /** A release is intercepted exactly if its press was. */
  predicate ReleaseIsRight(w: World, e: DisplayKey) {
    !e.pressed ==> (Intercepted(w.suppressed, e) <==> e.code in w.intercepted)
  }

  /** For a release of any held key, in any state where the client's view is right, it stays right if and only
      if the release is intercepted exactly when the key's press was. The symbol may have changed, other held
      keys may share it, and an exclusive layer may have come or gone. */
  lemma ReleaseIsConsistentIff(w: World, e: DisplayKey)
    requires ClientIsRight(w) && !e.pressed && e.code in w.held
    ensures ClientIsRight(Next(w, e)) <==> ReleaseIsRight(w, e)
  {
    var w' := Next(w, e);
    var before, after := w.held.Keys - w.intercepted, w'.held.Keys - w'.intercepted;
    SeesNext(w.toClient, StrokeOf(e), before);
    assert after == before - {e.code};
    assert e.code in before <==> e.code !in w.intercepted;
  }

  /** What the filter does with each event. */
  function Handlings(history: seq<DisplayKey>): (r: seq<Handling>)
    ensures |r| == |history|
  {
    if history == [] then []
    else
      var n := |history| - 1;
      Handlings(history[..n]) +
      [Handled(StrokeOf(history[n]), !Intercepted(After(history[..n]).suppressed, history[n]))]
  }

  lemma {:induction false} HandlingsOfPrefix(history: seq<DisplayKey>, n: nat)
    requires n <= |history|
    ensures Handlings(history)[..n] == Handlings(history[..n])
  {
    var m := |history| - 1;
    if n == |history| {
      assert history[..n] == history && Handlings(history)[..n] == Handlings(history);
    } else {
      HandlingsOfPrefix(history[..m], n);
      assert history[..m][..n] == history[..n];
    }
  }

  /** The world is what the handlings say. */
  lemma {:induction false} WorldFollowsHandlings(history: seq<DisplayKey>)
    requires Alternates(Handlings(history))
    ensures var w, events := After(history), Handlings(history);
            && w.held.Keys == Held(events) && w.intercepted <= w.held.Keys
            && w.held.Keys - w.intercepted == Shown(events)
            && w.toClient == Passed(events)
  {
    if history != [] {
      var n := |history| - 1;
      var before := Handlings(history[..n]);
      assert Handlings(history)[..n] == before;
      WorldFollowsHandlings(history[..n]);
      ShownAreHeld(before);
    }
  }

  /** For every history in which keys alternate physically, whatever their symbols and layers: after every
      event the client's stream alternates and it has down exactly the held keys whose press it got, if and
      only if each release is intercepted exactly when its press was. */
  lemma {:induction false} ClientIsRightIffReleasesAre(history: seq<DisplayKey>)
    requires Alternates(Handlings(history))
    ensures (forall n: nat :: n <= |history| ==> ClientIsRight(After(history[..n])))
            <==> forall n: nat :: n < |history| ==> ReleaseIsRight(After(history[..n]), history[n])
  {
    var events := Handlings(history);
    AlwaysRightIff(events);
    forall n: nat | n <= |history|
      ensures ClientIsRight(After(history[..n])) <==> IsRight(events[..n])
      ensures n < |history| ==>
                (ReleaseIsRight(After(history[..n]), history[n]) <==> ReleaseMatches(events[..n], events[n]))
    {
      PrefixAlternates(events, n);
      HandlingsOfPrefix(history, n);
      WorldFollowsHandlings(history[..n]);
      if n < |history| {
        HandlingAt(history, n);
        PrefixAlternates(events, n + 1);
        assert events[..n + 1][..n] == events[..n];
      }
    }
  }

  lemma HandlingAt(history: seq<DisplayKey>, n: nat)
    requires n < |history|
    ensures Handlings(history)[n]
            == Handled(StrokeOf(history[n]), !Intercepted(After(history[..n]).suppressed, history[n]))
  {
    HandlingsOfPrefix(history, n + 1);
    assert history[..n + 1][..n] == history[..n];
    assert Handlings(history)[n] == Handlings(history)[..n + 1][n];
  }

  /** The press triggers a shortcut: shortcuts are not inhibited, no layer takes the keyboard, and there is one. */
  predicate Triggers(e: DisplayKey, sym: Keysym) {
    e.pressed && e.sym == sym && !e.exclusive && !e.inhibited && e.shortcut.Some?
  }

  /** The release was kept from the client. */
  predicate Answers(e: DisplayKey, h: Handling, sym: Keysym) {
    !e.pressed && e.sym == sym && h.Handled? && !h.passed
  }

  ghost predicate TriggeredSinceAnswered(history: seq<DisplayKey>, handlings: seq<Handling>, sym: Keysym)
    requires |handlings| == |history|
  {
    exists i :: 0 <= i < |history| && Triggers(history[i], sym)
                && forall j :: i < j < |history| ==> !Answers(history[j], handlings[j], sym)
  }

  lemma TriggeredStep(history: seq<DisplayKey>, handlings: seq<Handling>, sym: Keysym)
    requires |handlings| == |history| > 0
    ensures var n := |history| - 1;
            TriggeredSinceAnswered(history, handlings, sym) <==>
            || Triggers(history[n], sym)
            || (TriggeredSinceAnswered(history[..n], handlings[..n], sym) && !Answers(history[n], handlings[n], sym))
  {
    var n := |history| - 1;
    if TriggeredSinceAnswered(history[..n], handlings[..n], sym) && !Answers(history[n], handlings[n], sym) {
      var i :| 0 <= i < n && Triggers(history[..n][i], sym)
               && forall j :: i < j < n ==> !Answers(history[..n][j], handlings[..n][j], sym);
      assert forall j :: i < j < n ==> history[j] == history[..n][j] && handlings[j] == handlings[..n][j];
      assert Triggers(history[i], sym);
    }
    if TriggeredSinceAnswered(history, handlings, sym) && !Triggers(history[n], sym) {
      var i :| 0 <= i < |history| && Triggers(history[i], sym)
               && forall j :: i < j < |history| ==> !Answers(history[j], handlings[j], sym);
      assert Triggers(history[..n][i], sym);
    }
  }

  lemma {:induction false} SuppressedIffTriggered(history: seq<DisplayKey>, sym: Keysym)
    ensures sym in After(history).suppressed <==> TriggeredSinceAnswered(history, Handlings(history), sym)
  {
    if history != [] {
      var n := |history| - 1;
      SuppressedIffTriggered(history[..n], sym);
      HandlingAt(history, n);
      HandlingsOfPrefix(history, n);
      TriggeredStep(history, Handlings(history), sym);
    }
  }

  /** What becomes of any event of any history, from the history alone. A press is kept from the client if and
      only if it triggers a shortcut; a release if and only if no layer takes the keyboard and a shortcut was
      triggered with its symbol that no release kept since has answered. */
  lemma KeptFromClientIff(history: seq<DisplayKey>, n: nat)
    requires n < |history|
    ensures Handlings(history)[n].Handled? && Handlings(history)[n].stroke == StrokeOf(history[n])
    ensures !Handlings(history)[n].passed <==>
            if history[n].pressed then Triggers(history[n], history[n].sym)
            else && !history[n].exclusive
                 && TriggeredSinceAnswered(history[..n], Handlings(history[..n]), history[n].sym)
  {
    HandlingAt(history, n);
    SuppressedIffTriggered(history[..n], history[n].sym);
  }

  /** Keys alternate physically, no layer is exclusive, a key keeps its symbol while it is held and no two
      held keys share one. */
  predicate Regular(held: map<int, Keysym>, e: DisplayKey) {
    && !e.exclusive
    && if e.pressed then e.code !in held && e.sym !in held.Values
       else e.code in held && held[e.code] == e.sym
  }

  predicate RegularHistory(history: seq<DisplayKey>) {
    history != [] ==>
      var n := |history| - 1;
      RegularHistory(history[..n]) && Regular(After(history[..n]).held, history[n])
  }

  ghost predicate Balanced(w: World) {
    && ClientIsRight(w)
    && (forall c1, c2 :: c1 in w.held && c2 in w.held && w.held[c1] == w.held[c2] ==> c1 == c2)
    && SuppressedMatches(w)
  }

  /** The suppressed symbols are those of the intercepted keys. */
  ghost predicate SuppressedMatches(w: World) {
    forall sym :: sym in w.suppressed <==> exists c :: c in w.intercepted && c in w.held && w.held[c] == sym
  }

  lemma PressKeepsClient(w: World, e: DisplayKey)
    requires Balanced(w) && Regular(w.held, e) && e.pressed
    ensures ClientIsRight(Next(w, e))
  {
    var w' := Next(w, e);
    var before, after := w.held.Keys - w.intercepted, w'.held.Keys - w'.intercepted;
    SeesNext(w.toClient, StrokeOf(e), before);
    assert after == if Intercepted(w.suppressed, e) then before else before + {e.code};
  }

  lemma PressKeepsSuppressed(w: World, e: DisplayKey)
    requires Balanced(w) && Regular(w.held, e) && e.pressed
    ensures SuppressedMatches(Next(w, e))
  {
    var w' := Next(w, e);
    forall sym
      ensures sym in w'.suppressed <==> exists c :: c in w'.intercepted && c in w'.held && w'.held[c] == sym
    {
      if sym in w.suppressed {
        var c :| c in w.intercepted && c in w.held && w.held[c] == sym;
        assert c in w'.intercepted && w'.held[c] == sym;
      } else if sym in w'.suppressed {
        assert e.code in w'.intercepted && w'.held[e.code] == sym;
      }
    }
  }

  lemma PressKeepsBalance(w: World, e: DisplayKey)
    requires Balanced(w) && Regular(w.held, e) && e.pressed
    ensures Balanced(Next(w, e))
  {
    PressKeepsClient(w, e);
    PressKeepsSuppressed(w, e);
    assert forall c :: c in w.held ==> w.held[c] in w.held.Values;
  }

  lemma ReleaseKeepsBalance(w: World, e: DisplayKey)
    requires Balanced(w) && Regular(w.held, e) && !e.pressed
    ensures Balanced(Next(w, e))
  {
    var w' := Next(w, e);
    assert e.sym in w.suppressed <==> e.code in w.intercepted;
    ReleaseIsConsistentIff(w, e);
    forall sym
      ensures sym in w'.suppressed <==> exists c :: c in w'.intercepted && c in w'.held && w'.held[c] == sym
    {
      if c :| c in w.intercepted && c in w.held && w.held[c] == sym && c != e.code {
        assert c in w'.intercepted && w'.held[c] == sym;
      }
    }
  }

  /** Over every regular history the forwarded stream alternates press and release per key, the client has
      down exactly the held keys whose press it got, and the suppressed symbols are exactly those of the
      held keys whose press was intercepted. */
  lemma {:induction false} ForwardingIsBalanced(history: seq<DisplayKey>)
    requires RegularHistory(history)
    ensures Balanced(After(history))
  {
    if history != [] {
      var n := |history| - 1;
      ForwardingIsBalanced(history[..n]);
      if history[n].pressed {
        PressKeepsBalance(After(history[..n]), history[n]);
      } else {
        ReleaseKeepsBalance(After(history[..n]), history[n]);
      }
    }
  }

  /** When nothing is held, nothing is suppressed and the client has nothing down. */
  lemma NothingHeldNothingSuppressed(history: seq<DisplayKey>)
    requires RegularHistory(history) && After(history).held == map[]
    ensures After(history).suppressed == [] && ClientHas(After(history), {})
  {
    var w := After(history);
    assert w.suppressed == [] || w.suppressed[0] in w.suppressed;
    ForwardingIsBalanced(history);
  }

  /** An instance: a shortcut on a lower-case letter whose release comes as the capital. The client gets a
      release it has no press for, and the letter stays suppressed with nothing held. */
  lemma ChangedSymbolBreaksBalance(press: DisplayKey, release: DisplayKey)
    requires press == DisplayKey(38, Char('a'), true, false, Some(7), false, false)
    requires release == DisplayKey(38, Char('A'), false, false, None, false, false)
    ensures var w := Next(Next(NOTHING_HELD, press), release);
            w.held == map[] && w.suppressed == [Char('a')] && Down(w.toClient) == None
  {
    var w1 := Next(NOTHING_HELD, press);
    assert w1.suppressed == [Char('a')] && w1.toClient == [];
    assert [StrokeOf(release)][..0] == [];
  }

  /** An instance with stable symbols: two keys with the same symbol are held and both presses are
      intercepted. The first release ends the suppression, so the client gets the second, which it has no
      press for. */
  lemma SharedSymbolBreaksBalance(left: DisplayKey, right: DisplayKey)
    requires left == DisplayKey(36, Named("return"), true, false, Some(7), false, false)
    requires right == left.(code := 104)
    ensures var w := Next(Next(Next(NOTHING_HELD, left), right), left.(pressed := false));
            var w' := Next(w, right.(pressed := false));
            ClientIsRight(w) && w'.held == map[] && Down(w'.toClient) == None
  {
    var up1, up2, sym := left.(pressed := false), right.(pressed := false), left.sym;
    var w2 := Next(Next(NOTHING_HELD, left), right);
    assert w2 == World(map[36 := sym, 104 := sym], {36, 104}, [sym, sym], []);
    assert Without([sym, sym], sym) == [] by { assert Without([sym], sym) == []; }
    var w3 := Next(w2, up1);
    assert w3 == World(map[104 := sym], {104}, [], []);
    assert Next(w3, up2).toClient == [StrokeOf(up2)] && [StrokeOf(up2)][..0] == [];
  }
}

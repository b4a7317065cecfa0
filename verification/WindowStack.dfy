/** Cycling through the windows of an application (composition.rs). */
module WindowStack {
  import opened Common

  datatype Window = Window(id: nat, appId: string)

  /** The windows of a space from bottom to top, all of the same z-index. */
  type Stack = seq<Window>

  ghost predicate Distinct(stack: Stack) {
    forall i, j :: 0 <= i < j < |stack| ==> stack[i] != stack[j]
  }

  /** The windows of the application (`mine`) or all the others, from bottom to top. */
  function Select(stack: Stack, appId: string, mine: bool): Stack {
    if stack == [] then []
    else Select(stack[..|stack| - 1], appId, mine) +
         (if (stack[|stack| - 1].appId == appId) == mine then [stack[|stack| - 1]] else [])
  }

  predicate OnTop(stack: Stack, appId: string) {
    stack != [] && stack[|stack| - 1].appId == appId
  }

  /** Moves a window to the top, if it is there. */
  function Raise(stack: Stack, w: Window): Stack {
    if w in stack then Remove(stack, w) + [w] else stack
  }

  function Remove(stack: Stack, w: Window): Stack {
    if stack == [] then []
    else Remove(stack[..|stack| - 1], w) + (if stack[|stack| - 1] == w then [] else [stack[|stack| - 1]])
  }

  /** The window a focus request picks: the lowest of the application if one of its windows is on top,
      and otherwise its highest. */
  function Pick(stack: Stack, appId: string): Option<Window> {
    var windows := Select(stack, appId, true);
    if windows == [] then None
    else if OnTop(stack, appId) then Some(windows[0])
    else Some(windows[|windows| - 1])
  }

  function Focus(stack: Stack, appId: string): Stack {
    match Pick(stack, appId)
    case None => stack
    case Some(w) => Raise(stack, w)
  }

  function FocusTimes(stack: Stack, appId: string, n: nat): Stack {
    if n == 0 then stack else Focus(FocusTimes(stack, appId, n - 1), appId)
  }

  class FocusState {
    var space: Option<Stack>
    var keyboardFocus: Option<Window>

    constructor (stack: Stack)
      ensures space == Some(stack) && keyboardFocus == None
    {
      space := Some(stack);
      keyboardFocus := None;
    }

    method FocusWindow(w: Window)
      modifies this
      ensures old(space).None? ==> space == None && keyboardFocus == old(keyboardFocus)
      ensures old(space).Some? ==> space == Some(Raise(old(space).value, w)) && keyboardFocus == Some(w)
    {
      if space.None? { return; }
      space := Some(Raise(space.value, w));
      keyboardFocus := Some(w);
    }

    method FocusWindowByAppId(appId: string) returns (found: bool)
      modifies this
      ensures found <==> old(space).Some? && exists w :: w in old(space).value && w.appId == appId
      ensures !found ==> space == old(space) && keyboardFocus == old(keyboardFocus)
      ensures found ==> space == Some(Focus(old(space).value, appId))
      ensures found ==> keyboardFocus == Pick(old(space).value, appId)
    {
      if space.None? { return false; }
      SelectAll(space.value, appId);
      var windowResult := WindowToFocus(space.value, appId);
      if windowResult.Some? {
        FocusWindow(windowResult.value);
        return true;
      }
      return false;
    }

    /** The walk from the top of the stack. */
    static method WindowToFocus(stack: Stack, appId: string) returns (windowResult: Option<Window>)
      ensures windowResult == Pick(stack, appId)
    {
      windowResult := None;
      var last := false;
      for i := 0 to |stack|
        invariant last <==> i > 0 && OnTop(stack, appId)
        invariant !last ==> windowResult == None && Select(stack[|stack| - i..], appId, true) == []
        invariant last ==> Select(stack[|stack| - i..], appId, true) != []
        invariant last ==> windowResult == Some(Select(stack[|stack| - i..], appId, true)[0])
      {
        var window := stack[|stack| - 1 - i];
        SelectNext(stack, appId, |stack| - 1 - i);
        if window.appId == appId {
          windowResult := Some(window);
          if i == 0 {
            last := true;
          } else if last {
            continue;
          } else {
            SelectSplit(stack, appId, true, |stack| - 1 - i);
            SelectSplit(stack, appId, true, |stack| - i);
            break;
          }
        }
      }
    }
  }

  lemma SelectNext(stack: Stack, appId: string, k: nat)
    requires k < |stack|
    ensures Select(stack[k..], appId, true)
            == (if stack[k].appId == appId then [stack[k]] else []) + Select(stack[k + 1..], appId, true)
  {
    SelectSplit(stack[k..], appId, true, 1);
    assert stack[k..][..1] == [stack[k]] && stack[k..][1..] == stack[k + 1..];
    assert [stack[k]][..0] == [];
  }

  lemma {:induction false} SelectAll(stack: Stack, appId: string)
    ensures Select(stack, appId, true) == [] <==> forall w :: w in stack ==> w.appId != appId
    ensures forall w :: w in Select(stack, appId, true) ==> w in stack && w.appId == appId
  {
    if stack != [] {
      var n := |stack| - 1;
      SelectAll(stack[..n], appId);
      assert stack == stack[..n] + [stack[n]];
    }
  }

  /** Selecting works piece by piece. */
  lemma {:induction false} SelectSplit(stack: Stack, appId: string, mine: bool, k: nat)
    requires k <= |stack|
    ensures Select(stack, appId, mine) == Select(stack[..k], appId, mine) + Select(stack[k..], appId, mine)
  {
    if k == |stack| {
      assert stack[..k] == stack && stack[k..] == [];
    } else {
      var n := |stack| - 1;
      var first, rest := stack[..n], stack[k..];
      var x := if (stack[n].appId == appId) == mine then [stack[n]] else [];
      SelectSplit(first, appId, mine, k);
      assert first[..k] == stack[..k] && first[k..] == rest[..n - k] && rest[n - k] == stack[n];
      assert Select(stack, appId, mine) == Select(first, appId, mine) + x;
      assert Select(rest, appId, mine) == Select(rest[..n - k], appId, mine) + x;
    }
  }

  lemma {:induction false} RemoveAbsent(stack: Stack, w: Window)
    requires w !in stack
    ensures Remove(stack, w) == stack
  {
    if stack != [] {
      assert stack == stack[..|stack| - 1] + [stack[|stack| - 1]];
      RemoveAbsent(stack[..|stack| - 1], w);
    }
  }

  lemma {:induction false} RemoveMoves(below: Stack, w: Window, above: Stack)
    requires w !in below && w !in above
    ensures Remove(below + [w] + above, w) == below + above
    decreases |above|
  {
    var stack := below + [w] + above;
    var n := |stack| - 1;
    if above == [] {
      assert stack[..n] == below && stack[n] == w;
      RemoveAbsent(below, w);
      assert below + above == below;
    } else {
      var m := |above| - 1;
      assert stack[..n] == below + [w] + above[..m] && stack[n] == above[m];
      RemoveMoves(below, w, above[..m]);
      assert below + above == below + above[..m] + [above[m]];
    }
  }

  lemma DistinctMoves(below: Stack, w: Window, above: Stack)
    requires Distinct(below + [w] + above)
    ensures Distinct(below + above + [w])
  {
    var s, t := below + [w] + above, below + above + [w];
    var at := (k: int) => if k < |below| then k else if k < |below| + |above| then k + 1 else |below|;
    assert forall k :: 0 <= k < |t| ==> t[k] == s[at(k)];
    forall i, j | 0 <= i < j < |t|
      ensures t[i] != t[j]
    {
      assert t[i] == s[at(i)] && t[j] == s[at(j)];
    }
  }

  /** Raising a window takes it out of its place and leaves everything else in order. */
  lemma RaiseMoves(below: Stack, w: Window, above: Stack)
    requires Distinct(below + [w] + above)
    ensures Raise(below + [w] + above, w) == below + above + [w]
  {
    var s := below + [w] + above;
    assert s[|below|] == w;
    assert forall i :: 0 <= i < |below| ==> below[i] == s[i];
    assert forall i :: 0 <= i < |above| ==> above[i] == s[|below| + 1 + i];
    RemoveMoves(below, w, above);
  }

  /** The lowest window of the application has only other windows below it. */
  lemma LowestSplits(stack: Stack, appId: string) returns (below: Stack, above: Stack)
    requires Select(stack, appId, true) != []
    ensures stack == below + [Select(stack, appId, true)[0]] + above
    ensures Select(below, appId, true) == []
    ensures Select(stack, appId, true)[0].appId == appId
    decreases |stack|
  {
    var n := |stack| - 1;
    var first := stack[..n];
    if Select(first, appId, true) == [] {
      below, above := first, [];
    } else {
      var above';
      below, above' := LowestSplits(first, appId);
      above := above' + [stack[n]];
    }
  }

  /** The highest window of the application has only other windows above it. */
  lemma {:induction false} HighestSplits(stack: Stack, appId: string) returns (below: Stack, above: Stack)
    requires Select(stack, appId, true) != []
    ensures var windows := Select(stack, appId, true);
            && stack == below + [windows[|windows| - 1]] + above
            && windows[|windows| - 1].appId == appId
    ensures Select(above, appId, true) == []
    decreases |stack|
  {
    var n := |stack| - 1;
    if stack[n].appId == appId {
      below, above := stack[..n], [];
    } else {
      var above';
      below, above' := HighestSplits(stack[..n], appId);
      above := above' + [stack[n]];
      SelectSplit(above, appId, true, |above'|);
      assert above[..|above'|] == above' && above[|above'|..] == [stack[n]];
    }
  }

  lemma SelectThree(a: Stack, w: Window, b: Stack, appId: string, mine: bool)
    ensures Select(a + [w] + b, appId, mine)
            == Select(a, appId, mine) + Select([w], appId, mine) + Select(b, appId, mine)
    ensures Select(a + b + [w], appId, mine)
            == Select(a, appId, mine) + Select(b, appId, mine) + Select([w], appId, mine)
  {
    var s, t := a + [w] + b, a + b + [w];
    SelectSplit(s, appId, mine, |a| + 1);
    SelectSplit(s[..|a| + 1], appId, mine, |a|);
    assert s[..|a| + 1][..|a|] == a && s[..|a| + 1][|a|..] == [w] && s[|a| + 1..] == b;
    SelectSplit(t, appId, mine, |a| + |b|);
    SelectSplit(t[..|a| + |b|], appId, mine, |a|);
    assert t[..|a| + |b|][..|a|] == a && t[..|a| + |b|][|a|..] == b && t[|a| + |b|..] == [w];
  }

  /** A stack of the application's windows only (`mine`), or of others only. */
  ghost predicate Uniform(stack: Stack, appId: string, mine: bool) {
    forall i :: 0 <= i < |stack| ==> (stack[i].appId == appId) == mine
  }

  lemma {:induction false} SelectUniform(stack: Stack, appId: string, mine: bool)
    requires Uniform(stack, appId, mine)
    ensures Select(stack, appId, mine) == stack
    ensures Select(stack, appId, !mine) == []
  {
    if stack != [] {
      var n := |stack| - 1;
      var first, last := stack[..n], stack[n];
      assert Uniform(first, appId, mine) && (last.appId == appId) == mine;
      SelectUniform(first, appId, mine);
      SelectWithLast(stack, appId, mine);
      SelectWithLast(stack, appId, !mine);
      assert first + [last] == stack;
    }
  }

  lemma SelectWithLast(stack: Stack, appId: string, mine: bool)
    requires stack != []
    ensures var n := |stack| - 1;
            Select(stack, appId, mine) == Select(stack[..n], appId, mine) +
                                          if (stack[n].appId == appId) == mine then [stack[n]] else []
  {
  }

  lemma SelectOne(w: Window, appId: string)
    requires w.appId == appId
    ensures Select([w], appId, true) == [w] && Select([w], appId, false) == []
  {
    SelectUniform([w], appId, true);
  }

  /** What a focus request does to the stack: it raises one window of the application, the lowest or
      the highest. */
  lemma FocusRaises(stack: Stack, appId: string) returns (below: Stack, w: Window, above: Stack)
    requires Distinct(stack) && Select(stack, appId, true) != []
    ensures stack == below + [w] + above && w.appId == appId
    ensures Focus(stack, appId) == below + above + [w]
    ensures if OnTop(stack, appId) then Select(below, appId, true) == [] else Select(above, appId, true) == []
  {
    w := Pick(stack, appId).value;
    if OnTop(stack, appId) {
      below, above := LowestSplits(stack, appId);
    } else {
      below, above := HighestSplits(stack, appId);
    }
    RaiseMoves(below, w, above);
  }

  /** A focus request never loses or duplicates a window and puts the application on top. */
  lemma FocusPermutes(stack: Stack, appId: string)
    requires Distinct(stack) && Select(stack, appId, true) != []
    ensures multiset(Focus(stack, appId)) == multiset(stack)
    ensures Distinct(Focus(stack, appId)) && OnTop(Focus(stack, appId), appId)
  {
    var below, w, above := FocusRaises(stack, appId);
    DistinctMoves(below, w, above);
  }

  lemma FocusSelects(stack: Stack, appId: string) returns (a: Stack, w: Window, b: Stack)
    requires Distinct(stack) && Select(stack, appId, true) != []
    ensures Select(stack, appId, true) == a + [w] + b
    ensures Select(Focus(stack, appId), appId, true) == a + b + [w]
    ensures Select(Focus(stack, appId), appId, false) == Select(stack, appId, false)
    ensures if OnTop(stack, appId) then a == [] else b == []
  {
    var below, above;
    below, w, above := FocusRaises(stack, appId);
    SelectOne(w, appId);
    a, b := Select(below, appId, true), Select(above, appId, true);
    assert Select(stack, appId, true) == a + [w] + b && Select(below + above + [w], appId, true) == a + b + [w] by {
      SelectThree(below, w, above, appId, true);
    }
    assert Select(below + above + [w], appId, false) == Select(stack, appId, false) by {
      SelectThree(below, w, above, appId, false);
      assert Select(below, appId, false) + [] == Select(below, appId, false);
    }
  }

  /** It keeps all other windows in order. With a window of the application already on top the
      application's windows rotate by one; otherwise they keep their order too. */
  lemma FocusRotates(stack: Stack, appId: string)
    requires Distinct(stack) && Select(stack, appId, true) != []
    ensures var windows := Select(stack, appId, true);
            Select(Focus(stack, appId), appId, true)
            == if OnTop(stack, appId) then windows[1..] + windows[..1] else windows
    ensures Select(Focus(stack, appId), appId, false) == Select(stack, appId, false)
  {
    var a, w, b := FocusSelects(stack, appId);
    RotatePieces(a, w, b);
  }

  lemma RotatePieces(a: Stack, w: Window, b: Stack)
    ensures a == [] ==> a + b + [w] == (a + [w] + b)[1..] + (a + [w] + b)[..1]
    ensures b == [] ==> a + b + [w] == a + [w] + b
  {
  }

  /** With a window of the application on top, `n` requests (no more than it has windows) collect its
      `n` lowest windows on top, in order, over the untouched rest. */
  lemma {:induction false} FocusCollects(stack: Stack, appId: string, n: nat) returns (rest: Stack)
    requires Distinct(stack) && OnTop(stack, appId) && n <= |Select(stack, appId, true)|
    ensures var windows := Select(stack, appId, true);
            && FocusTimes(stack, appId, n) == rest + windows[..n]
            && Select(rest, appId, true) == windows[n..]
            && Select(rest, appId, false) == Select(stack, appId, false)
    ensures Distinct(FocusTimes(stack, appId, n)) && OnTop(FocusTimes(stack, appId, n), appId)
  {
    var windows := Select(stack, appId, true);
    SelectAll(stack, appId);
    if n == 0 {
      rest := stack;
      assert rest + windows[..0] == stack;
    } else {
      rest := FocusCollects(stack, appId, n - 1);
      rest := FocusCollectsOne(rest, windows, appId, n - 1);
    }
  }

  /** One more request when the windows before `k` are on top. */
  lemma FocusCollectsOne(rest: Stack, windows: Stack, appId: string, k: nat) returns (rest': Stack)
    requires k < |windows| && Uniform(windows, appId, true)
    requires Distinct(rest + windows[..k]) && OnTop(rest + windows[..k], appId)
    requires Select(rest, appId, true) == windows[k..]
    ensures Focus(rest + windows[..k], appId) == rest' + windows[..k + 1]
    ensures Pick(rest + windows[..k], appId) == Some(windows[k])
    ensures Distinct(rest' + windows[..k + 1])
    ensures Select(rest', appId, true) == windows[k + 1..]
    ensures Select(rest', appId, false) == Select(rest, appId, false)
  {
    var stack, w := rest + windows[..k], windows[k];
    PickAfterCollecting(rest, windows[..k], w, appId);
    var below, above := LowestSplits(rest, appId);
    assert stack == below + [w] + (above + windows[..k]);
    RaiseMoves(below, w, above + windows[..k]);
    DistinctMoves(below, w, above + windows[..k]);
    rest' := below + above;
    assert below + (above + windows[..k]) + [w] == rest' + windows[..k + 1];
    FocusCollectsRest(below, w, above, appId, windows[k..]);
  }

  lemma PickAfterCollecting(rest: Stack, collected: Stack, w: Window, appId: string)
    requires OnTop(rest + collected, appId)
    requires Select(rest, appId, true) != [] && Select(rest, appId, true)[0] == w
    ensures Pick(rest + collected, appId) == Some(w)
  {
    var stack := rest + collected;
    SelectSplit(stack, appId, true, |rest|);
    assert stack[..|rest|] == rest && stack[|rest|..] == collected;
  }

  lemma FocusCollectsRest(below: Stack, w: Window, above: Stack, appId: string, windows: Stack)
    requires windows != [] && windows[0] == w && w.appId == appId
    requires Select(below + [w] + above, appId, true) == windows && Select(below, appId, true) == []
    ensures Select(below + above, appId, true) == windows[1..]
    ensures Select(below + above, appId, false) == Select(below + [w] + above, appId, false)
  {
    SelectOne(w, appId);
    SelectThree(below, w, above, appId, true);
    SelectThree(below, w, above, appId, false);
    SelectWithoutLast(below + above, w, appId);
    assert windows == [w] + Select(above, appId, true);
    SelectSplit(below + above, appId, true, |below|);
    assert (below + above)[..|below|] == below && (below + above)[|below|..] == above;
  }

  lemma SelectWithoutLast(stack: Stack, w: Window, appId: string)
    requires w.appId == appId
    ensures Select(stack + [w], appId, true) == Select(stack, appId, true) + [w]
    ensures Select(stack + [w], appId, false) == Select(stack, appId, false)
  {
    assert (stack + [w])[..|stack|] == stack;
  }

  /** Cycling is round robin: with a window of the application on top, the n-th request focuses the n-th of
      its windows from the bottom, and each request rotates its windows by one. */
  lemma FocusIsRoundRobin(stack: Stack, appId: string, n: nat)
    requires Distinct(stack) && OnTop(stack, appId) && n < |Select(stack, appId, true)|
    ensures var windows := Select(stack, appId, true);
            && Pick(FocusTimes(stack, appId, n), appId) == Some(windows[n])
            && Select(FocusTimes(stack, appId, n), appId, true) == windows[n..] + windows[..n]
            && Select(FocusTimes(stack, appId, n), appId, false) == Select(stack, appId, false)
  {
    var windows := Select(stack, appId, true);
    SelectAll(stack, appId);
    var rest := FocusCollects(stack, appId, n);
    var _ := FocusCollectsOne(rest, windows, appId, n);
    SelectUniform(windows[..n], appId, true);
    var s := rest + windows[..n];
    assert s[..|rest|] == rest && s[|rest|..] == windows[..n];
    SelectSplit(s, appId, true, |rest|);
    SelectSplit(s, appId, false, |rest|);
  }

  /** A full round of requests brings the application's windows back to their old order, on top of all
      other windows in theirs. */
  lemma FullRoundRestoresOrder(stack: Stack, appId: string)
    requires Distinct(stack) && OnTop(stack, appId)
    ensures var windows := Select(stack, appId, true);
            FocusTimes(stack, appId, |windows|) == Select(stack, appId, false) + windows
  {
    var windows := Select(stack, appId, true);
    var rest := FocusCollects(stack, appId, |windows|);
    SelectAll(rest, appId);
    SelectUniform(rest, appId, false);
    assert windows[..|windows|] == windows;
  }
}

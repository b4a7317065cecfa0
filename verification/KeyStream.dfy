/** What a filter in front of a receiver of key strokes does to the receiver's view of the keyboard. */
module KeyStream {
  import opened Common

  datatype Stroke = Stroke(code: int, pressed: bool)

  /** A filter passes a stroke on or keeps it; other events have no stroke. */
  datatype Handling = Silent | Handled(stroke: Stroke, passed: bool)

  /** What the receiver gets. */
  function Passed(events: seq<Handling>): seq<Stroke> {
    if events == [] then []
    else
      var n := |events| - 1;
      Passed(events[..n]) + (if events[n].Handled? && events[n].passed then [events[n].stroke] else [])
  }

  /** The keys that are physically held. */
  function Held(events: seq<Handling>): set<int> {
    if events == [] then {}
    else
      var n := |events| - 1;
      match events[n]
      case Silent => Held(events[..n])
      case Handled(stroke, _) =>
        if stroke.pressed then Held(events[..n]) + {stroke.code} else Held(events[..n]) - {stroke.code}
  }

  /** The held keys whose press was passed on. */
  function Shown(events: seq<Handling>): set<int> {
    if events == [] then {}
    else
      var n := |events| - 1;
      match events[n]
      case Silent => Shown(events[..n])
      case Handled(stroke, passed) =>
        if stroke.pressed && passed then Shown(events[..n]) + {stroke.code} else Shown(events[..n]) - {stroke.code}
  }

  /** Each key is pressed only when it is up and released only when it is held. */
  predicate Alternates(events: seq<Handling>) {
    events != [] ==>
      var n := |events| - 1;
      && Alternates(events[..n])
      && (events[n].Handled? ==> (events[n].stroke.pressed <==> events[n].stroke.code !in Held(events[..n])))
  }

  lemma {:induction false} PrefixAlternates(events: seq<Handling>, n: nat)
    requires Alternates(events) && n <= |events|
    ensures Alternates(events[..n])
  {
    var m := |events| - 1;
    if n == |events| {
      assert events[..n] == events;
    } else {
      PrefixAlternates(events[..m], n);
      assert events[..m][..n] == events[..n];
    }
  }

  /** The keys a receiver of the stream has down; none if it gets a press of a key that is down or a
      release of one that is not. */
  function Down(stream: seq<Stroke>): Option<set<int>> {
    if stream == [] then Some({})
    else
      var n := |stream| - 1;
      match Down(stream[..n])
      case None => None
      case Some(down) =>
        if stream[n].pressed == (stream[n].code in down) then None
        else Some(if stream[n].pressed then down + {stream[n].code} else down - {stream[n].code})
  }

  /** The stream alternates per key, and leaves its receiver with these keys down. */
  predicate Sees(stream: seq<Stroke>, down: set<int>) {
    Down(stream).Some? && Down(stream).value == down
  }

  lemma SeesNext(stream: seq<Stroke>, s: Stroke, down: set<int>)
    requires Sees(stream, down)
    ensures Down(stream + [s]).Some? <==> (s.pressed <==> s.code !in down)
    ensures Down(stream + [s]).Some? ==>
              Down(stream + [s]).value == if s.pressed then down + {s.code} else down - {s.code}
  {
    assert (stream + [s])[..|stream|] == stream;
  }

  // When the receiver's view is right

  ghost predicate IsRight(events: seq<Handling>) { Sees(Passed(events), Shown(events)) }

  /** A release is passed on exactly if its press was. */
  predicate ReleaseMatches(before: seq<Handling>, e: Handling) {
    e.Handled? && !e.stroke.pressed ==> (e.passed <==> e.stroke.code in Shown(before))
  }

  lemma {:induction false} ShownAreHeld(events: seq<Handling>)
    ensures Shown(events) <= Held(events)
  {
    if events != [] { ShownAreHeld(events[..|events| - 1]); }
  }

  lemma StaysRightIff(before: seq<Handling>, e: Handling)
    requires Alternates(before + [e]) && IsRight(before)
    ensures IsRight(before + [e]) <==> ReleaseMatches(before, e)
  {
    var events := before + [e];
    assert events[..|events| - 1] == before;
    ShownAreHeld(before);
    if e.Handled? && e.passed {
      SeesNext(Passed(before), e.stroke, Shown(before));
    } else {
      assert Passed(events) == Passed(before);
    }
    if e.Handled? {
      var shown, code := Shown(before), e.stroke.code;
      assert code !in shown ==> shown - {code} == shown;
      assert code in shown ==> code !in shown - {code};
    }
  }

  ghost predicate AlwaysRight(events: seq<Handling>) {
    forall n: nat :: n <= |events| ==> IsRight(events[..n])
  }

  predicate ReleasesMatch(events: seq<Handling>) {
    forall n: nat :: n < |events| ==> ReleaseMatches(events[..n], events[n])
  }

  lemma AlwaysRightSplits(before: seq<Handling>, e: Handling)
    ensures AlwaysRight(before + [e]) <==> AlwaysRight(before) && IsRight(before + [e])
  {
    var events := before + [e];
    assert forall n: nat :: n <= |before| ==> events[..n] == before[..n];
    assert events[..|events|] == events;
  }

  lemma ReleasesMatchSplits(before: seq<Handling>, e: Handling)
    ensures ReleasesMatch(before + [e]) <==> ReleasesMatch(before) && ReleaseMatches(before, e)
  {
    var events := before + [e];
    assert forall n: nat :: n <= |before| ==> events[..n] == before[..n];
    assert events[|before|] == e && before[..|before|] == before;
  }

  /** For strokes that alternate physically: after every event the receiver's stream alternates and it has
      down exactly the held keys whose press it got, if and only if each release is passed on exactly when
      its press was. */
  lemma {:induction false} AlwaysRightIff(events: seq<Handling>)
    requires Alternates(events)
    ensures AlwaysRight(events) <==> ReleasesMatch(events)
  {
    if events == [] {
      assert IsRight([]);
    } else {
      var n := |events| - 1;
      var before := events[..n];
      assert events == before + [events[n]];
      AlwaysRightIff(before);
      AlwaysRightSplits(before, events[n]);
      ReleasesMatchSplits(before, events[n]);
      if AlwaysRight(before) {
        assert before[..|before|] == before;
        StaysRightIff(before, events[n]);
      }
    }
  }
}

/** Mapping outputs to spaces and windows to zones (composition.rs). */
module Layout {
  import opened Common

  type Output = nat

  /** Where a space maps its outputs. */
  type Space = map<Output, Point<int>>

  datatype Listed = Listed(name: string, location: Point<int>)

  type Outputs = map<string, Output>

  ghost predicate Injective(outputs: Outputs) {
    forall n1, n2 :: n1 in outputs && n2 in outputs && outputs[n1] == outputs[n2] ==> n1 == n2
  }

  predicate Lists(listed: seq<Listed>, name: string) {
    exists i :: 0 <= i < |listed| && listed[i].name == name
  }

  /** The location given last for a name. */
  function LastLocation(listed: seq<Listed>, name: string): Point<int>
    requires Lists(listed, name)
  {
    var last := listed[|listed| - 1];
    if last.name == name then last.location
    else LastLocation(listed[..|listed| - 1], name)
  }

  lemma {:induction false} LastLocationIsLast(listed: seq<Listed>, i: nat)
    requires i < |listed| && forall j :: i < j < |listed| ==> listed[j].name != listed[i].name
    ensures Lists(listed, listed[i].name) && LastLocation(listed, listed[i].name) == listed[i].location
  {
    if i < |listed| - 1 { LastLocationIsLast(listed[..|listed| - 1], i); }
  }

  /** `space'` maps exactly the listed ones of the known outputs, each at its last location, and leaves
      outputs that are not known alone. */
  ghost predicate ReconciledSpace(space: Space, outputs: Outputs, listed: seq<Listed>, space': Space) {
    && (forall name :: name in outputs ==> (outputs[name] in space' <==> Lists(listed, name)))
    && (forall name :: name in outputs && Lists(listed, name) && outputs[name] in space' ==>
                         space'[outputs[name]] == LastLocation(listed, name))
    && (forall o :: o !in outputs.Values ==> (o in space' <==> o in space))
    && (forall o :: o !in outputs.Values && o in space && o in space' ==> space'[o] == space[o])
  }

  function SpaceOf(spaces: map<string, Space>, name: string): Space {
    if name in spaces then spaces[name] else map[]
  }

  /** The spaces with the `done` ones of the layout reconciled. */
  ghost predicate ReconciledUpTo(
    spaces: map<string, Space>, outputs: Outputs, layout: map<string, seq<Listed>>, done: set<string>,
    spaces': map<string, Space>)
    requires done <= layout.Keys
  {
    && spaces'.Keys == spaces.Keys + done
    && (forall name :: name in done ==> ReconciledSpace(SpaceOf(spaces, name), outputs, layout[name], spaces'[name]))
    && (forall name :: name in spaces && name !in done ==> spaces'[name] == spaces[name])
  }

  ghost predicate Reconciled(
    spaces: map<string, Space>, outputs: Outputs, layout: map<string, seq<Listed>>, spaces': map<string, Space>)
  {
    ReconciledUpTo(spaces, outputs, layout, layout.Keys, spaces')
  }

  /** One more space after those `done`. */
  lemma ReconciledThen(
    spaces: map<string, Space>, outputs: Outputs, layout: map<string, seq<Listed>>, done: set<string>,
    soFar: map<string, Space>, name: string, space: Space)
    requires done <= layout.Keys && name in layout && name !in done
    requires ReconciledUpTo(spaces, outputs, layout, done, soFar)
    requires ReconciledSpace(SpaceOf(soFar, name), outputs, layout[name], space)
    ensures ReconciledUpTo(spaces, outputs, layout, done + {name}, soFar[name := space])
  {
  }

  lemma ReconciledSpaceIsUnique(space: Space, outputs: Outputs, listed: seq<Listed>, a: Space, b: Space)
    requires ReconciledSpace(space, outputs, listed, a) && ReconciledSpace(space, outputs, listed, b)
    ensures a == b
  {
    forall o
      ensures o in a <==> o in b
      ensures o in a && o in b ==> a[o] == b[o]
    {
      if o in outputs.Values {
        var name :| name in outputs && outputs[name] == o;
        assert o in a <==> Lists(listed, name);
      }
    }
  }

  /** The result of a layout does not depend on the order in which the maps are walked: any two results
      that are reconciled are equal. */
  lemma ReconciledIsUnique(
    spaces: map<string, Space>, outputs: Outputs, layout: map<string, seq<Listed>>,
    a: map<string, Space>, b: map<string, Space>)
    requires Reconciled(spaces, outputs, layout, a) && Reconciled(spaces, outputs, layout, b)
    ensures a == b
  {
    forall name | name in a
      ensures a[name] == b[name]
    {
      if name in layout {
        ReconciledSpaceIsUnique(SpaceOf(spaces, name), outputs, layout[name], a[name], b[name]);
      }
    }
  }

  /** Applying a layout twice is the same as applying it once. */
  lemma ReconcilingIsIdempotent(
    spaces: map<string, Space>, outputs: Outputs, layout: map<string, seq<Listed>>,
    once: map<string, Space>, twice: map<string, Space>)
    requires Reconciled(spaces, outputs, layout, once) && Reconciled(once, outputs, layout, twice)
    ensures twice == once
  {
    forall name | name in layout
      ensures ReconciledSpace(SpaceOf(once, name), outputs, layout[name], once[name])
    {
      ReconciledSpaceIsSettled(SpaceOf(spaces, name), outputs, layout[name], once[name]);
    }
    assert Reconciled(once, outputs, layout, once);
    ReconciledIsUnique(once, outputs, layout, twice, once);
  }

  lemma ReconciledSpaceIsSettled(space: Space, outputs: Outputs, listed: seq<Listed>, space': Space)
    requires ReconciledSpace(space, outputs, listed, space')
    ensures ReconciledSpace(space', outputs, listed, space')
  {
  }

  // Active spaces

  ghost predicate ListedIn(outputs: Outputs, listed: seq<Listed>, o: Output) {
    exists name :: name in outputs && outputs[name] == o && Lists(listed, name)
  }

  /** Every known output that one of the `done` spaces lists has an active space. One that had an active space
      keeps it, and another's is a space that lists it. */
  ghost predicate Activated(
    active: map<Output, string>, outputs: Outputs, layout: map<string, seq<Listed>>, done: set<string>,
    active': map<Output, string>)
    requires done <= layout.Keys
  {
    && (forall o :: o in active ==> o in active' && active'[o] == active[o])
    && (forall o :: o in active' && o !in active ==> active'[o] in done && ListedIn(outputs, layout[active'[o]], o))
    && (forall name, o :: name in done && ListedIn(outputs, layout[name], o) ==> o in active')
  }

  /** One more space after those `done`. */
  lemma ActivatedThen(
    before: map<Output, string>, outputs: Outputs, layout: map<string, seq<Listed>>, done: set<string>,
    active: map<Output, string>, name: string, after: map<Output, string>)
    requires done <= layout.Keys && name in layout
    requires Activated(before, outputs, layout, done, active)
    requires Activated(active, outputs, map[name := layout[name]], {name}, after)
    ensures Activated(before, outputs, layout, done + {name}, after)
  {
    assert map[name := layout[name]][name] == layout[name];
    assert name in {name};
  }

  /** The output with the given name becomes active in a space unless it is elsewhere. */
  function Activate(active: map<Output, string>, outputs: Outputs, space: string, name: string): map<Output, string> {
    if name in outputs && outputs[name] !in active then active[outputs[name] := space] else active
  }

  /** One more output of a space. */
  lemma ActivatedNext(
    before: map<Output, string>, outputs: Outputs, space: string, listed: seq<Listed>, i: nat,
    active: map<Output, string>)
    requires i < |listed|
    requires Activated(before, outputs, map[space := listed[..i]], {space}, active)
    ensures Activated(before, outputs, map[space := listed[..i + 1]], {space},
                      Activate(active, outputs, space, listed[i].name))
  {
    ListsNext(listed, i);
    var after := Activate(active, outputs, space, listed[i].name);
    assert map[space := listed[..i]][space] == listed[..i] && map[space := listed[..i + 1]][space] == listed[..i + 1];
    assert space in {space};
    forall o | ListedIn(outputs, listed[..i], o)
      ensures ListedIn(outputs, listed[..i + 1], o) && o in after
    {
      var name :| name in outputs && outputs[name] == o && Lists(listed[..i], name);
      assert Lists(listed[..i + 1], name);
    }
    forall o | ListedIn(outputs, listed[..i + 1], o)
      ensures o in after
    {
      var name :| name in outputs && outputs[name] == o && Lists(listed[..i + 1], name);
      if name != listed[i].name { assert ListedIn(outputs, listed[..i], o); }
    }
  }

  /** The output is shown in a space that has it. */
  predicate ShownWhereMapped(spaces: map<string, Space>, active: map<Output, string>, o: Output) {
    o in active && active[o] in spaces && o in spaces[active[o]]
  }

  /** A layout can leave a known output with an active space that does not map it. This happens if and only if
      the output had an active space already which the layout takes it from, or which the layout does not name
      and which did not map it before. */
  lemma ActiveSpaceIsStaleIff(
    spaces: map<string, Space>, active: map<Output, string>, outputs: Outputs, layout: map<string, seq<Listed>>,
    spaces': map<string, Space>, active': map<Output, string>, o: Output)
    requires Injective(outputs)
    requires Reconciled(spaces, outputs, layout, spaces') && Activated(active, outputs, layout, layout.Keys, active')
    requires o in outputs.Values && o in active'
    ensures !ShownWhereMapped(spaces', active', o) <==>
            && o in active
            && if active[o] in layout then !ListedIn(outputs, layout[active[o]], o)
               else !ShownWhereMapped(spaces, active, o)
  {
    if active'[o] in layout { ListedIffMapped(spaces, outputs, layout, spaces', active'[o], o); }
  }

  lemma ListedIffMapped(
    spaces: map<string, Space>, outputs: Outputs, layout: map<string, seq<Listed>>,
    spaces': map<string, Space>, space: string, o: Output)
    requires Injective(outputs) && Reconciled(spaces, outputs, layout, spaces')
    requires space in layout && o in outputs.Values
    ensures space in spaces' && (o in spaces'[space] <==> ListedIn(outputs, layout[space], o))
  {
    var name :| name in outputs && outputs[name] == o;
    assert space in spaces';
    assert ReconciledSpace(SpaceOf(spaces, space), outputs, layout[space], spaces'[space]);
    assert outputs[name] in spaces'[space] <==> Lists(layout[space], name);
  }

  // Zones

  datatype Zone = Zone(name: string, geometry: Rect, default: bool)

  /** A placement fails when it asks for a zone that does not exist. */
  datatype Placement = Placed(geometry: Rect) | NoSuchZone(name: string)

  const FALLBACK := Rect(Point(100, 100), Size(2560, 1440))

  predicate HasZone(list: seq<Zone>, name: string) {
    exists i :: 0 <= i < |list| && list[i].name == name
  }

  predicate HasDefault(list: seq<Zone>) {
    exists i :: 0 <= i < |list| && list[i].default
  }

  function ZonesOf(list: seq<Zone>): map<string, Zone> {
    if list == [] then map[]
    else
      var last := list[|list| - 1];
      ZonesOf(list[..|list| - 1])[last.name := last]
  }

  /** The default zone after a new list: the last one marked, or else the one from before. */
  function DefaultAfter(list: seq<Zone>, before: Option<string>): Option<string> {
    if list == [] then before
    else if list[|list| - 1].default then Some(list[|list| - 1].name)
    else DefaultAfter(list[..|list| - 1], before)
  }

  function ZoneGeometry(zones: map<string, Zone>, name: string): Placement {
    if name in zones then Placed(zones[name].geometry) else NoSuchZone(name)
  }

  function PlacementOf(
    zones: map<string, Zone>, defaultZone: Option<string>, windowRules: map<string, string>,
    appId: string, zone: Option<string>): Placement
  {
    if zone.Some? then ZoneGeometry(zones, zone.value)
    else if appId in windowRules then ZoneGeometry(zones, windowRules[appId])
    else if defaultZone.Some? then ZoneGeometry(zones, defaultZone.value)
    else Placed(FALLBACK)
  }

  predicate LastNamed(list: seq<Zone>, i: nat, name: string) {
    i < |list| && list[i].name == name && forall j :: i < j < |list| ==> list[j].name != name
  }

  predicate LastMarked(list: seq<Zone>, i: nat) {
    i < |list| && list[i].default && forall j :: i < j < |list| ==> !list[j].default
  }

  /** The zones are those listed; of two with the same name the later one counts. */
  lemma {:induction false} ZonesOfNames(list: seq<Zone>, name: string)
    ensures name in ZonesOf(list) <==> HasZone(list, name)
    ensures forall i: nat :: LastNamed(list, i, name) ==> name in ZonesOf(list) && ZonesOf(list)[name] == list[i]
  {
    if list != [] {
      var n := |list| - 1;
      ZonesOfNames(list[..n], name);
      assert forall i :: 0 <= i < n ==> list[..n][i] == list[i];
      assert forall i: nat :: LastNamed(list, i, name) ==> i == n || LastNamed(list[..n], i, name);
    }
  }

  /** The default zone is the last one marked, and stays as it was if none is. */
  lemma {:induction false} DefaultAfterIsMarked(list: seq<Zone>, before: Option<string>)
    ensures HasDefault(list) ==> DefaultAfter(list, before).Some? && DefaultAfter(list, before).value in ZonesOf(list)
    ensures !HasDefault(list) ==> DefaultAfter(list, before) == before
    ensures forall i: nat :: LastMarked(list, i) ==> DefaultAfter(list, before) == Some(list[i].name)
  {
    if list != [] {
      var n := |list| - 1;
      DefaultAfterIsMarked(list[..n], before);
      assert forall i :: 0 <= i < n ==> list[..n][i] == list[i];
      assert forall i: nat :: LastMarked(list, i) ==> i == n || LastMarked(list[..n], i);
    }
  }

  /** New zones can leave the default zone dangling, and then a window without a rule cannot be placed.
      That happens if and only if the list marks no default, there was a default before, and the list does
      not have it. */
  lemma StaleDefaultZone(list: seq<Zone>, before: Option<string>, windowRules: map<string, string>, appId: string)
    requires appId !in windowRules
    ensures PlacementOf(ZonesOf(list), DefaultAfter(list, before), windowRules, appId, None).NoSuchZone?
            <==> !HasDefault(list) && before.Some? && !HasZone(list, before.value)
  {
    DefaultAfterIsMarked(list, before);
    if before.Some? { ZonesOfNames(list, before.value); }
  }

  /** The default zone after several lists of zones, one after the other. */
  function DefaultAfterAll(lists: seq<seq<Zone>>): Option<string> {
    if lists == [] then None
    else DefaultAfter(lists[|lists| - 1], DefaultAfterAll(lists[..|lists| - 1]))
  }

  /** The last of the lists to mark a default, and the last zone it marks. */
  predicate MarkedLast(lists: seq<seq<Zone>>, i: nat, j: nat) {
    && i < |lists| && LastMarked(lists[i], j)
    && forall k :: i < k < |lists| ==> !HasDefault(lists[k])
  }

  lemma {:induction false} DefaultIsMarkedLast(lists: seq<seq<Zone>>)
    ensures forall i: nat, j: nat :: MarkedLast(lists, i, j) ==> DefaultAfterAll(lists) == Some(lists[i][j].name)
    ensures DefaultAfterAll(lists).Some? ==> exists i: nat, j: nat :: MarkedLast(lists, i, j)
  {
    if lists != [] {
      var n := |lists| - 1;
      var first := lists[..n];
      DefaultIsMarkedLast(first);
      DefaultAfterIsMarked(lists[n], DefaultAfterAll(first));
      assert forall i: nat, j: nat :: i < n && MarkedLast(lists, i, j) ==> MarkedLast(first, i, j);
      if HasDefault(lists[n]) {
        var j := FindLastMarked(lists[n]);
        assert MarkedLast(lists, n, j);
      } else if i: nat, j: nat :| MarkedLast(first, i, j) {
        assert MarkedLast(lists, i, j);
      }
    }
  }

  lemma FindLastMarked(list: seq<Zone>) returns (j: nat)
    requires HasDefault(list)
    ensures LastMarked(list, j)
  {
    j := |list| - 1;
    while !list[j].default
      invariant j < |list| && forall k :: j < k < |list| ==> !list[k].default
      decreases j
    {
      assert exists i :: 0 <= i < |list| && list[i].default;
      j := j - 1;
    }
  }

  /** The name of the zone that decides about a window: the one asked for, else the one of its rule, else the
      default. */
  predicate Decides(
    defaultZone: Option<string>, windowRules: map<string, string>, appId: string, zone: Option<string>, name: string)
  {
    || zone == Some(name)
    || (zone.None? && appId in windowRules && windowRules[appId] == name)
    || (zone.None? && appId !in windowRules && defaultZone == Some(name))
  }

  /** Where a window is placed after a run of zone lists: in the last zone of the last list that has the deciding
      name, and at the fallback if and only if nothing decides. */
  lemma PlacementIsDecided(
    lists: seq<seq<Zone>>, last: seq<Zone>, windowRules: map<string, string>, appId: string, zone: Option<string>)
    ensures var defaultZone := DefaultAfterAll(lists + [last]);
            var r := PlacementOf(ZonesOf(last), defaultZone, windowRules, appId, zone);
            && (forall i: nat, name ::
                  Decides(defaultZone, windowRules, appId, zone, name) && LastNamed(last, i, name) ==>
                    r == Placed(last[i].geometry))
            && ((forall name :: !Decides(defaultZone, windowRules, appId, zone, name)) ==> r == Placed(FALLBACK))
            && (r.NoSuchZone? ==> Decides(defaultZone, windowRules, appId, zone, r.name) && !HasZone(last, r.name))
  {
    var defaultZone := DefaultAfterAll(lists + [last]);
    if zone.Some? {
      ZonesOfNames(last, zone.value);
      assert Decides(defaultZone, windowRules, appId, zone, zone.value);
    } else if appId in windowRules {
      ZonesOfNames(last, windowRules[appId]);
      assert Decides(defaultZone, windowRules, appId, zone, windowRules[appId]);
    } else if defaultZone.Some? {
      ZonesOfNames(last, defaultZone.value);
      assert Decides(defaultZone, windowRules, appId, zone, defaultZone.value);
    }
  }

  /** When a window cannot be placed after a run of zone lists: exactly if the zone asked for, or without one
      the zone of its rule, or without one the zone last marked as default in any list so far, is not in the
      last list. */
  lemma PlacementFailsIff(
    lists: seq<seq<Zone>>, last: seq<Zone>, windowRules: map<string, string>, appId: string, zone: Option<string>)
    ensures var all := lists + [last];
            var r := PlacementOf(ZonesOf(last), DefaultAfterAll(all), windowRules, appId, zone);
            && (zone.Some? ==> (r.NoSuchZone? <==> !HasZone(last, zone.value)))
            && (zone.None? && appId in windowRules ==> (r.NoSuchZone? <==> !HasZone(last, windowRules[appId])))
            && (zone.None? && appId !in windowRules ==>
                  (r.NoSuchZone? <==>
                   exists i: nat, j: nat :: MarkedLast(all, i, j) && !HasZone(last, all[i][j].name)))
  {
    var all := lists + [last];
    assert all[..|all| - 1] == lists && all[|all| - 1] == last;
    DefaultIsMarkedLast(all);
    if zone.Some? { ZonesOfNames(last, zone.value); }
    if appId in windowRules { ZonesOfNames(last, windowRules[appId]); }
    if DefaultAfterAll(all).Some? { ZonesOfNames(last, DefaultAfterAll(all).value); }
  }

  class LayoutState {
    var spaces: map<string, Space>
    var outputs: Outputs
    var activeSpaces: map<Output, string>
    var zones: map<string, Zone>
    var defaultZone: Option<string>
    var windowRules: map<string, string>

    constructor ()
      ensures spaces == map["main" := map[]] && outputs == map[] && activeSpaces == map[]
      ensures zones == map[] && defaultZone == None && windowRules == map[]
    {
      spaces := map["main" := map[]];
      outputs := map[];
      activeSpaces := map[];
      zones := map[];
      defaultZone := None;
      windowRules := map[];
    }

    method SetLayout(layout: map<string, seq<Listed>>)
      requires Injective(outputs)
      modifies this`spaces, this`activeSpaces
      ensures Reconciled(old(spaces), outputs, layout, spaces)
      ensures Activated(old(activeSpaces), outputs, layout, layout.Keys, activeSpaces)
    {
      var names := layout.Keys;
      while names != {}
        invariant names <= layout.Keys
        invariant ReconciledUpTo(old(spaces), outputs, layout, layout.Keys - names, spaces)
        invariant Activated(old(activeSpaces), outputs, layout, layout.Keys - names, activeSpaces)
      {
        var name :| name in names;
        ghost var active := activeSpaces;
        var space := ReconcileSpace(name, SpaceOf(spaces, name), layout[name]);
        ReconciledThen(old(spaces), outputs, layout, layout.Keys - names, spaces, name, space);
        ActivatedThen(old(activeSpaces), outputs, layout, layout.Keys - names, active, name, activeSpaces);
        assert layout.Keys - (names - {name}) == layout.Keys - names + {name};
        spaces := spaces[name := space];
        names := names - {name};
      }
      assert layout.Keys - names == layout.Keys;
    }

    /** The outputs of one space are mapped and unmapped, and become active in it unless they are elsewhere. */
    method ReconcileSpace(name: string, given: Space, listed: seq<Listed>) returns (space: Space)
      requires Injective(outputs)
      modifies this`activeSpaces
      ensures ReconciledSpace(given, outputs, listed, space)
      ensures Activated(old(activeSpaces), outputs, map[name := listed], {name}, activeSpaces)
    {
      space := MapListed(name, given, listed);
      space := UnmapUnlisted(space, listed);
    }

    method MapListed(spaceName: string, given: Space, listed: seq<Listed>) returns (space: Space)
      requires Injective(outputs)
      modifies this`activeSpaces
      ensures forall name :: name in outputs && Lists(listed, name) ==>
          outputs[name] in space && space[outputs[name]] == LastLocation(listed, name)
      ensures forall o :: o in given ==> o in space
      ensures forall o :: o !in outputs.Values && o in space ==> o in given && space[o] == given[o]
      ensures Activated(old(activeSpaces), outputs, map[spaceName := listed], {spaceName}, activeSpaces)
    {
      space := given;
      for i := 0 to |listed|
        invariant forall name :: name in outputs && Lists(listed[..i], name) ==>
            outputs[name] in space && space[outputs[name]] == LastLocation(listed[..i], name)
        invariant forall o :: o in given ==> o in space
        invariant forall o :: o !in outputs.Values && o in space ==> o in given && space[o] == given[o]
        invariant Activated(old(activeSpaces), outputs, map[spaceName := listed[..i]], {spaceName}, activeSpaces)
      {
        ListsNext(listed, i);
        ActivatedNext(old(activeSpaces), outputs, spaceName, listed, i, activeSpaces);
        if listed[i].name !in outputs { continue; }
        var output := outputs[listed[i].name];
        space := space[output := listed[i].location];
        if output !in activeSpaces { activeSpaces := activeSpaces[output := spaceName]; }
      }
      assert listed[..|listed|] == listed;
    }

    method UnmapUnlisted(given: Space, listed: seq<Listed>) returns (space: Space)
      requires Injective(outputs)
      ensures forall o :: o in space ==> o in given && space[o] == given[o]
      ensures forall o :: o in given && o !in space ==> o in outputs.Values
      ensures forall name :: name in outputs ==>
          (outputs[name] in space <==> outputs[name] in given && Lists(listed, name))
    {
      space := given;
      var names := outputs.Keys;
      while names != {}
        invariant names <= outputs.Keys
        invariant forall o :: o in space ==> o in given && space[o] == given[o]
        invariant forall o :: o in given && o !in space ==> o in outputs.Values
        invariant forall name :: name in outputs && name !in names ==>
            (outputs[name] in space <==> outputs[name] in given && Lists(listed, name))
        invariant forall name :: name in names ==> (outputs[name] in space <==> outputs[name] in given)
      {
        var name :| name in names;
        if !Lists(listed, name) { space := space - {outputs[name]}; }
        names := names - {name};
      }
    }

    method SetZones(list: seq<Zone>)
      modifies this`zones, this`defaultZone
      ensures zones == ZonesOf(list) && defaultZone == DefaultAfter(list, old(defaultZone))
    {
      zones := map[];
      for i := 0 to |list|
        invariant zones == ZonesOf(list[..i]) && defaultZone == DefaultAfter(list[..i], old(defaultZone))
      {
        assert list[..i + 1][..i] == list[..i];
        if list[i].default { defaultZone := Some(list[i].name); }
        zones := zones[list[i].name := list[i]];
      }
      assert list[..|list|] == list;
    }

    method PlaceWindow(appId: string, zone: Option<string>) returns (r: Placement)
      ensures r == PlacementOf(zones, defaultZone, windowRules, appId, zone)
      ensures r.NoSuchZone? ==> r.name !in zones
      ensures r.Placed? ==> || (exists name :: name in zones && zones[name].geometry == r.geometry)
                            || (r.geometry == FALLBACK && zone.None? && defaultZone.None?)
    {
      if zone.Some? {
        if zone.value !in zones { return NoSuchZone(zone.value); }
        return Placed(zones[zone.value].geometry);
      } else if appId in windowRules {
        if windowRules[appId] !in zones { return NoSuchZone(windowRules[appId]); }
        return Placed(zones[windowRules[appId]].geometry);
      } else if defaultZone.Some? {
        if defaultZone.value !in zones { return NoSuchZone(defaultZone.value); }
        return Placed(zones[defaultZone.value].geometry);
      }
      return Placed(FALLBACK);
    }
  }

  lemma ListsNext(listed: seq<Listed>, i: nat)
    requires i < |listed|
    ensures forall name :: Lists(listed[..i + 1], name) <==> Lists(listed[..i], name) || listed[i].name == name
    ensures forall name :: Lists(listed[..i + 1], name) ==>
                             LastLocation(listed[..i + 1], name)
                             == if listed[i].name == name then listed[i].location else LastLocation(listed[..i], name)
  {
    var next := listed[..i + 1];
    assert next[..i] == listed[..i] && next[i] == listed[i];
    assert forall k :: 0 <= k < i ==> next[k] == listed[..i][k];
    forall name
      ensures Lists(next, name) <==> Lists(listed[..i], name) || listed[i].name == name
    {
      if Lists(listed[..i], name) {
        var k :| 0 <= k < i && listed[..i][k].name == name;
        assert next[k].name == name;
      }
      if Lists(next, name) && listed[i].name != name {
        var k :| 0 <= k < |next| && next[k].name == name;
        assert listed[..i][k].name == name;
      }
    }
    forall name | Lists(next, name)
      ensures LastLocation(next, name)
              == if listed[i].name == name then listed[i].location else LastLocation(listed[..i], name)
    {
      assert next[..|next| - 1] == listed[..i];
    }
  }
}

/**
 * The catalogue service: it owns the table of cards and, when a preset card is
 * toggled, copies the new state onto every custom card of the same group.
 */
module ComponentDataStore {
  import opened ComponentModels

  /** What one card becomes when the group `group` is set to `state`. */
  function SyncCard(d: ComponentData, group: seq<string>, state: bool): ComponentData {
    if !d.isPreset && SharesGroup(d.group, group) then WithSelection(d, state) else d
  }

  /** The whole table after `syncGroupSelection(group, state)`. */
  function SyncedTable(t: seq<ComponentData>, group: seq<string>, state: bool): (r: seq<ComponentData>)
    ensures |r| == |t|
  {
    seq(|t|, i requires 0 <= i < |t| => SyncCard(t[i], group, state))
  }

  /**
   * Matching custom cards end with the card and all their tests at `state`;
   * presets and unmatched cards are unchanged; nothing but selection flags moves.
   */
  lemma SyncedTableEffect(t: seq<ComponentData>, group: seq<string>, state: bool)
    ensures var r := SyncedTable(t, group, state);
      |r| == |t|
      && (forall i :: 0 <= i < |t| && !t[i].isPreset && SharesGroup(t[i].group, group) ==>
            r[i].selected == state && forall k :: 0 <= k < |r[i].tests| ==> r[i].tests[k].selected == state)
      && (forall i :: 0 <= i < |t| && (t[i].isPreset || !SharesGroup(t[i].group, group)) ==> r[i] == t[i])
      && (forall i :: 0 <= i < |t| ==> SameCardApartFromSelection(r[i], t[i]))
  {
    var r := SyncedTable(t, group, state);
    forall i | 0 <= i < |t|
      ensures SameCardApartFromSelection(r[i], t[i])
    {
      if !t[i].isPreset && SharesGroup(t[i].group, group) {
        assert r[i] == WithSelection(t[i], state);
      } else {
        assert r[i] == t[i];
      }
    }
  }

  /** Applying the same synchronisation twice is the same as applying it once. */
  lemma SyncIdempotent(t: seq<ComponentData>, group: seq<string>, state: bool)
    ensures SyncedTable(SyncedTable(t, group, state), group, state) == SyncedTable(t, group, state)
  {
    var r := SyncedTable(t, group, state);
    forall i | 0 <= i < |t|
      ensures SyncCard(r[i], group, state) == r[i]
    {
      if !t[i].isPreset && SharesGroup(t[i].group, group) {
        assert r[i].tests == TestsSetTo(r[i].tests, state);
      }
    }
  }

  /** Synchronising with no group tags changes nothing. */
  lemma SyncEmptyGroup(t: seq<ComponentData>, state: bool)
    ensures SyncedTable(t, [], state) == t
  {
    forall i | 0 <= i < |t|
      ensures SyncCard(t[i], [], state) == t[i]
    {
      NothingSharedWithEmpty(t[i].group);
    }
  }

  class ComponentDataService {
    /** The in-memory table; the array is never replaced, its cards are updated in place. */
    const data: array<ComponentData>

    constructor(contents: seq<ComponentData>)
      ensures data[..] == contents && fresh(data)
    {
      data := new ComponentData[|contents|](i requires 0 <= i < |contents| => contents[i]);
    }

    /** `getComponents`: hands out the table itself, so the cards edit the service's own entries. */
    method GetComponents() returns (r: array<ComponentData>)
      ensures r == data
    {
      r := data;
    }

    /** `syncGroupSelection(group, state)`. */
    method SyncGroupSelection(group: seq<string>, state: bool)
      modifies data
      ensures data[..] == SyncedTable(old(data[..]), group, state)
    {
      var i := 0;
      while i < data.Length
        invariant 0 <= i <= data.Length
        invariant forall k :: 0 <= k < i ==> data[k] == SyncCard(old(data[k]), group, state)
        invariant forall k :: i <= k < data.Length ==> data[k] == old(data[k])
      {
        var d := data[i];
        if !d.isPreset && SharesGroup(d.group, group) {
          var tests := SelectAllTests(d.tests, state);
          data[i] := d.(selected := state, tests := tests);
        }
        i := i + 1;
      }
    }
  }
}

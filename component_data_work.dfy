/**
 * The later catalogue service, which loads the table elsewhere and is handed
 * it on every call. Its synchronisation runs two passes over that table: the
 * group match of the first service, then a per-test match on `testGroup` that
 * also reaches custom cards whose own group does not match.
 */
module WorkComponentDataStore {
  import opened ComponentModels
  import ComponentDataStore

  /** The tests whose `testGroup` meets `group` set to `state`, the others kept. */
  function TestsInGroupSetTo(tests: seq<Test>, group: seq<string>, state: bool): (r: seq<Test>)
    ensures |r| == |tests|
    ensures forall k :: 0 <= k < |r| ==> SameTestApartFromSelection(r[k], tests[k])
  {
    seq(|tests|, k requires 0 <= k < |tests| =>
      if SharesGroup(tests[k].testGroup, group) then tests[k].(selected := state) else tests[k])
  }

  /** The inner loop of the second pass. */
  method SelectTestsInGroup(tests: seq<Test>, group: seq<string>, state: bool) returns (r: seq<Test>)
    ensures r == TestsInGroupSetTo(tests, group, state)
  {
    r := tests;
    var k := 0;
    while k < |r|
      invariant 0 <= k <= |r| && |r| == |tests|
      invariant forall j :: 0 <= j < k ==> r[j] == TestsInGroupSetTo(tests, group, state)[j]
      invariant forall j :: k <= j < |r| ==> r[j] == tests[j]
    {
      if SharesGroup(r[k].testGroup, group) {
        r := r[k := r[k].(selected := state)];
      }
      k := k + 1;
    }
  }

  /** What the second pass does to one card. */
  function SecondPassCard(d: ComponentData, group: seq<string>, state: bool): ComponentData {
    if d.isPreset then d else d.(tests := TestsInGroupSetTo(d.tests, group, state))
  }

  /** What both passes together do to one card. */
  function WorkSyncCard(d: ComponentData, group: seq<string>, state: bool): ComponentData {
    SecondPassCard(ComponentDataStore.SyncCard(d, group, state), group, state)
  }

  function WorkSyncedTable(t: seq<ComponentData>, group: seq<string>, state: bool): (r: seq<ComponentData>)
    ensures |r| == |t|
  {
    seq(|t|, i requires 0 <= i < |t| => WorkSyncCard(t[i], group, state))
  }

  /**
   * The effect of both passes on one card: the first pass as before; every test
   * of a custom card whose `testGroup` meets `group` ends at `state`; the card's
   * own flag is the first pass's; presets and the remaining tests are unchanged.
   */
  lemma WorkSyncCardEffect(d: ComponentData, group: seq<string>, state: bool)
    ensures var r := WorkSyncCard(d, group, state);
      SameCardApartFromSelection(r, d)
      && r.selected == ComponentDataStore.SyncCard(d, group, state).selected
      && (d.isPreset ==> r == d)
      && (!d.isPreset && SharesGroup(d.group, group) ==>
            r.selected == state && forall k :: 0 <= k < |r.tests| ==> r.tests[k].selected == state)
      && (forall k :: 0 <= k < |d.tests| && !d.isPreset && SharesGroup(d.tests[k].testGroup, group) ==>
            r.tests[k].selected == state)
      && (forall k :: 0 <= k < |d.tests| && !SharesGroup(d.group, group) && !SharesGroup(d.tests[k].testGroup, group) ==>
            r.tests[k] == d.tests[k])
  {
    var p := ComponentDataStore.SyncCard(d, group, state);
    var r := WorkSyncCard(d, group, state);
    if !d.isPreset {
      assert r.tests == TestsInGroupSetTo(p.tests, group, state);
      assert forall k :: 0 <= k < |d.tests| ==>
          SameTestApartFromSelection(r.tests[k], p.tests[k]) && SameTestApartFromSelection(p.tests[k], d.tests[k]);
    }
  }

  /** The second pass never changes a card's own flag. */
  lemma SecondPassKeepsCardFlag(d: ComponentData, group: seq<string>, state: bool)
    ensures SecondPassCard(d, group, state).selected == d.selected
  {
  }

  /** Running the two passes twice is the same as running them once. */
  lemma WorkSyncIdempotent(t: seq<ComponentData>, group: seq<string>, state: bool)
    ensures WorkSyncedTable(WorkSyncedTable(t, group, state), group, state) == WorkSyncedTable(t, group, state)
  {
    var r := WorkSyncedTable(t, group, state);
    forall i | 0 <= i < |t|
      ensures WorkSyncCard(r[i], group, state) == r[i]
    {
      var d := t[i];
      var p := ComponentDataStore.SyncCard(d, group, state);
      if !d.isPreset {
        var q := ComponentDataStore.SyncCard(r[i], group, state);
        if SharesGroup(d.group, group) {
          assert forall k :: 0 <= k < |r[i].tests| ==> r[i].tests[k] == d.tests[k].(selected := state);
          assert q.tests == r[i].tests;
        } else {
          assert q == r[i];
        }
        assert TestsInGroupSetTo(r[i].tests, group, state) == r[i].tests;
      }
    }
  }

  /** `syncGroupSelection(group, state, allData)`: two passes over `allData`. */
  method SyncGroupSelection(group: seq<string>, state: bool, allData: array<ComponentData>)
    modifies allData
    ensures allData[..] == WorkSyncedTable(old(allData[..]), group, state)
  {
    var i := 0;
    while i < allData.Length
      invariant 0 <= i <= allData.Length
      invariant forall k :: 0 <= k < i ==> allData[k] == ComponentDataStore.SyncCard(old(allData[k]), group, state)
      invariant forall k :: i <= k < allData.Length ==> allData[k] == old(allData[k])
    {
      var d := allData[i];
      if !d.isPreset && SharesGroup(d.group, group) {
        var tests := SelectAllTests(d.tests, state);
        allData[i] := d.(selected := state, tests := tests);
      }
      i := i + 1;
    }
    i := 0;
    while i < allData.Length
      invariant 0 <= i <= allData.Length
      invariant forall k :: 0 <= k < i ==> allData[k] == WorkSyncCard(old(allData[k]), group, state)
      invariant forall k :: i <= k < allData.Length ==> allData[k] == ComponentDataStore.SyncCard(old(allData[k]), group, state)
    {
      var d := allData[i];
      if !d.isPreset {
        var tests := SelectTestsInGroup(d.tests, group, state);
        allData[i] := d.(tests := tests);
      }
      i := i + 1;
    }
  }
}

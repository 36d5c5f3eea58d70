/**
 * The later card: it is handed the whole table (`allData`) beside its own
 * entry, passes that table to the service on a preset toggle, and offers two
 * getters the checkbox uses to show "all" and "some" of its tests selected.
 * Its `data` is modelled as the entry of `allData` at `index`.
 */
module WorkComponentCard {
  import opened ComponentModels
  import opened WorkComponentDataStore
  import ComponentCard

  /** `allTestsSelected`: every test selected when there are tests, else the card's own flag. */
  function AllTestsSelected(d: ComponentData): (b: bool)
    ensures |d.tests| > 0 ==> (b <==> SelectedCount(d.tests) == |d.tests|)
    ensures |d.tests| == 0 ==> b == d.selected
  {
    SelectedCountBounds(d.tests);
    if |d.tests| > 0 then AllSelected(d.tests) else d.selected
  }

  /** `partialSelected`: some tests selected, but not all of them. */
  function PartialSelected(d: ComponentData): (b: bool)
    ensures b <==> (exists i :: 0 <= i < |d.tests| && d.tests[i].selected)
                   && (exists i :: 0 <= i < |d.tests| && !d.tests[i].selected)
    ensures |d.tests| == 0 ==> !b
  {
    SelectedCountBounds(d.tests);
    if |d.tests| == 0 then false
    else
      var count := SelectedCount(d.tests);
      count > 0 && count < |d.tests|
  }

  /** The checkbox never shows "all" and "some" at once. */
  lemma NeverAllAndPartial(d: ComponentData)
    ensures !(AllTestsSelected(d) && PartialSelected(d))
  {
  }

  class ComponentCardComponent {
    /** The `allData` input. */
    var allData: array<ComponentData>
    /** Which entry of `allData` the `data` input is. */
    var index: nat
    var isPreset: bool

    predicate Valid()
      reads this
    {
      index < allData.Length
    }

    function Data(): ComponentData
      requires Valid()
      reads this, allData
    {
      allData[index]
    }

    constructor(allData: array<ComponentData>, index: nat, isPreset: bool)
      requires index < allData.Length
      ensures Valid() && this.allData == allData && this.index == index && this.isPreset == isPreset
    {
      this.allData := allData;
      this.index := index;
      this.isPreset := isPreset;
    }

    /** `toggleSelection`: a preset card runs the two-pass synchronisation over `allData`. */
    method ToggleSelection()
      requires Valid()
      modifies allData
      ensures Valid()
      ensures var d := old(Data()); var n := !d.selected;
        allData[..] == (if isPreset then WorkSyncedTable(old(allData[..])[index := d.(selected := n)], d.group, n)
                        else old(allData[..])[index := WithSelection(d, n)])
      ensures Data().selected == !old(Data()).selected
      ensures !isPreset ==> forall k :: 0 <= k < |Data().tests| ==> Data().tests[k].selected == Data().selected
    {
      var d := allData[index];
      var n := !d.selected;
      allData[index] := d.(selected := n);
      if !isPreset {
        var tests := SelectAllTests(d.tests, n);
        allData[index] := d.(selected := n, tests := tests);
      }
      if isPreset {
        ghost var before := allData[..];
        SyncGroupSelection(d.group, n, allData);
        assert allData[index] == WorkSyncCard(before[index], d.group, n);
      }
    }

    /**
     * `toggleTestSelection(test)` for the test at position `k`; afterwards the
     * card's flag agrees with what `allTestsSelected` reports.
     */
    method ToggleTestSelection(k: nat)
      requires Valid() && k < |Data().tests|
      modifies allData
      ensures Valid()
      ensures var d := old(Data()); var t := ComponentCard.FlipTest(d.tests, k);
        allData[..] == old(allData[..])[index := d.(tests := t, selected := AllSelected(t))]
      ensures Data().selected == AllTestsSelected(Data())
      ensures !(Data().selected && PartialSelected(Data()))
    {
      var d := allData[index];
      var tests := ComponentCard.FlipTest(d.tests, k);
      allData[index] := d.(tests := tests);
      var all := ComponentCard.EveryTestSelected(tests);
      allData[index] := d.(tests := tests, selected := all);
      NeverAllAndPartial(allData[index]);
    }

    /** `toggleExpand`. */
    method ToggleExpand()
      requires Valid()
      modifies allData
      ensures Valid()
      ensures allData[..] == old(allData[..])[index := old(Data()).(isExpanded := !old(Data()).isExpanded)]
    {
      var d := allData[index];
      allData[index] := d.(isExpanded := !d.isExpanded);
    }
  }
}

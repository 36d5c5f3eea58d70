/**
 * A card of the catalogue. Its `data` is one entry of the service's table (the
 * table the service hands out), so the card's in-place edits are edits of that
 * table: the card is modelled by the service and the entry's index.
 */
module ComponentCard {
  import opened ComponentModels
  import opened ComponentDataStore

  /** The tests with the one at `k` flipped. */
  function FlipTest(tests: seq<Test>, k: nat): (r: seq<Test>)
    requires k < |tests|
    ensures |r| == |tests| && r[k].selected == !tests[k].selected
    ensures SameTestApartFromSelection(r[k], tests[k])
    ensures forall j :: 0 <= j < |tests| && j != k ==> r[j] == tests[j]
  {
    tests[k := tests[k].(selected := !tests[k].selected)]
  }

  /** `tests.every(t => t.selected)` as the loop JavaScript runs. */
  method EveryTestSelected(tests: seq<Test>) returns (b: bool)
    ensures b <==> AllSelected(tests)
  {
    var i := 0;
    while i < |tests|
      invariant 0 <= i <= |tests|
      invariant forall k :: 0 <= k < i ==> tests[k].selected
    {
      if !tests[i].selected {
        return false;
      }
      i := i + 1;
    }
    return true;
  }

  class ComponentCardComponent {
    const service: ComponentDataService
    /** Which entry of the service's table the `data` input is. */
    var index: nat
    /** The `isPreset` input: how the card is shown, independent of `data.isPreset`. */
    var isPreset: bool

    predicate Valid()
      reads this
    {
      index < service.data.Length
    }

    function Data(): ComponentData
      requires Valid()
      reads this, service.data
    {
      service.data[index]
    }

    constructor(service: ComponentDataService, index: nat, isPreset: bool)
      requires index < service.data.Length
      ensures Valid() && this.service == service && this.index == index && this.isPreset == isPreset
    {
      this.service := service;
      this.index := index;
      this.isPreset := isPreset;
    }

    /**
     * `toggleSelection`: flips the card's flag; a custom card copies it onto its
     * tests, a preset card synchronises its group through the service.
     */
    method ToggleSelection()
      requires Valid()
      modifies service.data
      ensures Valid()
      ensures var d := old(Data()); var n := !d.selected;
        service.data[..] == (if isPreset then SyncedTable(old(service.data[..])[index := d.(selected := n)], d.group, n)
                             else old(service.data[..])[index := WithSelection(d, n)])
      ensures Data().selected == !old(Data()).selected
      ensures !isPreset ==> forall k :: 0 <= k < |Data().tests| ==> Data().tests[k].selected == Data().selected
      ensures isPreset && old(Data()).isPreset ==> Data().tests == old(Data()).tests
    {
      var d := service.data[index];
      var n := !d.selected;
      service.data[index] := d.(selected := n);
      if !isPreset {
        var tests := SelectAllTests(d.tests, n);
        service.data[index] := d.(selected := n, tests := tests);
      }
      if isPreset {
        ghost var before := service.data[..];
        service.SyncGroupSelection(d.group, n);
        assert service.data[index] == SyncCard(before[index], d.group, n);
      }
    }

    /** `toggleTestSelection(test)` for the test at position `k` of the card. */
    method ToggleTestSelection(k: nat)
      requires Valid() && k < |Data().tests|
      modifies service.data
      ensures Valid()
      ensures var d := old(Data()); var t := FlipTest(d.tests, k);
        service.data[..] == old(service.data[..])[index := d.(tests := t, selected := AllSelected(t))]
      ensures Data().tests[k].selected == !old(Data()).tests[k].selected
      ensures Data().selected <==> AllSelected(Data().tests)
    {
      var d := service.data[index];
      var tests := FlipTest(d.tests, k);
      service.data[index] := d.(tests := tests);
      var all := EveryTestSelected(tests);
      service.data[index] := d.(tests := tests, selected := all);
    }

    /** `toggleExpand`. */
    method ToggleExpand()
      requires Valid()
      modifies service.data
      ensures Valid()
      ensures service.data[..] == old(service.data[..])[index := old(Data()).(isExpanded := !old(Data()).isExpanded)]
    {
      var d := service.data[index];
      service.data[index] := d.(isExpanded := !d.isExpanded);
    }
  }
}

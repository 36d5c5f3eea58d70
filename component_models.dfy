/**
 * The component catalogue: cards (components) holding tests, preset cards that
 * stand for a group, and the selection flags the catalogue's checkboxes show.
 * Optional flags of the source (`selected?`, `isExpanded?`) read as false when
 * absent and an absent `testGroup` as no groups, so they are plain values here.
 */
module ComponentModels {
  import opened Wrappers

  datatype Test = Test(
    testName: string,
    testOwner: string,
    testTag: string,
    selected: bool,
    link: Option<string>,
    testGroup: seq<string>)

  datatype ComponentData = ComponentData(
    componentName: string,
    isPreset: bool,
    group: seq<string>,
    infoText: Option<string>,
    tests: seq<Test>,
    selected: bool,
    isExpanded: bool)

  /** `a.some(g => b.includes(g))`. */
  predicate SharesGroup(a: seq<string>, b: seq<string>) {
    exists g :: g in a && g in b
  }

  lemma NothingSharedWithEmpty(a: seq<string>)
    ensures !SharesGroup(a, [])
  {
  }

  /** Two tests differ at most in their selection flag. */
  predicate SameTestApartFromSelection(t: Test, u: Test) {
    t.(selected := false) == u.(selected := false)
  }

  /** Two cards differ at most in the selection flags of the card and its tests. */
  predicate SameCardApartFromSelection(c: ComponentData, d: ComponentData) {
    c.componentName == d.componentName && c.isPreset == d.isPreset && c.group == d.group
    && c.infoText == d.infoText && c.isExpanded == d.isExpanded && |c.tests| == |d.tests|
    && forall i :: 0 <= i < |c.tests| ==> SameTestApartFromSelection(c.tests[i], d.tests[i])
  }

  /** Every test with its flag set to `state`. */
  function TestsSetTo(tests: seq<Test>, state: bool): (r: seq<Test>)
    ensures |r| == |tests|
    ensures forall i :: 0 <= i < |r| ==> r[i].selected == state && SameTestApartFromSelection(r[i], tests[i])
  {
    seq(|tests|, i requires 0 <= i < |tests| => tests[i].(selected := state))
  }

  /** `tests.forEach(t => t.selected = state)`. */
  method SelectAllTests(tests: seq<Test>, state: bool) returns (r: seq<Test>)
    ensures r == TestsSetTo(tests, state)
  {
    r := tests;
    var i := 0;
    while i < |r|
      invariant 0 <= i <= |r| && |r| == |tests|
      invariant forall k :: 0 <= k < i ==> r[k] == tests[k].(selected := state)
      invariant forall k :: i <= k < |r| ==> r[k] == tests[k]
    {
      r := r[i := r[i].(selected := state)];
      i := i + 1;
    }
  }

  /** The card and all of its tests set to `state`. */
  function WithSelection(d: ComponentData, state: bool): (r: ComponentData)
    ensures r.selected == state && forall i :: 0 <= i < |r.tests| ==> r.tests[i].selected == state
    ensures SameCardApartFromSelection(r, d)
  {
    d.(selected := state, tests := TestsSetTo(d.tests, state))
  }

  /** `tests.every(t => t.selected)`. */
  predicate AllSelected(tests: seq<Test>) {
    forall i :: 0 <= i < |tests| ==> tests[i].selected
  }

  /** `tests.filter(t => t.selected).length`. */
  function SelectedCount(tests: seq<Test>): (n: nat)
    ensures n <= |tests|
  {
    if tests == [] then 0
    else (if tests[0].selected then 1 else 0) + SelectedCount(tests[1..])
  }

  /** The count is the length exactly when every test is selected, and positive exactly when one is. */
  lemma {:induction false} SelectedCountBounds(tests: seq<Test>)
    ensures SelectedCount(tests) == |tests| <==> AllSelected(tests)
    ensures SelectedCount(tests) > 0 <==> exists i :: 0 <= i < |tests| && tests[i].selected
  {
    if tests != [] {
      SelectedCountBounds(tests[1..]);
      assert forall i :: 1 <= i < |tests| ==> tests[i] == tests[1..][i - 1];
      if !tests[0].selected {
        assert SelectedCount(tests) == SelectedCount(tests[1..]) <= |tests| - 1;
      } else {
        assert tests[0].selected;
      }
    }
  }
}

/** Whether the summary panel shows its details. */
module UiStateManager {

  class UiStateManagerService {
    var showSummaryDetails: bool

    constructor()
      ensures !showSummaryDetails
    {
      showSummaryDetails := false;
    }

    /** Flips the flag and returns its new value. */
    method ToggleSummaryDetails() returns (newState: bool)
      modifies this
      ensures newState == !old(showSummaryDetails) && showSummaryDetails == newState
    {
      newState := !showSummaryDetails;
      showSummaryDetails := newState;
    }

    method SetSummaryDetailsVisibility(visible: bool)
      modifies this
      ensures showSummaryDetails == visible
    {
      showSummaryDetails := visible;
    }

    method Reset()
      modifies this
      ensures !showSummaryDetails
    {
      showSummaryDetails := false;
    }
  }

  /** Toggling twice restores the flag, and the two results are opposite. */
  method ToggleTwice(ui: UiStateManagerService) returns (first: bool, second: bool)
    modifies ui
    ensures ui.showSummaryDetails == old(ui.showSummaryDetails)
    ensures first == !old(ui.showSummaryDetails) && second == !first
  {
    first := ui.ToggleSummaryDetails();
    second := ui.ToggleSummaryDetails();
  }
}

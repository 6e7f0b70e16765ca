/** The registration screen's state and its two handlers: the course
    checkboxes toggle ids in `selectedCourses`, and the "Calculate Fees"
    button stores the charge for the current selection in `totalFees`. */
module App {
  import opened Catalog
  import opened Selection
  import opened Fees

  class AppState {
    /** The ticked course ids, in the order they were ticked. */
    var selectedCourses: seq<int>
    /** The last calculated charge; 0 until the button is first pressed. */
    var totalFees: real

    /** The invariant every state reached from the start keeps: no id is
        listed twice. */
    ghost predicate Valid()
      reads this
    {
      NoDups(selectedCourses)
    }

    /** The screen as it first appears: nothing ticked, no charge. */
    constructor ()
      ensures selectedCourses == [] && totalFees == 0.0
      ensures Valid()
    {
      selectedCourses := [];
      totalFees := 0.0;
    }

    /** A press on the checkbox of `courseId`: a ticked id is filtered out,
        any other id is appended. The stored charge is left as it was until
        the button is pressed again. */
    method HandleCourseSelection(courseId: int)
      modifies this
      ensures selectedCourses == Toggled(old(selectedCourses), courseId)
      ensures totalFees == old(totalFees)
      ensures courseId in selectedCourses <==> courseId !in old(selectedCourses)
      ensures forall x :: x != courseId ==> (x in selectedCourses <==> x in old(selectedCourses))
      ensures old(Valid()) ==> Valid()
      ensures old(Valid()) ==> |selectedCourses| == if courseId in old(selectedCourses)
                                                   then |old(selectedCourses)| - 1
                                                   else |old(selectedCourses)| + 1
    {
      ToggleMembership(selectedCourses, courseId);
      ToggleLength(selectedCourses, courseId);
      if NoDups(selectedCourses) {
        ToggleKeepsNoDups(selectedCourses, courseId);
      }
      if courseId in selectedCourses {
        selectedCourses := Without(selectedCourses, courseId);
      } else {
        selectedCourses := selectedCourses + [courseId];
      }
    }

    /** A press on "Calculate Fees": the base sum of the selection, less the
        discount its number of entries earns, plus VAT on the rest, stored in
        `totalFees`. The selection is not touched. */
    method CalculateFees()
      modifies this`totalFees
      ensures totalFees == Total(COURSES, selectedCourses)
      ensures 0.0 <= totalFees
      ensures selectedCourses == [] ==> totalFees == 0.0
    {
      var total := BaseSum(COURSES, selectedCourses);
      var discount := 0.0;
      if |selectedCourses| == 2 {
        discount := 0.05;
      } else if |selectedCourses| == 3 {
        discount := 0.10;
      } else if |selectedCourses| > 3 {
        discount := 0.15;
      }
      assert discount == Discount(|selectedCourses|);
      var discountedTotal := total - total * discount;
      var vat := discountedTotal * VAT_RATE;
      var finalTotal := discountedTotal + vat;
      totalFees := finalTotal;
      CatalogTotalNonNegative(selectedCourses);
    }
  }

  /** The selection after ticking 1 and 2, then unticking and re-ticking 1. */
  lemma RetickOrder()
    ensures Toggled(Toggled(Toggled(Toggled([], 1), 2), 1), 1) == [2, 1]
  {
    assert Toggled([], 1) == [1];
    assert Toggled([1], 2) == [1, 2];
    ToggleTwiceMovesToEnd();
  }

  /** From a fresh screen, ticking First Aid and then Sewing and pressing the
      button shows R3277.50. */
  method TickFirstAidAndSewing() returns (fees: real)
    ensures fees == 3277.5
  {
    var app := new AppState();
    app.HandleCourseSelection(1);
    app.HandleCourseSelection(2);
    assert app.selectedCourses == [1, 2];
    app.CalculateFees();
    ExampleFirstAidAndSewing();
    fees := app.totalFees;
  }

  /** Unticking and re-ticking First Aid after ticking First Aid and Sewing
      lists Sewing first; the charge is unchanged, R3277.50. */
  method RetickFirstAid() returns (selected: seq<int>, fees: real)
    ensures selected == [2, 1]
    ensures fees == 3277.5
  {
    var app := new AppState();
    app.HandleCourseSelection(1);
    app.HandleCourseSelection(2);
    app.HandleCourseSelection(1);
    app.HandleCourseSelection(1);
    RetickOrder();
    app.CalculateFees();
    selected := app.selectedCourses;
    fees := app.totalFees;
    ExampleSewingThenFirstAid();
  }
}

/**
 * Event sequences on the task page, the way a user would click through
 * it, verified against the handlers' contracts alone.
 */
module TaskScenarios {
  import opened Wrappers
  import opened Text
  import opened TaskSearch
  import opened TaskPage

  const Milk := Task("1", "Milk", "", "", "")
  const Ship := Task("2", "Ship", "", "", "")

  /** Any spelling of "ship" finds the task titled "Ship". */
  lemma ShipMatches()
    ensures Matches(Ship, "SHIP") && Matches(Ship, "ship")
  {
    assert LowerStr("SHIP") == "ship";
    assert LowerStr("Ship") == "ship";
    IncludesSelf("ship");
  }

  /** Neither the title nor the empty description of "Milk" contains "ship". */
  lemma MilkMisses()
    ensures !Matches(Milk, "SHIP") && !Matches(Milk, "ship")
  {
    assert LowerStr("SHIP") == "ship";
    assert LowerStr("ship") == "ship";
    assert LowerStr("Milk") == "milk";
    assert LowerStr("") == "";
    if Includes("milk", "ship") {
      IncludesFirstChar("milk", "ship");
      assert false;
    }
    if Includes("", "ship") {
      IncludesFirstChar("", "ship");
      assert false;
    }
  }

  /**
   * Searching narrows the rows, a broader query brings the hidden task back,
   * and a successful fetch drops the query altogether.
   */
  method SearchThenRefresh() returns (narrowed: seq<Task>, widened: seq<Task>, refreshed: seq<Task>)
    ensures narrowed == [Ship]
    ensures widened == [Milk, Ship]
    ensures refreshed == [Milk, Ship]
  {
    var page := new TaskComponent(Some([Milk, Ship]));
    ShipMatches();
    MilkMisses();
    page.HandleSearch("SHIP");
    narrowed := page.filteredTasks;
    page.HandleSearch("");
    FilterEmptyQuery(page.allTasks);
    widened := page.filteredTasks;
    page.HandleSearch("ship");
    assert page.filteredTasks == [Ship];
    page.GetAllTasks(Some([Milk, Ship]));
    refreshed := page.filteredTasks;
  }

  /**
   * Opening a task for editing, cancelling, then creating another task
   * empties the draft; choosing Edit on the first task again does not fetch
   * it, so the edit form opens empty and saving it sends the empty draft.
   */
  method EditSameTaskTwice() returns (firstDraft: FormData, secondDraft: FormData)
    ensures firstDraft == FormData("Milk", "")
    ensures secondDraft == EmptyForm
  {
    var page := new TaskComponent(Some([Milk]));
    page.OpenEdit(Milk.id, Some(Milk));
    firstDraft := page.formData;
    page.CancelEdit();
    page.ToggleNotice();
    page.HandleChange(Title, "Ship");
    page.HandleSubmit(true, Some([Milk, Ship]));
    ghost var before := page.requests;
    page.OpenEdit(Milk.id, Some(Milk));
    assert page.requests == before;
    secondDraft := page.formData;
    page.HandleEditSubmit(true, Some([Milk, Ship]));
    assert page.requests == before + [UpdateById("1", EmptyForm), ListAll];
  }

  /** A failed create keeps the form open with the typed draft, and the retry sends the same draft. */
  method CreateFailsThenRetry() returns (open: bool, retried: FormData)
    ensures open
    ensures retried == FormData("Ship", "today")
  {
    var page := new TaskComponent(None);
    page.ToggleNotice();
    page.HandleChange(Title, "Ship");
    page.HandleChange(Description, "today");
    page.HandleSubmit(false, None);
    open := page.notice;
    retried := page.formData;
    ghost var before := page.requests;
    page.HandleSubmit(true, Some([Ship]));
    assert page.requests == before + [Create(retried), ListAll];
    assert page.allTasks == [Ship] && !page.notice && page.formData == EmptyForm;
  }
}

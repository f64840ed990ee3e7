/**
 * The task-list page: six pieces of component state and the event
 * handlers that update them. Every server call is replaced by the outcome
 * it would deliver (a fetched list or task, or whether a mutation
 * succeeded), and a ghost log records which calls a handler issues.
 */
module TaskPage {
  import opened Wrappers
  import opened TaskSearch

  /** The two inputs of the create and edit forms, named by their `name` attribute. */
  datatype Field = Title | Description

  /** The draft shown in both forms. */
  datatype FormData = FormData(title: string, description: string)

  /** The draft every form starts from and returns to after a create. */
  const EmptyForm := FormData("", "")

  /** A server call the page issues, with the payload it sends. */
  datatype Request =
    | ListAll
    | Create(draft: FormData)
    | DeleteById(id: string)
    | UpdateById(id: string, draft: FormData)
    | GetById(id: string)

  /**
   * The draft a fetched task turns into when the edit form is filled from it:
   * it keeps the title and description, and the task's id and dates are the
   * only parts it loses.
   */
  function DraftOf(t: Task): (d: FormData)
    ensures Task(t.id, d.title, d.description, t.date, t.time) == t
  {
    FormData(t.title, t.description)
  }

  class TaskComponent {
    var notice: bool            // the create form is open
    var showEdit: bool          // the edit form is open
    var editId: string          // the task chosen for editing; "" when none
    var allTasks: seq<Task>     // the list as last fetched from the server
    var filteredTasks: seq<Task>  // the rows shown
    var formData: FormData      // the draft of both forms

    /** The query the shown rows reflect; "" after every successful fetch. */
    ghost var viewQuery: string
    /** Every server call issued so far, oldest first. */
    ghost var requests: seq<Request>

    /** The rows shown are always the search view of the whole list. */
    ghost predicate Valid()
      reads this
    {
      filteredTasks == Filter(allTasks, viewQuery)
    }

    /** Mounting: initial state, then the first list fetch. */
    constructor (fetched: Option<seq<Task>>)
      ensures Valid()
      ensures !notice && !showEdit && editId == "" && formData == EmptyForm
      ensures requests == [ListAll]
      ensures allTasks == filteredTasks == (if fetched.Some? then fetched.value else [])
    {
      notice, showEdit, editId := false, false, "";
      allTasks, filteredTasks := [], [];
      formData := EmptyForm;
      viewQuery, requests := "", [];
      new;
      GetAllTasks(fetched);
    }

    /**
     * Fetches the whole list. On success both the list and the rows become
     * the fetched list, so any active search is dropped; on failure nothing
     * changes.
     */
    method GetAllTasks(fetched: Option<seq<Task>>)
      requires Valid()
      modifies this
      ensures Valid()
      ensures requests == old(requests) + [ListAll]
      ensures fetched.Some? ==> allTasks == filteredTasks == fetched.value && viewQuery == ""
      ensures fetched.None? ==>
        allTasks == old(allTasks) && filteredTasks == old(filteredTasks) && viewQuery == old(viewQuery)
      ensures notice == old(notice) && showEdit == old(showEdit)
      ensures editId == old(editId) && formData == old(formData)
    {
      requests := requests + [ListAll];
      if fetched.Some? {
        allTasks := fetched.value;
        filteredTasks := fetched.value;
        viewQuery := "";
        FilterEmptyQuery(fetched.value);
      }
    }

    /** Typing into one input replaces that field of the draft and nothing else. */
    method HandleChange(name: Field, value: string)
      requires Valid()
      modifies this
      ensures Valid()
      ensures name == Title ==> formData == FormData(value, old(formData.description))
      ensures name == Description ==> formData == FormData(old(formData.title), value)
      ensures notice == old(notice) && showEdit == old(showEdit) && editId == old(editId)
      ensures allTasks == old(allTasks) && filteredTasks == old(filteredTasks)
      ensures viewQuery == old(viewQuery) && requests == old(requests)
    {
      match name
      case Title => formData := formData.(title := value);
      case Description => formData := formData.(description := value);
    }

    /**
     * Submits the create form. On success the form closes, the draft is
     * emptied and the list is fetched again; on failure nothing changes, so
     * the user can retry with the same draft.
     */
    method HandleSubmit(created: bool, fetched: Option<seq<Task>>)
      requires Valid()
      modifies this
      ensures Valid()
      ensures created ==> requests == old(requests) + [Create(old(formData)), ListAll]
      ensures created ==> !notice && formData == EmptyForm
      ensures created && fetched.Some? ==> allTasks == filteredTasks == fetched.value
      ensures created && fetched.None? ==> allTasks == old(allTasks) && filteredTasks == old(filteredTasks)
      ensures !created ==> requests == old(requests) + [Create(old(formData))]
      ensures !created ==> notice == old(notice) && formData == old(formData)
      ensures !created ==> allTasks == old(allTasks) && filteredTasks == old(filteredTasks)
      ensures showEdit == old(showEdit) && editId == old(editId)
    {
      requests := requests + [Create(formData)];
      if created {
        notice := false;
        formData := EmptyForm;
        GetAllTasks(fetched);
      }
    }

    /** Deletes one task. Success fetches the list exactly once and touches nothing else; failure changes nothing. */
    method HandleDelete(id: string, deleted: bool, fetched: Option<seq<Task>>)
      requires Valid()
      modifies this
      ensures Valid()
      ensures requests == old(requests) + [DeleteById(id)] + (if deleted then [ListAll] else [])
      ensures deleted && fetched.Some? ==> allTasks == filteredTasks == fetched.value
      ensures !(deleted && fetched.Some?) ==> allTasks == old(allTasks) && filteredTasks == old(filteredTasks)
      ensures notice == old(notice) && showEdit == old(showEdit)
      ensures editId == old(editId) && formData == old(formData)
    {
      requests := requests + [DeleteById(id)];
      if deleted {
        GetAllTasks(fetched);
      }
    }

    /**
     * Submits the edit form with the current draft for `editId`. On success
     * the form closes and the list is fetched again, while the draft and
     * `editId` are kept; on failure the form stays open.
     */
    method HandleEditSubmit(updated: bool, fetched: Option<seq<Task>>)
      requires Valid()
      modifies this
      ensures Valid()
      ensures requests == old(requests) + [UpdateById(old(editId), old(formData))] + (if updated then [ListAll] else [])
      ensures showEdit == (if updated then false else old(showEdit))
      ensures updated && fetched.Some? ==> allTasks == filteredTasks == fetched.value
      ensures !(updated && fetched.Some?) ==> allTasks == old(allTasks) && filteredTasks == old(filteredTasks)
      ensures editId == old(editId) && formData == old(formData) && notice == old(notice)
    {
      requests := requests + [UpdateById(editId, formData)];
      if updated {
        showEdit := false;
        GetAllTasks(fetched);
      }
    }

    /**
     * The effect that runs whenever `editId` changes: for a non-empty id it
     * fetches that task and copies it into the draft. A failed fetch is not
     * caught and changes nothing.
     */
    method EditIdEffect(fetched: Option<Task>)
      requires Valid()
      modifies this
      ensures Valid()
      ensures editId == "" ==> requests == old(requests) && formData == old(formData)
      ensures editId != "" ==> requests == old(requests) + [GetById(editId)]
      ensures editId != "" && fetched.Some? ==> formData == DraftOf(fetched.value)
      ensures fetched.None? ==> formData == old(formData)
      ensures notice == old(notice) && showEdit == old(showEdit) && editId == old(editId)
      ensures allTasks == old(allTasks) && filteredTasks == old(filteredTasks) && viewQuery == old(viewQuery)
    {
      if editId != "" {
        requests := requests + [GetById(editId)];
        if fetched.Some? {
          formData := DraftOf(fetched.value);
        }
      }
    }

    /**
     * The Edit button of a row: records the task's id and opens the edit
     * form. The effect only runs when the id differs from the previous one,
     * so choosing the same task again keeps the draft as it is.
     */
    method OpenEdit(id: string, fetched: Option<Task>)
      requires Valid()
      modifies this
      ensures Valid()
      ensures editId == id && showEdit
      ensures id != old(editId) && id != "" ==> requests == old(requests) + [GetById(id)]
      ensures id != old(editId) && id != "" && fetched.Some? ==> formData == DraftOf(fetched.value)
      ensures id == old(editId) || id == "" ==> requests == old(requests) && formData == old(formData)
      ensures fetched.None? ==> formData == old(formData)
      ensures notice == old(notice)
      ensures allTasks == old(allTasks) && filteredTasks == old(filteredTasks) && viewQuery == old(viewQuery)
    {
      var changed := id != editId;
      editId := id;
      showEdit := true;
      if changed {
        EditIdEffect(fetched);
      }
    }

    /** Typing in the search box: the rows become the search view of the whole list, whatever was shown before. */
    method HandleSearch(query: string)
      requires Valid()
      modifies this
      ensures Valid()
      ensures filteredTasks == Filter(allTasks, query) && viewQuery == query
      ensures IsSubsequence(filteredTasks, allTasks)
      ensures notice == old(notice) && showEdit == old(showEdit) && editId == old(editId)
      ensures allTasks == old(allTasks) && formData == old(formData) && requests == old(requests)
    {
      filteredTasks := Filter(allTasks, query);
      viewQuery := query;
      FilterIsSearchResult(allTasks, query);
    }

    /** "Add New Task" flips the create form. */
    method ToggleNotice()
      requires Valid()
      modifies this
      ensures Valid()
      ensures notice == !old(notice)
      ensures showEdit == old(showEdit) && editId == old(editId) && formData == old(formData)
      ensures allTasks == old(allTasks) && filteredTasks == old(filteredTasks) && requests == old(requests)
    {
      notice := !notice;
    }

    /** Cancel on the create form closes it and keeps the draft. */
    method CancelCreate()
      requires Valid()
      modifies this
      ensures Valid()
      ensures !notice
      ensures showEdit == old(showEdit) && editId == old(editId) && formData == old(formData)
      ensures allTasks == old(allTasks) && filteredTasks == old(filteredTasks) && requests == old(requests)
    {
      notice := false;
    }

    /** Cancel on the edit form closes it and keeps the draft and `editId`. */
    method CancelEdit()
      requires Valid()
      modifies this
      ensures Valid()
      ensures !showEdit
      ensures notice == old(notice) && editId == old(editId) && formData == old(formData)
      ensures allTasks == old(allTasks) && filteredTasks == old(filteredTasks) && requests == old(requests)
    {
      showEdit := false;
    }
  }
}

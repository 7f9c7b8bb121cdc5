/** The subject-tag editor of the admin area (`SubjectTagManager.jsx`): one
    name field, a case- and space-insensitive duplicate check, add/update,
    delete with confirmation, and a search filter over the loaded tags. */
module SubjectTagAdmin {
  import opened Wrappers
  import opened Text
  import opened Seqs

  /** A stored tag as the list endpoint returns it. */
  datatype SubjectTag = SubjectTag(id: int, name: string)

  const FetchFailed: string := "Failed to fetch subject tags."
  const OperationFailed: string := "Operation failed."
  const DeleteFailed: string := "Failed to delete tag."
  const AddedMessage: string := "Subject tag added successfully!"
  const UpdatedMessage: string := "Subject tag updated successfully!"
  const DeletedMessage: string := "Subject tag deleted successfully!"

  // ---------------------------------------------------------------------
  // Duplicates and search

  /** The comparison key of a name, on both sides of the check (`trim().toLowerCase()`). */
  function Key(name: string): (k: string)
    ensures |k| <= |name| && Trimmed(k)
  {
    var t := Trim(name);
    TrimOfTrimmed(t);
    TrimLowerCommute(t);
    ToLower(t)
  }

  /** A key is its own key: keys ignore exactly what the comparison ignores. */
  lemma KeyIdempotent(s: string)
    ensures Key(Key(s)) == Key(s)
  {
    var t := Trim(s);
    TrimLowerCommute(ToLower(t));
    assert Trimmed(t);
    TrimOfTrimmed(t);
    TrimLowerCommute(t);
    ToLowerIdempotent(t);
  }

  /** `tags.some(...)`: another tag, that is one whose id differs from the id
      being edited (any id when nothing is edited), has the same key. */
  predicate IsDuplicate(tags: seq<SubjectTag>, name: string, editingId: Option<int>) {
    exists t :: t in tags && Key(t.name) == Key(name) && Some(t.id) != editingId
  }

  /** The check depends on the name only through its key: case and
      surrounding white space make no difference. */
  lemma DuplicateIgnoresCaseAndSpaces(tags: seq<SubjectTag>, name: string, editingId: Option<int>)
    ensures IsDuplicate(tags, name, editingId) <==> IsDuplicate(tags, Key(name), editingId)
  {
    KeyIdempotent(name);
  }

  /** Saving a tag under its own name is never a duplicate, provided no tag
      with another id shares its key. */
  lemma OwnNameIsNoDuplicate(tags: seq<SubjectTag>, tag: SubjectTag)
    requires forall other :: other in tags && other.id != tag.id ==> Key(other.name) != Key(tag.name)
    ensures !IsDuplicate(tags, tag.name, Some(tag.id))
  {
  }

  /** The search: the name contains the query, ignoring case. */
  predicate Matches(query: string, tag: SubjectTag) {
    Contains(ToLower(tag.name), ToLower(query))
  }

  function MatchesQuery(query: string): SubjectTag -> bool {
    tag => Matches(query, tag)
  }

  /** `filteredTags`. */
  function SearchTags(tags: seq<SubjectTag>, query: string): (r: seq<SubjectTag>)
    ensures forall t :: t in r <==> t in tags && Matches(query, t)
  {
    Filter(tags, MatchesQuery(query))
  }

  /** The search keeps the list's order. */
  lemma SearchKeepsOrder(tags: seq<SubjectTag>, query: string)
    ensures Subsequence(SearchTags(tags, query), tags)
  {
    FilterKeepsOrder(tags, MatchesQuery(query));
  }

  /** An empty query keeps every tag. */
  lemma EmptySearchKeepsAll(tags: seq<SubjectTag>)
    ensures SearchTags(tags, "") == tags
  {
    forall i | 0 <= i < |tags| ensures MatchesQuery("")(tags[i]) {
      ContainsEmpty(ToLower(tags[i].name));
    }
    FilterAll(tags, MatchesQuery(""));
  }

  // ---------------------------------------------------------------------
  // Submitting

  /** The request a save sends: the name as typed, untrimmed. */
  datatype TagRequest = AddTag(name: string) | UpdateTag(id: int, name: string)

  /** Where `handleSubmit` stops: an empty name, a duplicate, or the request. */
  datatype SubmitStep = Ignored | Duplicate | Send(request: TagRequest)

  function SubmitDecision(tags: seq<SubjectTag>, name: string, editingId: Option<int>): (step: SubmitStep)
    ensures step == Ignored <==> name == ""
    ensures step == Duplicate <==> name != "" && IsDuplicate(tags, name, editingId)
    ensures step.Send? ==> step.request.name == name
    ensures step.Send? ==> (step.request.UpdateTag? <==> IdIsSet(editingId))
    ensures step.Send? && step.request.UpdateTag? ==> Some(step.request.id) == editingId
  {
    if name == "" then Ignored
    else if IsDuplicate(tags, name, editingId) then Duplicate
    else if IdIsSet(editingId) then Send(UpdateTag(editingId.value, name))
    else Send(AddTag(name))
  }

  /** Editing a tag and saving at once sends the tag back unchanged, when no
      other tag shares its key. */
  lemma EditThenSubmitResendsTag(tags: seq<SubjectTag>, tag: SubjectTag)
    requires tag.name != "" && tag.id != 0
    requires forall other :: other in tags && other.id != tag.id ==> Key(other.name) != Key(tag.name)
    ensures SubmitDecision(tags, tag.name, Some(tag.id)) == Send(UpdateTag(tag.id, tag.name))
  {
    OwnNameIsNoDuplicate(tags, tag);
  }

  // ---------------------------------------------------------------------
  // The page

  class SubjectTagEditor {
    var tags: seq<SubjectTag>
    /** `formData.name`. */
    var name: string
    var editingId: Option<int>
    var searchQuery: string
    var error: Option<string>
    /** The success modal's text; "" when it is closed. */
    var successMessage: string
    var showDuplicateModal: bool
    /** The id awaiting delete confirmation. */
    var deleteTarget: Option<int>

    constructor ()
      ensures tags == [] && name == "" && editingId == None && searchQuery == ""
      ensures error == None && successMessage == "" && !showDuplicateModal && deleteTarget == None
    {
      tags, name, editingId, searchQuery := [], "", None, "";
      error, successMessage, showDuplicateModal, deleteTarget := None, "", false, None;
    }

    /** `fetchTags`: the list is replaced on success; a failure keeps it. */
    method Load(answer: Option<seq<SubjectTag>>)
      modifies this
      ensures answer.Some? ==> tags == answer.value && error == old(error)
      ensures answer.None? ==> tags == old(tags) && error == Some(FetchFailed)
      ensures name == old(name) && editingId == old(editingId) && deleteTarget == old(deleteTarget)
      ensures searchQuery == old(searchQuery) && successMessage == old(successMessage)
      ensures showDuplicateModal == old(showDuplicateModal)
    {
      if answer.Some? {
        tags := answer.value;
      } else {
        error := Some(FetchFailed);
      }
    }

    method SetName(text: string)
      modifies this
      ensures name == text && tags == old(tags) && editingId == old(editingId) && error == old(error)
      ensures searchQuery == old(searchQuery) && successMessage == old(successMessage)
      ensures showDuplicateModal == old(showDuplicateModal) && deleteTarget == old(deleteTarget)
    {
      name := text;
    }

    method SetQuery(query: string)
      modifies this
      ensures searchQuery == query && tags == old(tags) && name == old(name)
      ensures editingId == old(editingId) && error == old(error) && successMessage == old(successMessage)
      ensures showDuplicateModal == old(showDuplicateModal) && deleteTarget == old(deleteTarget)
    {
      searchQuery := query;
    }

    /** The list the page shows. */
    function Visible(): (r: seq<SubjectTag>)
      reads this
      ensures forall t :: t in r <==> t in tags && Matches(searchQuery, t)
    {
      SearchTags(tags, searchQuery)
    }

    /** `handleEdit`: the tag's id and name are loaded into the form. */
    method Edit(tag: SubjectTag)
      modifies this
      ensures editingId == Some(tag.id) && name == tag.name
      ensures tags == old(tags) && error == old(error) && deleteTarget == old(deleteTarget)
      ensures searchQuery == old(searchQuery) && successMessage == old(successMessage)
      ensures showDuplicateModal == old(showDuplicateModal)
    {
      editingId, name := Some(tag.id), tag.name;
    }

    /** The Cancel button, shown only while an id is edited: both are cleared. */
    method Cancel()
      modifies this
      ensures IdIsSet(old(editingId)) ==> editingId == None && name == ""
      ensures !IdIsSet(old(editingId)) ==> editingId == old(editingId) && name == old(name)
      ensures tags == old(tags) && error == old(error) && deleteTarget == old(deleteTarget)
      ensures searchQuery == old(searchQuery) && successMessage == old(successMessage)
      ensures showDuplicateModal == old(showDuplicateModal)
    {
      if IdIsSet(editingId) {
        editingId, name := None, "";
      }
    }

    /** `handleSubmit`; `saved` is whether the service call succeeded and
        `serverMessage` the `message` of a failure's body ("" when absent). */
    method Submit(saved: bool, serverMessage: string) returns (step: SubmitStep)
      modifies this
      ensures step == SubmitDecision(old(tags), old(name), old(editingId))
      ensures showDuplicateModal == (old(showDuplicateModal) || step == Duplicate)
      ensures step.Send? && saved ==>
        && name == "" && editingId == None && error == old(error)
        && successMessage == (if step.request.UpdateTag? then UpdatedMessage else AddedMessage)
      ensures step.Send? && !saved ==> error == Some(OrElse(serverMessage, OperationFailed))
      ensures !(step.Send? && saved) ==>
        name == old(name) && editingId == old(editingId) && successMessage == old(successMessage)
      ensures !step.Send? ==> error == old(error)
      ensures tags == old(tags) && searchQuery == old(searchQuery) && deleteTarget == old(deleteTarget)
    {
      if name == "" {
        return Ignored;
      }
      if IsDuplicate(tags, name, editingId) {
        showDuplicateModal := true;
        return Duplicate;
      }
      var request := if IdIsSet(editingId) then UpdateTag(editingId.value, name) else AddTag(name);
      step := Send(request);
      if saved {
        successMessage := if request.UpdateTag? then UpdatedMessage else AddedMessage;
        name, editingId := "", None;
      } else {
        error := Some(OrElse(serverMessage, OperationFailed));
      }
    }

    /** A row's delete button opens the confirmation for its id. */
    method AskDelete(id: int)
      modifies this
      ensures deleteTarget == Some(id)
      ensures tags == old(tags) && name == old(name) && editingId == old(editingId)
      ensures searchQuery == old(searchQuery) && error == old(error) && successMessage == old(successMessage)
      ensures showDuplicateModal == old(showDuplicateModal)
    {
      deleteTarget := Some(id);
    }

    /** `confirmDelete`; `deleted` is whether the service call succeeded.
        Without a (truthy) pending id nothing happens; otherwise the pending
        id is cleared whatever the outcome. */
    method ConfirmDelete(deleted: bool) returns (request: Option<int>)
      modifies this
      ensures request.Some? <==> IdIsSet(old(deleteTarget))
      ensures request.Some? ==> request == old(deleteTarget) && deleteTarget == None
      ensures request.Some? && deleted ==> successMessage == DeletedMessage && error == old(error)
      ensures request.Some? && !deleted ==> error == Some(DeleteFailed) && successMessage == old(successMessage)
      ensures request.None? ==>
        deleteTarget == old(deleteTarget) && error == old(error) && successMessage == old(successMessage)
      ensures tags == old(tags) && name == old(name) && editingId == old(editingId)
      ensures searchQuery == old(searchQuery) && showDuplicateModal == old(showDuplicateModal)
    {
      if !IdIsSet(deleteTarget) {
        return None;
      }
      request := deleteTarget;
      if deleted {
        successMessage := DeletedMessage;
      } else {
        error := Some(DeleteFailed);
      }
      deleteTarget := None;
    }

    /** The buttons that close a modal: OK on the success modal, Cancel on the
        delete confirmation, and the duplicate modal's button. Each closes its
        own modal and nothing else. */
    method DismissSuccess()
      modifies this
      ensures successMessage == ""
      ensures tags == old(tags) && name == old(name) && editingId == old(editingId)
      ensures searchQuery == old(searchQuery) && error == old(error) && deleteTarget == old(deleteTarget)
      ensures showDuplicateModal == old(showDuplicateModal)
    {
      successMessage := "";
    }

    method CancelDelete()
      modifies this
      ensures deleteTarget == None
      ensures tags == old(tags) && name == old(name) && editingId == old(editingId)
      ensures searchQuery == old(searchQuery) && error == old(error) && successMessage == old(successMessage)
      ensures showDuplicateModal == old(showDuplicateModal)
    {
      deleteTarget := None;
    }

    method DismissDuplicate()
      modifies this
      ensures !showDuplicateModal
      ensures tags == old(tags) && name == old(name) && editingId == old(editingId)
      ensures searchQuery == old(searchQuery) && error == old(error) && successMessage == old(successMessage)
      ensures deleteTarget == old(deleteTarget)
    {
      showDuplicateModal := false;
    }
  }
}

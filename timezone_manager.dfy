/** The timezone editor of the admin area (`TimezoneManager.jsx`): an offset
    input that formats itself as HH:MM, a form composing "Continent/City" and
    "+HH:MM", a case-insensitive duplicate check, add/update/delete through
    the admin service, and a search filter over the loaded list. */
module TimezoneAdmin {
  import opened Wrappers
  import opened Text
  import opened Seqs

  /** A stored timezone as the list endpoint returns it. */
  datatype Timezone = Timezone(id: int, name: string, offset: string)

  /** The form state: the continent select, the city text, the sign select and
      the formatted time text. */
  datatype TimezoneForm = TimezoneForm(continent: string, city: string, sign: string, time: string)

  /** The state the form starts in and returns to after a save or a cancel. */
  const EmptyForm: TimezoneForm := TimezoneForm("Asia", "", "+", "")

  /** The options of the continent select. */
  const Continents: seq<string> :=
    ["Africa", "America", "Antarctica", "Asia", "Atlantic", "Australia", "Europe", "Indian", "Pacific"]

  const TimeFormatAlert: string := "Please enter a valid time in HH:MM format (e.g., 06:00)"
  const SaveFailed: string := "Failed to save timezone. Check console for details."
  const DeleteFailed: string := "Failed to delete timezone"
  const LoadFailed: string := "Failed to load timezones"
  const AddedMessage: string := "Timezone added successfully!"
  const UpdatedMessage: string := "Timezone updated successfully!"
  const DeletedMessage: string := "Timezone deleted successfully!"

  // ---------------------------------------------------------------------
  // The offset input

  /** The digits of the typed text, in order (`replace(/\D/g, '')`). */
  function TypedDigits(raw: string): (d: string)
    ensures forall i :: 0 <= i < |d| ==> IsDigit(d[i])
  {
    Filter(raw, IsDigit)
  }

  /** The offset input's change handler: digits only, at most four of them,
      with ':' after the second when there are three or more. */
  function FormatOffsetTime(raw: string): (r: string)
    ensures |r| <= 5
    ensures forall i :: 0 <= i < |r| ==> (IsDigit(r[i]) <==> i != 2)
    ensures |r| == 5 <==> |TypedDigits(raw)| >= 4
    ensures |r| <= 2 <==> |TypedDigits(raw)| <= 2
  {
    var d := TypedDigits(raw);
    var v := if |d| > 4 then d[..4] else d;
    if |v| > 2 then v[..2] + ":" + v[2..] else v
  }

  /** The first four typed digits (all of them when fewer). */
  function FirstFourDigits(raw: string): (d: string)
    ensures |d| <= 4 && d <= TypedDigits(raw)
  {
    var all := TypedDigits(raw);
    if |all| > 4 then all[..4] else all
  }

  /** The formatter loses no digit it keeps and invents none: the digits of
      its output are exactly the first four typed. */
  lemma FormatKeepsFirstFourDigits(raw: string)
    ensures TypedDigits(FormatOffsetTime(raw)) == FirstFourDigits(raw)
  {
    var v := FirstFourDigits(raw);
    forall i | 0 <= i < |v| ensures IsDigit(v[i]) {
      assert v[i] == TypedDigits(raw)[i];
    }
    if |v| > 2 {
      DigitsAroundColon(v[..2], v[2..]);
      assert v[..2] + v[2..] == v;
    } else {
      FilterAll(v, IsDigit);
    }
  }

  /** Filtering digits out of two digit runs joined by ':' drops just the ':'. */
  lemma DigitsAroundColon(a: string, b: string)
    requires forall i :: 0 <= i < |a| ==> IsDigit(a[i])
    requires forall i :: 0 <= i < |b| ==> IsDigit(b[i])
    ensures Filter(a + ":" + b, IsDigit) == a + b
  {
    var colon := ":";
    assert Filter(a + colon, IsDigit) == a by {
      assert Filter(colon, IsDigit) == [] by {
        assert !IsDigit(colon[0]) && colon[1..] == [];
      }
      FilterConcat(a, colon, IsDigit);
      FilterAll(a, IsDigit);
      assert a + [] == a;
    }
    assert Filter(b, IsDigit) == b by {
      FilterAll(b, IsDigit);
    }
    FilterConcat(a + colon, b, IsDigit);
  }

  /** Feeding the formatted text back through the handler changes nothing. */
  lemma FormatIdempotent(raw: string)
    ensures FormatOffsetTime(FormatOffsetTime(raw)) == FormatOffsetTime(raw)
  {
    FormatKeepsFirstFourDigits(raw);
  }

  // ---------------------------------------------------------------------
  // Composing and parsing

  /** The stored name: the continent, '/', the trimmed city. */
  function ComposeName(continent: string, city: string): (name: string)
    ensures continent + "/" <= name && |name| <= |continent| + 1 + |city|
  {
    continent + "/" + Trim(city)
  }

  /** Splitting a composed name at its first '/' gives back the continent and
      the trimmed city, provided the continent has no '/'. */
  lemma ComposedNameSplitsBack(continent: string, city: string)
    requires '/' !in continent
    ensures Before(ComposeName(continent, city), '/') == continent
    ensures After(ComposeName(continent, city), '/') == Trim(city)
  {
    SplitAtFirst(continent, '/', Trim(city));
  }

  /** The stored offset: the sign followed by the trimmed time. */
  function ComposeOffset(sign: string, time: string): (offset: string)
    ensures sign <= offset && |offset| <= |sign| + |time|
  {
    sign + Trim(time)
  }

  /** `handleEdit`: the name is split at '/', keeping only the first two parts,
      and the offset into its first character and the rest; each empty part
      falls back to the form's default. */
  function EditForm(tz: Timezone): (f: TimezoneForm)
    ensures f.continent != "" && '/' !in f.city
    ensures f.sign != "" && |f.sign| == 1
    ensures tz.offset != "" ==> f.sign + f.time == tz.offset
  {
    var continent := Before(tz.name, '/');
    var city := Before(After(tz.name, '/'), '/');
    var sign := if tz.offset == "" then "" else tz.offset[..1];
    var time := if tz.offset == "" then "" else tz.offset[1..];
    TimezoneForm(OrElse(continent, "Asia"), city, OrElse(sign, "+"), time)
  }

  /** A name with exactly one '/', a non-empty continent and a trimmed city,
      and an offset whose time part is trimmed, come back unchanged when the
      edited form is composed again. */
  lemma EditRoundTrip(tz: Timezone, continent: string, city: string)
    requires tz.name == continent + "/" + city
    requires continent != "" && '/' !in continent && '/' !in city && Trimmed(city)
    requires tz.offset != "" && Trimmed(tz.offset[1..])
    ensures var f := EditForm(tz);
      ComposeName(f.continent, f.city) == tz.name && ComposeOffset(f.sign, f.time) == tz.offset
  {
    SplitAtFirst(continent, '/', city);
    assert Before(city, '/') == city;
    TrimOfTrimmed(city);
    TrimOfTrimmed(tz.offset[1..]);
  }

  /** A name with two or more '/' loses everything after the second part. */
  lemma EditDropsDeepTail(tz: Timezone, continent: string, city: string, rest: string)
    requires tz.name == continent + "/" + city + "/" + rest
    requires continent != "" && '/' !in continent && '/' !in city
    ensures var f := EditForm(tz);
      ComposeName(f.continent, f.city) == continent + "/" + Trim(city)
  {
    assert tz.name == continent + "/" + (city + "/" + rest);
    SplitAtFirst(continent, '/', city + "/" + rest);
    SplitAtFirst(city, '/', rest);
  }

  // ---------------------------------------------------------------------
  // Duplicates and search

  /** The comparison key of a stored name (`toLowerCase().trim()`). */
  function StoredKey(name: string): string {
    Trim(ToLower(name))
  }

  /** The comparison key of the composed name (`trim().toLowerCase()`). */
  function InputKey(name: string): string {
    ToLower(Trim(name))
  }

  /** `timezones.some(...)`: another record, that is one whose id differs
      from the id being edited (any id when nothing is edited), has the same key. */
  predicate IsDuplicate(records: seq<Timezone>, name: string, editingId: Option<int>) {
    exists tz :: tz in records && StoredKey(tz.name) == InputKey(name) && Some(tz.id) != editingId
  }

  /** Saving a record under its own name is never a duplicate, provided no
      record with another id shares its key. */
  lemma OwnNameIsNoDuplicate(records: seq<Timezone>, tz: Timezone)
    requires forall other :: other in records && other.id != tz.id ==> StoredKey(other.name) != StoredKey(tz.name)
    ensures !IsDuplicate(records, tz.name, Some(tz.id))
  {
    TrimLowerCommute(tz.name);
  }

  /** While editing, the duplicate check is the plain check over the other records. */
  lemma DuplicateIgnoresEditedRecord(records: seq<Timezone>, name: string, id: int)
    ensures IsDuplicate(records, name, Some(id)) <==> IsDuplicate(Filter(records, (tz: Timezone) => tz.id != id), name, None)
  {
    var others := Filter(records, (tz: Timezone) => tz.id != id);
    if IsDuplicate(records, name, Some(id)) {
      var tz :| tz in records && StoredKey(tz.name) == InputKey(name) && Some(tz.id) != Some(id);
      assert tz in others;
    }
  }

  /** The search: the name or the offset contains the query, ignoring case. */
  predicate Matches(query: string, tz: Timezone) {
    Contains(ToLower(tz.name), ToLower(query)) || Contains(ToLower(tz.offset), ToLower(query))
  }

  function MatchesQuery(query: string): Timezone -> bool {
    tz => Matches(query, tz)
  }

  /** `filteredTimezones`. */
  function SearchTimezones(records: seq<Timezone>, query: string): (r: seq<Timezone>)
    ensures forall tz :: tz in r <==> tz in records && Matches(query, tz)
  {
    Filter(records, MatchesQuery(query))
  }

  /** The search keeps the list's order. */
  lemma SearchKeepsOrder(records: seq<Timezone>, query: string)
    ensures Subsequence(SearchTimezones(records, query), records)
  {
    FilterKeepsOrder(records, MatchesQuery(query));
  }

  /** An empty query keeps the whole list. */
  lemma EmptySearchKeepsAll(records: seq<Timezone>)
    ensures SearchTimezones(records, "") == records
  {
    forall i | 0 <= i < |records| ensures MatchesQuery("")(records[i]) {
      ContainsEmpty(ToLower(records[i].name));
    }
    FilterAll(records, MatchesQuery(""));
  }

  // ---------------------------------------------------------------------
  // Submitting

  /** The request a save sends. */
  datatype SaveRequest =
    | AddTimezone(name: string, offset: string)
    | UpdateTimezone(id: int, name: string, offset: string)
  {
    function Name(): string {
      match this
      case AddTimezone(n, _) => n
      case UpdateTimezone(_, n, _) => n
    }
  }

  /** Where `handleSubmit` stops, in order: an empty city or time, a time that
      is not five characters long, a duplicate name, or the request. */
  datatype SubmitStep = Ignored | BadTime | Duplicate | Send(request: SaveRequest)

  function SubmitDecision(records: seq<Timezone>, form: TimezoneForm, editingId: Option<int>): (step: SubmitStep)
    ensures step.Send? ==> |form.time| == 5 && !IsDuplicate(records, step.request.Name(), editingId)
    ensures step.Send? ==> (step.request.UpdateTimezone? <==> IdIsSet(editingId))
  {
    if form.city == "" || form.time == "" then Ignored
    else if |form.time| != 5 then BadTime
    else
      var name := ComposeName(form.continent, form.city);
      var offset := ComposeOffset(form.sign, form.time);
      if IsDuplicate(records, name, editingId) then Duplicate
      else if IdIsSet(editingId) then Send(UpdateTimezone(editingId.value, name, offset))
      else Send(AddTimezone(name, offset))
  }

  /** The order of `handleSubmit`'s stops, and what a sent request satisfies:
      it is an update exactly when an id is edited, and its name is no duplicate. */
  lemma SubmitDecisionCases(records: seq<Timezone>, form: TimezoneForm, editingId: Option<int>)
    ensures var step := SubmitDecision(records, form, editingId);
      && (step == Ignored <==> form.city == "" || form.time == "")
      && (step == BadTime <==> form.city != "" && form.time != "" && |form.time| != 5)
      && (step.Send? ==> |form.time| == 5 && !IsDuplicate(records, step.request.Name(), editingId))
      && (step.Send? ==> (step.request.UpdateTimezone? <==> IdIsSet(editingId)))
      && (step.Send? && step.request.UpdateTimezone? ==> Some(step.request.id) == editingId)
      && (step == Duplicate ==> IsDuplicate(records, ComposeName(form.continent, form.city), editingId))
  {
  }

  /** Editing a well-formed record and submitting at once sends that record
      back unchanged as an update. */
  lemma EditThenSubmitResendsRecord(records: seq<Timezone>, tz: Timezone, continent: string, city: string)
    requires tz.name == continent + "/" + city
    requires continent != "" && '/' !in continent && '/' !in city && city != "" && Trimmed(city)
    requires |tz.offset| == 6 && Trimmed(tz.offset[1..]) && tz.id != 0
    requires forall other :: other in records && other.id != tz.id ==> StoredKey(other.name) != StoredKey(tz.name)
    ensures SubmitDecision(records, EditForm(tz), Some(tz.id)) == Send(UpdateTimezone(tz.id, tz.name, tz.offset))
  {
    EditRoundTrip(tz, continent, city);
    SplitAtFirst(continent, '/', city);
    assert Before(city, '/') == city;
    OwnNameIsNoDuplicate(records, tz);
  }

  // ---------------------------------------------------------------------
  // The page

  class TimezoneEditor {
    var timezones: seq<Timezone>
    var form: TimezoneForm
    var editingId: Option<int>
    var searchQuery: string
    var error: string
    /** The success modal's text; "" when it is closed. */
    var successMessage: string
    var showDuplicateModal: bool
    /** The id awaiting delete confirmation (the delete modal is open while set). */
    var deleteTarget: Option<int>
    /** The last `alert` shown, if any. */
    var alertText: Option<string>

    constructor ()
      ensures timezones == [] && form == EmptyForm && editingId == None && searchQuery == ""
      ensures error == "" && successMessage == "" && !showDuplicateModal && deleteTarget == None && alertText == None
    {
      timezones, form, editingId, searchQuery := [], EmptyForm, None, "";
      error, successMessage, showDuplicateModal, deleteTarget, alertText := "", "", false, None, None;
    }

    /** `fetchTimezones`: the list is replaced on success; a failure keeps it. */
    method Load(answer: Option<seq<Timezone>>)
      modifies this
      ensures answer.Some? ==> timezones == answer.value && error == old(error)
      ensures answer.None? ==> timezones == old(timezones) && error == LoadFailed
      ensures form == old(form) && editingId == old(editingId) && searchQuery == old(searchQuery)
      ensures successMessage == old(successMessage) && deleteTarget == old(deleteTarget)
      ensures showDuplicateModal == old(showDuplicateModal) && alertText == old(alertText)
    {
      if answer.Some? {
        timezones := answer.value;
      } else {
        error := LoadFailed;
      }
    }

    /** The continent select, the city input and the sign select. */
    method SetFields(continent: string, city: string, sign: string)
      modifies this
      ensures form == TimezoneForm(continent, city, sign, old(form.time))
      ensures timezones == old(timezones) && editingId == old(editingId) && error == old(error)
      ensures searchQuery == old(searchQuery) && successMessage == old(successMessage)
      ensures showDuplicateModal == old(showDuplicateModal) && deleteTarget == old(deleteTarget)
      ensures alertText == old(alertText)
    {
      form := TimezoneForm(continent, city, sign, form.time);
    }

    /** The offset input: whatever is typed, the stored time is the formatted text. */
    method TypeTime(raw: string)
      modifies this
      ensures form == old(form).(time := FormatOffsetTime(raw))
      ensures |form.time| <= 5
      ensures timezones == old(timezones) && editingId == old(editingId) && error == old(error)
      ensures searchQuery == old(searchQuery) && successMessage == old(successMessage)
      ensures showDuplicateModal == old(showDuplicateModal) && deleteTarget == old(deleteTarget)
      ensures alertText == old(alertText)
    {
      form := form.(time := FormatOffsetTime(raw));
    }

    method SetQuery(query: string)
      modifies this
      ensures searchQuery == query && timezones == old(timezones) && form == old(form)
      ensures editingId == old(editingId) && error == old(error) && successMessage == old(successMessage)
      ensures showDuplicateModal == old(showDuplicateModal) && deleteTarget == old(deleteTarget)
      ensures alertText == old(alertText)
    {
      searchQuery := query;
    }

    /** The list the page shows. */
    function Visible(): (r: seq<Timezone>)
      reads this
      ensures forall tz :: tz in r <==> tz in timezones && Matches(searchQuery, tz)
    {
      SearchTimezones(timezones, searchQuery)
    }

    /** `handleSubmit`; `saved` is whether the service call succeeded. The
        step says where the handler stopped, or which request it sent. */
    method Submit(saved: bool) returns (step: SubmitStep)
      modifies this
      ensures step == SubmitDecision(old(timezones), old(form), old(editingId))
      ensures step == BadTime ==> alertText == Some(TimeFormatAlert)
      ensures step != BadTime ==> alertText == old(alertText)
      ensures showDuplicateModal == (old(showDuplicateModal) || step == Duplicate)
      ensures step.Send? && saved ==>
        && form == EmptyForm && editingId == None
        && successMessage == (if step.request.UpdateTimezone? then UpdatedMessage
                              else AddedMessage)
      ensures step.Send? && !saved ==> error == SaveFailed
      ensures !(step.Send? && saved) ==>
        form == old(form) && editingId == old(editingId) && successMessage == old(successMessage)
      ensures !(step.Send? && !saved) ==> error == old(error)
      ensures timezones == old(timezones) && searchQuery == old(searchQuery) && deleteTarget == old(deleteTarget)
    {
      step := SubmitDecision(timezones, form, editingId);
      match step
      case Ignored =>
      case BadTime =>
        Alert(TimeFormatAlert);
      case Duplicate =>
        OpenDuplicate();
      case Send(request) =>
        Save(request, saved);
    }

    /** `alert(text)`. */
    method Alert(text: string)
      modifies this
      ensures alertText == Some(text)
      ensures timezones == old(timezones) && form == old(form) && editingId == old(editingId)
      ensures searchQuery == old(searchQuery) && error == old(error) && successMessage == old(successMessage)
      ensures showDuplicateModal == old(showDuplicateModal) && deleteTarget == old(deleteTarget)
    {
      alertText := Some(text);
    }

    /** The duplicate modal opens. */
    method OpenDuplicate()
      modifies this
      ensures showDuplicateModal
      ensures timezones == old(timezones) && form == old(form) && editingId == old(editingId)
      ensures searchQuery == old(searchQuery) && error == old(error) && successMessage == old(successMessage)
      ensures deleteTarget == old(deleteTarget) && alertText == old(alertText)
    {
      showDuplicateModal := true;
    }

    /** What a sent request leaves behind: on success the success modal and
        a fresh form, on failure the error text. */
    method Save(request: SaveRequest, saved: bool)
      modifies this
      ensures saved ==> && form == EmptyForm && editingId == None && error == old(error)
                        && successMessage == (if request.UpdateTimezone? then UpdatedMessage else AddedMessage)
      ensures !saved ==> && error == SaveFailed && form == old(form) && editingId == old(editingId)
                         && successMessage == old(successMessage)
      ensures timezones == old(timezones) && searchQuery == old(searchQuery) && deleteTarget == old(deleteTarget)
      ensures alertText == old(alertText) && showDuplicateModal == old(showDuplicateModal)
    {
      if saved {
        successMessage := if request.UpdateTimezone? then UpdatedMessage else AddedMessage;
        form, editingId := EmptyForm, None;
      } else {
        error := SaveFailed;
      }
    }

    /** `handleEdit`: the form is loaded from the record and its id is edited. */
    method Edit(tz: Timezone)
      modifies this
      ensures form == EditForm(tz) && editingId == Some(tz.id)
      ensures timezones == old(timezones) && error == old(error) && deleteTarget == old(deleteTarget)
      ensures searchQuery == old(searchQuery) && successMessage == old(successMessage)
      ensures showDuplicateModal == old(showDuplicateModal) && alertText == old(alertText)
    {
      form, editingId := EditForm(tz), Some(tz.id);
    }

    /** The Cancel button, shown only while an id is edited: back to the empty form. */
    method Cancel()
      modifies this
      ensures IdIsSet(old(editingId)) ==> form == EmptyForm && editingId == None
      ensures !IdIsSet(old(editingId)) ==> form == old(form) && editingId == old(editingId)
      ensures timezones == old(timezones) && error == old(error) && deleteTarget == old(deleteTarget)
      ensures searchQuery == old(searchQuery) && successMessage == old(successMessage)
      ensures showDuplicateModal == old(showDuplicateModal) && alertText == old(alertText)
    {
      if IdIsSet(editingId) {
        form, editingId := EmptyForm, None;
      }
    }

    /** A row's delete button opens the confirmation for its id. */
    method AskDelete(id: int)
      modifies this
      ensures deleteTarget == Some(id)
      ensures timezones == old(timezones) && form == old(form) && editingId == old(editingId)
      ensures searchQuery == old(searchQuery) && error == old(error) && successMessage == old(successMessage)
      ensures showDuplicateModal == old(showDuplicateModal) && alertText == old(alertText)
    {
      deleteTarget := Some(id);
    }

    /** `handleDelete`; `deleted` is whether the service call succeeded.
        Without a (truthy) pending id nothing happens; otherwise the pending
        id is cleared whatever the outcome. */
    method ConfirmDelete(deleted: bool) returns (request: Option<int>)
      modifies this
      ensures request.Some? <==> IdIsSet(old(deleteTarget))
      ensures request.Some? ==> request == old(deleteTarget) && deleteTarget == None
      ensures request.Some? && deleted ==> successMessage == DeletedMessage && error == old(error)
      ensures request.Some? && !deleted ==> error == DeleteFailed && successMessage == old(successMessage)
      ensures request.None? ==>
        deleteTarget == old(deleteTarget) && error == old(error) && successMessage == old(successMessage)
      ensures timezones == old(timezones) && form == old(form) && editingId == old(editingId)
      ensures searchQuery == old(searchQuery) && showDuplicateModal == old(showDuplicateModal)
      ensures alertText == old(alertText)
    {
      if !IdIsSet(deleteTarget) {
        return None;
      }
      request := deleteTarget;
      if deleted {
        successMessage := DeletedMessage;
      } else {
        error := DeleteFailed;
      }
      deleteTarget := None;
    }

    /** The buttons that close a modal: OK on the success modal, Cancel on the
        delete confirmation, and the duplicate modal's button. Each closes its
        own modal and nothing else. */
    method DismissSuccess()
      modifies this
      ensures successMessage == ""
      ensures timezones == old(timezones) && form == old(form) && editingId == old(editingId)
      ensures searchQuery == old(searchQuery) && error == old(error) && deleteTarget == old(deleteTarget)
      ensures showDuplicateModal == old(showDuplicateModal) && alertText == old(alertText)
    {
      successMessage := "";
    }

    method CancelDelete()
      modifies this
      ensures deleteTarget == None
      ensures timezones == old(timezones) && form == old(form) && editingId == old(editingId)
      ensures searchQuery == old(searchQuery) && error == old(error) && successMessage == old(successMessage)
      ensures showDuplicateModal == old(showDuplicateModal) && alertText == old(alertText)
    {
      deleteTarget := None;
    }

    method DismissDuplicate()
      modifies this
      ensures !showDuplicateModal
      ensures timezones == old(timezones) && form == old(form) && editingId == old(editingId)
      ensures searchQuery == old(searchQuery) && error == old(error) && successMessage == old(successMessage)
      ensures deleteTarget == old(deleteTarget) && alertText == old(alertText)
    {
      showDuplicateModal := false;
    }
  }
}

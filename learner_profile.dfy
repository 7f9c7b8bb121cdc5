/** The interest picker of the learner profile form (`LearnerProfileForm.jsx`):
    the subject tags are loaded once, the learner's current interests are
    read from either of two fields, a click toggles one tag, and the tags are
    shown as a selected list and a searchable available list. */
module LearnerProfile {
  import opened Wrappers
  import opened Text
  import opened Seqs

  /** A subject tag; a tag without a name (missing or empty) is never offered. */
  datatype Tag = Tag(id: int, name: Option<string>)

  /** The fields of `learnerData` the picker reads: `interest_ids` (the form's
      own edits) and `interests` (the tag objects of a GET). */
  datatype LearnerData = LearnerData(interestIds: Option<seq<int>>, interests: Option<seq<Tag>>)

  /** The body of the tag request: a plain array, an object that may hold a
      `results` array, or a failed request. */
  datatype TagsPayload = TagArray(tags: seq<Tag>) | Paged(results: Option<seq<Tag>>) | FetchFailed

  /** The tag list the picker keeps: the array itself, else its `results`,
      else nothing; a failed request leaves nothing either. */
  function TagList(payload: TagsPayload): (tags: seq<Tag>)
    ensures payload.TagArray? ==> tags == payload.tags
    ensures payload.Paged? && payload.results.Some? ==> tags == payload.results.value
    ensures (payload.Paged? && payload.results.None?) || payload.FetchFailed? ==> tags == []
  {
    match payload
    case TagArray(tags) => tags
    case Paged(results) => results.GetOr([])
    case FetchFailed => []
  }

  /** The ids of the current interests: `interest_ids` when present (an empty
      array is truthy, so it still wins), else the ids of `interests`, else none. */
  function CurrentInterests(data: LearnerData): (ids: seq<int>)
    ensures data.interestIds.Some? ==> ids == data.interestIds.value
    ensures data.interestIds.None? && data.interests.Some? ==>
      |ids| == |data.interests.value| && forall i :: 0 <= i < |ids| ==> ids[i] == data.interests.value[i].id
    ensures data.interestIds.None? && data.interests.None? ==> ids == []
  {
    if data.interestIds.Some? then data.interestIds.value
    else if data.interests.Some? then
      var tags := data.interests.value;
      seq(|tags|, i requires 0 <= i < |tags| => tags[i].id)
    else []
  }

  /** `toggleInterest`'s new list: the id is removed (every occurrence) when
      present, and appended otherwise. */
  function Toggled(ids: seq<int>, id: int): (r: seq<int>)
    ensures id in r <==> id !in ids
    ensures forall other :: other != id ==> (other in r <==> other in ids)
  {
    if id in ids then Without(ids, id) else ids + [id]
  }

  /** Toggling keeps a duplicate-free list duplicate-free. */
  lemma ToggleKeepsNoDuplicates(ids: seq<int>, id: int)
    requires NoDuplicates(ids)
    ensures NoDuplicates(Toggled(ids, id))
  {
    if id in ids {
      WithoutNoDuplicates(ids, id);
    } else {
      AppendFreshNoDuplicates(ids, id);
    }
  }

  /** Toggling an id the list lacks twice gives the very same list back;
      toggling any id twice gives the same membership back. */
  lemma ToggleTwice(ids: seq<int>, id: int)
    ensures id !in ids ==> Toggled(Toggled(ids, id), id) == ids
    ensures forall other :: other in Toggled(Toggled(ids, id), id) <==> other in ids
  {
    if id !in ids {
      WithoutAppendFresh(ids, id);
    }
  }

  /** The search: the tag has a non-empty name containing the term, ignoring case. */
  predicate Matches(term: string, tag: Tag) {
    tag.name.Some? && tag.name.value != "" && Contains(ToLower(tag.name.value), ToLower(term))
  }

  function MatchesTerm(term: string): Tag -> bool {
    tag => Matches(term, tag)
  }

  /** `filteredTags`. */
  function FilteredTags(tags: seq<Tag>, term: string): (r: seq<Tag>)
    ensures forall t :: t in r <==> t in tags && Matches(term, t)
  {
    Filter(tags, MatchesTerm(term))
  }

  function IsSelected(ids: seq<int>): Tag -> bool {
    (tag: Tag) => tag.id in ids
  }

  function IsUnselected(ids: seq<int>): Tag -> bool {
    (tag: Tag) => tag.id !in ids
  }

  /** The "Selected Interests" list: every loaded tag whose id is an interest,
      whatever the search term. */
  function SelectedTags(tags: seq<Tag>, ids: seq<int>): (r: seq<Tag>)
    ensures forall t :: t in r <==> t in tags && t.id in ids
  {
    Filter(tags, IsSelected(ids))
  }

  /** The "Available Topics" list: the searched tags that are not interests. */
  function AvailableTags(tags: seq<Tag>, ids: seq<int>, term: string): (r: seq<Tag>)
    ensures forall t :: t in r <==> t in tags && Matches(term, t) && t.id !in ids
  {
    Filter(FilteredTags(tags, term), IsUnselected(ids))
  }

  /** The two lists never share a tag, and together they show every tag the
      term matches. */
  lemma Partition(tags: seq<Tag>, ids: seq<int>, term: string)
    ensures forall t :: t in SelectedTags(tags, ids) ==> t !in AvailableTags(tags, ids, term)
    ensures forall t :: t in tags && Matches(term, t) ==>
      t in SelectedTags(tags, ids) || t in AvailableTags(tags, ids, term)
  {
  }

  /** Both lists keep the order of the loaded tags. */
  lemma ListsKeepOrder(tags: seq<Tag>, ids: seq<int>, term: string)
    ensures Subsequence(SelectedTags(tags, ids), tags)
    ensures Subsequence(AvailableTags(tags, ids, term), FilteredTags(tags, term))
  {
    FilterKeepsOrder(tags, IsSelected(ids));
    FilterKeepsOrder(FilteredTags(tags, term), IsUnselected(ids));
  }

  class LearnerForm {
    var data: LearnerData
    var allTags: seq<Tag>
    var searchTerm: string
    var tagLoading: bool

    constructor (data: LearnerData)
      ensures this.data == data && allTags == [] && searchTerm == "" && tagLoading
    {
      this.data := data;
      allTags, searchTerm, tagLoading := [], "", true;
    }

    /** The mount effect's tag request. */
    method LoadTags(payload: TagsPayload)
      modifies this
      ensures allTags == TagList(payload) && !tagLoading
      ensures data == old(data) && searchTerm == old(searchTerm)
    {
      allTags := TagList(payload);
      tagLoading := false;
    }

    method SetSearch(term: string)
      modifies this
      ensures searchTerm == term && data == old(data) && allTags == old(allTags)
    {
      searchTerm := term;
    }

    /** `toggleInterest`: the new list is written to `interest_ids`, so it
        wins over `interests` from then on; membership of this id flips and
        no other id changes. */
    method ToggleInterest(id: int)
      modifies this
      ensures data == old(data).(interestIds := Some(Toggled(CurrentInterests(old(data)), id)))
      ensures id in CurrentInterests(data) <==> id !in CurrentInterests(old(data))
      ensures forall other :: other != id ==>
        (other in CurrentInterests(data) <==> other in CurrentInterests(old(data)))
      ensures allTags == old(allTags) && searchTerm == old(searchTerm)
    {
      data := data.(interestIds := Some(Toggled(CurrentInterests(data), id)));
    }

  }
}

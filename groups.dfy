/** The Groups page (social-versity/src/pages/Groups.jsx): search, the v2-only category and tag
    filters, and joining or leaving a group. */
module Groups {
  import Lists
  import Text
  import opened Wrappers
  import opened Toasts

  datatype Group = Group(
    id: string,
    name: string,
    category: string,
    members: int,
    description: string,
    isMember: bool)

  /** The search box: a case-insensitive substring of the name or of the category. */
  predicate MatchesSearch(g: Group, searchTerm: string) {
    Text.Includes(Text.Lower(g.name), Text.Lower(searchTerm))
    || Text.Includes(Text.Lower(g.category), Text.Lower(searchTerm))
  }

  /** The category filter, which only v2 applies. */
  predicate MatchesCategory(g: Group, version: string, selectedCategories: seq<string>) {
    version != "v2" || |selectedCategories| == 0 || g.category in selectedCategories
  }

  /** The tag filter, which only v2 applies: some selected tag occurs in the description. */
  predicate MatchesTags(g: Group, version: string, selectedTags: seq<string>) {
    version != "v2" || |selectedTags| == 0
    || exists tag | tag in selectedTags :: Text.Includes(Text.Lower(g.description), Text.Lower(tag))
  }

  /** The condition of `filteredGroups` on one group. */
  predicate Shown(g: Group, searchTerm: string, version: string, selectedCategories: seq<string>, selectedTags: seq<string>) {
    MatchesSearch(g, searchTerm) && MatchesCategory(g, version, selectedCategories) && MatchesTags(g, version, selectedTags)
  }

  function ShownBy(searchTerm: string, version: string, selectedCategories: seq<string>, selectedTags: seq<string>): Group -> bool {
    g => Shown(g, searchTerm, version, selectedCategories, selectedTags)
  }

  function SearchedBy(searchTerm: string): Group -> bool {
    g => MatchesSearch(g, searchTerm)
  }

  /** `filteredGroups`: the groups that pass all three filters, in their order. */
  function FilteredGroups(groups: seq<Group>, searchTerm: string, version: string,
                          selectedCategories: seq<string>, selectedTags: seq<string>): (r: seq<Group>)
    ensures forall g :: g in r ==> g in groups && Shown(g, searchTerm, version, selectedCategories, selectedTags)
    ensures forall g :: g in groups && Shown(g, searchTerm, version, selectedCategories, selectedTags) ==> g in r
    ensures forall g | g in groups ::
      multiset(r)[g] == if Shown(g, searchTerm, version, selectedCategories, selectedTags) then multiset(groups)[g] else 0
    ensures Lists.IsSubsequence(r, groups)
  {
    Lists.Filter(groups, ShownBy(searchTerm, version, selectedCategories, selectedTags))
  }

  /** The search box alone: the reference the selection filters are compared with. */
  function SearchResults(groups: seq<Group>, searchTerm: string): (r: seq<Group>)
    ensures forall g :: g in r ==> g in groups && MatchesSearch(g, searchTerm)
    ensures forall g :: g in groups && MatchesSearch(g, searchTerm) ==> g in r
    ensures forall g | g in groups :: multiset(r)[g] == if MatchesSearch(g, searchTerm) then multiset(groups)[g] else 0
    ensures Lists.IsSubsequence(r, groups)
  {
    Lists.Filter(groups, SearchedBy(searchTerm))
  }

  /** The empty search term matches every group. */
  lemma EmptySearchMatchesAll(groups: seq<Group>)
    ensures SearchResults(groups, "") == groups
  {
    forall g | g in groups ensures MatchesSearch(g, "") {
      Text.EmptyIncluded(Text.Lower(g.name));
    }
    Lists.FilterKeepsAll(groups, SearchedBy(""));
  }

  /** Outside v2 the category and tag selections have no effect. */
  lemma SelectionsIgnoredOutsideV2(groups: seq<Group>, searchTerm: string, version: string,
                                   selectedCategories: seq<string>, selectedTags: seq<string>)
    requires version != "v2"
    ensures FilteredGroups(groups, searchTerm, version, selectedCategories, selectedTags) == SearchResults(groups, searchTerm)
  {
    Lists.FilterCongruent(groups, ShownBy(searchTerm, version, selectedCategories, selectedTags), SearchedBy(searchTerm));
  }

  /** With both selections empty (as after `clearAllFilters`), every version shows exactly the
      search results. */
  lemma EmptySelectionsAreSearchOnly(groups: seq<Group>, searchTerm: string, version: string)
    ensures FilteredGroups(groups, searchTerm, version, [], []) == SearchResults(groups, searchTerm)
  {
    Lists.FilterCongruent(groups, ShownBy(searchTerm, version, [], []), SearchedBy(searchTerm));
  }

  /** In v2 a group in the list is shown exactly when it matches the search, its category is
      selected (or none is) and one of the selected tags occurs in its description (or none is
      selected). */
  lemma V2Selections(groups: seq<Group>, searchTerm: string, selectedCategories: seq<string>,
                     selectedTags: seq<string>, g: Group)
    requires g in groups
    ensures g in FilteredGroups(groups, searchTerm, "v2", selectedCategories, selectedTags) <==>
      MatchesSearch(g, searchTerm)
      && (selectedCategories == [] || g.category in selectedCategories)
      && (selectedTags == [] || exists tag :: tag in selectedTags
                                  && Text.Includes(Text.Lower(g.description), Text.Lower(tag)))
  {
  }

  /** Selecting more categories can only widen a non-empty category selection: the v2 result
      for a selection is a subsequence of the one for a larger selection. */
  lemma MoreCategoriesWiden(groups: seq<Group>, searchTerm: string, cats: seq<string>, more: seq<string>,
                            selectedTags: seq<string>)
    requires cats != [] && forall c :: c in cats ==> c in more
    ensures Lists.IsSubsequence(FilteredGroups(groups, searchTerm, "v2", cats, selectedTags),
                                FilteredGroups(groups, searchTerm, "v2", more, selectedTags))
  {
    Lists.FilterMonotone(groups, ShownBy(searchTerm, "v2", cats, selectedTags), ShownBy(searchTerm, "v2", more, selectedTags));
  }

  /** `prev.map(g => g.id === groupId ? { ...g, isMember: true, members: g.members + 1 } : g)`. */
  function Joined(groups: seq<Group>, groupId: string): (r: seq<Group>)
    ensures |r| == |groups|
    ensures forall i :: 0 <= i < |groups| && groups[i].id == groupId ==>
      r[i] == groups[i].(isMember := true, members := groups[i].members + 1)
    ensures forall i :: 0 <= i < |groups| && groups[i].id != groupId ==> r[i] == groups[i]
  {
    if groups == [] then []
    else
      var g := groups[0];
      [if g.id == groupId then g.(isMember := true, members := g.members + 1) else g] + Joined(groups[1..], groupId)
  }

  /** `prev.map(g => g.id === groupToLeave.id ? { ...g, isMember: false, members: g.members - 1 } : g)`. */
  function Left(groups: seq<Group>, groupId: string): (r: seq<Group>)
    ensures |r| == |groups|
    ensures forall i :: 0 <= i < |groups| && groups[i].id == groupId ==>
      r[i] == groups[i].(isMember := false, members := groups[i].members - 1)
    ensures forall i :: 0 <= i < |groups| && groups[i].id != groupId ==> r[i] == groups[i]
  {
    if groups == [] then []
    else
      var g := groups[0];
      [if g.id == groupId then g.(isMember := false, members := g.members - 1) else g] + Left(groups[1..], groupId)
  }

  /** Joining a group the user is not a member of and then leaving it restores the list. */
  lemma {:induction false} JoinThenLeaveRestores(groups: seq<Group>, groupId: string)
    requires forall g :: g in groups && g.id == groupId ==> !g.isMember
    ensures Left(Joined(groups, groupId), groupId) == groups
  {
    if groups != [] {
      JoinThenLeaveRestores(groups[1..], groupId);
    }
  }

  /** Leaving a group the user is a member of and then joining it again restores the list. */
  lemma {:induction false} LeaveThenJoinRestores(groups: seq<Group>, groupId: string)
    requires forall g :: g in groups && g.id == groupId ==> g.isMember
    ensures Joined(Left(groups, groupId), groupId) == groups
  {
    if groups != [] {
      LeaveThenJoinRestores(groups[1..], groupId);
    }
  }

  /** The number on the Filter button: shown only in v2 and only when something is selected. */
  function FilterBadge(version: string, selectedCategories: seq<string>, selectedTags: seq<string>): (badge: Option<nat>)
    ensures badge.Some? <==> version == "v2" && |selectedCategories| + |selectedTags| != 0
    ensures badge.Some? ==> badge.value == |selectedCategories| + |selectedTags| && badge.value > 0
  {
    if version == "v2" && (|selectedCategories| > 0 || |selectedTags| > 0)
    then Some(|selectedCategories| + |selectedTags|)
    else None
  }

  class GroupsPage {
    const version: string
    var searchTerm: string
    var localGroups: seq<Group>
    var groupToLeave: Option<Group>
    var isFilterOpen: bool
    var selectedCategories: seq<string>
    var selectedTags: seq<string>

    ghost predicate Valid()
      reads this
    {
      Lists.NoDup(selectedCategories) && Lists.NoDup(selectedTags)
    }

    constructor (version: string, initialGroups: seq<Group>)
      ensures Valid()
      ensures this.version == version && localGroups == initialGroups
      ensures searchTerm == "" && groupToLeave == None && !isFilterOpen
      ensures selectedCategories == [] && selectedTags == []
    {
      this.version := version;
      searchTerm := "";
      localGroups := initialGroups;
      groupToLeave := None;
      isFilterOpen := false;
      selectedCategories := [];
      selectedTags := [];
    }

    /** `handleJoinClick(groupId)`; the success toast is raised in v2 only. */
    method HandleJoinClick(groupId: string) returns (toast: Option<ToastRequest>)
      modifies this`localGroups
      ensures localGroups == Joined(old(localGroups), groupId)
      ensures toast.Some? <==> version == "v2"
      ensures toast.Some? ==> toast.value == ToastRequest("Joined group successfully!", Some("success"))
    {
      localGroups := Joined(localGroups, groupId);
      if version == "v2" {
        toast := Some(ToastRequest("Joined group successfully!", Some("success")));
      } else {
        toast := None;
      }
    }

    /** `handleLeaveClick(group)`: opens the confirmation dialog for that group. */
    method HandleLeaveClick(group: Group)
      modifies this`groupToLeave
      ensures groupToLeave == Some(group)
    {
      groupToLeave := Some(group);
    }

    /** The dialog's Cancel button and backdrop: `setGroupToLeave(null)`. */
    method CancelLeave()
      modifies this`groupToLeave
      ensures groupToLeave == None
    {
      groupToLeave := None;
    }

    /** `confirmLeave`: the dialog's confirm button, which exists only while a group is
        pending. */
    method ConfirmLeave() returns (toast: ToastRequest)
      requires groupToLeave.Some?
      modifies this`localGroups, this`groupToLeave
      ensures localGroups == Left(old(localGroups), old(groupToLeave).value.id)
      ensures groupToLeave == None
      ensures toast == ToastRequest("Left " + old(groupToLeave).value.name + " successfully", Some("success"))
    {
      var pending := groupToLeave.value;
      localGroups := Left(localGroups, pending.id);
      toast := ToastRequest("Left " + pending.name + " successfully", Some("success"));
      groupToLeave := None;
    }

    /** `handleCategoryToggle(category)`. */
    method HandleCategoryToggle(category: string)
      requires Valid()
      modifies this`selectedCategories
      ensures Valid()
      ensures selectedCategories == Lists.Toggle(old(selectedCategories), category)
    {
      Lists.ToggleKeepsNoDup(selectedCategories, category);
      selectedCategories := Lists.Toggle(selectedCategories, category);
    }

    /** `handleTagToggle(tag)`. */
    method HandleTagToggle(tag: string)
      requires Valid()
      modifies this`selectedTags
      ensures Valid()
      ensures selectedTags == Lists.Toggle(old(selectedTags), tag)
    {
      Lists.ToggleKeepsNoDup(selectedTags, tag);
      selectedTags := Lists.Toggle(selectedTags, tag);
    }

    /** `clearAllFilters`: afterwards the list is the plain search result. */
    method ClearAllFilters()
      modifies this`selectedCategories, this`selectedTags
      ensures Valid()
      ensures selectedCategories == [] && selectedTags == []
      ensures Filtered() == SearchResults(localGroups, searchTerm)
    {
      selectedCategories := [];
      selectedTags := [];
      EmptySelectionsAreSearchOnly(localGroups, searchTerm, version);
    }

    /** What the page shows now. */
    function Filtered(): (r: seq<Group>)
      reads this
      ensures Lists.IsSubsequence(r, localGroups)
      ensures forall g :: g in r ==> g in localGroups && Shown(g, searchTerm, version, selectedCategories, selectedTags)
      ensures forall g :: g in localGroups && Shown(g, searchTerm, version, selectedCategories, selectedTags) ==> g in r
      ensures forall g | g in localGroups ::
        multiset(r)[g] == if Shown(g, searchTerm, version, selectedCategories, selectedTags) then multiset(localGroups)[g] else 0
    {
      FilteredGroups(localGroups, searchTerm, version, selectedCategories, selectedTags)
    }
  }
}

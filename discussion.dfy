/** The community discussion board: a search, a category and a tag filter
    over the threads, per-category counts, and the form that starts a new
    thread with its own list of tags. */
module DiscussionBoard {
  import opened Wrappers
  import opened Seqs
  import opened Text
  import Dict

  datatype Discussion = Discussion(
    id: string,
    title: string,
    author: string,
    replies: nat,
    views: nat,
    lastActivity: string,
    tags: seq<string>,
    isResolved: bool,
    category: string)

  /** The category choice that lets every thread through. */
  const AllCategories := "All"

  /** The category every new thread is filed under. */
  const DefaultCategory := "Help"

  /** The author name new threads carry. */
  const CurrentUser := "Current User"

  // ---------------------------------------------------------------------
  // Filtering

  /** The term occurs, ignoring case, in the title, the author or a tag. */
  predicate MatchesSearch(d: Discussion, term: string) {
    IncludesIgnoringCase(d.title, term) || IncludesIgnoringCase(d.author, term)
    || exists i :: 0 <= i < |d.tags| && IncludesIgnoringCase(d.tags[i], term)
  }

  predicate MatchesCategory(d: Discussion, category: string) {
    category == AllCategories || d.category == category
  }

  /** No selected tag (`null`) matches every thread. */
  predicate MatchesTag(d: Discussion, tag: Option<string>) {
    tag.None? || tag.value in d.tags
  }

  function Shown(term: string, category: string, tag: Option<string>): Discussion -> bool {
    (d: Discussion) => MatchesSearch(d, term) && MatchesCategory(d, category) && MatchesTag(d, tag)
  }

  /** `filteredDiscussions`. */
  function FilteredDiscussions(ds: seq<Discussion>, term: string, category: string, tag: Option<string>): seq<Discussion> {
    Filter(ds, Shown(term, category, tag))
  }

  /** The list shows exactly the threads passing all three filters, in the
      board's order. */
  lemma FilteredDiscussionsSpec(ds: seq<Discussion>, term: string, category: string, tag: Option<string>)
    ensures var r := FilteredDiscussions(ds, term, category, tag);
      (forall d :: d in r <==> d in ds && MatchesSearch(d, term) && MatchesCategory(d, category) && MatchesTag(d, tag))
      && IsSubsequence(r, ds)
  {
    FilterMembers(ds, Shown(term, category, tag));
    FilterIsSubsequence(ds, Shown(term, category, tag));
  }

  // ---------------------------------------------------------------------
  // Category counts

  /** The number of threads filed under `category`. */
  function CountIn(ds: seq<Discussion>, category: string): (n: nat)
    ensures n <= |ds|
  {
    if ds == [] then 0 else (if ds[0].category == category then 1 else 0) + CountIn(ds[1..], category)
  }

  /** The `reduce` that counts threads per category:
      `acc[d.category] = (acc[d.category] || 0) + 1` for each thread in turn. */
  function Tally(ds: seq<Discussion>, acc: Dict.Dict<int>): Dict.Dict<int> {
    if ds == [] then acc
    else
      var k := ds[0].category;
      Tally(ds[1..], Dict.Put(acc, k, Dict.Get(acc, k).GetOr(0) + 1))
  }

  /** One step of the tally adds one to the thread's own category and
      leaves every other count alone. */
  lemma TallyStep(acc: Dict.Dict<int>, k: string, category: string)
    ensures Dict.Get(Dict.Put(acc, k, Dict.Get(acc, k).GetOr(0) + 1), category).GetOr(0)
      == Dict.Get(acc, category).GetOr(0) + (if k == category then 1 else 0)
  {
    var v := Dict.Get(acc, k).GetOr(0) + 1;
    var acc' := Dict.Put(acc, k, v);
    if k == category {
      Dict.GetPutSame(acc, k, v);
      assert Dict.Get(acc', category) == Some(v);
    } else {
      Dict.GetPutOther(acc, k, v, category);
      assert Dict.Get(acc', category) == Dict.Get(acc, category);
    }
  }

  /** Tallying adds each category's number of threads to what the
      accumulator held. */
  lemma {:induction false} TallyCounts(ds: seq<Discussion>, acc: Dict.Dict<int>, category: string)
    ensures Dict.Get(Tally(ds, acc), category).GetOr(0) == Dict.Get(acc, category).GetOr(0) + CountIn(ds, category)
  {
    if ds != [] {
      var k := ds[0].category;
      var acc' := Dict.Put(acc, k, Dict.Get(acc, k).GetOr(0) + 1);
      var final := Tally(ds[1..], acc');
      assert Tally(ds, acc) == final;
      assert CountIn(ds, category) == (if k == category then 1 else 0) + CountIn(ds[1..], category);
      TallyCounts(ds[1..], acc', category);
      TallyStep(acc, k, category);
      assert Dict.Get(final, category).GetOr(0) == Dict.Get(acc, category).GetOr(0) + CountIn(ds, category);
    }
  }

  /** One entry of the category sidebar. */
  datatype CategoryEntry = CategoryEntry(name: string, count: int, active: bool)

  /** The named categories the sidebar lists after "All". */
  const Named: seq<string> := ["Help", "Best Practices", "Showcase"]

  /** `categories`: "All" with the board's size, then each named category
      with its tally (0 when absent); the selected one is active. */
  function Categories(ds: seq<Discussion>, selected: string): seq<CategoryEntry> {
    var counts := Tally(ds, []);
    [CategoryEntry(AllCategories, |ds|, selected == AllCategories)]
    + seq(|Named|, i requires 0 <= i < |Named| =>
        CategoryEntry(Named[i], Dict.Get(counts, Named[i]).GetOr(0), selected == Named[i]))
  }

  /** "All" counts every thread, each named entry counts the threads filed
      under it, which is the size of the list that category shows with no
      search and no tag; exactly the selected entry is active. */
  lemma CategoriesSpec(ds: seq<Discussion>, selected: string)
    ensures var r := Categories(ds, selected);
      |r| == 4 && r[0].name == AllCategories && r[0].count == |ds|
      && (forall i :: 1 <= i < 4 ==> r[i].name == Named[i - 1] && r[i].count == CountIn(ds, r[i].name))
      && (forall i :: 0 <= i < 4 ==> (r[i].active <==> r[i].name == selected))
  {
    forall c | c in Named
      ensures Dict.Get(Tally(ds, []), c).GetOr(0) == CountIn(ds, c)
    {
      TallyCounts(ds, [], c);
    }
  }

  /** A named category's count is the length of the list that category
      shows when no search term and no tag narrow it. */
  lemma {:induction false} CountIsListLength(ds: seq<Discussion>, category: string)
    requires category != AllCategories
    ensures CountIn(ds, category) == |FilteredDiscussions(ds, "", category, None)|
  {
    if ds != [] {
      EmptyTermMatches(ds[0]);
      CountIsListLength(ds[1..], category);
    }
  }

  /** The empty search matches every thread. */
  lemma EmptyTermMatches(d: Discussion)
    ensures MatchesSearch(d, "")
  {
    assert ToLower("") == "";
    assert StartsWith(ToLower(d.title), "");
  }

  /** `handleTagClick`: the selected tag again clears the tag filter, any
      other tag selects it. */
  function TagClick(selected: Option<string>, tag: string): (r: Option<string>)
    ensures r.None? <==> selected == Some(tag)
    ensures r.Some? ==> r.value == tag
  {
    if selected == Some(tag) then None else Some(tag)
  }

  /** Clicking the same tag twice undoes the first click when it selected
      the tag, and selects it when it cleared it. */
  lemma TagClickTwice(selected: Option<string>, tag: string)
    ensures TagClick(TagClick(selected, tag), tag) == (if selected == Some(tag) then Some(tag) else None)
  {
  }

  /** Distinct elements. */
  predicate NoDuplicates(s: seq<string>) {
    forall i, j :: 0 <= i < j < |s| ==> s[i] != s[j]
  }

  /** `tags.filter(t => t !== tag)`: every occurrence of `tag` goes, the other
      tags stay in order; from a list without duplicates at most one goes. */
  lemma RemoveTagSpec(tags: seq<string>, tag: string)
    ensures var r := Filter(tags, (t: string) => t != tag);
      tag !in r && (forall t :: t in r <==> t in tags && t != tag) && IsSubsequence(r, tags)
      && (NoDuplicates(tags) ==> NoDuplicates(r) && |r| == if tag in tags then |tags| - 1 else |tags|)
  {
    var p := (t: string) => t != tag;
    FilterMembers(tags, p);
    FilterIsSubsequence(tags, p);
    if NoDuplicates(tags) {
      FilterKeepsDistinct(tags, tag);
    }
  }

  /** A list without repeats stays without repeats once its head is taken
      off, and the head does not occur again. */
  lemma NoDuplicatesTail(s: seq<string>)
    requires s != [] && NoDuplicates(s)
    ensures NoDuplicates(s[1..]) && s[0] !in s[1..]
  {
    var rest := s[1..];
    forall i, j | 0 <= i < j < |rest|
      ensures rest[i] != rest[j]
    {
      assert rest[i] == s[i + 1] && rest[j] == s[j + 1];
    }
    forall j | 0 <= j < |rest|
      ensures rest[j] != s[0]
    {
      assert rest[j] == s[j + 1];
    }
  }

  /** A new head absent from a list without repeats makes none. */
  lemma NoDuplicatesCons(x: string, s: seq<string>)
    requires NoDuplicates(s) && x !in s
    ensures NoDuplicates([x] + s)
  {
    var r := [x] + s;
    forall i, j | 0 <= i < j < |r|
      ensures r[i] != r[j]
    {
      assert r[j] == s[j - 1];
      if i > 0 {
        assert r[i] == s[i - 1];
      }
    }
  }

  lemma {:induction false} FilterKeepsDistinct(tags: seq<string>, tag: string)
    requires NoDuplicates(tags)
    ensures var r := Filter(tags, (t: string) => t != tag);
      NoDuplicates(r) && |r| == if tag in tags then |tags| - 1 else |tags|
  {
    var p := (t: string) => t != tag;
    if tags != [] {
      var rest := tags[1..];
      NoDuplicatesTail(tags);
      FilterKeepsDistinct(rest, tag);
      FilterMembers(rest, p);
      assert tag in tags <==> tag == tags[0] || tag in rest by {
        assert tags == [tags[0]] + rest;
      }
      var r' := Filter(rest, p);
      assert Filter(tags, p) == (if p(tags[0]) then [tags[0]] else []) + r';
      if p(tags[0]) {
        NoDuplicatesCons(tags[0], r');
      } else {
        assert tag !in rest;
        FilterAllOrNone(rest, p);
        assert [] + r' == r';
      }
    }
  }

  // ---------------------------------------------------------------------
  // The page

  class DiscussionPage {
    var discussions: seq<Discussion>
    var searchTerm: string
    var selectedCategory: string
    var selectedTag: Option<string>
    var showNewDiscussion: bool
    var newTitle: string
    var newContent: string
    var newTags: seq<string>
    var newTagInput: string

    /** The tags of the thread being written are distinct, non-empty, and
        trimmed. */
    predicate Valid()
      reads this
    {
      NoDuplicates(newTags) && forall t :: t in newTags ==> t != "" && Trim(t) == t
    }

    constructor(seed: seq<Discussion>)
      ensures Valid()
      ensures discussions == seed && searchTerm == "" && selectedCategory == AllCategories
      ensures selectedTag.None? && !showNewDiscussion
      ensures newTitle == "" && newContent == "" && newTags == [] && newTagInput == ""
    {
      discussions := seed;
      searchTerm := "";
      selectedCategory := AllCategories;
      selectedTag := None;
      showNewDiscussion := false;
      newTitle := "";
      newContent := "";
      newTags := [];
      newTagInput := "";
    }

    /** What the board lists now. */
    function Listed(): seq<Discussion>
      reads this
    {
      FilteredDiscussions(discussions, searchTerm, selectedCategory, selectedTag)
    }

    /** `handleCategoryClick`: choosing a category also clears the tag. */
    method HandleCategoryClick(category: string)
      modifies this`selectedCategory, this`selectedTag
      ensures selectedCategory == category && selectedTag.None?
    {
      selectedCategory := category;
      selectedTag := None;
    }

    /** `handleTagClick`. */
    method HandleTagClick(tag: string)
      modifies this`selectedTag
      ensures selectedTag == TagClick(old(selectedTag), tag)
    {
      selectedTag := TagClick(selectedTag, tag);
    }

    /** `handleCreateDiscussion`: with a blank title or blank content
        nothing happens; otherwise the new thread goes first, with no
        replies and no views, under "Help", carrying the form's tags, and
        the form is emptied and closed. `now` is the id `Date.now()` gives. */
    method HandleCreateDiscussion(now: string)
      modifies this`discussions, this`newTitle, this`newContent, this`newTags, this`newTagInput, this`showNewDiscussion
      requires Valid()
      ensures Valid()
      ensures Trim(old(newTitle)) == "" || Trim(old(newContent)) == "" ==>
        discussions == old(discussions) && newTitle == old(newTitle) && newContent == old(newContent)
        && newTags == old(newTags) && newTagInput == old(newTagInput) && showNewDiscussion == old(showNewDiscussion)
      ensures Trim(old(newTitle)) != "" && Trim(old(newContent)) != "" ==>
        discussions == [Discussion(now, old(newTitle), CurrentUser, 0, 0, "just now", old(newTags), false, DefaultCategory)]
                       + old(discussions)
        && newTitle == "" && newContent == "" && newTags == [] && newTagInput == "" && !showNewDiscussion
      ensures |discussions| > |old(discussions)| ==> NoDuplicates(discussions[0].tags)
    {
      if Trim(newTitle) == "" || Trim(newContent) == "" {
        return;
      }
      var created := Discussion(now, newTitle, CurrentUser, 0, 0, "just now", newTags, false, DefaultCategory);
      discussions := [created] + discussions;
      newTitle := "";
      newContent := "";
      newTags := [];
      newTagInput := "";
      showNewDiscussion := false;
    }

    /** `handleAddTag`: the trimmed input is appended and the input cleared
        when it is non-empty and not already a tag; otherwise nothing
        changes. The tags stay distinct. */
    method HandleAddTag()
      modifies this`newTags, this`newTagInput
      requires Valid()
      ensures Valid()
      ensures var t := Trim(old(newTagInput));
        if t != "" && t !in old(newTags)
        then newTags == old(newTags) + [t] && newTagInput == ""
        else newTags == old(newTags) && newTagInput == old(newTagInput)
    {
      var t := Trim(newTagInput);
      if t != "" && t !in newTags {
        TrimTwice(newTagInput);
        newTags := newTags + [t];
        newTagInput := "";
      }
    }

    /** `handleKeyPress`: Enter adds the tag, any other key does nothing. */
    method HandleKeyPress(key: string)
      modifies this`newTags, this`newTagInput
      requires Valid()
      ensures Valid()
      ensures key != "Enter" ==> newTags == old(newTags) && newTagInput == old(newTagInput)
      ensures key == "Enter" ==> var t := Trim(old(newTagInput));
        if t != "" && t !in old(newTags)
        then newTags == old(newTags) + [t] && newTagInput == ""
        else newTags == old(newTags) && newTagInput == old(newTagInput)
    {
      if key == "Enter" {
        HandleAddTag();
      }
    }

    /** `handleRemoveTag`. */
    method HandleRemoveTag(tag: string)
      modifies this`newTags
      requires Valid()
      ensures Valid()
      ensures newTags == Filter(old(newTags), (t: string) => t != tag)
    {
      RemoveTagSpec(newTags, tag);
      newTags := Filter(newTags, (t: string) => t != tag);
    }
  }
}

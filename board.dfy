/**
 * The main board's list controller (src/components/MainBoardPage.js).
 *
 * The component keeps every loaded post in `allPosts` and shows
 * `filteredPosts`, which three handlers recompute: a category change filters
 * `allPosts` by category alone, a search change filters `allPosts` by the
 * active category and the search term, and a sort change reorders whatever is
 * shown.  Each handler is a method that leaves the state its specification
 * function describes; the lemmas state what those functions mean.
 */
module MainBoard {
  import opened Wrappers
  import opened Text
  import opened Lists
  import opened Sorting

  /** A post as the board receives it; a field the server left out is None. */
  datatype Post = Post(
    title: Option<string>,
    content: Option<string>,
    author: Option<string>,
    category: Option<string>,
    createdAt: int,
    likeCount: Option<int>)

  const AllCategories: string := "전체"
  const Latest: string := "최신순"
  const Popular: string := "인기순"

  /** The category buttons, "all" first. */
  const Categories: seq<string> := ["전체", "동물/반려동물", "여행", "건강/헬스", "연예인"]

  // ---------------------------------------------------------------------------
  // Filters
  // ---------------------------------------------------------------------------

  /** `post.category === category`. */
  predicate InCategory(p: Post, category: string) {
    p.category == Some(category)
  }

  /** `field?.toLowerCase().includes(needle)`, where `needle` is already lower-cased. */
  predicate FieldMatches(field: Option<string>, needle: string) {
    field.Some? && Contains(Lower(field.value), needle)
  }

  /** The search predicate: the lower-cased term inside the title, content or author. */
  predicate MatchesSearch(p: Post, term: string) {
    var needle := Lower(term);
    FieldMatches(p.title, needle) || FieldMatches(p.content, needle) || FieldMatches(p.author, needle)
  }

  function CategoryTest(category: string): Post -> bool {
    p => InCategory(p, category)
  }

  function SearchTest(term: string): Post -> bool {
    p => MatchesSearch(p, term)
  }

  /** What filterPostsByCategory shows. */
  function CategoryView(all: seq<Post>, category: string): seq<Post> {
    if category == AllCategories then all else Filter(all, CategoryTest(category))
  }

  /** What filterPostsBySearch shows: the active category, then the term unless it is blank. */
  function SearchView(all: seq<Post>, category: string, term: string): seq<Post> {
    var byCategory := if category != AllCategories then Filter(all, CategoryTest(category)) else all;
    if Trim(JavaScript, term) != "" then Filter(byCategory, SearchTest(term)) else byCategory
  }

  // ---------------------------------------------------------------------------
  // Sorting
  // ---------------------------------------------------------------------------

  /** `new Date(b.created_at) - new Date(a.created_at)` sorts by creation time, newest first. */
  function LatestRank(p: Post): Rank {
    Rank(p.createdAt, 0)
  }

  /** `(b.like_count || 0) - (a.like_count || 0)` sorts by likes, with a missing count as 0. */
  function PopularRank(p: Post): Rank {
    Rank(p.likeCount.GetOr(0), 0)
  }

  /** What sortPosts shows. */
  function SortView(shown: seq<Post>, sortType: string): seq<Post> {
    if sortType == Latest then SortDesc(shown, LatestRank)
    else if sortType == Popular then SortDesc(shown, PopularRank)
    else shown
  }

  // ---------------------------------------------------------------------------
  // Loading
  // ---------------------------------------------------------------------------

  /** What fetching the post list produced.  A list the body lacks (or holds as null) is None. */
  datatype LoadOutcome =
    | NotOk                                                  // response.ok was false
    | Failed(message: string)                                // fetch or response.json() threw
    | Body(posts: Option<seq<Post>>, data: Option<seq<Post>>)

  /** `data.posts || data.data || []`: an array is truthy even when empty. */
  function LoadedPosts(posts: Option<seq<Post>>, data: Option<seq<Post>>): (r: seq<Post>)
    ensures posts.Some? ==> r == posts.value
    ensures posts.None? && data.Some? ==> r == data.value
    ensures posts.None? && data.None? ==> r == []
  {
    match posts
    case Some(p) => p
    case None => data.GetOr([])
  }

  const LoadFailedMessage: string := "게시글을 가져오는데 실패했습니다."

  // ---------------------------------------------------------------------------
  // The component
  // ---------------------------------------------------------------------------

  class MainBoardPage {
    var posts: seq<Post>
    var allPosts: seq<Post>
    var filteredPosts: seq<Post>
    var isLoading: bool
    var error: Option<string>
    var activeCategory: string
    var searchTerm: string
    var sortBy: string

    /** What is shown is drawn from what was loaded, never more often than it occurs there. */
    ghost predicate Valid()
      reads this
    {
      multiset(filteredPosts) <= multiset(allPosts)
    }

    constructor ()
      ensures Valid()
      ensures posts == [] && allPosts == [] && filteredPosts == []
      ensures isLoading && error == None
      ensures activeCategory == AllCategories && searchTerm == "" && sortBy == Latest
    {
      posts, allPosts, filteredPosts := [], [], [];
      isLoading, error := true, None;
      activeCategory, searchTerm, sortBy := AllCategories, "", Latest;
    }

    /** loadPosts: the three lists become the loaded list, or all empty with the error recorded. */
    method LoadPosts(outcome: LoadOutcome)
      modifies this
      ensures Valid()
      ensures outcome.Body? ==>
        var loaded := LoadedPosts(outcome.posts, outcome.data);
        posts == loaded && allPosts == loaded && filteredPosts == loaded && error == old(error)
      ensures outcome.NotOk? ==> posts == [] && allPosts == [] && filteredPosts == [] && error == Some(LoadFailedMessage)
      ensures outcome.Failed? ==> posts == [] && allPosts == [] && filteredPosts == [] && error == Some(outcome.message)
      ensures !isLoading
      ensures activeCategory == old(activeCategory) && searchTerm == old(searchTerm) && sortBy == old(sortBy)
    {
      match outcome
      case Body(p, d) =>
        var loaded := LoadedPosts(p, d);
        posts, allPosts, filteredPosts := loaded, loaded, loaded;
        isLoading := false;
      case NotOk =>
        posts, allPosts, filteredPosts := [], [], [];
        error := Some(LoadFailedMessage);
        isLoading := false;
      case Failed(message) =>
        posts, allPosts, filteredPosts := [], [], [];
        error := Some(message);
        isLoading := false;
    }

    /** checkUrlCategory: a `category` query parameter counts only when it names a button. */
    method CheckUrlCategory(fromUrl: Option<string>)
      requires Valid()
      modifies this
      ensures Valid()
      ensures fromUrl.Some? && fromUrl.value != "" && fromUrl.value in Categories ==>
        activeCategory == fromUrl.value && filteredPosts == CategoryView(allPosts, fromUrl.value)
      ensures !(fromUrl.Some? && fromUrl.value != "" && fromUrl.value in Categories) ==>
        activeCategory == old(activeCategory) && filteredPosts == old(filteredPosts)
      ensures allPosts == old(allPosts) && posts == old(posts) && searchTerm == old(searchTerm) && sortBy == old(sortBy)
      ensures isLoading == old(isLoading) && error == old(error)
    {
      if fromUrl.Some? && fromUrl.value != "" && fromUrl.value in Categories {
        activeCategory := fromUrl.value;
        FilterPostsByCategory(fromUrl.value);
      }
    }

    method HandleCategoryChange(category: string)
      requires Valid()
      modifies this
      ensures Valid()
      ensures activeCategory == category && filteredPosts == CategoryView(allPosts, category)
      ensures allPosts == old(allPosts) && posts == old(posts) && searchTerm == old(searchTerm) && sortBy == old(sortBy)
      ensures isLoading == old(isLoading) && error == old(error)
    {
      activeCategory := category;
      FilterPostsByCategory(category);
    }

    /** filterPostsByCategory: recomputed from `allPosts` by the category alone. */
    method FilterPostsByCategory(category: string)
      modifies this
      ensures Valid()
      ensures filteredPosts == CategoryView(allPosts, category)
      ensures allPosts == old(allPosts) && posts == old(posts) && activeCategory == old(activeCategory)
      ensures searchTerm == old(searchTerm) && sortBy == old(sortBy)
      ensures isLoading == old(isLoading) && error == old(error)
    {
      if category == AllCategories {
        filteredPosts := allPosts;
      } else {
        filteredPosts := Filter(allPosts, CategoryTest(category));
        FilterMultiset(allPosts, CategoryTest(category));
      }
    }

    method HandleSearchChange(value: string)
      requires Valid()
      modifies this
      ensures Valid()
      ensures searchTerm == value && filteredPosts == SearchView(allPosts, activeCategory, value)
      ensures allPosts == old(allPosts) && posts == old(posts) && activeCategory == old(activeCategory)
      ensures sortBy == old(sortBy) && isLoading == old(isLoading) && error == old(error)
    {
      searchTerm := value;
      FilterPostsBySearch(value);
    }

    /** filterPostsBySearch: recomputed from `allPosts` by the active category and the term. */
    method FilterPostsBySearch(term: string)
      modifies this
      ensures Valid()
      ensures filteredPosts == SearchView(allPosts, activeCategory, term)
      ensures allPosts == old(allPosts) && posts == old(posts) && activeCategory == old(activeCategory)
      ensures searchTerm == old(searchTerm) && sortBy == old(sortBy)
      ensures isLoading == old(isLoading) && error == old(error)
    {
      var filtered := allPosts;
      if activeCategory != AllCategories {
        FilterMultiset(filtered, CategoryTest(activeCategory));
        filtered := Filter(filtered, CategoryTest(activeCategory));
      }
      if Trim(JavaScript, term) != "" {
        FilterMultiset(filtered, SearchTest(term));
        filtered := Filter(filtered, SearchTest(term));
      }
      filteredPosts := filtered;
    }

    method HandleSortChange(sortType: string)
      requires Valid()
      modifies this
      ensures Valid()
      ensures sortBy == sortType && filteredPosts == SortView(old(filteredPosts), sortType)
      ensures allPosts == old(allPosts) && posts == old(posts) && activeCategory == old(activeCategory)
      ensures searchTerm == old(searchTerm) && isLoading == old(isLoading) && error == old(error)
    {
      sortBy := sortType;
      SortPosts(sortType);
    }

    /** sortPosts: a copy of what is shown, sorted in place. */
    method SortPosts(sortType: string)
      requires Valid()
      modifies this
      ensures Valid()
      ensures filteredPosts == SortView(old(filteredPosts), sortType)
      ensures allPosts == old(allPosts) && posts == old(posts) && activeCategory == old(activeCategory)
      ensures searchTerm == old(searchTerm) && sortBy == old(sortBy)
      ensures isLoading == old(isLoading) && error == old(error)
    {
      var sorted := new Post[|filteredPosts|](i requires 0 <= i < |filteredPosts| reads this => filteredPosts[i]);
      assert sorted[..] == filteredPosts;
      if sortType == Latest {
        SortInPlace(sorted, LatestRank);
        SortDescPermutes(filteredPosts, LatestRank);
      } else if sortType == Popular {
        SortInPlace(sorted, PopularRank);
        SortDescPermutes(filteredPosts, PopularRank);
      }
      filteredPosts := sorted[..];
    }
  }

  // ---------------------------------------------------------------------------
  // What the views mean
  // ---------------------------------------------------------------------------

  /**
   * What `Valid` buys a reader of the page: every post on screen was loaded,
   * and the list on screen is never longer than the loaded one.
   */
  lemma ShownWereLoaded(page: MainBoardPage)
    requires page.Valid()
    ensures forall p :: p in page.filteredPosts ==> p in page.allPosts
    ensures |page.filteredPosts| <= |page.allPosts|
  {
    forall p | p in page.filteredPosts
      ensures p in page.allPosts
    {
      assert p in multiset(page.filteredPosts);
    }
    var shown, loaded := multiset(page.filteredPosts), multiset(page.allPosts);
    assert loaded == shown + (loaded - shown);
    assert |loaded| == |shown| + |loaded - shown|;
  }

  /** With "all" selected the category filter shows every loaded post. */
  lemma CategoryAllShowsEverything(all: seq<Post>)
    ensures CategoryView(all, AllCategories) == all
  {
  }

  /**
   * Any other category shows exactly the posts of that category (compared
   * case-sensitively), in their loaded order.
   */
  lemma CategoryViewExact(all: seq<Post>, category: string, p: Post)
    requires category != AllCategories
    ensures p in CategoryView(all, category) <==> p in all && p.category == Some(category)
    ensures multiset(CategoryView(all, category))[p] ==
      if p.category == Some(category) then multiset(all)[p] else 0
    ensures Subsequence(CategoryView(all, category), all)
  {
    FilterMember(all, CategoryTest(category), p);
    FilterCount(all, CategoryTest(category), p);
    FilterSubsequence(all, CategoryTest(category));
  }

  /** The search view is the category filter AND the term match. */
  lemma SearchViewExact(all: seq<Post>, category: string, term: string, p: Post)
    ensures p in SearchView(all, category, term) <==>
      p in all && (category == AllCategories || p.category == Some(category))
      && (Trim(JavaScript, term) == "" || MatchesSearch(p, term))
  {
    var byCategory := if category != AllCategories then Filter(all, CategoryTest(category)) else all;
    if category != AllCategories {
      FilterMember(all, CategoryTest(category), p);
    }
    if Trim(JavaScript, term) != "" {
      FilterMember(byCategory, SearchTest(term), p);
    }
  }

  /** A post the search view shows occurs there as often as in the loaded list. */
  lemma SearchViewCount(all: seq<Post>, category: string, term: string, p: Post)
    ensures multiset(SearchView(all, category, term))[p] ==
      if (category == AllCategories || p.category == Some(category))
         && (Trim(JavaScript, term) == "" || MatchesSearch(p, term))
      then multiset(all)[p] else 0
  {
    var byCategory := if category != AllCategories then Filter(all, CategoryTest(category)) else all;
    if category != AllCategories {
      FilterCount(all, CategoryTest(category), p);
    }
    if Trim(JavaScript, term) != "" {
      FilterCount(byCategory, SearchTest(term), p);
    }
  }

  /** The search view keeps the loaded order. */
  lemma SearchViewOrder(all: seq<Post>, category: string, term: string)
    ensures Subsequence(SearchView(all, category, term), all)
  {
    var byCategory := if category != AllCategories then Filter(all, CategoryTest(category)) else all;
    if category != AllCategories {
      FilterSubsequence(all, CategoryTest(category));
    } else {
      SubsequenceRefl(all);
    }
    if Trim(JavaScript, term) != "" {
      FilterSubsequence(byCategory, SearchTest(term));
      SubsequenceTrans(Filter(byCategory, SearchTest(term)), byCategory, all);
    }
  }

  /** A term made only of white space leaves just the category filter. */
  lemma BlankSearchIsCategoryView(all: seq<Post>, category: string, term: string)
    requires AllSpace(JavaScript, term)
    ensures SearchView(all, category, term) == CategoryView(all, category)
  {
    TrimEmptyIff(JavaScript, term);
  }

  /** A post without title, content or author is never found, and nothing fails for it. */
  lemma MissingFieldsNeverMatch(p: Post, term: string)
    requires p.title.None? && p.content.None? && p.author.None?
    ensures !MatchesSearch(p, term)
  {
  }

  /** A filter of one post keeps it exactly when the test accepts it. */
  lemma FilterOne(p: Post, test: Post -> bool)
    ensures Filter([p], test) == if test(p) then [p] else []
  {
    assert [p][..0] == [];
  }

  lemma NewsIsNotBlank()
    ensures Trim(JavaScript, " news") == "news"
  {
    assert TrimStart(JavaScript, "news") == "news";
    assert TrimStart(JavaScript, " news") == "news";
    assert TrimEnd(JavaScript, "news") == "news";
  }

  /**
   * A non-blank term is matched as typed, surrounding spaces included: " news"
   * does not find a post titled "news".
   */
  lemma UntrimmedTermExample()
    ensures var p := Post(Some("news"), None, None, None, 0, None);
      SearchView([p], AllCategories, " news") == []
  {
    var p := Post(Some("news"), None, None, None, 0, None);
    NewsIsNotBlank();
    ContainsNeedsRoom(Lower("news"), Lower(" news"));
    assert !MatchesSearch(p, " news");
    FilterOne(p, SearchTest(" news"));
  }

  lemma TravelLowered()
    ensures Lower("TRAVEL") == "travel" && Lower("travel") == "travel"
  {
    var up, low := "TRAVEL", "travel";
    assert forall k :: 0 <= k < 6 ==> LowerChar(up[k]) == low[k] && LowerChar(low[k]) == low[k];
  }

  lemma TravelNotBlank()
    ensures Trim(JavaScript, "TRAVEL") == "TRAVEL"
  {
    assert TrimStart(JavaScript, "TRAVEL") == "TRAVEL";
    assert TrimEnd(JavaScript, "TRAVEL") == "TRAVEL";
  }

  /** Case is ignored: "TRAVEL" finds a post whose content is "travel". */
  lemma CaseInsensitiveExample()
    ensures var p := Post(None, Some("travel"), None, None, 0, None);
      SearchView([p], AllCategories, "TRAVEL") == [p]
  {
    var p := Post(None, Some("travel"), None, None, 0, None);
    TravelLowered();
    TravelNotBlank();
    assert OccursAt("travel", "travel", 0);
    assert MatchesSearch(p, "TRAVEL");
    FilterOne(p, SearchTest("TRAVEL"));
  }

  /**
   * Sorting shows the same posts, newest (or most liked) first, with equally
   * ranked posts in the order they had; an unknown sort type changes nothing.
   */
  lemma SortViewMeaning(shown: seq<Post>, sortType: string, r: Rank)
    ensures multiset(SortView(shown, sortType)) == multiset(shown)
    ensures sortType == Latest ==> SortedDesc(SortView(shown, sortType), LatestRank)
    ensures sortType == Latest ==> WithRank(SortView(shown, sortType), LatestRank, r) == WithRank(shown, LatestRank, r)
    ensures sortType == Popular ==> SortedDesc(SortView(shown, sortType), PopularRank)
    ensures sortType == Popular ==> WithRank(SortView(shown, sortType), PopularRank, r) == WithRank(shown, PopularRank, r)
    ensures sortType != Latest && sortType != Popular ==> SortView(shown, sortType) == shown
  {
    if sortType == Latest {
      SortDescPermutes(shown, LatestRank);
      SortDescSorted(shown, LatestRank);
      SortDescStable(shown, LatestRank, r);
    } else if sortType == Popular {
      SortDescPermutes(shown, PopularRank);
      SortDescSorted(shown, PopularRank);
      SortDescStable(shown, PopularRank, r);
    }
  }

  /** Sorting twice by the same key is sorting once. */
  lemma SortViewIdempotent(shown: seq<Post>, sortType: string)
    ensures SortView(SortView(shown, sortType), sortType) == SortView(shown, sortType)
  {
    if sortType == Latest {
      SortDescSorted(shown, LatestRank);
      SortDescOfSorted(SortDesc(shown, LatestRank), LatestRank);
    } else if sortType == Popular {
      SortDescSorted(shown, PopularRank);
      SortDescOfSorted(SortDesc(shown, PopularRank), PopularRank);
    }
  }
}

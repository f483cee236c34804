/** The discussion forum listing: the search / category / solved filter and the sort of its result. */
module Forum {
  import opened Common
  import Seqs
  import Text

  datatype Author = Author(id: string, name: string, avatarUrl: string)

  /** A forum post; `solved` is absent on posts that were never marked. */
  datatype ForumPost = ForumPost(
    id: string,
    title: string,
    content: string,
    author: Author,
    category: string,
    createdAt: string,
    likes: int,
    replies: int,
    solved: Option<bool>,
    tags: seq<string>)

  /** `post.solved` is truthy. */
  predicate IsSolved(p: ForumPost)
  {
    p.solved == Some(true)
  }

  /** The lower-cased title, content or one of the tags contains the lower-cased search term. */
  predicate MatchesSearch(p: ForumPost, searchTerm: string)
  {
    var q := Text.Lower(searchTerm);
    Text.Contains(Text.Lower(p.title), q)
    || Text.Contains(Text.Lower(p.content), q)
    || exists i :: 0 <= i < |p.tags| && Text.Contains(Text.Lower(p.tags[i]), q)
  }

  /** "All Categories" is a wildcard; any other value must equal the post's category. */
  predicate MatchesCategory(p: ForumPost, selectedCategory: string)
  {
    selectedCategory == "All Categories" || p.category == selectedCategory
  }

  /** The solved tab: "all", "solved" or "unsolved"; any other value admits no post. */
  predicate MatchesFilter(p: ForumPost, postFilter: string)
  {
    postFilter == "all"
    || (postFilter == "solved" && IsSolved(p))
    || (postFilter == "unsolved" && !IsSolved(p))
  }

  predicate PostMatches(p: ForumPost, searchTerm: string, selectedCategory: string, postFilter: string)
  {
    MatchesSearch(p, searchTerm) && MatchesCategory(p, selectedCategory) && MatchesFilter(p, postFilter)
  }

  /** `filteredPosts`: exactly the posts that pass the search, category and solved tests, in list order. */
  function FilteredPosts(posts: seq<ForumPost>, searchTerm: string, selectedCategory: string, postFilter: string)
    : (r: seq<ForumPost>)
    ensures Seqs.IsSubsequence(r, posts)
    ensures forall x :: multiset(r)[x]
                        == if PostMatches(x, searchTerm, selectedCategory, postFilter) then multiset(posts)[x] else 0
  {
    var p := (x: ForumPost) => PostMatches(x, searchTerm, selectedCategory, postFilter);
    Seqs.FilterSelects(p, posts);
    Seqs.Filter(p, posts)
  }

  /** An empty search term passes every post: every lower-cased string contains "". */
  lemma EmptySearchMatchesAll(p: ForumPost)
    ensures MatchesSearch(p, "")
  {
    Text.ContainsEmpty(Text.Lower(p.title));
  }

  /** With no search term, "All Categories" and "all", the listing shows every post in order. */
  lemma UnfilteredListingIsEverything(posts: seq<ForumPost>)
    ensures FilteredPosts(posts, "", "All Categories", "all") == posts
  {
    forall i | 0 <= i < |posts| ensures PostMatches(posts[i], "", "All Categories", "all") {
      EmptySearchMatchesAll(posts[i]);
    }
    Seqs.FilterKeepsAll((x: ForumPost) => PostMatches(x, "", "All Categories", "all"), posts);
  }

  /** The "solved" and "unsolved" tabs split the "all" tab: no post is in both, and together they
      hold every post of "all" exactly as often. */
  lemma SolvedTabsPartitionAll(posts: seq<ForumPost>, searchTerm: string, selectedCategory: string)
    ensures var solved := FilteredPosts(posts, searchTerm, selectedCategory, "solved");
            var unsolved := FilteredPosts(posts, searchTerm, selectedCategory, "unsolved");
            && multiset(solved) + multiset(unsolved) == multiset(FilteredPosts(posts, searchTerm, selectedCategory, "all"))
            && multiset(solved) * multiset(unsolved) == multiset{}
  {
    var solved := FilteredPosts(posts, searchTerm, selectedCategory, "solved");
    var unsolved := FilteredPosts(posts, searchTerm, selectedCategory, "unsolved");
    var all := FilteredPosts(posts, searchTerm, selectedCategory, "all");
    forall x ensures (multiset(solved) + multiset(unsolved))[x] == multiset(all)[x]
                 && (multiset(solved) * multiset(unsolved))[x] == multiset{}[x]
    {
      var base := MatchesSearch(x, searchTerm) && MatchesCategory(x, selectedCategory);
      assert PostMatches(x, searchTerm, selectedCategory, "solved") == (base && IsSolved(x));
      assert PostMatches(x, searchTerm, selectedCategory, "unsolved") == (base && !IsSolved(x));
      assert PostMatches(x, searchTerm, selectedCategory, "all") == base;
    }
    assert multiset(solved) + multiset(unsolved) == multiset(all);
    assert multiset(solved) * multiset(unsolved) == multiset{};
  }

  /** A solved-filter value other than the three tabs empties the listing. */
  lemma UnknownFilterShowsNothing(posts: seq<ForumPost>, searchTerm: string, selectedCategory: string, postFilter: string)
    requires postFilter != "all" && postFilter != "solved" && postFilter != "unsolved"
    ensures FilteredPosts(posts, searchTerm, selectedCategory, postFilter) == []
  {
  }

  /** The sort key the comparator orders by, largest first; "recent" and unknown keys compare all
      posts as equal (the comparator answers 0). */
  function SortKey(sortBy: string): (key: ForumPost -> int)
    ensures sortBy == "popular" ==> forall p :: key(p) == p.likes
    ensures sortBy == "replied" ==> forall p :: key(p) == p.replies
    ensures sortBy != "popular" && sortBy != "replied" ==> forall p, q :: key(p) == key(q)
  {
    if sortBy == "popular" then (p: ForumPost) => p.likes
    else if sortBy == "replied" then (p: ForumPost) => p.replies
    else (p: ForumPost) => 0
  }

  /** `sortedPosts`: a sorted copy of the filtered posts. It is a permutation of them; "popular" orders
      by likes and "replied" by replies, largest first, and posts that compare equal keep their order;
      "recent" and unknown keys leave the order as it was. */
  function SortedPosts(filtered: seq<ForumPost>, sortBy: string): (r: seq<ForumPost>)
    ensures multiset(r) == multiset(filtered)
    ensures sortBy == "popular" ==> forall i, j :: 0 <= i < j < |r| ==> r[i].likes >= r[j].likes
    ensures sortBy == "replied" ==> forall i, j :: 0 <= i < j < |r| ==> r[i].replies >= r[j].replies
    ensures Seqs.StableWrt(SortKey(sortBy), r, filtered)
    ensures sortBy != "popular" && sortBy != "replied" ==> r == filtered
  {
    if sortBy != "popular" && sortBy != "replied" then
      Seqs.ConstantKeySortIsIdentity(SortKey(sortBy), filtered, 0);
      Seqs.SortDesc(SortKey(sortBy), filtered)
    else
      Seqs.SortDesc(SortKey(sortBy), filtered)
  }
}

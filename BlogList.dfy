/**
 * The post list of frontend/components/BlogList.tsx: the tag cloud built from
 * the fetched posts, the search-and-tag filter, the tag toggle, and the cards
 * it renders with the first one featured.
 */
module BlogList {
  import opened Wrappers
  import opened Seqs
  import opened Strings
  import opened Server
  import opened BlogCard

  /** A fetched post as the list uses it; `content` may be missing. */
  datatype ListBlog = ListBlog(id: string, title: string, content: Option<string>, tags: seq<string>)

  // ---------------------------------------------------------------------------
  // allTags
  // ---------------------------------------------------------------------------

  /** `blogs.flatMap((blog) => blog.tags)`. */
  function FlatTags(blogs: seq<ListBlog>): (r: seq<string>)
    ensures forall t :: t in r <==> exists b :: b in blogs && t in b.tags
  {
    if |blogs| == 0 then []
    else
      assert blogs == [blogs[0]] + blogs[1..];
      blogs[0].tags + FlatTags(blogs[1..])
  }

  /** Every element sorts strictly before every later one (so there are no
      duplicates). */
  predicate StrictlySorted(s: seq<string>)
  {
    forall i, j :: 0 <= i < j < |s| ==> Less(s[i], s[j])
  }

  /** `t` put into its place in a strictly sorted list, unless already there. */
  function InsertSorted(t: string, s: seq<string>): (r: seq<string>)
    requires StrictlySorted(s)
    ensures StrictlySorted(r)
    ensures forall x :: x in r <==> x == t || x in s
    decreases |s|
  {
    if |s| == 0 then [t]
    else if t == s[0] then s
    else if Less(t, s[0]) then
      assert forall j :: 0 <= j < |s| ==> Less(t, s[j]) by {
        forall j | 0 <= j < |s| ensures Less(t, s[j]) {
          if j > 0 { LessTransitive(t, s[0], s[j]); }
        }
      }
      [t] + s
    else
      LessTotal(t, s[0]);
      var rest := InsertSorted(t, s[1..]);
      assert forall x :: x in rest ==> Less(s[0], x) by {
        forall x | x in rest ensures Less(s[0], x) {
          if x != t {
            var j :| 0 <= j < |s[1..]| && s[1..][j] == x;
            assert s[j + 1] == x;
          }
        }
      }
      assert s == [s[0]] + s[1..];
      [s[0]] + rest
  }

  /** `Array.from(new Set(s)).sort()`: the distinct elements of `s` in order. */
  function SortedDistinct(s: seq<string>): (r: seq<string>)
    ensures StrictlySorted(r)
    ensures forall x :: x in r <==> x in s
    decreases |s|
  {
    if |s| == 0 then []
    else
      assert s == [s[0]] + s[1..];
      InsertSorted(s[0], SortedDistinct(s[1..]))
  }

  /** The tag cloud. */
  function AllTags(blogs: seq<ListBlog>): seq<string>
  {
    SortedDistinct(FlatTags(blogs))
  }

  /** The tag cloud is sorted, holds no tag twice, and holds precisely the tags
      that some post carries. */
  lemma AllTagsIsSortedUnion(blogs: seq<ListBlog>)
    ensures var tags := AllTags(blogs);
      && StrictlySorted(tags)
      && (forall i, j :: 0 <= i < j < |tags| ==> tags[i] != tags[j])
      && (forall t :: t in tags <==> exists b :: b in blogs && t in b.tags)
  {
    var tags := AllTags(blogs);
    forall i, j | 0 <= i < j < |tags| ensures tags[i] != tags[j] {
      if tags[i] == tags[j] {
        LessIrreflexive(tags[i]);
      }
    }
  }

  /** The first element of a strictly sorted list sorts before every other. */
  lemma FirstIsLeast(s: seq<string>, x: string)
    requires StrictlySorted(s) && x in s
    ensures s[0] == x || Less(s[0], x)
  {
    var j :| 0 <= j < |s| && s[j] == x;
    if j > 0 {
      assert Less(s[0], s[j]);
    }
  }

  /** Lists with the same elements are both empty or both not. */
  lemma SameMembersSameEmptiness(a: seq<string>, b: seq<string>)
    requires forall x :: x in a <==> x in b
    ensures |a| == 0 <==> |b| == 0
  {
    if |a| > 0 {
      assert a[0] in b;
    }
    if |b| > 0 {
      assert b[0] in a;
    }
  }

  /** A sorted, duplicate-free list is determined by its elements. */
  lemma {:induction false} SortedByMembers(a: seq<string>, b: seq<string>)
    requires StrictlySorted(a) && StrictlySorted(b)
    requires forall x :: x in a <==> x in b
    ensures a == b
    decreases |a|
  {
    SameMembersSameEmptiness(a, b);
    if |a| > 0 {
      FirstIsLeast(b, a[0]);
      FirstIsLeast(a, b[0]);
      if Less(a[0], b[0]) {
        LessAsymmetric(a[0], b[0]);
      }
      assert a[0] == b[0];
      forall x | x in a[1..]
        ensures x in b[1..]
      {
        var j :| 0 <= j < |a[1..]| && a[1..][j] == x;
        assert Less(a[0], a[j + 1]);
        LessIrreflexive(x);
        assert x in b && x != b[0];
      }
      forall x | x in b[1..]
        ensures x in a[1..]
      {
        var j :| 0 <= j < |b[1..]| && b[1..][j] == x;
        assert Less(b[0], b[j + 1]);
        LessIrreflexive(x);
        assert x in a && x != a[0];
      }
      SortedByMembers(a[1..], b[1..]);
      assert a == [a[0]] + a[1..] && b == [b[0]] + b[1..];
    }
  }

  /** The tag cloud does not depend on the order of the posts. */
  lemma AllTagsIgnoresOrder(blogs: seq<ListBlog>, other: seq<ListBlog>)
    requires multiset(blogs) == multiset(other)
    ensures AllTags(blogs) == AllTags(other)
  {
    forall t ensures t in AllTags(blogs) <==> t in AllTags(other) {
      if t in AllTags(blogs) {
        var b :| b in blogs && t in b.tags;
        assert b in multiset(other);
      }
      if t in AllTags(other) {
        var b :| b in other && t in b.tags;
        assert b in multiset(blogs);
      }
    }
    SortedByMembers(AllTags(blogs), AllTags(other));
  }

  // ---------------------------------------------------------------------------
  // filteredBlogs
  // ---------------------------------------------------------------------------

  /** The number of content characters the search and the card look at. */
  const ExcerptLength: nat := 150

  /** The start of the content, or `""` when there is none. */
  function Excerpt(b: ListBlog): string
  {
    if b.content.Some? && b.content.value != "" then Take(b.content.value, ExcerptLength) else ""
  }

  /** The search term, case-insensitively, in the title or the excerpt; the
      empty term matches everything. */
  predicate MatchesSearch(b: ListBlog, term: string)
  {
    term == "" ||
    Includes(ToLower(b.title), ToLower(term)) ||
    Includes(ToLower(Excerpt(b)), ToLower(term))
  }

  /** The post carries every selected tag. */
  predicate MatchesTags(b: ListBlog, selected: seq<string>)
  {
    |selected| == 0 || forall i :: 0 <= i < |selected| ==> selected[i] in b.tags
  }

  predicate Keeps(b: ListBlog, term: string, selected: seq<string>)
  {
    MatchesSearch(b, term) && MatchesTags(b, selected)
  }

  /** `blogs.filter(...)`. */
  function FilteredBlogs(blogs: seq<ListBlog>, term: string, selected: seq<string>): (r: seq<ListBlog>)
    ensures IsSubsequence(r, blogs)
    ensures forall b :: b in r <==> b in blogs && Keeps(b, term, selected)
    decreases |blogs|
  {
    if |blogs| == 0 then []
    else
      var rest := FilteredBlogs(blogs[1..], term, selected);
      assert blogs == [blogs[0]] + blogs[1..];
      if Keeps(blogs[0], term, selected) then [blogs[0]] + rest else rest
  }

  /** The filter drops no copy of a kept post: each post occurs in the result
      as often as in the input when it matches, and not at all otherwise. */
  lemma {:induction false} FilteredBlogsCounts(blogs: seq<ListBlog>, term: string, selected: seq<string>, b: ListBlog)
    ensures multiset(FilteredBlogs(blogs, term, selected))[b] ==
      if Keeps(b, term, selected) then multiset(blogs)[b] else 0
    decreases |blogs|
  {
    if |blogs| > 0 {
      FilteredBlogsCounts(blogs[1..], term, selected, b);
      assert blogs == [blogs[0]] + blogs[1..];
      assert multiset(blogs)[b] == multiset{blogs[0]}[b] + multiset(blogs[1..])[b];
    }
  }

  /** With no search term and no selected tag every post is listed, in order. */
  lemma {:induction false} NoFilterKeepsAll(blogs: seq<ListBlog>)
    ensures FilteredBlogs(blogs, "", []) == blogs
    decreases |blogs|
  {
    if |blogs| > 0 {
      NoFilterKeepsAll(blogs[1..]);
      assert blogs == [blogs[0]] + blogs[1..];
    }
  }

  /** Every listed post carries every selected tag, and matches the term in
      its title or the first 150 characters of its content. */
  lemma KeptPostsMatch(blogs: seq<ListBlog>, term: string, selected: seq<string>)
    ensures forall b :: b in FilteredBlogs(blogs, term, selected) ==>
      (forall t :: t in selected ==> t in b.tags) &&
      (term == "" ||
       (exists i :: OccursAt(ToLower(b.title), ToLower(term), i)) ||
       (exists i :: OccursAt(ToLower(Excerpt(b)), ToLower(term), i)))
  {
    forall b | b in FilteredBlogs(blogs, term, selected)
      ensures term == "" ||
              (exists i :: OccursAt(ToLower(b.title), ToLower(term), i)) ||
              (exists i :: OccursAt(ToLower(Excerpt(b)), ToLower(term), i))
    {
      IncludesIffOccurs(ToLower(b.title), ToLower(term));
      IncludesIffOccurs(ToLower(Excerpt(b)), ToLower(term));
    }
  }

  /** The excerpt is at most 150 characters (code points) of the start of
      the content. */
  lemma ExcerptIsContentStart(b: ListBlog)
    ensures |Excerpt(b)| <= ExcerptLength
    ensures b.content.Some? ==> IsPrefix(Excerpt(b), b.content.value)
    ensures b.content.Some? && |b.content.value| <= ExcerptLength ==> Excerpt(b) == b.content.value
  {
  }

  /** Lower-casing twice is lower-casing once. */
  lemma ToLowerIdempotent(s: string)
    ensures ToLower(ToLower(s)) == ToLower(s)
  {
  }

  /** The term's own letter case does not matter. */
  lemma SearchIgnoresTermCase(b: ListBlog, term: string)
    ensures MatchesSearch(b, ToLower(term)) == MatchesSearch(b, term)
  {
    ToLowerIdempotent(term);
    if term != "" {
      assert |ToLower(term)| == |term|;
    }
  }

  // ---------------------------------------------------------------------------
  // Posts from the public list
  // ---------------------------------------------------------------------------

  /** The posts of `GET /api/public/blogs`: the route selects no content. */
  function FromPublicList(list: seq<Summary>): seq<ListBlog>
  {
    seq(|list|, i requires 0 <= i < |list| => ListBlog(IntToString(list[i].id), list[i].title, None, list[i].tags))
  }

  /** Because the public list carries no content, a non-empty search term only
      ever matches the title of a listed post. */
  lemma PublicPostsMatchTitleOnly(list: seq<Summary>, term: string, i: int)
    requires 0 <= i < |list| && term != ""
    ensures var b := FromPublicList(list)[i];
      MatchesSearch(b, term) <==> Includes(ToLower(b.title), ToLower(term))
  {
    var b := FromPublicList(list)[i];
    assert Excerpt(b) == "";
    assert ToLower("") == "";
    assert |ToLower(term)| == |term|;
  }

  // ---------------------------------------------------------------------------
  // toggleTag
  // ---------------------------------------------------------------------------

  /** `prev.filter((t) => t !== tag)`. */
  function Without(s: seq<string>, tag: string): (r: seq<string>)
    ensures IsSubsequence(r, s)
    ensures forall x :: x in r <==> x in s && x != tag
    ensures multiset(r) == multiset(s)[tag := 0]
    decreases |s|
  {
    if |s| == 0 then []
    else
      var rest := Without(s[1..], tag);
      assert s == [s[0]] + s[1..];
      assert multiset(s) == multiset{s[0]} + multiset(s[1..]);
      if s[0] == tag then rest else [s[0]] + rest
  }

  /** `toggleTag(tag)`. */
  function ToggleTag(selected: seq<string>, tag: string): seq<string>
  {
    if tag in selected then Without(selected, tag) else selected + [tag]
  }

  /** Toggling a selected tag removes every copy of it and keeps the others in
      order; toggling an unselected one appends it. */
  lemma ToggleCases(selected: seq<string>, tag: string)
    ensures tag in selected ==> var r := ToggleTag(selected, tag);
      tag !in r && IsSubsequence(r, selected) && forall x :: x != tag ==> (x in r <==> x in selected)
    ensures tag !in selected ==> ToggleTag(selected, tag) == selected + [tag]
  {
  }

  /** Removing a tag that is not there changes nothing. */
  lemma {:induction false} WithoutAbsent(s: seq<string>, tag: string)
    requires tag !in s
    ensures Without(s, tag) == s
    decreases |s|
  {
    if |s| > 0 {
      assert s == [s[0]] + s[1..];
      WithoutAbsent(s[1..], tag);
    }
  }

  /** Removing a tag from a list with that tag appended removes just the
      appended copy when the tag was not there before. */
  lemma {:induction false} WithoutAppended(s: seq<string>, tag: string)
    requires tag !in s
    ensures Without(s + [tag], tag) == s
    decreases |s|
  {
    if |s| == 0 {
      assert [tag][1..] == [];
    } else {
      assert (s + [tag])[1..] == s[1..] + [tag];
      WithoutAppended(s[1..], tag);
      assert s == [s[0]] + s[1..];
    }
  }

  /** Toggling an unselected tag twice gives back the same selection. */
  lemma ToggleTwiceRestores(selected: seq<string>, tag: string)
    requires tag !in selected
    ensures ToggleTag(ToggleTag(selected, tag), tag) == selected
  {
    assert tag in selected + [tag];
    WithoutAppended(selected, tag);
  }

  // ---------------------------------------------------------------------------
  // The cards
  // ---------------------------------------------------------------------------

  /** The card props of the listed posts: the first one featured. */
  function Cards(shown: seq<ListBlog>): (cards: seq<CardProps>)
    ensures |cards| == |shown|
  {
    seq(|shown|, i requires 0 <= i < |shown| =>
      CardProps(shown[i].id, shown[i].title, Excerpt(shown[i]), Some(shown[i].tags),
                Some(if i == 0 then Featured else Default)))
  }

  /** Only the first card is featured, so a non-empty list has exactly one
      featured card; every card links to its own post and shows its tags. */
  lemma OnlyFirstCardFeatured(shown: seq<ListBlog>)
    ensures forall i :: 0 <= i < |shown| ==> (Render(Cards(shown)[i]).featured <==> i == 0)
    ensures forall i :: 0 <= i < |shown| ==> Render(Cards(shown)[i]).href == "/posts/" + shown[i].id
    ensures forall i :: 0 <= i < |shown| ==> TagsOf(Cards(shown)[i]) == shown[i].tags
  {
    forall i | 0 <= i < |shown|
      ensures Render(Cards(shown)[i]).featured <==> i == 0
    {
      Defaults(Cards(shown)[i]);
    }
  }
}

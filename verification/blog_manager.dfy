/** The blog post list: a three-way status filter over the loaded posts and
    the list update after a delete. */
module BlogManager {
  import opened Seqs

  datatype Post = Post(id: string, title: string, published: bool)

  /** The post a filter value shows: everything for "all", the published
      posts for "published", and the drafts for any other value. */
  predicate Shows(filter: string, p: Post) {
    filter == "all" || (if filter == "published" then p.published else !p.published)
  }

  /** `filteredPosts`. */
  function FilteredPosts(posts: seq<Post>, filter: string): (r: seq<Post>)
    ensures forall i :: 0 <= i < |r| ==> r[i] in posts && Shows(filter, r[i])
    ensures forall i :: 0 <= i < |posts| && Shows(filter, posts[i]) ==> posts[i] in r
    ensures filter == "all" ==> r == posts
    ensures multiset(r) <= multiset(posts)
  {
    var keep := (p: Post) => Shows(filter, p);
    if filter == "all" then
      FilterAcceptingAll(posts, keep);
      Filter(posts, keep)
    else Filter(posts, keep)
  }

  /** The published and draft views split the posts: no post is in both,
      every post is in one, and their sizes add up. */
  lemma {:induction false} ViewsPartition(posts: seq<Post>)
    ensures var pub := FilteredPosts(posts, "published");
      var drafts := FilteredPosts(posts, "draft");
      && multiset(pub) + multiset(drafts) == multiset(posts)
      && |pub| + |drafts| == |posts|
      && (forall i, j :: 0 <= i < |pub| && 0 <= j < |drafts| ==> pub[i] != drafts[j])
  {
    FilterPartition(posts, (p: Post) => Shows("published", p), (p: Post) => Shows("draft", p));
  }

  /** Each view keeps the posts in their list order. */
  lemma FilterKeepsOrder(front: seq<Post>, back: seq<Post>, filter: string)
    ensures FilteredPosts(front + back, filter) == FilteredPosts(front, filter) + FilteredPosts(back, filter)
  {
    FilterConcat(front, back, (p: Post) => Shows(filter, p));
  }

  /** The list update in `deletePost`: every post with that id is gone; the
      others stay. */
  function DeletePost(posts: seq<Post>, id: string): (r: seq<Post>)
    ensures forall i :: 0 <= i < |r| ==> r[i].id != id && r[i] in posts
    ensures forall i :: 0 <= i < |posts| && posts[i].id != id ==> posts[i] in r
    ensures (forall i :: 0 <= i < |posts| ==> posts[i].id != id) ==> r == posts
  {
    var keep := (p: Post) => p.id != id;
    if forall i :: 0 <= i < |posts| ==> posts[i].id != id then
      FilterAcceptingAll(posts, keep);
      Filter(posts, keep)
    else Filter(posts, keep)
  }

  /** Survivors of a delete keep their relative order. */
  lemma DeleteKeepsOrder(front: seq<Post>, back: seq<Post>, id: string)
    ensures DeletePost(front + back, id) == DeletePost(front, id) + DeletePost(back, id)
  {
    FilterConcat(front, back, (p: Post) => p.id != id);
  }
}

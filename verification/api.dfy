/**
  The in-memory mock store of the forum (api.ts): communities, posts and
  top-level comments with their replies, the lookups and filters that read it,
  and the mutations that append records and bump counters.

  Each mock call is a synchronous transformer of a `Store` value; the simulated
  network delay is not part of the model. `Array.prototype.find` is
  `Seqs.FirstIndex`, `filter` is `Seqs.Filter`, and a thrown `Error` is `Err`.
 */
module Api {
  import opened Wrappers
  import opened Text
  import Seqs
  import Vote

  datatype Community = Community(
    id: string,
    name: string,
    slug: string,
    description: string,
    memberCount: int,
    imageUrl: string,
    createdAt: string,
    isPopular: bool)

  datatype Post = Post(
    id: string,
    title: string,
    content: string,
    authorId: string,
    authorUsername: string,
    communityId: string,
    communityName: string,
    communitySlug: string,
    upvotes: int,
    downvotes: int,
    commentCount: int,
    createdAt: string,
    imageUrl: string)

  /** A reply: a comment without replies of its own, with the id of its parent. */
  datatype Reply = Reply(
    id: string,
    postId: string,
    parentId: string,
    authorId: string,
    authorUsername: string,
    content: string,
    upvotes: int,
    downvotes: int,
    createdAt: string)

  /** A top-level comment and its replies. */
  datatype Comment = Comment(
    id: string,
    postId: string,
    authorId: string,
    authorUsername: string,
    content: string,
    upvotes: int,
    downvotes: int,
    createdAt: string,
    replies: seq<Reply>)

  /** `MOCK_COMMUNITIES`, `MOCK_POSTS` and `MOCK_COMMENTS`. */
  datatype Store = Store(communities: seq<Community>, posts: seq<Post>, comments: seq<Comment>)

  // ---------------------------------------------------------------------------
  // Reads

  /** `fetchAllCommunities`. */
  function FetchAllCommunities(st: Store): seq<Community>
  {
    st.communities
  }

  /** `fetchPopularCommunities`: the popular communities, in store order. */
  function FetchPopularCommunities(st: Store): (r: seq<Community>)
    ensures forall c :: c in r ==> c in st.communities && c.isPopular
    ensures forall c :: c in st.communities && c.isPopular ==> c in r
    ensures Seqs.IsSubsequence(r, st.communities)
    ensures forall c :: multiset(r)[c] == if c.isPopular then multiset(st.communities)[c] else 0
  {
    Seqs.FilterIsSubsequence(st.communities, (c: Community) => c.isPopular);
    Seqs.Filter(st.communities, (c: Community) => c.isPopular)
  }

  /** `fetchCommunity`: the first community with this slug, or the not-found error. */
  function FetchCommunity(st: Store, slug: string): (r: Result<Community>)
    ensures r.Ok? ==> exists i :: 0 <= i < |st.communities| && st.communities[i] == r.value &&
                        forall j :: 0 <= j < i ==> st.communities[j].slug != slug
    ensures r.Ok? ==> r.value.slug == slug
    ensures r.Err? <==> forall i :: 0 <= i < |st.communities| ==> st.communities[i].slug != slug
    ensures r.Err? ==> r.message == "Community with slug '" + slug + "' not found"
  {
    match Seqs.FirstIndex(st.communities, (c: Community) => c.slug == slug)
    case Some(i) => Ok(st.communities[i])
    case None => Err("Community with slug '" + slug + "' not found")
  }

  /** `fetchAllPosts`. */
  function FetchAllPosts(st: Store): seq<Post>
  {
    st.posts
  }

  /** `fetchCommunityPosts`: the posts whose `communitySlug` equals the argument, in order. */
  function FetchCommunityPosts(st: Store, communitySlug: string): (r: seq<Post>)
    ensures forall p :: p in r ==> p in st.posts && p.communitySlug == communitySlug
    ensures forall p :: p in st.posts && p.communitySlug == communitySlug ==> p in r
    ensures Seqs.IsSubsequence(r, st.posts)
    ensures forall p :: multiset(r)[p] == if p.communitySlug == communitySlug then multiset(st.posts)[p] else 0
  {
    Seqs.FilterIsSubsequence(st.posts, (p: Post) => p.communitySlug == communitySlug);
    Seqs.Filter(st.posts, (p: Post) => p.communitySlug == communitySlug)
  }

  /** `fetchPost`: the first post with this id, or the not-found error. */
  function FetchPost(st: Store, postId: string): (r: Result<Post>)
    ensures r.Ok? ==> exists i :: 0 <= i < |st.posts| && st.posts[i] == r.value &&
                        forall j :: 0 <= j < i ==> st.posts[j].id != postId
    ensures r.Ok? ==> r.value.id == postId
    ensures r.Err? <==> forall i :: 0 <= i < |st.posts| ==> st.posts[i].id != postId
    ensures r.Err? ==> r.message == "Post with ID '" + postId + "' not found"
  {
    match Seqs.FirstIndex(st.posts, (p: Post) => p.id == postId)
    case Some(i) => Ok(st.posts[i])
    case None => Err("Post with ID '" + postId + "' not found")
  }

  /** `fetchPostComments`: the top-level comments of a post, in order; replies travel inside them. */
  function FetchPostComments(st: Store, postId: string): (r: seq<Comment>)
    ensures forall c :: c in r ==> c in st.comments && c.postId == postId
    ensures forall c :: c in st.comments && c.postId == postId ==> c in r
    ensures Seqs.IsSubsequence(r, st.comments)
    ensures forall c :: multiset(r)[c] == if c.postId == postId then multiset(st.comments)[c] else 0
  {
    Seqs.FilterIsSubsequence(st.comments, (c: Comment) => c.postId == postId);
    Seqs.Filter(st.comments, (c: Comment) => c.postId == postId)
  }

  // ---------------------------------------------------------------------------
  // Generated ids

  /** The i-th community (from 0) has id `(i + 1).toString()`, as the initial data and `createCommunity` give. */
  predicate CommunityIdsSequential(cs: seq<Community>)
  {
    forall i :: 0 <= i < |cs| ==> cs[i].id == NatToString(i + 1)
  }

  /** The i-th post (from 0) has id `(i + 1).toString()`, as the initial data and `createPost` give. */
  predicate PostIdsSequential(ps: seq<Post>)
  {
    forall i :: 0 <= i < |ps| ==> ps[i].id == NatToString(i + 1)
  }

  /** With sequential ids, the position of a post is determined by its id. */
  lemma PostIdsUnique(ps: seq<Post>, i: nat, j: nat)
    requires PostIdsSequential(ps)
    requires i < |ps| && j < |ps| && ps[i].id == ps[j].id
    ensures i == j
  {
    NatToStringInjective(i + 1, j + 1);
  }

  /** With sequential ids, the position of a community is determined by its id. */
  lemma CommunityIdsUnique(cs: seq<Community>, i: nat, j: nat)
    requires CommunityIdsSequential(cs)
    requires i < |cs| && j < |cs| && cs[i].id == cs[j].id
    ensures i == j
  {
    NatToStringInjective(i + 1, j + 1);
  }

  // ---------------------------------------------------------------------------
  // Creating records

  /**
    `createCommunity`: appends one community with id `length + 1`, the slug
    `createSlug(name)`, one member and not popular; nothing else changes.
    `createSlug` comes from a module that is not part of this model, so it is
    a parameter; so is the creation timestamp.
   */
  function CreateCommunity(st: Store, name: string, description: string, createdAt: string,
                           createSlug: string -> string): (r: (Store, Community))
    ensures r.0.communities == st.communities + [r.1]
    ensures r.0.posts == st.posts && r.0.comments == st.comments
    ensures r.1.id == NatToString(|st.communities| + 1)
    ensures r.1.name == name && r.1.slug == createSlug(name) && r.1.description == description
    ensures r.1.memberCount == 1 && r.1.imageUrl == "" && r.1.createdAt == createdAt && !r.1.isPopular
  {
    var c := Community(NatToString(|st.communities| + 1), name, createSlug(name), description,
                       1, "", createdAt, false);
    (st.(communities := st.communities + [c]), c)
  }

  /** `createCommunity` keeps community ids sequential, hence distinct. */
  lemma CreateCommunityKeepsIds(st: Store, name: string, description: string, createdAt: string,
                                createSlug: string -> string)
    requires CommunityIdsSequential(st.communities)
    ensures CommunityIdsSequential(CreateCommunity(st, name, description, createdAt, createSlug).0.communities)
  {
  }

  /**
    After `createCommunity`, looking its slug up returns the new community when
    no earlier community has that slug; otherwise the earlier one shadows it
    and the lookup answers as before.
   */
  lemma CreateCommunityThenFetch(st: Store, name: string, description: string, createdAt: string,
                                 createSlug: string -> string)
    ensures var (st', c) := CreateCommunity(st, name, description, createdAt, createSlug);
      && ((forall i :: 0 <= i < |st.communities| ==> st.communities[i].slug != c.slug) ==>
            FetchCommunity(st', c.slug) == Ok(c))
      && ((exists i :: 0 <= i < |st.communities| && st.communities[i].slug == c.slug) ==>
            FetchCommunity(st', c.slug) == FetchCommunity(st, c.slug))
  {
    var (st', c) := CreateCommunity(st, name, description, createdAt, createSlug);
    var p := (x: Community) => x.slug == c.slug;
    assert st'.communities[|st.communities|] == c;
    var k := Seqs.FirstIndex(st.communities, p);
    if k.Some? {
      Seqs.FirstIndexOfPrefix(st.communities, [c], p);
    }
  }

  /** The fields of the `createPost` argument; `imageUrl` is optional. */
  datatype PostInput = PostInput(
    title: string,
    content: string,
    communityId: string,
    communityName: string,
    communitySlug: string,
    authorId: string,
    authorUsername: string,
    imageUrl: Option<string>)

  /**
    `createPost`: appends one post with id `length + 1`, no votes, no comments,
    and `imageUrl` defaulting to ""; nothing else changes.
   */
  function CreatePost(st: Store, data: PostInput, createdAt: string): (r: (Store, Post))
    ensures r.0.posts == st.posts + [r.1]
    ensures r.0.communities == st.communities && r.0.comments == st.comments
    ensures r.1.id == NatToString(|st.posts| + 1)
    ensures r.1.upvotes == 0 && r.1.downvotes == 0 && r.1.commentCount == 0
    ensures r.1.imageUrl == (if data.imageUrl.Some? then data.imageUrl.value else "")
    ensures r.1.title == data.title && r.1.content == data.content && r.1.createdAt == createdAt
    ensures r.1.authorId == data.authorId && r.1.authorUsername == data.authorUsername
    ensures r.1.communityId == data.communityId && r.1.communityName == data.communityName
    ensures r.1.communitySlug == data.communitySlug
  {
    // `data.imageUrl || ""`: both an absent and an empty url give "".
    var image := match data.imageUrl case Some(u) => u case None => "";
    var p := Post(NatToString(|st.posts| + 1), data.title, data.content, data.authorId,
                  data.authorUsername, data.communityId, data.communityName, data.communitySlug,
                  0, 0, 0, createdAt, image);
    (st.(posts := st.posts + [p]), p)
  }

  /** With sequential post ids, a created post keeps them sequential and can be fetched by its id. */
  lemma CreatePostThenFetch(st: Store, data: PostInput, createdAt: string)
    requires PostIdsSequential(st.posts)
    ensures var (st', p) := CreatePost(st, data, createdAt);
      PostIdsSequential(st'.posts) && FetchPost(st', p.id) == Ok(p)
  {
    var (st', p) := CreatePost(st, data, createdAt);
    assert PostIdsSequential(st'.posts);
    var k := Seqs.FirstIndex(st'.posts, (x: Post) => x.id == p.id);
    assert st'.posts[|st.posts|].id == p.id;
    PostIdsUnique(st'.posts, k.value, |st.posts|);
  }

  /** A created post is listed last in its community's posts and in no other community's. */
  lemma CreatePostThenCommunityPosts(st: Store, data: PostInput, createdAt: string, slug: string)
    ensures var (st', p) := CreatePost(st, data, createdAt);
      FetchCommunityPosts(st', slug)
        == FetchCommunityPosts(st, slug) + (if data.communitySlug == slug then [p] else [])
  {
    var (st', p) := CreatePost(st, data, createdAt);
    var inSlug := (x: Post) => x.communitySlug == slug;
    Seqs.FilterAppend(st.posts, [p], inSlug);
    assert Seqs.Filter([p], inSlug) == (if data.communitySlug == slug then [p] else []);
  }

  /** The fields of the `createComment` argument; a non-empty `parentId` makes it a reply. */
  datatype CommentInput = CommentInput(
    postId: string,
    content: string,
    authorId: string,
    authorUsername: string,
    parentId: Option<string>)

  /** What `createComment` returns. */
  datatype Created = CreatedReply(reply: Reply) | CreatedComment(comment: Comment)

  /** `if (data.parentId)`: present and not the empty string. */
  predicate IsReplyInput(data: CommentInput)
  {
    data.parentId.Some? && data.parentId.value != ""
  }

  /** Position `k` holds the first post with this id. */
  predicate FirstPostWithId(posts: seq<Post>, id: string, k: int)
  {
    0 <= k < |posts| && posts[k].id == id && forall j :: 0 <= j < k ==> posts[j].id != id
  }

  /** Position `k` holds the first top-level comment with this id. */
  predicate FirstCommentWithId(comments: seq<Comment>, id: string, k: int)
  {
    0 <= k < |comments| && comments[k].id == id && forall j :: 0 <= j < k ==> comments[j].id != id
  }

  /** Adds one comment to the first post with this id; no post changes when there is none. */
  function CountComment(posts: seq<Post>, postId: string): (r: seq<Post>)
    ensures |r| == |posts|
    ensures (forall i :: 0 <= i < |posts| ==> posts[i].id != postId) ==> r == posts
    ensures forall k :: FirstPostWithId(posts, postId, k) ==>
      && r[k] == posts[k].(commentCount := posts[k].commentCount + 1)
      && forall i :: 0 <= i < |posts| && i != k ==> r[i] == posts[i]
  {
    match Seqs.FirstIndex(posts, (p: Post) => p.id == postId)
    case None => posts
    case Some(k) => posts[k := posts[k].(commentCount := posts[k].commentCount + 1)]
  }

  /** Appends a reply to the first top-level comment with id `parentId`; nothing changes when there is none. */
  function AttachReply(comments: seq<Comment>, parentId: string, reply: Reply): (r: seq<Comment>)
    ensures |r| == |comments|
    ensures (forall i :: 0 <= i < |comments| ==> comments[i].id != parentId) ==> r == comments
    ensures forall k :: FirstCommentWithId(comments, parentId, k) ==>
      && r[k] == comments[k].(replies := comments[k].replies + [reply])
      && forall i :: 0 <= i < |comments| && i != k ==> r[i] == comments[i]
  {
    match Seqs.FirstIndex(comments, (c: Comment) => c.id == parentId)
    case None => comments
    case Some(k) => comments[k := comments[k].(replies := comments[k].replies + [reply])]
  }

  /**
    `createComment`. A reply goes under the first top-level comment with that
    id and is returned even when there is none; it changes no comment count.
    A top-level comment is appended with no replies and counts towards the
    first post with its `postId`. The id (`Math.random` in the source) and the
    timestamp are parameters.
   */
  function CreateComment(st: Store, data: CommentInput, newId: string, createdAt: string): (r: (Store, Created))
    ensures r.0.communities == st.communities
    ensures IsReplyInput(data) ==>
      && r.1 == CreatedReply(Reply(newId, data.postId, data.parentId.value, data.authorId,
                                   data.authorUsername, data.content, 0, 0, createdAt))
      && r.0.posts == st.posts
      && r.0.comments == AttachReply(st.comments, data.parentId.value, r.1.reply)
    ensures !IsReplyInput(data) ==>
      && r.1 == CreatedComment(Comment(newId, data.postId, data.authorId, data.authorUsername,
                                       data.content, 0, 0, createdAt, []))
      && r.0.comments == st.comments + [r.1.comment]
      && r.0.posts == CountComment(st.posts, data.postId)
  {
    if IsReplyInput(data) then
      var reply := Reply(newId, data.postId, data.parentId.value, data.authorId,
                         data.authorUsername, data.content, 0, 0, createdAt);
      (st.(comments := AttachReply(st.comments, data.parentId.value, reply)), CreatedReply(reply))
    else
      var c := Comment(newId, data.postId, data.authorId, data.authorUsername,
                       data.content, 0, 0, createdAt, []);
      (st.(comments := st.comments + [c], posts := CountComment(st.posts, data.postId)), CreatedComment(c))
  }

  /** A new top-level comment shows up last among its post's comments; the other posts' comments are unchanged. */
  lemma {:induction false} CreateCommentThenFetch(st: Store, data: CommentInput, newId: string, createdAt: string, postId: string)
    requires !IsReplyInput(data)
    ensures var (st', created) := CreateComment(st, data, newId, createdAt);
      FetchPostComments(st', postId)
      == FetchPostComments(st, postId) + (if postId == data.postId then [created.comment] else [])
  {
    var (st', created) := CreateComment(st, data, newId, createdAt);
    Seqs.FilterAppend(st.comments, [created.comment], (c: Comment) => c.postId == postId);
  }

  /** A reply never changes the set of top-level comments a post lists, only the replies inside one of them. */
  lemma CreateReplyKeepsTopLevel(st: Store, data: CommentInput, newId: string, createdAt: string)
    requires IsReplyInput(data)
    ensures var st' := CreateComment(st, data, newId, createdAt).0;
      |st'.comments| == |st.comments|
      && forall i :: 0 <= i < |st.comments| ==>
           st'.comments[i].(replies := []) == st.comments[i].(replies := [])
  {
  }

  // ---------------------------------------------------------------------------
  // Votes

  /** One more upvote or one more downvote on a post. */
  function BumpPost(p: Post, vote: Vote.Direction): (r: Post)
    ensures vote == Vote.Up ==> r == p.(upvotes := p.upvotes + 1)
    ensures vote == Vote.Down ==> r == p.(downvotes := p.downvotes + 1)
  {
    match vote
    case Up => p.(upvotes := p.upvotes + 1)
    case Down => p.(downvotes := p.downvotes + 1)
  }

  function BumpComment(c: Comment, vote: Vote.Direction): (r: Comment)
    ensures vote == Vote.Up ==> r == c.(upvotes := c.upvotes + 1)
    ensures vote == Vote.Down ==> r == c.(downvotes := c.downvotes + 1)
  {
    match vote
    case Up => c.(upvotes := c.upvotes + 1)
    case Down => c.(downvotes := c.downvotes + 1)
  }

  function BumpReply(c: Reply, vote: Vote.Direction): (r: Reply)
    ensures vote == Vote.Up ==> r == c.(upvotes := c.upvotes + 1)
    ensures vote == Vote.Down ==> r == c.(downvotes := c.downvotes + 1)
  {
    match vote
    case Up => c.(upvotes := c.upvotes + 1)
    case Down => c.(downvotes := c.downvotes + 1)
  }

  /**
    `voteOnPost`: one more upvote or downvote on the first post with this id,
    returned updated; the not-found error when there is none.
   */
  function VoteOnPost(st: Store, postId: string, vote: Vote.Direction): (r: Result<(Store, Post)>)
    ensures r.Err? <==> forall i :: 0 <= i < |st.posts| ==> st.posts[i].id != postId
    ensures r.Err? ==> r.message == "Post with ID '" + postId + "' not found"
    ensures forall k :: FirstPostWithId(st.posts, postId, k) ==>
      && r.Ok?
      && r.value.1 == BumpPost(st.posts[k], vote)
      && r.value.0 == st.(posts := st.posts[k := r.value.1])
  {
    match Seqs.FirstIndex(st.posts, (p: Post) => p.id == postId)
    case None => Err("Post with ID '" + postId + "' not found")
    case Some(k) =>
      var p := BumpPost(st.posts[k], vote);
      Ok((st.(posts := st.posts[k := p]), p))
  }

  /**
    A server-side vote moves the post's net score by the same amount as adding
    that vote with the card's toggle, and the updated post is what a later
    `fetchPost` returns.
   */
  lemma VoteOnPostScore(st: Store, postId: string, vote: Vote.Direction)
    requires VoteOnPost(st, postId, vote).Ok?
    ensures var (st', p) := VoteOnPost(st, postId, vote).value;
      && FetchPost(st, postId).Ok?
      && p.upvotes - p.downvotes
         == FetchPost(st, postId).value.upvotes - FetchPost(st, postId).value.downvotes
            + Vote.Contribution(Vote.Voted(vote))
      && FetchPost(st', postId) == Ok(p)
  {
    var k := Seqs.FirstIndex(st.posts, (p: Post) => p.id == postId).value;
    var (st', p) := VoteOnPost(st, postId, vote).value;
    var k' := Seqs.FirstIndex(st'.posts, (p: Post) => p.id == postId);
    assert st'.posts[k].id == postId;
    assert k'.Some? && k'.value <= k;
  }

  /** Some reply of `c` has this id. */
  predicate HasReply(c: Comment, id: string)
  {
    exists j :: 0 <= j < |c.replies| && c.replies[j].id == id
  }

  /**
    Reply `j` of comment `p` has the id, no earlier comment holds a reply with
    it, and no earlier reply of comment `p` has it.
   */
  predicate FirstReplyWithId(comments: seq<Comment>, id: string, p: int, j: int)
  {
    && 0 <= p < |comments| && 0 <= j < |comments[p].replies|
    && comments[p].replies[j].id == id
    && (forall q :: 0 <= q < p ==> !HasReply(comments[q], id))
    && (forall i :: 0 <= i < j ==> comments[p].replies[i].id != id)
  }

  /** At most one position holds the first top-level comment with an id. */
  lemma FirstCommentWithIdUnique(comments: seq<Comment>, id: string, k: int)
    requires FirstCommentWithId(comments, id, k)
    ensures forall k' :: FirstCommentWithId(comments, id, k') ==> k' == k
  {
  }

  /** At most one position holds the first reply with an id. */
  lemma FirstReplyWithIdUnique(comments: seq<Comment>, id: string, p: int, j: int)
    requires FirstReplyWithId(comments, id, p, j)
    ensures forall p', j' :: FirstReplyWithId(comments, id, p', j') ==> p' == p && j' == j
  {
    forall p', j' | FirstReplyWithId(comments, id, p', j')
      ensures p' == p && j' == j
    {
      if p' < p {
        assert HasReply(comments[p'], id);
      } else if p < p' {
        assert HasReply(comments[p], id);
      }
    }
  }

  /**
    The `for ... of` search of `voteOnComment`, from parent position `p` on:
    the first parent with a reply carrying `id`, and the first such reply in it.
   */
  function ReplyLocationFrom(comments: seq<Comment>, id: string, p: nat): (loc: Option<(nat, nat)>)
    requires p <= |comments|
    ensures loc.None? ==> forall q :: p <= q < |comments| ==> !HasReply(comments[q], id)
    ensures loc.Some? ==>
      && p <= loc.value.0 < |comments|
      && loc.value.1 < |comments[loc.value.0].replies|
      && comments[loc.value.0].replies[loc.value.1].id == id
      && (forall q :: p <= q < loc.value.0 ==> !HasReply(comments[q], id))
      && (forall j :: 0 <= j < loc.value.1 ==> comments[loc.value.0].replies[j].id != id)
    decreases |comments| - p
  {
    if p == |comments| then None
    else match Seqs.FirstIndex(comments[p].replies, (r: Reply) => r.id == id)
      case Some(j) => Some((p, j))
      case None => ReplyLocationFrom(comments, id, p + 1)
  }

  /** The loop itself: scans the parents in order and stops at the first match. */
  method FindReply(comments: seq<Comment>, id: string) returns (loc: Option<(nat, nat)>)
    ensures loc == ReplyLocationFrom(comments, id, 0)
  {
    var p := 0;
    while p < |comments|
      invariant 0 <= p <= |comments|
      invariant ReplyLocationFrom(comments, id, p) == ReplyLocationFrom(comments, id, 0)
    {
      var j := Seqs.FirstIndex(comments[p].replies, (r: Reply) => r.id == id);
      if j.Some? {
        return Some((p, j.value));
      }
      p := p + 1;
    }
    return None;
  }

  /** What `voteOnComment` returns: the voted top-level comment or reply. */
  datatype VotedEntry = VotedComment(comment: Comment) | VotedReply(reply: Reply)

  /**
    `voteOnComment`: top-level comments are searched first, then the replies
    of each comment in order; the first match gets one more upvote or
    downvote. The not-found error when neither search finds the id.
   */
  function VoteOnComment(st: Store, commentId: string, vote: Vote.Direction): (r: Result<(Store, VotedEntry)>)
    ensures r.Err? <==> forall i :: 0 <= i < |st.comments| ==>
      st.comments[i].id != commentId && !HasReply(st.comments[i], commentId)
    ensures r.Err? ==> r.message == "Comment with ID '" + commentId + "' not found"
    ensures r.Ok? ==> r.value.0.posts == st.posts && r.value.0.communities == st.communities
    ensures r.Ok? ==> |r.value.0.comments| == |st.comments|
    ensures forall k :: FirstCommentWithId(st.comments, commentId, k) ==>
      && r.Ok? && r.value.1.VotedComment?
      && r.value.1.comment == BumpComment(st.comments[k], vote)
      && r.value.0.comments == st.comments[k := r.value.1.comment]
    ensures forall p, j :: FirstReplyWithId(st.comments, commentId, p, j)
                           && (forall i :: 0 <= i < |st.comments| ==> st.comments[i].id != commentId) ==>
      && r.Ok? && r.value.1.VotedReply?
      && r.value.1.reply == BumpReply(st.comments[p].replies[j], vote)
      && r.value.0.comments
         == st.comments[p := st.comments[p].(replies := st.comments[p].replies[j := r.value.1.reply])]
  {
    match Seqs.FirstIndex(st.comments, (c: Comment) => c.id == commentId)
    case Some(k) =>
      FirstCommentWithIdUnique(st.comments, commentId, k);
      var c := BumpComment(st.comments[k], vote);
      Ok((st.(comments := st.comments[k := c]), VotedComment(c)))
    case None =>
      match ReplyLocationFrom(st.comments, commentId, 0)
      case None => Err("Comment with ID '" + commentId + "' not found")
      case Some((p, j)) =>
        FirstReplyWithIdUnique(st.comments, commentId, p, j);
        var reply := BumpReply(st.comments[p].replies[j], vote);
        Ok((st.(comments := st.comments[p := st.comments[p].(replies := st.comments[p].replies[j := reply])]),
            VotedReply(reply)))
  }

  /** A top-level comment whose id is also a reply's id shadows the reply. */
  lemma VoteOnCommentPrefersTopLevel(st: Store, commentId: string, vote: Vote.Direction, i: nat)
    requires i < |st.comments| && st.comments[i].id == commentId
    ensures VoteOnComment(st, commentId, vote).Ok?
    ensures VoteOnComment(st, commentId, vote).value.1.VotedComment?
  {
  }

  // ---------------------------------------------------------------------------
  // Tallies over the whole store

  /** The comment counts the posts display, summed. */
  function CommentTally(posts: seq<Post>): int
  {
    Seqs.SumOf(posts, (p: Post) => p.commentCount)
  }

  /** The number of replies stored under all top-level comments. */
  function ReplyTally(comments: seq<Comment>): int
  {
    Seqs.SumOf(comments, (c: Comment) => |c.replies|)
  }

  function PostUp(p: Post): int { p.upvotes }
  function PostDown(p: Post): int { p.downvotes }
  function ReplyUp(r: Reply): int { r.upvotes }
  function ReplyDown(r: Reply): int { r.downvotes }

  /** Upvotes (downvotes) on a comment and on its replies. */
  function CommentUp(c: Comment): int { c.upvotes + Seqs.SumOf(c.replies, ReplyUp) }
  function CommentDown(c: Comment): int { c.downvotes + Seqs.SumOf(c.replies, ReplyDown) }

  /**
    A new top-level comment adds one to the displayed comment counts exactly
    when a post with its `postId` exists, and adds no reply; a reply adds one
    stored reply exactly when its parent is a top-level comment, and leaves
    every comment count as it was.
   */
  lemma CreateCommentTallies(st: Store, data: CommentInput, newId: string, createdAt: string)
    ensures var st' := CreateComment(st, data, newId, createdAt).0;
      if IsReplyInput(data) then
        && CommentTally(st'.posts) == CommentTally(st.posts)
        && ReplyTally(st'.comments) == ReplyTally(st.comments)
           + (if exists i :: 0 <= i < |st.comments| && st.comments[i].id == data.parentId.value then 1 else 0)
      else
        && CommentTally(st'.posts) == CommentTally(st.posts)
           + (if exists i :: 0 <= i < |st.posts| && st.posts[i].id == data.postId then 1 else 0)
        && ReplyTally(st'.comments) == ReplyTally(st.comments)
  {
    var (st', created) := CreateComment(st, data, newId, createdAt);
    if IsReplyInput(data) {
      AttachReplyTally(st.comments, data.parentId.value, created.reply);
    } else {
      Seqs.SumAppend(st.comments, created.comment, (c: Comment) => |c.replies|);
      CountCommentTally(st.posts, data.postId);
    }
  }

  /** Counting a comment adds one to the summed comment counts exactly when a post has the id. */
  lemma CountCommentTally(posts: seq<Post>, postId: string)
    ensures CommentTally(CountComment(posts, postId)) == CommentTally(posts)
      + (if exists i :: 0 <= i < |posts| && posts[i].id == postId then 1 else 0)
  {
    if k :| 0 <= k < |posts| && posts[k].id == postId {
      var first := FirstPostWithIdExists(posts, postId, k);
      CountCommentAt(posts, postId, first);
      BumpedTally(posts, first);
    }
  }

  /** A post with the id at `k` means a first one at or before `k`. */
  lemma FirstPostWithIdExists(posts: seq<Post>, postId: string, k: nat) returns (first: nat)
    requires k < |posts| && posts[k].id == postId
    ensures first <= k && FirstPostWithId(posts, postId, first)
  {
    first := k;
    while first > 0 && exists j :: 0 <= j < first && posts[j].id == postId
      invariant first <= k && posts[first].id == postId
      decreases first
    {
      var j :| 0 <= j < first && posts[j].id == postId;
      first := j;
    }
  }

  /** At the first post with the id, counting a comment is a single-position update. */
  lemma CountCommentAt(posts: seq<Post>, postId: string, k: nat)
    requires FirstPostWithId(posts, postId, k)
    ensures CountComment(posts, postId) == posts[k := posts[k].(commentCount := posts[k].commentCount + 1)]
  {
  }

  /** Raising one post's comment count by one raises the summed counts by one. */
  lemma BumpedTally(posts: seq<Post>, k: nat)
    requires k < |posts|
    ensures CommentTally(posts[k := posts[k].(commentCount := posts[k].commentCount + 1)]) == CommentTally(posts) + 1
  {
    Seqs.SumUpdate(posts, k, posts[k].(commentCount := posts[k].commentCount + 1), (p: Post) => p.commentCount);
  }

  /** Attaching a reply adds one stored reply exactly when a top-level comment has the parent id. */
  lemma AttachReplyTally(comments: seq<Comment>, parentId: string, reply: Reply)
    ensures ReplyTally(AttachReply(comments, parentId, reply)) == ReplyTally(comments)
      + (if exists i :: 0 <= i < |comments| && comments[i].id == parentId then 1 else 0)
  {
    match Seqs.FirstIndex(comments, (c: Comment) => c.id == parentId)
    case None =>
    case Some(k) =>
      Seqs.SumUpdate(comments, k, comments[k].(replies := comments[k].replies + [reply]), (c: Comment) => |c.replies|);
  }

  /** A post vote adds exactly one upvote or exactly one downvote to the store's posts. */
  lemma VoteOnPostTallies(st: Store, postId: string, vote: Vote.Direction)
    requires VoteOnPost(st, postId, vote).Ok?
    ensures var st' := VoteOnPost(st, postId, vote).value.0;
      && Seqs.SumOf(st'.posts, PostUp) == Seqs.SumOf(st.posts, PostUp) + (if vote == Vote.Up then 1 else 0)
      && Seqs.SumOf(st'.posts, PostDown) == Seqs.SumOf(st.posts, PostDown) + (if vote == Vote.Down then 1 else 0)
  {
    var k := Seqs.FirstIndex(st.posts, (p: Post) => p.id == postId).value;
    var p := VoteOnPost(st, postId, vote).value.1;
    Seqs.SumUpdate(st.posts, k, p, PostUp);
    Seqs.SumUpdate(st.posts, k, p, PostDown);
  }

  /**
    A comment vote adds exactly one upvote or exactly one downvote to the
    store's comments and replies taken together.
   */
  lemma VoteOnCommentTallies(st: Store, commentId: string, vote: Vote.Direction)
    requires VoteOnComment(st, commentId, vote).Ok?
    ensures var st' := VoteOnComment(st, commentId, vote).value.0;
      && Seqs.SumOf(st'.comments, CommentUp) == Seqs.SumOf(st.comments, CommentUp) + (if vote == Vote.Up then 1 else 0)
      && Seqs.SumOf(st'.comments, CommentDown) == Seqs.SumOf(st.comments, CommentDown) + (if vote == Vote.Down then 1 else 0)
  {
    var (st', entry) := VoteOnComment(st, commentId, vote).value;
    match entry
    case VotedComment(c) =>
      var k := Seqs.FirstIndex(st.comments, (c: Comment) => c.id == commentId).value;
      Seqs.SumUpdate(st.comments, k, c, CommentUp);
      Seqs.SumUpdate(st.comments, k, c, CommentDown);
    case VotedReply(reply) =>
      var (p, j) := ReplyLocationFrom(st.comments, commentId, 0).value;
      var parent := st.comments[p];
      Seqs.SumUpdate(parent.replies, j, reply, ReplyUp);
      Seqs.SumUpdate(parent.replies, j, reply, ReplyDown);
      var parent' := parent.(replies := parent.replies[j := reply]);
      Seqs.SumUpdate(st.comments, p, parent', CommentUp);
      Seqs.SumUpdate(st.comments, p, parent', CommentDown);
  }

  // ---------------------------------------------------------------------------
  // The initial mock data

  const Hour: int := 60 * 60 * 1000

  /**
    The store as the module loads it. `at(ms)` is the ISO timestamp `ms`
    milliseconds from the moment of loading (the clock is not modelled).
   */
  function InitialStore(at: int -> string): Store
  {
    Store(InitialCommunities(at), InitialPosts(at), InitialComments(at))
  }

  // The long texts of the mock data, named so that proofs about the store need not unfold them.
  const TechnologyDescription: string := "Discuss the latest in tech news, gadgets, and software."
  const GamingDescription: string := "A community for gaming enthusiasts to share news, memes, and discussions."
  const ScienceDescription: string := "Exploring scientific breakthroughs, research, and curiosities."
  const PhotographyDescription: string := "Share your photos, techniques, and gear discussions."
  const MoviesDescription: string := "Discuss films, directors, and everything cinema."
  const Post1Title: string := "The Future of AI in Everyday Life"
  const Post1Content: string := "Artificial intelligence is rapidly transforming how we interact with technology..."
  const Post2Title: string := "What's your favorite indie game of 2023?"
  const Post2Content: string := "I've been playing a lot of indie games lately and wanted to share my favorites..."
  const Post3Title: string := "New breakthrough in quantum computing announced"
  const Post3Content: string :=
    "Researchers have achieved a significant milestone in quantum computing that could revolutionize..."
  const Post4Title: string := "Sunset shot with my new camera - feedback welcome"
  const Post4Content: string :=
    "I just got a new Sony A7III and took this sunset shot. Would love some constructive feedback..."
  const Post4Image: string :=
    "https://images.unsplash.com/photo-1472214103451-9374bd1c798e?ixlib=rb-4.0.3&ixid=M3wxMjA3fDB8MHxwaG90by1wYWdlfHx8fGVufDB8fHx8fA%3D%3D&auto=format&fit=crop&w=2070&q=80"
  const Post5Title: string := "Top 10 must-watch films of all time"
  const Post5Content: string := "After years of watching movies, I've compiled my list of the top 10 must-watch films..."
  const Comment1Content: string :=
    "This is a fascinating perspective on AI. I think we're only scratching the surface of what's possible."
  const Reply101Content: string := "Thanks! I'm particularly excited about AI in healthcare."
  const Comment2Content: string :=
    "I have some concerns about AI ethics that I think aren't addressed enough in the tech community."

  function InitialCommunities(at: int -> string): seq<Community>
  {
    [ Community("1", "Technology", "technology", TechnologyDescription, 12500, "", at(0), true),
      Community("2", "Gaming", "gaming", GamingDescription, 8900, "", at(0), true),
      Community("3", "Science", "science", ScienceDescription, 6200, "", at(0), true),
      Community("4", "Photography", "photography", PhotographyDescription, 4500, "", at(0), false),
      Community("5", "Movies", "movies", MoviesDescription, 7300, "", at(0), true) ]
  }

  function InitialPosts(at: int -> string): seq<Post>
  {
    [ Post("1", Post1Title, Post1Content, "1", "johnsmith", "1", "Technology", "technology",
           235, 12, 48, at(-2 * Hour), ""),
      Post("2", Post2Title, Post2Content, "2", "gamer123", "2", "Gaming", "gaming",
           189, 5, 76, at(-6 * Hour), ""),
      Post("3", Post3Title, Post3Content, "3", "sciencefan", "3", "Science", "science",
           412, 8, 32, at(-12 * Hour), ""),
      Post("4", Post4Title, Post4Content, "4", "photolover", "4", "Photography", "photography",
           98, 2, 15, at(-18 * Hour), Post4Image),
      Post("5", Post5Title, Post5Content, "5", "cinephile", "5", "Movies", "movies",
           276, 34, 92, at(-24 * Hour), "") ]
  }

  function InitialComments(at: int -> string): seq<Comment>
  {
    [ Comment("1", "1", "2", "gamer123", Comment1Content, 42, 2, at(-3 * Hour / 2),
              [ Reply("101", "1", "1", "1", "johnsmith", Reply101Content, 15, 0, at(-Hour)) ]),
      Comment("2", "1", "3", "sciencefan", Comment2Content, 28, 5, at(-Hour), []) ]
  }

  /** The initial ids are "1" to "5" in order, so `createCommunity` and `createPost` continue them. */
  lemma InitialIdsSequential(at: int -> string)
    ensures CommunityIdsSequential(InitialStore(at).communities)
    ensures PostIdsSequential(InitialStore(at).posts)
  {
    var cs := InitialCommunities(at);
    var ps := InitialPosts(at);
    forall i | 0 <= i < 5
      ensures cs[i].id == NatToString(i + 1) && ps[i].id == NatToString(i + 1)
    {
      assert NatToString(i + 1) == [DigitChar(i + 1)];
    }
  }
}

/**
  The comment section of a post (CommentSection.tsx): the new-comment form of
  the section, and each comment item with its own vote toggle, reply box and
  nested replies.
 */
module CommentSection {
  import Vote
  import Seqs
  import opened Text
  import opened Wrappers

  /** A comment as the section receives it; an absent `replies` is the empty sequence. */
  datatype CommentNode = CommentNode(
    id: string,
    postId: string,
    parentId: Option<string>,
    authorId: string,
    authorUsername: string,
    content: string,
    upvotes: int,
    downvotes: int,
    createdAt: string,
    replies: seq<CommentNode>)

  // ---------------------------------------------------------------------------
  // The section's new-comment form

  /** `commentText` and `isSubmitting`. */
  datatype FormState = FormState(commentText: string, isSubmitting: bool)

  function InitialForm(): FormState
  {
    FormState("", false)
  }

  /** The toast `handleSubmitComment` shows. */
  datatype SubmitOutcome = AuthenticationRequired | EmptyComment | CommentAdded

  /** Typing into the textarea, which is disabled while a submission is in flight. */
  function EditComment(f: FormState, text: string): (r: FormState)
    ensures r.isSubmitting == f.isSubmitting
    ensures r.commentText == if f.isSubmitting then f.commentText else text
  {
    if f.isSubmitting then f else f.(commentText := text)
  }

  /** "Post Comment" is enabled when nothing is in flight and the text is not blank. */
  function PostEnabled(f: FormState): (enabled: bool)
    ensures enabled <==> !f.isSubmitting && HasText(f.commentText)
  {
    BlankIffNoText(f.commentText);
    !f.isSubmitting && !IsBlank(f.commentText)
  }

  /**
    `handleSubmitComment`, from the click to the end of its `finally`. The
    login check comes first; a rejected submission leaves the form as it was;
    an accepted one clears the text and ends with `isSubmitting` false.
   */
  function SubmitComment(f: FormState, loggedIn: bool): (r: (FormState, SubmitOutcome))
    ensures r.1 == AuthenticationRequired <==> !loggedIn
    ensures r.1 == EmptyComment <==> loggedIn && !HasText(f.commentText)
    ensures r.1 == CommentAdded <==> loggedIn && HasText(f.commentText)
    ensures r.1 != CommentAdded ==> r.0 == f
    ensures r.1 == CommentAdded ==> r.0.commentText == "" && !r.0.isSubmitting
  {
    BlankIffNoText(f.commentText);
    if !loggedIn then (f, AuthenticationRequired)
    else if IsBlank(f.commentText) then (f, EmptyComment)
    else (FormState("", false), CommentAdded)
  }

  // ---------------------------------------------------------------------------
  // One comment item

  /** `voteStatus`/`voteCount`, `isReplying` and `replyText` of a comment item. */
  datatype ItemState = ItemState(vote: Vote.VoteState, isReplying: bool, replyText: string)

  /** An item mounts unvoted, with the reply box closed and empty. */
  function MountItem(c: CommentNode): (s: ItemState)
    ensures s.vote.status == Vote.NoVote
    ensures s.vote.count == c.upvotes - c.downvotes
    ensures !s.isReplying && s.replyText == ""
  {
    ItemState(Vote.Init(c.upvotes, c.downvotes), false, "")
  }

  /** `CommentItem.handleVote`: the same toggle as the post card; the reply box is untouched. */
  function ItemVote(s: ItemState, d: Vote.Direction): (r: ItemState)
    ensures r.vote == Vote.Click(s.vote, d)
    ensures r.isReplying == s.isReplying && r.replyText == s.replyText
  {
    s.(vote := Vote.Click(s.vote, d))
  }

  /** The "Reply" button opens or closes the reply box. */
  function ToggleReplyBox(s: ItemState): (r: ItemState)
    ensures r.isReplying != s.isReplying
    ensures r.vote == s.vote && r.replyText == s.replyText
  {
    s.(isReplying := !s.isReplying)
  }

  /** "Cancel" closes the reply box and keeps the draft. */
  function CancelReply(s: ItemState): (r: ItemState)
    ensures !r.isReplying
    ensures r.vote == s.vote && r.replyText == s.replyText
  {
    s.(isReplying := false)
  }

  /** Typing into the reply box. */
  function EditReply(s: ItemState, text: string): (r: ItemState)
    ensures r.replyText == text
    ensures r.vote == s.vote && r.isReplying == s.isReplying
  {
    s.(replyText := text)
  }

  /**
    `handleSubmitReply`: a blank draft is ignored; otherwise the reply is
    posted (the second component), the box closes and the draft is cleared.
   */
  function SubmitReply(s: ItemState): (r: (ItemState, bool))
    ensures r.1 <==> HasText(s.replyText)
    ensures !r.1 ==> r.0 == s
    ensures r.1 ==> !r.0.isReplying && r.0.replyText == "" && r.0.vote == s.vote
  {
    BlankIffNoText(s.replyText);
    if IsBlank(s.replyText) then (s, false)
    else (s.(isReplying := false, replyText := ""), true)
  }

  // ---------------------------------------------------------------------------
  // Nesting

  /** What one rendered comment item shows: its id, nesting level, indentation and mounted count. */
  datatype RenderedComment = RenderedComment(id: string, level: nat, indented: bool, voteCount: int)

  /** The item a comment renders for itself at `level`; only levels above 0 get the indented style. */
  function Row(c: CommentNode, level: nat): RenderedComment
  {
    RenderedComment(c.id, level, level > 0, c.upvotes - c.downvotes)
  }

  /** A comment item and, below it, its replies rendered one level deeper. */
  function RenderItem(c: CommentNode, level: nat): (rows: seq<RenderedComment>)
    ensures |rows| >= 1 && rows[0] == Row(c, level)
    ensures forall i :: 1 <= i < |rows| ==> rows[i].level > level && rows[i].indented
    decreases c
  {
    [Row(c, level)] + RenderList(c.replies, level + 1)
  }

  /** A list of sibling comment items at `level`. */
  function RenderList(cs: seq<CommentNode>, level: nat): (rows: seq<RenderedComment>)
    ensures |rows| >= |cs|
    ensures forall i :: 0 <= i < |rows| ==> rows[i].level >= level
    ensures level > 0 ==> forall i :: 0 <= i < |rows| ==> rows[i].indented
    decreases cs
  {
    if cs == [] then [] else RenderItem(cs[0], level) + RenderList(cs[1..], level)
  }

  /** The rows of a list rendered below level 0 are all indented, so none is kept by an unindented filter. */
  lemma NestedRowsIndented(cs: seq<CommentNode>, level: nat)
    requires level > 0
    ensures Seqs.Filter(RenderList(cs, level), (r: RenderedComment) => !r.indented) == []
  {
    Seqs.FilterNone(RenderList(cs, level), (r: RenderedComment) => !r.indented);
  }

  /**
    In the rendered section the unindented items are exactly the top-level
    comments, in order; every reply is indented.
   */
  lemma {:induction false} TopLevelUnindented(cs: seq<CommentNode>)
    ensures Seqs.Filter(RenderList(cs, 0), (r: RenderedComment) => !r.indented) == TopRows(cs, 0)
    decreases cs
  {
    var p := (r: RenderedComment) => !r.indented;
    if cs != [] {
      var c := cs[0];
      var head := Seqs.Filter(RenderItem(c, 0), p);
      assert head == [Row(c, 0)] by {
        Seqs.FilterAppend([Row(c, 0)], RenderList(c.replies, 1), p);
        NestedRowsIndented(c.replies, 1);
        assert Seqs.Filter([Row(c, 0)], p) == [Row(c, 0)];
      }
      Seqs.FilterAppend(RenderItem(c, 0), RenderList(cs[1..], 0), p);
      TopLevelUnindented(cs[1..]);
    }
  }

  /**
    The rows a list renders at its own level are its comments, one each and in
    order; everything else it renders is a reply at a deeper level.
   */
  lemma {:induction false} SiblingsAtLevel(cs: seq<CommentNode>, level: nat)
    ensures Seqs.Filter(RenderList(cs, level), (r: RenderedComment) => r.level == level) == TopRows(cs, level)
    decreases cs
  {
    var p := (r: RenderedComment) => r.level == level;
    if cs != [] {
      var c := cs[0];
      assert Seqs.Filter(RenderItem(c, level), p) == [Row(c, level)] by {
        Seqs.FilterAppend([Row(c, level)], RenderList(c.replies, level + 1), p);
        Seqs.FilterNone(RenderList(c.replies, level + 1), p);
        assert Seqs.Filter([Row(c, level)], p) == [Row(c, level)];
      }
      Seqs.FilterAppend(RenderItem(c, level), RenderList(cs[1..], level), p);
      SiblingsAtLevel(cs[1..], level);
    }
  }

  /** The rows one level below a comment item are its replies, one each and in order. */
  lemma RepliesOneLevelDeeper(c: CommentNode, level: nat)
    ensures Seqs.Filter(RenderItem(c, level), (r: RenderedComment) => r.level == level + 1)
         == TopRows(c.replies, level + 1)
  {
    var p := (r: RenderedComment) => r.level == level + 1;
    Seqs.FilterAppend([Row(c, level)], RenderList(c.replies, level + 1), p);
    assert Seqs.Filter([Row(c, level)], p) == [];
    SiblingsAtLevel(c.replies, level + 1);
  }

  /** The comments of a list as rendered at `level`, in order. */
  function TopRows(cs: seq<CommentNode>, level: nat): (rows: seq<RenderedComment>)
    ensures |rows| == |cs|
    ensures forall i :: 0 <= i < |cs| ==> rows[i] == Row(cs[i], level)
    decreases |cs|
  {
    if cs == [] then [] else [Row(cs[0], level)] + TopRows(cs[1..], level)
  }
}

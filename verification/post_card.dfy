/**
  The post card (PostCard.tsx): its vote sidebar, the preview truncation of the
  post body, and the save toggle.
 */
module PostCard {
  import Vote

  /** Number of characters of the body a non-detailed card shows before "...". */
  const PreviewLength: nat := 200

  /** The card's local state: the vote toggle and `isSaved`. */
  datatype CardState = CardState(vote: Vote.VoteState, isSaved: bool)

  /** A card mounts unvoted, unsaved, showing `upvotes - downvotes`. */
  function Mount(upvotes: int, downvotes: int): (s: CardState)
    ensures s.vote.status == Vote.NoVote
    ensures s.vote.count == upvotes - downvotes
    ensures !s.isSaved
  {
    CardState(Vote.Init(upvotes, downvotes), false)
  }

  /** `handleVote`: the shared toggle; the saved flag is untouched. */
  function HandleVote(s: CardState, d: Vote.Direction): (r: CardState)
    ensures r.vote == Vote.Click(s.vote, d)
    ensures r.isSaved == s.isSaved
  {
    s.(vote := Vote.Click(s.vote, d))
  }

  /** The bookmark button: flips `isSaved` and nothing else. */
  function ToggleSaved(s: CardState): (r: CardState)
    ensures r.isSaved != s.isSaved
    ensures r.vote == s.vote
  {
    s.(isSaved := !s.isSaved)
  }

  /** Two clicks on the bookmark restore the card. */
  lemma ToggleSavedInvolution(s: CardState)
    ensures ToggleSaved(ToggleSaved(s)) == s
  {
  }

  /** The bookmark label. */
  function SaveLabel(s: CardState): (text: string)
    ensures text == "Saved" <==> s.isSaved
    ensures !s.isSaved ==> text == "Save"
  {
    if s.isSaved then "Saved" else "Save"
  }

  /**
    `formatContent`: a card in a list shows at most the first 200 characters,
    marking a cut with "..."; a detailed card shows the body whole.
   */
  function FormatContent(content: string, isDetailed: bool): (r: string)
    ensures !isDetailed && |content| > PreviewLength ==>
      |r| == PreviewLength + 3 && r[..PreviewLength] == content[..PreviewLength] && r[PreviewLength..] == "..."
    ensures isDetailed || |content| <= PreviewLength ==> r == content
  {
    if !isDetailed && |content| > PreviewLength then content[..PreviewLength] + "..." else content
  }

  /**
    The preview never exceeds 203 characters and always begins with the body's
    own first characters up to the cut. (It can equal the body even after a
    cut: a 203-character body ending in "..." is reproduced exactly.)
   */
  lemma FormatContentIsPreview(content: string, isDetailed: bool)
    ensures var r := FormatContent(content, isDetailed);
      && (!isDetailed ==> |r| <= PreviewLength + 3)
      && (r == content || content[..PreviewLength] <= r)
  {
  }
}

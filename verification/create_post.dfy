/**
  The create-post page (CreatePost.tsx): the community preselected from the
  `community` query parameter, the capped title input, and the validation
  order of the submit handler. The post itself is not stored: success always
  navigates to the fixed path "/post/1".
 */
module CreatePost {
  import opened Text
  import opened Wrappers

  /** `maxLength` of the title input. */
  const TitleMaxLength: nat := 300

  /** `title`, `content` and `selectedCommunity` (a community id, or "" for none). */
  datatype Form = Form(title: string, content: string, selectedCommunity: string)

  /** The toast and navigation of `handleSubmit`. */
  datatype Outcome = TitleRequired | CommunityRequired | Navigate(path: string)

  /**
    The form as the page mounts: empty title and content, and the community
    given by `searchParams.get("community") || ""`; an absent parameter and an
    empty one both select nothing.
   */
  function InitialForm(communityParam: Option<string>): (f: Form)
    ensures f.title == "" && f.content == ""
    ensures communityParam.Some? ==> f.selectedCommunity == communityParam.value
    ensures communityParam.None? ==> f.selectedCommunity == ""
  {
    // `c || ""` is `c` for a non-empty `c` and "" for an empty one: `c` either way.
    var selected := match communityParam
      case Some(c) => c
      case None => "";
    Form("", "", selected)
  }

  /** Typing a title: the input keeps at most 300 characters. */
  function SetTitle(f: Form, typed: string): (r: Form)
    ensures |r.title| <= TitleMaxLength
    ensures r.title <= typed && (|typed| <= TitleMaxLength ==> r.title == typed)
    ensures r.content == f.content && r.selectedCommunity == f.selectedCommunity
  {
    f.(title := if |typed| <= TitleMaxLength then typed else typed[..TitleMaxLength])
  }

  function SetContent(f: Form, content: string): (r: Form)
    ensures r.content == content && r.title == f.title && r.selectedCommunity == f.selectedCommunity
  {
    f.(content := content)
  }

  /** Choosing a community in the select. */
  function SelectCommunity(f: Form, id: string): (r: Form)
    ensures r.selectedCommunity == id && r.title == f.title && r.content == f.content
  {
    f.(selectedCommunity := id)
  }

  /**
    `handleSubmit`: a blank title is refused first, then an empty community
    selection; the content is never looked at.
   */
  function HandleSubmit(f: Form): (r: Outcome)
    ensures r == TitleRequired <==> !HasText(f.title)
    ensures r == CommunityRequired <==> HasText(f.title) && f.selectedCommunity == ""
    ensures r.Navigate? <==> HasText(f.title) && f.selectedCommunity != ""
    ensures r.Navigate? ==> r.path == "/post/1"
  {
    BlankIffNoText(f.title);
    if IsBlank(f.title) then TitleRequired
    else if f.selectedCommunity == "" then CommunityRequired
    else Navigate("/post/1")
  }

  /** The content has no influence on the outcome of a submission. */
  lemma ContentNeverChecked(f: Form, content: string)
    ensures HandleSubmit(SetContent(f, content)) == HandleSubmit(f)
  {
  }

  /**
    Arriving with a non-empty `community` parameter and typing a non-blank
    title is enough to succeed, whatever (possibly empty) content is entered.
   */
  lemma ParamAndTitleSuffice(community: string, title: string, content: string)
    requires community != "" && |title| <= TitleMaxLength && HasText(title)
    ensures HandleSubmit(SetContent(SetTitle(InitialForm(Some(community)), title), content))
         == Navigate("/post/1")
  {
  }
}

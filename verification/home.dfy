/**
  The "Popular Communities" panel of the home page (Home.tsx): the first three
  popular communities, each with a button that joins or leaves through the
  shared Membership handlers and is labelled by membership.
 */
module Home {
  import Seqs
  import Membership
  import opened Api

  /** Number of communities the panel shows. */
  const PanelSize: nat := 3

  /** `popularCommunities.slice(0, 3)`. */
  function TopThree(cs: seq<Community>): (r: seq<Community>)
    ensures |r| == if |cs| < PanelSize then |cs| else PanelSize
    ensures forall i :: 0 <= i < |r| ==> r[i] == cs[i]
  {
    if |cs| < PanelSize then cs else cs[..PanelSize]
  }

  /** Every community of the panel is a popular community of the store, in store order. */
  lemma PanelIsPopular(st: Store)
    ensures var shown := TopThree(FetchPopularCommunities(st));
      && (forall c :: c in shown ==> c in st.communities && c.isPopular)
      && Seqs.IsSubsequence(shown, st.communities)
  {
    var popular := FetchPopularCommunities(st);
    var shown := TopThree(popular);
    assert shown == popular[..|shown|];
    Seqs.PrefixIsSubsequence(popular, |shown|);
    Seqs.SubsequenceTrans(shown, popular, st.communities);
  }

  /** One row of the panel: the community and its button label. */
  datatype Row = Row(community: Community, buttonText: string)

  function Rows(popular: seq<Community>, joined: seq<string>): (r: seq<Row>)
    ensures |r| == |TopThree(popular)|
    ensures forall i :: 0 <= i < |r| ==> r[i].community == popular[i]
    ensures forall i :: 0 <= i < |r| ==> r[i].buttonText == (if popular[i].id in joined then "Joined" else "Join")
  {
    var shown := TopThree(popular);
    seq(|shown|, i requires 0 <= i < |shown| => Row(shown[i], Membership.Label(joined, shown[i].id)))
  }

  /** Clicking a row's button switches that row's label between "Join" and "Joined". */
  lemma ClickSwitchesLabel(popular: seq<Community>, joined: seq<string>, i: nat)
    requires i < |TopThree(popular)|
    ensures var after := Rows(popular, Membership.Toggle(joined, popular[i].id));
      after[i].buttonText == (if Rows(popular, joined)[i].buttonText == "Joined" then "Join" else "Joined")
  {
  }
}

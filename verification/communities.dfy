/**
  The communities page (Communities.tsx): the case-insensitive search box,
  the membership flag of each card, and the "Joined" tab. Joining and leaving
  are the shared list handlers of the Membership module.
 */
module Communities {
  import Seqs
  import Membership
  import opened Text
  import opened Api

  /** The community's lower-cased name or description contains the lower-cased query. */
  predicate Matches(c: Community, query: string)
  {
    Contains(ToLower(c.name), ToLower(query)) || Contains(ToLower(c.description), ToLower(query))
  }

  /** `filteredCommunities`: an empty query shows everything; otherwise the matching communities, in order. */
  function Search(cs: seq<Community>, query: string): (r: seq<Community>)
    ensures query == [] ==> r == cs
    ensures query != [] ==> forall c :: c in r ==> c in cs && Matches(c, query)
    ensures query != [] ==> forall c :: c in cs && Matches(c, query) ==> c in r
    ensures query != [] ==> forall c :: multiset(r)[c] == if Matches(c, query) then multiset(cs)[c] else 0
    ensures Seqs.IsSubsequence(r, cs)
  {
    Seqs.FilterIsSubsequence(cs, c => Matches(c, query));
    if query == [] then Seqs.SubsequenceRefl(cs); cs
    else Seqs.Filter(cs, c => Matches(c, query))
  }

  /** The search ignores the case of the query. */
  lemma SearchIgnoresQueryCase(cs: seq<Community>, query: string)
    ensures Search(cs, ToLower(query)) == Search(cs, query)
  {
    ToLowerIdempotent(query);
    Seqs.FilterAgreeing(cs, c => Matches(c, ToLower(query)), c => Matches(c, query));
  }

  /** What one card of the "all" tab shows: the community and its `isMember` flag. */
  datatype Card = Card(community: Community, isMember: bool)

  /** The cards of the "all" tab. */
  function Cards(cs: seq<Community>, joined: seq<string>): (r: seq<Card>)
    ensures |r| == |cs|
    ensures forall i :: 0 <= i < |r| ==> r[i].community == cs[i]
    ensures forall i :: 0 <= i < |r| ==> (r[i].isMember <==> cs[i].id in joined)
  {
    seq(|cs|, i requires 0 <= i < |cs| => Card(cs[i], cs[i].id in joined))
  }

  /**
    A card's button flips the flag of every card of that community and leaves
    the flags of all other cards as they were.
   */
  lemma ToggleFlipsOnlyItsCards(cs: seq<Community>, joined: seq<string>, id: string)
    ensures var before, after := Cards(cs, joined), Cards(cs, Membership.Toggle(joined, id));
      forall i :: 0 <= i < |cs| ==>
        if cs[i].id == id then after[i].isMember != before[i].isMember
        else after[i].isMember == before[i].isMember
  {
  }

  /** The "Joined" tab: the joined communities in the order of the community list, not the order of joining. */
  function JoinedTab(cs: seq<Community>, joined: seq<string>): (r: seq<Community>)
    ensures forall c :: c in r ==> c in cs && c.id in joined
    ensures forall c :: c in cs && c.id in joined ==> c in r
    ensures forall c :: multiset(r)[c] == if c.id in joined then multiset(cs)[c] else 0
    ensures Seqs.IsSubsequence(r, cs)
  {
    Seqs.FilterIsSubsequence(cs, (c: Community) => c.id in joined);
    Seqs.Filter(cs, (c: Community) => c.id in joined)
  }

  /** Two joined lists with the same ids, in whatever order or multiplicity, give the same tab. */
  lemma JoinedTabIgnoresJoinOrder(cs: seq<Community>, joined1: seq<string>, joined2: seq<string>)
    requires forall x :: x in joined1 <==> x in joined2
    ensures JoinedTab(cs, joined1) == JoinedTab(cs, joined2)
  {
    Seqs.FilterAgreeing(cs, (c: Community) => c.id in joined1, (c: Community) => c.id in joined2);
  }
}

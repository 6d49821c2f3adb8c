/**
  The joined-communities list kept by the home page (Home.tsx) and the
  communities page (Communities.tsx): both define the same two handlers, a join
  that appends the id and a leave that filters out every copy of it, and both
  choose between them by whether the id is already in the list.
 */
module Membership {
  import Seqs

  /** `handleJoinCommunity`: `[...prev, communityId]`. */
  function Join(joined: seq<string>, id: string): (r: seq<string>)
    ensures id in r && |r| == |joined| + 1
    ensures r[..|joined|] == joined && r[|joined|] == id
    ensures multiset(r) == multiset(joined) + multiset{id}
  {
    joined + [id]
  }

  /** `handleLeaveCommunity`: `prev.filter(id => id !== communityId)`, which keeps every copy of every other id. */
  function Leave(joined: seq<string>, id: string): (r: seq<string>)
    ensures id !in r
    ensures forall x :: x in r ==> x in joined
    ensures forall x :: x in joined && x != id ==> x in r
    ensures Seqs.IsSubsequence(r, joined)
    ensures forall x :: multiset(r)[x] == if x == id then 0 else multiset(joined)[x]
  {
    Seqs.FilterIsSubsequence(joined, x => x != id);
    Seqs.Filter(joined, x => x != id)
  }

  /** Leaving undoes a join, even if the id had been joined before. */
  lemma LeaveAfterJoin(joined: seq<string>, id: string)
    ensures Leave(Join(joined, id), id) == Leave(joined, id)
  {
    Seqs.FilterAppend(joined, [id], x => x != id);
  }

  /** Leaving an id that is not in the list changes nothing. */
  lemma LeaveAbsent(joined: seq<string>, id: string)
    requires id !in joined
    ensures Leave(joined, id) == joined
  {
    Seqs.FilterAll(joined, x => x != id);
  }

  /** The membership button: leave when the id is joined, join otherwise. */
  function Toggle(joined: seq<string>, id: string): (r: seq<string>)
    ensures id in r <==> id !in joined
    ensures forall x :: x != id ==> (x in r <==> x in joined)
  {
    if id in joined then Leave(joined, id) else Join(joined, id)
  }

  /** Toggling twice from a list without the id returns to the list. */
  lemma ToggleTwiceFromAbsent(joined: seq<string>, id: string)
    requires id !in joined
    ensures Toggle(Toggle(joined, id), id) == joined
  {
    LeaveAfterJoin(joined, id);
    LeaveAbsent(joined, id);
  }

  /** The list after a sequence of button clicks. */
  function ToggleAll(joined: seq<string>, clicks: seq<string>): seq<string>
    decreases |clicks|
  {
    if clicks == [] then joined else ToggleAll(Toggle(joined, clicks[0]), clicks[1..])
  }

  /** One click keeps the list free of duplicates. */
  lemma ToggleNoDuplicates(joined: seq<string>, id: string)
    requires Seqs.NoDuplicates(joined)
    ensures Seqs.NoDuplicates(Toggle(joined, id))
  {
    if id in joined {
      Seqs.FilterNoDuplicates(joined, x => x != id);
    } else {
      var r := Join(joined, id);
      forall i, j | 0 <= i < j < |r| ensures r[i] != r[j] {
        if j == |joined| {
          assert r[i] == joined[i];
        } else {
          assert r[i] == joined[i] && r[j] == joined[j];
        }
      }
    }
  }

  /** Button-driven sequences never put an id into the list twice. */
  lemma {:induction false} ToggleAllNoDuplicates(joined: seq<string>, clicks: seq<string>)
    requires Seqs.NoDuplicates(joined)
    ensures Seqs.NoDuplicates(ToggleAll(joined, clicks))
    decreases |clicks|
  {
    if clicks != [] {
      ToggleNoDuplicates(joined, clicks[0]);
      ToggleAllNoDuplicates(Toggle(joined, clicks[0]), clicks[1..]);
    }
  }

  /** After button clicks, an id's membership has flipped exactly when it was clicked an odd number of times. */
  lemma ToggleAllParity(joined: seq<string>, clicks: seq<string>, id: string)
    ensures id in ToggleAll(joined, clicks) <==> (id in joined) != (Count(clicks, id) % 2 == 1)
  {
    ToggleAllFlips(joined, clicks, id);
    OddCount(clicks, id);
  }

  /** Whether the clicks on `id` flip its membership: each click on it flips once more. */
  function Flips(clicks: seq<string>, id: string): bool
    decreases |clicks|
  {
    if clicks == [] then false else (clicks[0] == id) != Flips(clicks[1..], id)
  }

  lemma {:induction false} ToggleAllFlips(joined: seq<string>, clicks: seq<string>, id: string)
    ensures id in ToggleAll(joined, clicks) <==> (id in joined) != Flips(clicks, id)
    decreases |clicks|
  {
    if clicks != [] {
      ToggleAllFlips(Toggle(joined, clicks[0]), clicks[1..], id);
      ToggleOne(joined, clicks[0], id);
    }
  }

  lemma {:induction false} OddCount(clicks: seq<string>, id: string)
    ensures Flips(clicks, id) <==> Count(clicks, id) % 2 == 1
    decreases |clicks|
  {
    if clicks != [] {
      OddCount(clicks[1..], id);
    }
  }

  /** Whether `id` is joined after a click on `c`. */
  lemma ToggleOne(joined: seq<string>, c: string, id: string)
    ensures (id in Toggle(joined, c)) == if c == id then id !in joined else id in joined
  {
  }

  /** The number of occurrences of `x` in `s`. */
  function Count(s: seq<string>, x: string): (n: nat)
    ensures n <= |s|
    decreases |s|
  {
    if s == [] then 0 else (if s[0] == x then 1 else 0) + Count(s[1..], x)
  }

  /** The button label. */
  function Label(joined: seq<string>, id: string): (text: string)
    ensures text == "Joined" <==> id in joined
    ensures id !in joined ==> text == "Join"
  {
    if id in joined then "Joined" else "Join"
  }
}

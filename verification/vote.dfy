/**
  The tri-state vote toggle shared, as two identical copies in the source, by
  the post card (`handleVote` in PostCard.tsx) and the comment item
  (`CommentItem.handleVote` in CommentSection.tsx).

  The viewer's status is no vote, up or down; the displayed count starts at
  `upvotes - downvotes` and is adjusted locally on every click.
 */
module Vote {

  datatype Direction = Up | Down

  /** The viewer's vote: `null`, `"up"` or `"down"` in the source. */
  datatype VoteStatus = NoVote | Voted(dir: Direction)

  /** The two pieces of component state: `voteStatus` and `voteCount`. */
  datatype VoteState = VoteState(status: VoteStatus, count: int)

  function Opposite(d: Direction): Direction
  {
    match d
    case Up => Down
    case Down => Up
  }

  /** What a status adds to the baseline count: +1 for up, -1 for down, 0 for none. */
  function Contribution(status: VoteStatus): int
  {
    match status
    case NoVote => 0
    case Voted(Up) => 1
    case Voted(Down) => -1
  }

  /** The count is the baseline plus the contribution of the current status. */
  predicate Consistent(s: VoteState, baseline: int)
  {
    s.count == baseline + Contribution(s.status)
  }

  /** The state a card mounts with: no vote, count `upvotes - downvotes`. */
  function Init(upvotes: int, downvotes: int): (s: VoteState)
    ensures s.status == NoVote
    ensures s.count == upvotes - downvotes
  {
    VoteState(NoVote, upvotes - downvotes)
  }

  /**
    One click on the arrow for `d`. Clicking the active direction removes the
    vote; any other click makes `d` the vote. The count moves by exactly the
    change in contribution: +-1 when adding or removing, +-2 when switching.
   */
  function Click(s: VoteState, d: Direction): (r: VoteState)
    ensures s.status == Voted(d) ==> r.status == NoVote
    ensures s.status != Voted(d) ==> r.status == Voted(d)
    ensures r.count - s.count == Contribution(r.status) - Contribution(s.status)
  {
    if s.status == Voted(d) then
      VoteState(NoVote, if d == Up then s.count - 1 else s.count + 1)
    else if s.status == NoVote then
      VoteState(Voted(d), if d == Up then s.count + 1 else s.count - 1)
    else
      VoteState(Voted(d), if d == Up then s.count + 2 else s.count - 2)
  }

  /** A sequence of clicks, applied left to right. */
  function Run(s: VoteState, clicks: seq<Direction>): VoteState
    decreases |clicks|
  {
    if clicks == [] then s else Run(Click(s, clicks[0]), clicks[1..])
  }

  /** Every click keeps the count equal to baseline plus contribution. */
  lemma ClickConsistent(s: VoteState, d: Direction, baseline: int)
    requires Consistent(s, baseline)
    ensures Consistent(Click(s, d), baseline)
  {
  }

  /** After any click sequence from mount, count = upvotes - downvotes + contribution(status). */
  lemma {:induction false} RunConsistent(s: VoteState, clicks: seq<Direction>, baseline: int)
    requires Consistent(s, baseline)
    ensures Consistent(Run(s, clicks), baseline)
    decreases |clicks|
  {
    if clicks != [] {
      ClickConsistent(s, clicks[0], baseline);
      RunConsistent(Click(s, clicks[0]), clicks[1..], baseline);
    }
  }

  /** The count after any clicks from mount is within one of the baseline. */
  lemma MountedRunBounded(upvotes: int, downvotes: int, clicks: seq<Direction>)
    ensures var r := Run(Init(upvotes, downvotes), clicks);
      upvotes - downvotes - 1 <= r.count <= upvotes - downvotes + 1
  {
    RunConsistent(Init(upvotes, downvotes), clicks, upvotes - downvotes);
  }

  /**
    Clicking the same arrow twice restores the state exactly when the first
    click did not switch the vote from the opposite direction.
   */
  lemma ClickTwice(s: VoteState, d: Direction)
    ensures Click(Click(s, d), d) == s <==> s.status != Voted(Opposite(d))
  {
  }

  /** Exchanging up and down, and negating counts. */
  function MirrorStatus(v: VoteStatus): VoteStatus
  {
    match v
    case NoVote => NoVote
    case Voted(d) => Voted(Opposite(d))
  }

  function Mirror(s: VoteState): VoteState
  {
    VoteState(MirrorStatus(s.status), -s.count)
  }

  /** The toggle is symmetric under exchanging up and down. */
  lemma ClickMirror(s: VoteState, d: Direction)
    ensures Click(Mirror(s), Opposite(d)) == Mirror(Click(s, d))
  {
  }

  /**
    The worked scenario: 10 upvotes and 2 downvotes mount at 8; up, up, down,
    up pass through (up, 9), (none, 8), (down, 7) and end at (up, 9).
   */
  lemma Scenario()
    ensures Init(10, 2) == VoteState(NoVote, 8)
    ensures Run(Init(10, 2), [Up]) == VoteState(Voted(Up), 9)
    ensures Run(Init(10, 2), [Up, Up]) == VoteState(NoVote, 8)
    ensures Run(Init(10, 2), [Up, Up, Down]) == VoteState(Voted(Down), 7)
    ensures Run(Init(10, 2), [Up, Up, Down, Up]) == VoteState(Voted(Up), 9)
  {
    var s0 := Init(10, 2);
    var s1 := Click(s0, Up);
    var s2 := Click(s1, Up);
    var s3 := Click(s2, Down);
    assert s1 == VoteState(Voted(Up), 9);
    assert s2 == VoteState(NoVote, 8);
    assert s3 == VoteState(Voted(Down), 7);
    RunStep(s3, Up, []);
    RunStep(s2, Down, [Up]);
    RunStep(s1, Up, [Down, Up]);
    RunStep(s0, Up, [Up, Down, Up]);
    RunStep(s2, Down, []);
    RunStep(s1, Up, [Down]);
    RunStep(s0, Up, [Up, Down]);
    RunStep(s1, Up, []);
    RunStep(s0, Up, [Up]);
    RunStep(s0, Up, []);
  }

  lemma RunStep(s: VoteState, d: Direction, rest: seq<Direction>)
    ensures Run(s, [d] + rest) == Run(Click(s, d), rest)
  {
    assert ([d] + rest)[1..] == rest;
  }
}

/**
  The live-discussions page (Discussions.tsx): the partition of the mock
  discussions into the "active" and "scheduled" tabs, and each card's status
  label and button. Start times are integer milliseconds since the epoch and
  the current time is the parameter `now`.
 */
module Discussions {
  import Seqs
  import opened Text

  const Minute: int := 60 * 1000
  const Hour: int := 60 * Minute

  datatype Discussion = Discussion(
    id: string,
    title: string,
    host: string,
    communityName: string,
    participantCount: int,
    status: string,
    isPrivate: bool,
    startTime: int)

  /** The two tabs of the page. */
  datatype Groups = Groups(active: seq<Discussion>, scheduled: seq<Discussion>)

  /** `groupDiscussionsByStatus`: the "active" and the "scheduled" discussions, each in list order. */
  function Group(ds: seq<Discussion>): (g: Groups)
    ensures forall d :: d in g.active ==> d in ds && d.status == "active"
    ensures forall d :: d in ds && d.status == "active" ==> d in g.active
    ensures forall d :: d in g.scheduled ==> d in ds && d.status == "scheduled"
    ensures forall d :: d in ds && d.status == "scheduled" ==> d in g.scheduled
    ensures forall d :: multiset(g.active)[d] == if d.status == "active" then multiset(ds)[d] else 0
    ensures forall d :: multiset(g.scheduled)[d] == if d.status == "scheduled" then multiset(ds)[d] else 0
    ensures Seqs.IsSubsequence(g.active, ds) && Seqs.IsSubsequence(g.scheduled, ds)
  {
    Seqs.FilterIsSubsequence(ds, (d: Discussion) => d.status == "active");
    Seqs.FilterIsSubsequence(ds, (d: Discussion) => d.status == "scheduled");
    Groups(Seqs.Filter(ds, (d: Discussion) => d.status == "active"),
           Seqs.Filter(ds, (d: Discussion) => d.status == "scheduled"))
  }

  /** No discussion is in both tabs, and one with any other status is in neither. */
  lemma GroupsDisjoint(ds: seq<Discussion>, d: Discussion)
    ensures !(d in Group(ds).active && d in Group(ds).scheduled)
    ensures d.status != "active" && d.status != "scheduled" ==> d !in Group(ds).active && d !in Group(ds).scheduled
  {
  }

  /** The tabs together hold as many entries as the list has discussions with one of the two statuses. */
  lemma {:induction false} GroupSizes(ds: seq<Discussion>)
    ensures |Group(ds).active| + |Group(ds).scheduled|
         == |Seqs.Filter(ds, (d: Discussion) => d.status == "active" || d.status == "scheduled")|
    decreases |ds|
  {
    if ds != [] {
      GroupSizes(ds[1..]);
    }
  }

  /** `isLive`. */
  predicate IsLive(d: Discussion)
  {
    d.status == "active"
  }

  /** `isPast`: the start lies before now. */
  predicate IsPast(d: Discussion, now: int)
  {
    d.startTime < now
  }

  /** `Math.floor(x / y)` for a positive `y`; Dafny's `/` already rounds down for a positive divisor. */
  function FloorDiv(x: int, y: int): (q: int)
    requires y > 0
    ensures q * y <= x < (q + 1) * y
  {
    x / y
  }

  /**
    `getStatusLabel`: "LIVE NOW" for a live discussion whatever its start,
    "ENDED" for a past one, and otherwise the countdown to the start. The
    card reads the clock twice: `pastNow` is the `new Date()` that decides
    `isPast` when the card renders, `now` the `Date.now()` of the countdown.
   */
  function StatusLabel(d: Discussion, pastNow: int, now: int): (text: string)
    ensures text == "LIVE NOW" <==> IsLive(d)
    ensures text == "ENDED" <==> !IsLive(d) && IsPast(d, pastNow)
    ensures !IsLive(d) && !IsPast(d, pastNow) ==> text == Countdown(d.startTime - now)
  {
    if IsLive(d) then "LIVE NOW"
    else if IsPast(d, pastNow) then "ENDED"
    else Countdown(d.startTime - now)
  }

  /**
    The relative-time part of `getStatusLabel` for a start `t` milliseconds
    ahead: whole hours if there is at least one, else whole minutes if there
    is at least one, else "Starting soon" (also when the start has passed
    between the two clock reads, so that `t` is negative).
   */
  function Countdown(t: int): (text: string)
    ensures text != [] && text[0] == 'S'
    ensures text == "Starting soon" <==> t < Minute
    ensures t >= Hour ==> text == "Starts in " + NatToString(t / Hour) + "h"
    ensures Minute <= t < Hour ==> text == "Starts in " + NatToString(t / Minute) + "m"
  {
    var minutesUntil := FloorDiv(t, Minute);
    var hoursUntil := FloorDiv(minutesUntil, 60);
    NestedFloor(t);
    if hoursUntil > 0 then StartsIn(hoursUntil, 'h')
    else if minutesUntil > 0 then StartsIn(minutesUntil, 'm')
    else "Starting soon"
  }

  /** "Starts in {n}{unit}", which is never "Starting soon". */
  function StartsIn(n: nat, unit: char): (text: string)
    ensures text == "Starts in " + NatToString(n) + [unit]
    ensures text[0] == 'S' && text != "Starting soon"
  {
    var text := "Starts in " + NatToString(n) + [unit];
    assert text[5] == 's';
    text
  }

  /** Whole hours computed from whole minutes are the whole hours of the milliseconds. */
  lemma NestedFloor(t: int)
    ensures FloorDiv(FloorDiv(t, Minute), 60) == t / Hour
  {
    var m := t / Minute;
    var h := m / 60;
    assert h * 60 <= m < (h + 1) * 60;
    assert m * Minute <= t < (m + 1) * Minute;
    assert h * Hour <= t < (h + 1) * Hour;
  }

  /** The hours countdown never overstates: the start is at least that many whole hours away and less than one more. */
  lemma HoursCountdownBounds(d: Discussion, pastNow: int, now: int)
    requires !IsLive(d) && !IsPast(d, pastNow) && d.startTime >= now + Hour
    ensures var h := (d.startTime - now) / Hour;
      h >= 1 && now + h * Hour <= d.startTime < now + (h + 1) * Hour
      && StatusLabel(d, pastNow, now) == "Starts in " + NatToString(h) + "h"
  {
    var h := FloorDiv(d.startTime - now, Hour);
  }

  /** The card button. */
  function ButtonText(d: Discussion): (text: string)
    ensures text == "Join Now" <==> IsLive(d)
    ensures !IsLive(d) ==> text == "View Details"
  {
    if IsLive(d) then "Join Now" else "View Details"
  }

  // ---------------------------------------------------------------------------
  // The mock discussions

  /**
    `mockDiscussions`, with start times relative to the moment the page
    renders. The three `Date.now()` reads of the list are taken as one.
   */
  function MockDiscussions(now: int): seq<Discussion>
  {
    [ Discussion("1", "Photography Techniques Workshop", "photoexpert", "Photography", 24, "active", false,
                 now + 15 * Minute),
      Discussion("2", "Game Development Q&A", "devguru", "Gaming", 42, "active", false,
                 now - 30 * Minute),
      Discussion("3", "Book Club: Monthly Discussion", "bookworm", "Books", 18, "scheduled", true,
                 now + 3 * Hour) ]
  }

  /** The page at `now` has two live discussions and one scheduled. */
  lemma MockGroups(now: int)
    ensures var ds := MockDiscussions(now);
      Group(ds) == Groups([ds[0], ds[1]], [ds[2]])
  {
    GroupOfThree(MockDiscussions(now));
  }

  /** Two active discussions followed by a scheduled one split as the two tabs. */
  lemma GroupOfThree(ds: seq<Discussion>)
    requires |ds| == 3 && ds[0].status == "active" && ds[1].status == "active" && ds[2].status == "scheduled"
    ensures Group(ds) == Groups([ds[0], ds[1]], [ds[2]])
  {
    var active := (d: Discussion) => d.status == "active";
    var scheduled := (d: Discussion) => d.status == "scheduled";
    assert active(ds[0]) && active(ds[1]) && !active(ds[2]);
    assert !scheduled(ds[0]) && !scheduled(ds[1]) && scheduled(ds[2]);
    assert ds[1..] == [ds[1], ds[2]] && [ds[1], ds[2]][1..] == [ds[2]] && [ds[2]][1..] == [];
    assert Seqs.Filter([ds[2]], active) == [];
    assert Seqs.Filter([ds[1], ds[2]], active) == [ds[1]];
    assert Seqs.Filter(ds, active) == [ds[0], ds[1]];
    assert Seqs.Filter([ds[2]], scheduled) == [ds[2]];
    assert Seqs.Filter([ds[1], ds[2]], scheduled) == [ds[2]];
    assert Seqs.Filter(ds, scheduled) == [ds[2]];
  }

  /**
    The first mock discussion is "LIVE NOW" although it starts in 15 minutes,
    whatever the card's clocks read. The scheduled one counts down
    "Starts in 3h" when its card reads the clock at the very millisecond the
    page rendered the list (`MockScheduledLabelIff` gives the converse).
   */
  lemma MockLabels(now: int, pastNow: int, cardNow: int)
    ensures var ds := MockDiscussions(now);
      && StatusLabel(ds[0], pastNow, cardNow) == "LIVE NOW"
      && StatusLabel(ds[1], pastNow, cardNow) == "LIVE NOW"
      && StatusLabel(ds[2], now, now) == "Starts in 3h"
  {
    var ds := MockDiscussions(now);
    assert (ds[2].startTime - now) / Hour == 3;
    assert NatToString(3) == [DigitChar(3)];
  }

  /**
    For a card clock not earlier than the page's, the scheduled discussion
    reads "Starts in 3h" exactly when the card's countdown clock is the page's
    own and its `isPast` clock has not passed the start.
   */
  lemma MockScheduledLabelIff(now: int, pastNow: int, cardNow: int)
    requires now <= cardNow
    ensures StatusLabel(MockDiscussions(now)[2], pastNow, cardNow) == "Starts in 3h"
            <==> cardNow == now && pastNow <= now + 3 * Hour
  {
    var d := MockDiscussions(now)[2];
    var L := StatusLabel(d, pastNow, cardNow);
    if IsPast(d, pastNow) {
      assert L == "ENDED";
    } else if cardNow == now {
      MockLabels(now, pastNow, cardNow);
    } else {
      var t := d.startTime - cardNow;
      assert t < 3 * Hour;
      if t >= Hour {
        var h := t / Hour;
        assert 1 <= h < 3;
        assert NatToString(h) == [DigitChar(h)];
        assert L[10] == DigitChar(h) != '3';
      } else if t >= Minute {
        assert L[|L| - 1] == 'm';
      }
    }
  }

  /**
    The scheduled card renders only once its tab is opened (the default tab is
    "active"), so its countdown clock is later than the page's. Any delay up to
    an hour shows "Starts in 2h".
   */
  lemma MockScheduledLabelLater(now: int, pastNow: int, cardNow: int)
    requires pastNow <= now + 3 * Hour
    requires now < cardNow <= now + Hour
    ensures StatusLabel(MockDiscussions(now)[2], pastNow, cardNow) == "Starts in 2h"
  {
    var d := MockDiscussions(now)[2];
    var t := d.startTime - cardNow;
    assert 2 * Hour <= t < 3 * Hour;
    assert t / Hour == 2;
    assert NatToString(2) == [DigitChar(2)];
  }
}

/**
  The community page header (CommunityHeader.tsx): a two-flag state machine
  over membership and notifications, whose handlers answer with a toast.
  Notifications can only be on for a member.
 */
module CommunityHeader {

  /** `isMember` and `isNotificationEnabled`. */
  datatype HeaderState = HeaderState(isMember: bool, notificationsEnabled: bool)

  /** The toast each handler shows, carrying the community name where the title names it. */
  datatype Toast =
    | Joined(community: string)
    | Left(community: string)
    | JoinRequired
    | NotificationsEnabled(community: string)
    | NotificationsDisabled(community: string)
    | LinkCopied

  /** The user-visible events of the header. */
  datatype Event = ToggleMembershipClicked | ToggleNotificationsClicked | ShareClicked

  /** Notifications on implies member. */
  predicate Valid(s: HeaderState)
  {
    s.notificationsEnabled ==> s.isMember
  }

  /** The header mounts as a non-member with notifications off. */
  function Init(): (s: HeaderState)
    ensures !s.isMember && !s.notificationsEnabled
  {
    HeaderState(false, false)
  }

  /**
    `handleToggleMembership`: flips membership; leaving also switches
    notifications off, joining leaves them as they were.
   */
  function ToggleMembership(s: HeaderState, name: string): (r: (HeaderState, Toast))
    ensures r.0.isMember == !s.isMember
    ensures r.0.isMember ==> r.0.notificationsEnabled == s.notificationsEnabled
    ensures !r.0.isMember ==> !r.0.notificationsEnabled
    ensures r.1 == if r.0.isMember then Joined(name) else Left(name)
  {
    var member := !s.isMember;
    var notify := if !member && s.notificationsEnabled then false else s.notificationsEnabled;
    (HeaderState(member, notify), if member then Joined(name) else Left(name))
  }

  /**
    `handleToggleNotifications`: refused with "Join required" for a
    non-member (no state change); for a member it flips notifications.
   */
  function ToggleNotifications(s: HeaderState, name: string): (r: (HeaderState, Toast))
    ensures !s.isMember ==> r == (s, JoinRequired)
    ensures s.isMember ==> r.0 == HeaderState(true, !s.notificationsEnabled)
    ensures s.isMember ==> r.1 == if r.0.notificationsEnabled then NotificationsEnabled(name) else NotificationsDisabled(name)
  {
    if !s.isMember then (s, JoinRequired)
    else
      var notify := !s.notificationsEnabled;
      (s.(notificationsEnabled := notify), if notify then NotificationsEnabled(name) else NotificationsDisabled(name))
  }

  /** `handleShare`: a toast and nothing else. */
  function Share(s: HeaderState): (r: (HeaderState, Toast))
    ensures r.0 == s && r.1 == LinkCopied
  {
    (s, LinkCopied)
  }

  /** Dispatches one event to its handler. */
  function Step(s: HeaderState, e: Event, name: string): (HeaderState, Toast)
  {
    match e
    case ToggleMembershipClicked => ToggleMembership(s, name)
    case ToggleNotificationsClicked => ToggleNotifications(s, name)
    case ShareClicked => Share(s)
  }

  /** The state after a sequence of events. */
  function Run(s: HeaderState, events: seq<Event>, name: string): HeaderState
    decreases |events|
  {
    if events == [] then s else Run(Step(s, events[0], name).0, events[1..], name)
  }

  /** Every handler preserves "notifications on implies member". */
  lemma StepValid(s: HeaderState, e: Event, name: string)
    requires Valid(s)
    ensures Valid(Step(s, e, name).0)
  {
  }

  /** Every state reachable from mount satisfies "notifications on implies member". */
  lemma {:induction false} RunValid(s: HeaderState, events: seq<Event>, name: string)
    requires Valid(s)
    ensures Valid(Run(s, events, name))
    decreases |events|
  {
    if events != [] {
      StepValid(s, events[0], name);
      RunValid(Step(s, events[0], name).0, events[1..], name);
    }
  }

  /** Joining and then leaving returns to a non-member with notifications off, whatever came before. */
  lemma JoinThenLeave(s: HeaderState, name: string)
    requires !s.isMember
    ensures ToggleMembership(ToggleMembership(s, name).0, name).0 == HeaderState(false, false)
  {
  }

  /** The label of the membership button. */
  function MembershipLabel(s: HeaderState): (text: string)
    ensures text == "Joined" <==> s.isMember
    ensures !s.isMember ==> text == "Join"
  {
    if s.isMember then "Joined" else "Join"
  }
}

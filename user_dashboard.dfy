/**
 * The user dashboard (src/pages/UserDashboard.jsx): a session's own events.
 * The page only reads.
 */
module UserDashboard {
  import opened Wrappers
  import opened Entities
  import opened Storage
  import opened Sessions

  /** What the page renders. */
  datatype View = LoginPrompt | MyEvents(events: seq<Event>)

  /** `events.filter(e => e.creatorId === session?.id)`, shown only when there is a session. */
  function Dashboard(session: Value, events: seq<Event>): (v: View)
    ensures v.LoginPrompt? <==> !Truthy(session)
    ensures v.MyEvents? ==> forall e :: e in v.events <==> e in events && e.creatorId == SessionId(session)
    ensures v.MyEvents? ==> v.events == OwnedBy(events, SessionId(session))
  {
    if !Truthy(session) then LoginPrompt else MyEvents(OwnedBy(events, SessionId(session)))
  }

  /** An event with no creator id is listed for every session that has no id, so for every login. */
  lemma OwnerlessListedForAll(session: Value, events: seq<Event>, e: Event)
    requires Truthy(session) && SessionId(session).None?
    requires e in events && e.creatorId.None?
    ensures e in Dashboard(session, events).events
  {
  }
}

/**
 * The manage page (src/pages/ManageEvents.jsx): the list a session may
 * manage, deletion and approval.
 */
module ManageEvents {
  import opened Wrappers
  import opened Entities
  import opened Storage
  import opened Sessions
  import Seqs
  import EditEvent

  /** What the page renders. */
  datatype ManageView = LoginRequired | Listing(events: seq<Event>)

  /** The `filtered` list: everything for an admin, otherwise the session's own events in stored order. */
  function Manageable(session: Value, events: seq<Event>): (r: seq<Event>)
    ensures SessionRole(session) == Some(ADMIN) ==> r == events
    ensures SessionRole(session) != Some(ADMIN) ==> forall e :: e in r <==> e in events && e.creatorId == SessionId(session)
    ensures forall e :: multiset(r)[e] == if e in r then multiset(events)[e] else 0
  {
    if SessionRole(session) == Some(ADMIN) then events else OwnedBy(events, SessionId(session))
  }

  /** The managed list keeps the stored order: it distributes over concatenation. */
  lemma ManageableKeepsOrder(session: Value, a: seq<Event>, b: seq<Event>)
    ensures Manageable(session, a + b) == Manageable(session, a) + Manageable(session, b)
  {
    OwnedByKeepsOrder(a, b, SessionId(session));
  }

  /** The page lists exactly the stored events the edit page lets the session edit. */
  lemma ManageableAreEditable(session: Value, events: seq<Event>, e: Event)
    requires e in events
    ensures e in Manageable(session, events) <==> EditEvent.CanEdit(session, e)
  {
  }

  /** The page for the session and the stored list. */
  function View(session: Value, events: seq<Event>): (v: ManageView)
    ensures v.LoginRequired? <==> !Truthy(session)
    ensures v.Listing? ==> v.events == Manageable(session, events)
  {
    if !Truthy(session) then LoginRequired else Listing(Manageable(session, events))
  }

  /** `events.filter(e => e.id !== id)`. */
  function RemoveById(events: seq<Event>, id: Option<string>): (r: seq<Event>)
    ensures forall e :: e in r <==> e in events && e.id != id
    ensures |r| <= |events|
  {
    Seqs.Filter(events, (e: Event) => e.id != id)
  }

  /** Deletion keeps the remaining events in their order: it distributes over concatenation. */
  lemma RemoveKeepsOrder(a: seq<Event>, b: seq<Event>, id: Option<string>)
    ensures RemoveById(a + b, id) == RemoveById(a, id) + RemoveById(b, id)
  {
    Seqs.FilterAppend(a, b, (e: Event) => e.id != id);
  }

  /** Deleting an id that is not stored changes nothing. */
  lemma RemoveAbsent(events: seq<Event>, id: Option<string>)
    requires forall e :: e in events ==> e.id != id
    ensures RemoveById(events, id) == events
  {
    Seqs.FilterAll(events, (e: Event) => e.id != id);
  }

  /** Deleting twice is deleting once. */
  lemma RemoveIdempotent(events: seq<Event>, id: Option<string>)
    ensures RemoveById(RemoveById(events, id), id) == RemoveById(events, id)
  {
    Seqs.FilterIdempotent(events, (e: Event) => e.id != id);
  }

  /** With distinct ids, deleting a stored id removes exactly one entry. */
  lemma RemoveOneOfUnique(events: seq<Event>, i: nat)
    requires UniqueIds(events) && i < |events|
    ensures RemoveById(events, events[i].id) == events[..i] + events[i + 1..]
  {
    var id := events[i].id;
    forall j | 0 <= j < |events| && j != i
      ensures events[j].id != id
    {
      if j < i {
        assert events[j].id != events[i].id;
      } else {
        assert events[i].id != events[j].id;
      }
    }
    Seqs.FilterDropsOne(events, (e: Event) => e.id != id, i);
  }

  /** `events.map(e => e.id === id ? {...e, approved: true} : e)`. */
  function ApproveById(events: seq<Event>, id: Option<string>): (r: seq<Event>)
    ensures |r| == |events|
    ensures forall i :: 0 <= i < |r| ==> r[i].approved == (events[i].approved || events[i].id == id)
    ensures forall i :: 0 <= i < |r| ==> r[i].(approved := events[i].approved) == events[i]
  {
    seq(|events|, i requires 0 <= i < |events| => if events[i].id == id then events[i].(approved := true) else events[i])
  }

  /** Approving twice is approving once. */
  lemma ApproveIdempotent(events: seq<Event>, id: Option<string>)
    ensures ApproveById(ApproveById(events, id), id) == ApproveById(events, id)
  {
    var once := ApproveById(events, id);
    var twice := ApproveById(once, id);
    forall i | 0 <= i < |events|
      ensures twice[i] == once[i]
    {
      assert twice[i].(approved := once[i].approved) == once[i];
    }
  }

  /** The approve button: admins only, and only on events not yet approved. */
  predicate ShowApprove(session: Value, e: Event): (b: bool)
    ensures b ==> SessionRole(session) == Some(ADMIN)
    ensures e.approved ==> !b
  {
    SessionRole(session) == Some(ADMIN) && !e.approved
  }

  /** After approval the button is gone from every approved event. */
  lemma ApprovedHidesButton(session: Value, events: seq<Event>, i: nat)
    requires i < |events|
    ensures !ShowApprove(session, ApproveById(events, events[i].id)[i])
  {
  }

  /**
   * `handleDelete`: writes the whole list the page read, less the id, not
   * just the filtered view.
   */
  method HandleDelete(store: LocalStore, events: seq<Event>, id: Option<string>)
    requires EventsIn(store.slots) == Some(events)
    modifies store
    ensures store.slots == WriteSlot(old(store.slots), EVENTS_KEY, Events(RemoveById(events, id)))
    ensures EventsIn(store.slots) == Some(RemoveById(events, id))
  {
    var updated := Seqs.Filter(events, (e: Event) => e.id != id);
    store.Write(EVENTS_KEY, Events(updated));
  }

  /** `handleApprove`, likewise on the whole list the page read. */
  method HandleApprove(store: LocalStore, events: seq<Event>, id: Option<string>)
    requires EventsIn(store.slots) == Some(events)
    modifies store
    ensures store.slots == WriteSlot(old(store.slots), EVENTS_KEY, Events(ApproveById(events, id)))
    ensures EventsIn(store.slots) == Some(ApproveById(events, id))
  {
    var updated := ApproveById(events, id);
    store.Write(EVENTS_KEY, Events(updated));
  }
}

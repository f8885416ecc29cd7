/**
 * The records the pages keep in the store: users, the session, events and
 * per-event preferences, and the role and list helpers several pages share.
 */
module Entities {
  import opened Wrappers
  import Seqs

  /** The role string that unlocks the admin pages; every other role is an ordinary user. */
  const ADMIN: string := "admin"

  /** A signed-up account, stored with its password in clear (src/pages/Signup.jsx:24). */
  datatype User = User(name: string, username: string, password: string, role: string)

  /**
   * The session record. Login and signup store only `username` and `role`;
   * the pages still read an `id` from it, which is then absent (`None`).
   */
  datatype Session = Session(username: string, role: string, id: Option<string>)

  /**
   * A stored event. An absent field (`time` for events made by the create
   * form, `creatorId` for events made under a session without an id) is `None`.
   */
  datatype Event = Event(
    id: Option<string>,
    title: string,
    date: string,
    time: Option<string>,
    description: string,
    location: string,
    image: string,
    category: string,
    tags: seq<string>,
    creatorId: Option<string>,
    approved: bool)

  /** One entry of the preference table; `rating` is `None` when the stored entry has none. */
  datatype Pref = Pref(interested: bool, rating: Option<int>)

  /** `events.filter(e => e.approved)`, shared by the listing, the home page and the admin dashboard. */
  function Approved(events: seq<Event>): (r: seq<Event>)
    ensures forall e :: e in r <==> e in events && e.approved
    ensures forall e :: multiset(r)[e] == if e.approved then multiset(events)[e] else 0
  {
    Seqs.Filter(events, (e: Event) => e.approved)
  }

  /** `events.filter(e => !e.approved)`. */
  function Pending(events: seq<Event>): (r: seq<Event>)
    ensures forall e :: e in r <==> e in events && !e.approved
    ensures forall e :: multiset(r)[e] == if e.approved then 0 else multiset(events)[e]
  {
    Seqs.Filter(events, (e: Event) => !e.approved)
  }

  /** `events.filter(e => e.creatorId === id)`: the events owned by an id, absent matching absent. */
  function OwnedBy(events: seq<Event>, id: Option<string>): (r: seq<Event>)
    ensures forall e :: e in r <==> e in events && e.creatorId == id
    ensures forall e :: multiset(r)[e] == if e.creatorId == id then multiset(events)[e] else 0
  {
    Seqs.Filter(events, (e: Event) => e.creatorId == id)
  }

  /**
   * The owned events keep their stored order: the filter distributes over
   * concatenation and keeps or drops each single event.
   */
  lemma OwnedByKeepsOrder(a: seq<Event>, b: seq<Event>, id: Option<string>)
    ensures OwnedBy(a + b, id) == OwnedBy(a, id) + OwnedBy(b, id)
    ensures forall e :: OwnedBy([e], id) == if e.creatorId == id then [e] else []
  {
    Seqs.FilterAppend(a, b, (e: Event) => e.creatorId == id);
  }

  /** No two stored events share an id. */
  predicate UniqueIds(events: seq<Event>) {
    forall i, j :: 0 <= i < j < |events| ==> events[i].id != events[j].id
  }

  /** No two signed-up users share a username. */
  predicate UniqueUsernames(users: seq<User>) {
    forall i, j :: 0 <= i < j < |users| ==> users[i].username != users[j].username
  }
}

/**
 * The admin dashboard (src/pages/AdminDashboard.jsx): the redirect, the
 * approved/pending split and the three counters. The page only reads.
 */
module AdminDashboard {
  import opened Wrappers
  import opened Entities
  import opened Storage
  import opened Sessions
  import Seqs

  /** The redirect effect's condition, `!session || session.role !== "admin"`. */
  predicate Redirects(session: Value): (b: bool)
    ensures b <==> !IsAdmin(session)
  {
    !Truthy(session) || SessionRole(session) != Some(ADMIN)
  }

  /** The dashboard redirects exactly the sessions `RequireAdmin` would turn away. */
  lemma RedirectsLikeRequireAdmin(slots: Slots)
    ensures Redirects(GetSession(slots)) <==> RequireAdmin(slots) == Redirect(Login)
  {
  }

  /** Approved and pending split the stored events: every event is in exactly one, and none is added. */
  lemma Partition(events: seq<Event>)
    ensures multiset(Approved(events)) + multiset(Pending(events)) == multiset(events)
    ensures |Approved(events)| + |Pending(events)| == |events|
  {
    Seqs.FilterPartition(events, (e: Event) => e.approved, (e: Event) => !e.approved);
  }

  /** Both lists keep the stored order: each distributes over concatenation. */
  lemma SplitKeepsOrder(a: seq<Event>, b: seq<Event>)
    ensures Approved(a + b) == Approved(a) + Approved(b)
    ensures Pending(a + b) == Pending(a) + Pending(b)
  {
    Seqs.FilterAppend(a, b, (e: Event) => e.approved);
    Seqs.FilterAppend(a, b, (e: Event) => !e.approved);
  }

  /** The three counters: users, events and pending approvals. */
  datatype Counts = Counts(users: nat, events: nat, pending: nat)

  function DashboardCounts(users: seq<User>, events: seq<Event>): (c: Counts)
    ensures c.users == |users| && c.events == |events|
    ensures c.pending + |Approved(events)| == c.events
  {
    Partition(events);
    Counts(|users|, |events|, |Pending(events)|)
  }
}

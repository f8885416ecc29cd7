/**
 * Event creation (`handleCreate`, src/pages/CreateEvent.jsx).
 */
module CreateEvent {
  import opened Wrappers
  import opened Entities
  import opened Storage
  import opened Sessions
  import opened Tags

  /** The create form's fields; `tags` is the raw comma-separated input. There is no time field. */
  datatype EventForm = EventForm(
    title: string,
    date: string,
    description: string,
    location: string,
    image: string,
    category: string,
    tags: string)

  datatype CreateError =
    | FieldsRequired    // the "All fields are required" alert
    | EventsUnreadable  // the events slot holds no list

  /** The required-field check: tags are optional and `time` is not looked at. */
  predicate MissingField(f: EventForm): (b: bool)
    ensures b <==> "" in [f.title, f.date, f.description, f.location, f.image, f.category]
  {
    f.title == "" || f.date == "" || f.description == "" || f.location == "" || f.image == "" || f.category == ""
  }

  /**
   * The event the form builds under `session`. `freshId` stands for the
   * `uuidv4()` value; `creatorId` is whatever id the session carries.
   */
  function NewEvent(f: EventForm, session: Value, freshId: string): (e: Event)
    ensures e.id == Some(freshId) && e.time.None?
    ensures e.title == f.title && e.date == f.date && e.description == f.description
    ensures e.location == f.location && e.image == f.image && e.category == f.category
    ensures e.approved <==> SessionRole(session) == Some(ADMIN)
    ensures e.creatorId == SessionId(session)
    ensures e.tags == NormalizeTags(f.tags) && AllTags(e.tags)
  {
    Event(Some(freshId), f.title, f.date, None, f.description, f.location, f.image, f.category,
          NormalizeTags(f.tags), SessionId(session), SessionRole(session) == Some(ADMIN))
  }

  /** Only an admin's events are listed straight away; everyone else's wait for approval. */
  lemma OnlyAdminsAutoApprove(f: EventForm, session: Value, freshId: string)
    requires Truthy(session)
    ensures NewEvent(f, session, freshId).approved <==> IsAdmin(session)
  {
  }

  /** Under a session made by login or signup, the new event has no creator id. */
  lemma LoginSessionsCreateOwnerless(f: EventForm, username: string, role: string, freshId: string)
    ensures NewEvent(f, SessionRecord(Session(username, role, None)), freshId).creatorId.None?
  {
  }

  /** The store after a create, or the error that leaves it unchanged. */
  function CreateEffect(slots: Slots, session: Value, f: EventForm, freshId: string): (r: Result<Slots, CreateError>)
    ensures r.Failure? <==> MissingField(f) || EventsIn(slots).None?
    ensures r.Failure? && MissingField(f) ==> r.error == FieldsRequired
    ensures r.Success? ==> EventsIn(r.value) == Some(EventsIn(slots).value + [NewEvent(f, session, freshId)])
  {
    if MissingField(f) then Failure(FieldsRequired)
    else match EventsIn(slots)
      case None => Failure(EventsUnreadable)
      case Some(events) =>
        var updated := events + [NewEvent(f, session, freshId)];
        EventsInAfterWrite(slots, updated);
        Success(WriteSlot(slots, EVENTS_KEY, Events(updated)))
  }

  /** A create touches the events slot and no other. */
  lemma CreateTouchesEventsOnly(slots: Slots, session: Value, f: EventForm, freshId: string, key: string)
    requires CreateEffect(slots, session, f, freshId).Success? && key != EVENTS_KEY
    ensures key in CreateEffect(slots, session, f, freshId).value <==> key in slots
    ensures key in slots ==> CreateEffect(slots, session, f, freshId).value[key] == slots[key]
  {
  }

  /** A fresh id keeps the stored ids distinct. */
  lemma FreshIdKeepsIdsUnique(events: seq<Event>, e: Event)
    requires UniqueIds(events)
    requires forall x :: x in events ==> x.id != e.id
    ensures UniqueIds(events + [e])
  {
    var r := events + [e];
    forall i, j | 0 <= i < j < |r|
      ensures r[i].id != r[j].id
    {
      assert r[i] == events[i];
      if j == |events| {
        assert events[i] in events;
      } else {
        assert r[j] == events[j];
      }
    }
  }

  /** Creating with a fresh id keeps the stored ids distinct. */
  lemma CreateKeepsIdsUnique(slots: Slots, session: Value, f: EventForm, freshId: string)
    requires CreateEffect(slots, session, f, freshId).Success?
    requires UniqueIds(EventsIn(slots).value)
    requires forall x :: x in EventsIn(slots).value ==> x.id != Some(freshId)
    ensures UniqueIds(EventsIn(CreateEffect(slots, session, f, freshId).value).value)
  {
    FreshIdKeepsIdsUnique(EventsIn(slots).value, NewEvent(f, session, freshId));
  }

  /**
   * `handleCreate`, run by the button the page only shows when the
   * `session` it read on rendering is truthy.
   */
  method HandleCreate(store: LocalStore, session: Value, f: EventForm, freshId: string)
    returns (r: Result<Route, CreateError>)
    requires Truthy(session)
    modifies store
    ensures var effect := CreateEffect(old(store.slots), session, f, freshId);
      if effect.Success? then r == Success(EventList) && store.slots == effect.value
      else r == Failure(effect.error) && store.slots == old(store.slots)
  {
    if f.title == "" || f.date == "" || f.description == "" || f.location == "" || f.image == "" || f.category == "" {
      return Failure(FieldsRequired);
    }
    var events := AsEvents(store.Read(EVENTS_KEY, Events([])));
    if events.None? {
      return Failure(EventsUnreadable);
    }
    var list := events.value;
    list := list + [NewEvent(f, session, freshId)];
    store.Write(EVENTS_KEY, Events(list));
    r := Success(EventList);
  }
}

/**
 * Event editing (src/pages/EditEvent.jsx): the load effect, `handleSave`
 * and the permission check.
 */
module EditEvent {
  import opened Wrappers
  import opened Entities
  import opened Storage
  import opened Sessions
  import opened Tags
  import Seqs

  /**
   * The event held in the page's state: a stored event whose tags the load
   * effect turned into one string. The form edits the fields of `base`;
   * `base.tags` is not shown and is overwritten on save.
   */
  datatype Draft = Draft(base: Event, tagInput: string)

  datatype SaveError =
    | NothingLoaded     // `if (!event) return`
    | FieldsRequired    // the "All fields are required!" toast
    | NotFound          // `findIndex` gave -1
    | EventsUnreadable  // the events slot holds no list

  /** What the page renders. */
  datatype EditView = LoginRequired | EventNotFound | NoPermission | Form(draft: Draft)

  /** `e.id === id` for the route id. */
  predicate HasRouteId(e: Event, id: string) {
    e.id == Some(id)
  }

  /** The load effect: the first event with the route id, its tags joined by `", "`. */
  function LoadDraft(events: seq<Event>, id: string): (d: Option<Draft>)
    ensures d.None? <==> forall e :: e in events ==> !HasRouteId(e, id)
    ensures d.Some? ==> d.value.base in events && HasRouteId(d.value.base, id)
    ensures d.Some? ==> d.value.tagInput == JoinTags(d.value.base.tags)
    ensures d.Some? ==> d.value.base == events[Seqs.FirstIndex(events, (e: Event) => HasRouteId(e, id))]
  {
    match Seqs.Find(events, (e: Event) => HasRouteId(e, id))
    case None => None
    case Some(found) => Some(Draft(found, JoinTags(found.tags)))
  }

  /** An event without tags loads as an empty tag input. */
  lemma NoTagsLoadEmpty(events: seq<Event>, id: string)
    requires LoadDraft(events, id).Some? && LoadDraft(events, id).value.base.tags == []
    ensures LoadDraft(events, id).value.tagInput == ""
  {
  }

  /** `!x` for an optional string: absent or empty. */
  predicate Blank(x: Option<string>) {
    x.None? || x.value == ""
  }

  /** The save-time required-field check; unlike creation it includes `time`. */
  predicate MissingField(e: Event): (b: bool)
    ensures b <==> Blank(e.time) || "" in [e.title, e.date, e.description, e.location, e.image, e.category]
  {
    e.title == "" || e.date == "" || Blank(e.time) || e.description == "" || e.location == "" || e.image == "" || e.category == ""
  }

  /** `{...event, tags: ...split/trim/filter(Boolean)}`. */
  function Saved(d: Draft): (e: Event)
    ensures e.id == d.base.id && e.approved == d.base.approved && e.creatorId == d.base.creatorId
    ensures e.tags == NormalizeTags(d.tagInput) && AllTags(e.tags)
    ensures e.(tags := d.base.tags) == d.base
  {
    d.base.(tags := NormalizeTags(d.tagInput))
  }

  /**
   * `events[events.findIndex(e => e.id === updated.id)] = updated`:
   * `None` when no entry has the id.
   */
  function ReplaceFirst(events: seq<Event>, updated: Event): (r: Option<seq<Event>>)
    ensures r.None? <==> forall e :: e in events ==> e.id != updated.id
    ensures r.Some? ==> |r.value| == |events|
    ensures r.Some? ==> exists i :: (0 <= i < |events| && events[i].id == updated.id &&
                                     (forall j :: 0 <= j < i ==> events[j].id != updated.id) &&
                                     r.value == events[i := updated])
  {
    var i := Seqs.FirstIndex(events, (e: Event) => e.id == updated.id);
    if i == -1 then None
    else
      assert forall j :: 0 <= j < i ==> events[j].id != updated.id;
      Some(events[i := updated])
  }

  /** Loading and saving untouched tags changes nothing about them. */
  lemma SaveKeepsNormalTags(d: Draft)
    requires AllTags(d.base.tags) && d.tagInput == JoinTags(d.base.tags)
    ensures Saved(d) == d.base
  {
    TagsRoundTrip(d.base.tags);
  }

  /** A replacement keeps ids distinct when the entries' ids were distinct and the id is kept. */
  lemma ReplaceKeepsIdsUnique(events: seq<Event>, updated: Event)
    requires UniqueIds(events) && ReplaceFirst(events, updated).Some?
    ensures UniqueIds(ReplaceFirst(events, updated).value)
  {
  }

  /** The store after a save, or the error that leaves it unchanged. */
  function SaveEffect(slots: Slots, draft: Option<Draft>): (r: Result<Slots, SaveError>)
    ensures r.Failure? <==> (draft.None? || MissingField(draft.value.base) || EventsIn(slots).None? ||
                             forall e :: e in EventsIn(slots).value ==> e.id != draft.value.base.id)
    ensures r.Success? ==> EventsIn(r.value) == ReplaceFirst(EventsIn(slots).value, Saved(draft.value))
  {
    match draft
    case None => Failure(NothingLoaded)
    case Some(d) =>
      if MissingField(d.base) then Failure(FieldsRequired)
      else match EventsIn(slots)
        case None => Failure(EventsUnreadable)
        case Some(events) =>
          var replaced := ReplaceFirst(events, Saved(d));
          if replaced.None? then Failure(NotFound)
          else
            EventsInAfterWrite(slots, replaced.value);
            Success(WriteSlot(slots, EVENTS_KEY, Events(replaced.value)))
  }

  /** A save touches the events slot and no other. */
  lemma SaveTouchesEventsOnly(slots: Slots, draft: Option<Draft>, key: string)
    requires SaveEffect(slots, draft).Success? && key != EVENTS_KEY
    ensures key in SaveEffect(slots, draft).value <==> key in slots
    ensures key in slots ==> SaveEffect(slots, draft).value[key] == slots[key]
  {
  }

  /** `canEdit`: an admin, or the session whose id equals the creator's, both absent counting as equal. */
  predicate CanEdit(session: Value, e: Event): (b: bool)
    ensures SessionRole(session) == Some(ADMIN) ==> b
    ensures SessionRole(session) != Some(ADMIN) ==> (b <==> e.creatorId == SessionId(session))
  {
    SessionRole(session) == Some(ADMIN) || SessionId(session) == e.creatorId
  }

  /**
   * Sessions from login and signup carry no id, and events created under
   * them no creator id, so every such session may edit every such event.
   */
  lemma AbsentIdsMatch(viewer: Session, e: Event)
    requires viewer.id.None? && e.creatorId.None?
    ensures CanEdit(SessionRecord(viewer), e)
  {
  }

  /** The render branches: login first, then the event, then the permission. */
  function View(session: Value, draft: Option<Draft>): (v: EditView)
    ensures v.Form? <==> Truthy(session) && draft.Some? && CanEdit(session, draft.value.base)
    ensures v == LoginRequired <==> !Truthy(session)
  {
    if !Truthy(session) then LoginRequired
    else if draft.None? then EventNotFound
    else if !CanEdit(session, draft.value.base) then NoPermission
    else Form(draft.value)
  }

  /**
   * `handleSave`. The save button is only on the form, but the handler does
   * not check the permission again.
   */
  method HandleSave(store: LocalStore, draft: Option<Draft>) returns (r: Result<Route, SaveError>)
    modifies store
    ensures var effect := SaveEffect(old(store.slots), draft);
      if effect.Success? then r == Success(ManageEvents) && store.slots == effect.value
      else r == Failure(effect.error) && store.slots == old(store.slots)
  {
    if draft.None? {
      return Failure(NothingLoaded);
    }
    var event := draft.value.base;
    if event.title == "" || event.date == "" || Blank(event.time) || event.description == "" ||
       event.location == "" || event.image == "" || event.category == "" {
      return Failure(FieldsRequired);
    }
    var updated := Saved(draft.value);
    var read := AsEvents(store.Read(EVENTS_KEY, Events([])));
    if read.None? {
      return Failure(EventsUnreadable);
    }
    var events := read.value;
    var idx := Seqs.FirstIndex(events, (e: Event) => e.id == updated.id);
    if idx == -1 {
      return Failure(NotFound);
    }
    events := events[idx := updated];
    store.Write(EVENTS_KEY, Events(events));
    r := Success(ManageEvents);
  }
}

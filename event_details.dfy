/**
 * The event page (src/pages/EventDetails.jsx): the event lookup and the
 * per-event "interested" flag and star rating kept in the preference table.
 */
module EventDetails {
  import opened Wrappers
  import opened Entities
  import opened Storage
  import Seqs

  /** The event shown for the route id; `None` renders the not-found view. */
  function ShownEvent(events: seq<Event>, id: string): (r: Option<Event>)
    ensures r.None? <==> forall e :: e in events ==> e.id != Some(id)
    ensures r.Some? ==> r.value in events && r.value.id == Some(id)
    ensures r.Some? ==> exists i :: (0 <= i < |events| && events[i] == r.value &&
                                     forall j :: 0 <= j < i ==> events[j].id != Some(id))
  {
    Seqs.Find(events, (e: Event) => e.id == Some(id))
  }

  /** The page's `interested` and `rating` state. */
  datatype Panel = Panel(interested: bool, rating: int)

  /** The stars offered to click. */
  predicate IsStar(value: int) {
    1 <= value <= 5
  }

  /** Every stored rating is one the page can produce: none, 0 or a star. */
  predicate ValidTable(table: map<string, Pref>) {
    forall k :: k in table && table[k].rating.Some? ==> 0 <= table[k].rating.value <= 5
  }

  /**
   * The load effect: the state the page holds for `id` after reading the
   * table. Without an entry the initial `false` and `0` stay; a missing
   * stored rating reads as 0.
   */
  function LoadPanel(table: map<string, Pref>, id: string): (p: Panel)
    ensures id !in table ==> p == Panel(false, 0)
    ensures id in table ==> p.interested == table[id].interested
    ensures id in table ==> p.rating == (if table[id].rating.Some? then table[id].rating.value else 0)
    ensures ValidTable(table) ==> 0 <= p.rating <= 5
  {
    if id !in table then Panel(false, 0)
    else
      var stored := table[id];
      Panel(stored.interested, if stored.rating.Some? then stored.rating.value else 0)
  }

  /** `stored[id] = {interested, rating}`: only this event's entry changes. */
  function SetPreference(table: map<string, Pref>, id: string, p: Panel): (t: map<string, Pref>)
    ensures id in t && t[id] == Pref(p.interested, Some(p.rating))
    ensures forall k :: k != id ==> (k in t <==> k in table)
    ensures forall k :: k != id && k in table ==> t[k] == table[k]
  {
    table[id := Pref(p.interested, Some(p.rating))]
  }

  /** A saved entry is loaded back as it was saved. */
  lemma LoadAfterSet(table: map<string, Pref>, id: string, p: Panel)
    ensures LoadPanel(SetPreference(table, id, p), id) == p
  {
  }

  /** Saving a rating the page can produce keeps every stored rating in range. */
  lemma SetKeepsValid(table: map<string, Pref>, id: string, p: Panel)
    requires ValidTable(table) && 0 <= p.rating <= 5
    ensures ValidTable(SetPreference(table, id, p))
  {
  }

  /** `savePreferences`: `None` where the stored value is no table and indexing it throws. */
  function SaveEffect(slots: Slots, id: string, p: Panel): (r: Option<Slots>)
    ensures r.None? <==> PrefsIn(slots).None?
    ensures r.Some? ==> PrefsIn(r.value) == Some(SetPreference(PrefsIn(slots).value, id, p))
  {
    match PrefsIn(slots)
    case None => None
    case Some(table) => Some(WriteSlot(slots, PREFERENCES_KEY, Prefs(SetPreference(table, id, p))))
  }

  /** A save touches the preference slot and no other. */
  lemma SaveTouchesPrefsOnly(slots: Slots, id: string, p: Panel, key: string)
    requires SaveEffect(slots, id, p).Some? && key != PREFERENCES_KEY
    ensures key in SaveEffect(slots, id, p).value <==> key in slots
    ensures key in slots ==> SaveEffect(slots, id, p).value[key] == slots[key]
  {
  }

  /** `toggleInterested` on the state. */
  function Toggle(p: Panel): (q: Panel)
    ensures q.interested != p.interested && q.rating == p.rating
  {
    p.(interested := !p.interested)
  }

  /** `handleRating(value)` on the state. */
  function Rate(p: Panel, value: int): (q: Panel)
    ensures q.interested == p.interested && q.rating == value
  {
    p.(rating := value)
  }

  /** Toggling twice restores the state and stores the original flag again. */
  lemma ToggleTwice(slots: Slots, id: string, p: Panel)
    requires PrefsIn(slots).Some?
    ensures Toggle(Toggle(p)) == p
    ensures var once := SaveEffect(slots, id, Toggle(p)).value;
      SaveEffect(once, id, Toggle(Toggle(p))).value == SaveEffect(slots, id, p).value
  {
    var once := SaveEffect(slots, id, Toggle(p)).value;
    var table := PrefsIn(slots).value;
    assert PrefsIn(once) == Some(table[id := Pref(!p.interested, Some(p.rating))]);
    assert table[id := Pref(!p.interested, Some(p.rating))][id := Pref(p.interested, Some(p.rating))]
        == table[id := Pref(p.interested, Some(p.rating))];
  }

  /** The page's state for one route id. */
  class PreferencePanel {
    const id: string
    var interested: bool
    var rating: int

    /** The state lies in the range the stars produce. */
    predicate Valid()
      reads this
    {
      0 <= rating <= 5
    }

    function State(): Panel
      reads this
    {
      Panel(interested, rating)
    }

    /** `useState(false)` and `useState(0)`. */
    constructor (id: string)
      ensures this.id == id && State() == Panel(false, 0) && Valid()
    {
      this.id := id;
      interested := false;
      rating := 0;
    }

    /**
     * The load effect. A value in the slot that is no table makes it throw;
     * without an entry for the id the state is left as it is.
     */
    method Load(store: LocalStore) returns (ok: bool)
      modifies this
      ensures ok <==> PrefsIn(store.slots).Some?
      ensures ok && id in PrefsIn(store.slots).value ==> State() == LoadPanel(PrefsIn(store.slots).value, id)
      ensures !(ok && id in PrefsIn(store.slots).value) ==> State() == old(State())
      ensures old(Valid()) && (ok ==> ValidTable(PrefsIn(store.slots).value)) ==> Valid()
    {
      var stored := AsPrefs(store.Read(PREFERENCES_KEY, Prefs(map[])));
      if stored.None? {
        return false;
      }
      ok := true;
      if id in stored.value {
        var entry := stored.value[id];
        interested := entry.interested;
        rating := if entry.rating.Some? then entry.rating.value else 0;
      }
    }

    /** `toggleInterested`: flips the flag, keeps the rating and saves both. */
    method ToggleInterested(store: LocalStore)
      requires Valid()
      modifies this, store
      ensures Valid() && State() == Toggle(old(State()))
      ensures var saved := SaveEffect(old(store.slots), id, State());
        store.slots == if saved.Some? then saved.value else old(store.slots)
    {
      interested := !interested;
      SavePreferences(store, interested, rating);
    }

    /** `handleRating(value)` for a clicked star: sets the rating, keeps the flag and saves both. */
    method HandleRating(store: LocalStore, value: int)
      requires Valid() && IsStar(value)
      modifies this, store
      ensures Valid() && State() == Rate(old(State()), value)
      ensures var saved := SaveEffect(old(store.slots), id, State());
        store.slots == if saved.Some? then saved.value else old(store.slots)
    {
      rating := value;
      SavePreferences(store, interested, value);
    }

    /** `savePreferences(newInterested, newRating)`; both callers pass both values. */
    method SavePreferences(store: LocalStore, newInterested: bool, newRating: int)
      modifies store
      ensures var saved := SaveEffect(old(store.slots), id, Panel(newInterested, newRating));
        store.slots == if saved.Some? then saved.value else old(store.slots)
    {
      var stored := AsPrefs(store.Read(PREFERENCES_KEY, Prefs(map[])));
      if stored.Some? {
        var table := stored.value[id := Pref(newInterested, Some(newRating))];
        store.Write(PREFERENCES_KEY, Prefs(table));
      }
    }
  }
}

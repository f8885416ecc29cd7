/**
 * The browser key-value store and the `readLS`/`writeLS` adapter over it
 * (src/utils/localStorageUtils.js). Slots hold parsed values rather than
 * JSON text; a slot that holds the empty string or text that does not parse
 * is kept as its own marker.
 */
module Storage {
  import opened Wrappers
  import opened Entities

  /** The `LS` keys. */
  const USERS_KEY: string := "ems_users_v2"
  const EVENTS_KEY: string := "ems_events_v2"
  const SESSION_KEY: string := "ems_session_v2"
  /** The preference table's key, used by the event page directly rather than through `LS`. */
  const PREFERENCES_KEY: string := "EVENT_PREFERENCES"

  /** A parsed JSON value, restricted to the shapes the pages store. */
  datatype Value =
    | Null
    | Bool(b: bool)
    | Num(n: int)
    | Str(s: string)
    | SessionRecord(session: Session)
    | Users(users: seq<User>)
    | Events(events: seq<Event>)
    | Prefs(table: map<string, Pref>)

  /** JavaScript truthiness: `null`, `false`, `0` and `""` are falsy; records and lists, even empty ones, are truthy. */
  predicate Truthy(v: Value) {
    match v
    case Null => false
    case Bool(b) => b
    case Num(n) => n != 0
    case Str(s) => s != ""
    case _ => true
  }

  /** What `localStorage.getItem` finds under a key that is present. */
  datatype Slot =
    | Blank         // the empty string
    | Corrupt       // text `JSON.parse` rejects
    | Stored(value: Value)

  type Slots = map<string, Slot>

  /**
   * `readLS(key, fallback)`: an absent or empty slot falls back through `||`,
   * an unparseable one through the `catch`.
   */
  function ReadSlot(slots: Slots, key: string, fallback: Value): (v: Value)
    ensures key in slots && slots[key].Stored? ==> v == slots[key].value
    ensures !(key in slots && slots[key].Stored?) ==> v == fallback
  {
    if key in slots && slots[key].Stored? then slots[key].value else fallback
  }

  /** `writeLS(key, value)`: the slot is replaced as a whole. */
  function WriteSlot(slots: Slots, key: string, v: Value): (r: Slots)
    ensures r.Keys == slots.Keys + {key} && r[key] == Stored(v)
    ensures forall k :: k in slots && k != key ==> r[k] == slots[k]
  {
    slots[key := Stored(v)]
  }

  /** `localStorage.removeItem(key)`. */
  function RemoveSlot(slots: Slots, key: string): (r: Slots)
    ensures r.Keys == slots.Keys - {key}
    ensures forall k :: k in r ==> r[k] == slots[k]
  {
    slots - {key}
  }

  /** A key that was never written, an empty slot and an unparseable slot all give the fallback. */
  lemma ReadFallsBack(slots: Slots, key: string, fallback: Value)
    requires key !in slots || slots[key] == Blank || slots[key] == Corrupt
    ensures ReadSlot(slots, key, fallback) == fallback
  {
  }

  /** A stored `null`, `false` or `0` is returned as it is: `||` only tests the raw text. */
  lemma ReadKeepsFalsy(slots: Slots, key: string, v: Value, fallback: Value)
    requires key in slots && slots[key] == Stored(v) && !Truthy(v)
    ensures ReadSlot(slots, key, fallback) == v
  {
  }

  /** A write is read back. */
  lemma ReadAfterWrite(slots: Slots, key: string, v: Value, fallback: Value)
    ensures ReadSlot(WriteSlot(slots, key, v), key, fallback) == v
  {
  }

  /** A write or a removal leaves every other key as it was. */
  lemma OtherKeysUntouched(slots: Slots, key: string, other: string, v: Value)
    requires other != key
    ensures other in WriteSlot(slots, key, v) <==> other in slots
    ensures other in slots ==> WriteSlot(slots, key, v)[other] == slots[other]
    ensures other in RemoveSlot(slots, key) <==> other in slots
    ensures other in slots ==> RemoveSlot(slots, key)[other] == slots[other]
  {
  }

  /** Of two writes to one key, the last one wins. */
  lemma LastWriteWins(slots: Slots, key: string, v: Value, w: Value)
    ensures WriteSlot(WriteSlot(slots, key, v), key, w) == WriteSlot(slots, key, w)
  {
  }

  /** A removed key reads as the fallback. */
  lemma ReadAfterRemove(slots: Slots, key: string, fallback: Value)
    ensures ReadSlot(RemoveSlot(slots, key), key, fallback) == fallback
  {
  }

  /**
   * A stored value used as a list of users: a list of users, or an empty
   * list, which is the same JSON text whichever collection wrote it. `None`
   * stands for anything else: a value the page's `.some`/`.find` would
   * throw on, or a non-empty list of events, which the model does not let a
   * page read as users.
   */
  function AsUsers(v: Value): (r: Option<seq<User>>)
    ensures r.Some? <==> v.Users? || v == Events([])
    ensures v.Users? ==> r == Some(v.users)
    ensures v == Events([]) ==> r == Some([])
  {
    match v
    case Users(us) => Some(us)
    case Events(es) => if es == [] then Some([]) else None
    case _ => None
  }

  /**
   * A stored value used as a list of events: a list of events, or an empty
   * list. `None` stands for a value `.filter`/`.find` would throw on, or a
   * non-empty list of users.
   */
  function AsEvents(v: Value): (r: Option<seq<Event>>)
    ensures r.Some? <==> v.Events? || v == Users([])
    ensures v.Events? ==> r == Some(v.events)
    ensures v == Users([]) ==> r == Some([])
  {
    match v
    case Events(es) => Some(es)
    case Users(us) => if us == [] then Some([]) else None
    case _ => None
  }

  /** A stored value used as the preference table; `None` for any other value. */
  function AsPrefs(v: Value): (r: Option<map<string, Pref>>)
    ensures r.Some? <==> v.Prefs?
    ensures v.Prefs? ==> r == Some(v.table)
  {
    match v
    case Prefs(t) => Some(t)
    case _ => None
  }

  /** `readLS(LS.USERS, [])` as a list. */
  function UsersIn(slots: Slots): (r: Option<seq<User>>)
    ensures r == AsUsers(ReadSlot(slots, USERS_KEY, Users([])))
    ensures !(USERS_KEY in slots && slots[USERS_KEY].Stored?) ==> r == Some([])
  {
    AsUsers(ReadSlot(slots, USERS_KEY, Users([])))
  }

  /** `readLS(LS.EVENTS, [])` as a list. */
  function EventsIn(slots: Slots): (r: Option<seq<Event>>)
    ensures r == AsEvents(ReadSlot(slots, EVENTS_KEY, Events([])))
    ensures !(EVENTS_KEY in slots && slots[EVENTS_KEY].Stored?) ==> r == Some([])
  {
    AsEvents(ReadSlot(slots, EVENTS_KEY, Events([])))
  }

  /** `readLS("EVENT_PREFERENCES", {})` as a table. */
  function PrefsIn(slots: Slots): (r: Option<map<string, Pref>>)
    ensures r == AsPrefs(ReadSlot(slots, PREFERENCES_KEY, Prefs(map[])))
    ensures !(PREFERENCES_KEY in slots && slots[PREFERENCES_KEY].Stored?) ==> r == Some(map[])
  {
    AsPrefs(ReadSlot(slots, PREFERENCES_KEY, Prefs(map[])))
  }

  /** A fresh browser profile reads as empty collections, never as an error. */
  lemma EmptyStoreReadsEmpty()
    ensures UsersIn(map[]) == Some([])
    ensures EventsIn(map[]) == Some([])
    ensures PrefsIn(map[]) == Some(map[])
  {
  }

  /** Writing a list of events reads back as that list. */
  lemma EventsInAfterWrite(slots: Slots, es: seq<Event>)
    ensures EventsIn(WriteSlot(slots, EVENTS_KEY, Events(es))) == Some(es)
  {
  }

  /** The browser's `localStorage` for this origin. */
  class LocalStore {
    var slots: Slots

    constructor (initial: Slots)
      ensures slots == initial
    {
      slots := initial;
    }

    /** `readLS`; being a function, it cannot change the store. */
    function Read(key: string, fallback: Value): (v: Value)
      reads this
      ensures v == fallback || (key in slots && slots[key] == Stored(v))
      ensures key in slots && slots[key].Stored? ==> v == slots[key].value
    {
      ReadSlot(slots, key, fallback)
    }

    /** `writeLS`. */
    method Write(key: string, v: Value)
      modifies this
      ensures slots == WriteSlot(old(slots), key, v)
      ensures Read(key, Null) == v
    {
      slots := slots[key := Stored(v)];
    }

    /** `localStorage.removeItem`. */
    method Remove(key: string)
      modifies this
      ensures slots == RemoveSlot(old(slots), key)
      ensures Read(key, Null) == Null
    {
      slots := slots - {key};
    }
  }
}

/** The validation middleware's in-memory session store: one conversation
    state and one scratch-data map per user id, created lazily and changed
    only through setState, clearState and setData. */
module Sessions {
  import opened Strings
  import opened Calendar

  /** The conversation states the handlers set. */
  datatype State =
    | AddingBirthdayName | AddingBirthdayDate | AddingBirthdayNotes
    | EditingName | EditingDate | EditingCategory | EditingNotes
    | SettingCustomTime | ImportingCsv

  /** A scratch value: the handlers store strings, numeric ids and dates. */
  datatype Value = Text(text: string) | Number(number: int) | DateValue(date: CivilDate)

  /** JavaScript truthiness of a stored value: "" and 0 are falsy, a Date
      object is always truthy. */
  predicate Truthy(v: Value) {
    match v
    case Text(t) => t != ""
    case Number(n) => n != 0
    case DateValue(_) => true
  }

  type Data = map<string, Value>

  datatype Session = Session(state: Option<State>, data: Data)

  /** A new or cleared session: no state and empty data. */
  const Fresh := Session(None, map[])

  /** What `getData(key)` hands back: the whole map for a falsy key (the
      empty string included), otherwise the entry or undefined. */
  datatype DataView = Whole(data: Data) | Field(value: Option<Value>)

  type UserId = string
  type Store = map<UserId, Session>

  /** The session of a user; a user without an entry reads as fresh. */
  function Lookup(store: Store, u: UserId): Session {
    if u in store then store[u] else Fresh
  }

  /** Every user other than u has the same entry (or none) in both stores. */
  ghost predicate OthersUnchanged(before: Store, after: Store, u: UserId) {
    forall v | v != u :: (v in after <==> v in before) && (v in after ==> after[v] == before[v])
  }

  /** The middleware's lazy initialisation for one incoming event: an event
      without a sender is passed on untouched; a first event creates the
      fresh session; an existing session is kept as it is. */
  function Attach(store: Store, from: Option<UserId>): (r: Store)
    ensures from.None? ==> r == store
    ensures from.Some? ==> from.value in r && r[from.value] == Lookup(store, from.value)
    ensures from.Some? ==> OthersUnchanged(store, r, from.value)
  {
    match from
    case None => store
    case Some(u) => if u in store then store else store[u := Fresh]
  }

  /** `setState(state, data?)`: sets the state; supplied data is merged
      over the existing data, its keys winning; without data the data is
      left alone. */
  function SetState(store: Store, u: UserId, state: State, merge: Option<Data>): (r: Store)
    ensures u in r && r[u].state == Some(state)
    ensures merge.None? ==> r[u].data == Lookup(store, u).data
    ensures merge.Some? ==> r[u].data.Keys == Lookup(store, u).data.Keys + merge.value.Keys
    ensures merge.Some? ==> forall k | k in merge.value :: r[u].data[k] == merge.value[k]
    ensures merge.Some? ==> forall k | k in Lookup(store, u).data && k !in merge.value ::
      r[u].data[k] == Lookup(store, u).data[k]
    ensures OthersUnchanged(store, r, u)
  {
    var s := Lookup(store, u);
    store[u := Session(Some(state), if merge.Some? then s.data + merge.value else s.data)]
  }

  /** `clearState()`: no state and empty data, whatever was there. */
  function ClearState(store: Store, u: UserId): (r: Store)
    ensures u in r && r[u].state.None? && |r[u].data| == 0
    ensures OthersUnchanged(store, r, u)
  {
    store[u := Fresh]
  }

  /** `getData(key?)` */
  function GetData(store: Store, u: UserId, key: string): (r: DataView)
    ensures key == "" ==> r == Whole(Lookup(store, u).data)
    ensures key != "" ==> r.Field? && (r.value.Some? <==> key in Lookup(store, u).data)
    ensures key != "" && r.value.Some? ==> r.value.value == Lookup(store, u).data[key]
  {
    var s := Lookup(store, u);
    if key == "" then Whole(s.data)
    else Field(if key in s.data then Some(s.data[key]) else None)
  }

  /** `setData(key, value)`: one entry written, the state and all other
      entries kept. */
  function SetData(store: Store, u: UserId, key: string, value: Value): (r: Store)
    ensures u in r && r[u].state == Lookup(store, u).state
    ensures key in r[u].data && r[u].data[key] == value
    ensures r[u].data.Keys == Lookup(store, u).data.Keys + {key}
    ensures forall k | k in Lookup(store, u).data && k != key :: r[u].data[k] == Lookup(store, u).data[k]
    ensures OthersUnchanged(store, r, u)
  {
    var s := Lookup(store, u);
    store[u := Session(s.state, s.data[key := value])]
  }

  /** The value written by setData is what getData reads back; every other
      key reads as before. Under the falsy key "" getData answers with the
      whole map instead, which then holds the new entry. */
  lemma SetDataThenGetData(store: Store, u: UserId, key: string, value: Value, other: string)
    ensures key != "" ==> GetData(SetData(store, u, key, value), u, key) == Field(Some(value))
    ensures key == "" ==>
      (GetData(SetData(store, u, key, value), u, key).Whole? &&
       GetData(SetData(store, u, key, value), u, key).data[""] == value)
    ensures other != key ==>
      (GetData(SetData(store, u, key, value), u, other) ==
       if other == "" then Whole(Lookup(store, u).data[key := value]) else GetData(store, u, other))
  {
  }

  /** setState without data changes no getData answer. */
  lemma SetStateKeepsData(store: Store, u: UserId, state: State, key: string)
    ensures GetData(SetState(store, u, state, None), u, key) == GetData(store, u, key)
  {
  }

  /** After clearState, getData sees an empty map and no key. */
  lemma ClearThenGetData(store: Store, u: UserId, key: string)
    ensures GetData(ClearState(store, u), u, key) == if key == "" then Whole(map[]) else Field(None)
  {
  }

  /** The merge example: a name set with setData survives a later setState
      that merges another key. */
  lemma MergeExample(store: Store, u: UserId)
    ensures
      var s1 := SetData(store, u, "name", Text("Alice"));
      var s2 := SetState(s1, u, AddingBirthdayDate, Some(map["extra" := Number(1)]));
      && s2[u].state == Some(AddingBirthdayDate)
      && GetData(s2, u, "name") == Field(Some(Text("Alice")))
      && GetData(s2, u, "extra") == Field(Some(Number(1)))
  {
  }

  /** Lazy initialisation runs once: attaching again changes nothing, and
      an existing session is never reset. */
  lemma AttachIdempotent(store: Store, from: Option<UserId>)
    ensures Attach(Attach(store, from), from) == Attach(store, from)
    ensures from.Some? && from.value in store ==> Attach(store, from) == store
  {
  }
}

/**
 * The `notifier` key-value namespace, seen as a finite map from keys to stored values.
 * Lists are stored as lists rather than as their JSON text.
 */
module SessionStore {
  import opened Wrappers
  import opened Records

  type Timestamp = string

  const TokenKey := "csrfToken"
  const MarksKey := "marks"
  const AttendanceKey := "attendance"
  const LastUpdatedKey := "lastUpdated"

  /** The three keys that make up the persisted snapshot. */
  const SnapshotKeys: set<string> := {MarksKey, AttendanceKey, LastUpdatedKey}

  datatype StoredValue = Text(text: string) | List(entries: seq<Entry>)

  type Store = map<string, StoredValue>

  /** The value stored under `key`, or nothing when the key is absent. */
  function Lookup(store: Store, key: string): (v: Option<StoredValue>)
    ensures v.Some? <==> key in store
    ensures v.Some? ==> v.value == store[key]
  {
    if key in store then Some(store[key]) else None
  }

  /** Only this program writes the namespace: tokens and stamps are text, snapshots are lists. */
  ghost predicate WellTyped(store: Store) {
    && (Lookup(store, TokenKey).Some? ==> Lookup(store, TokenKey).value.Text?)
    && (Lookup(store, LastUpdatedKey).Some? ==> Lookup(store, LastUpdatedKey).value.Text?)
    && (Lookup(store, MarksKey).Some? ==> Lookup(store, MarksKey).value.List?)
    && (Lookup(store, AttendanceKey).Some? ==> Lookup(store, AttendanceKey).value.List?)
  }

  /** The list stored under `key`; an absent key reads as the empty list (src/index.ts:83, 86). */
  function StoredList(store: Store, key: string): (entries: seq<Entry>)
    ensures key !in store ==> entries == []
    ensures key in store && store[key].List? ==> entries == store[key].entries
  {
    match Lookup(store, key)
    case Some(List(entries)) => entries
    case _ => []
  }

  /** The cached session token, which counts only when present and non-empty (src/index.ts:57-58). */
  function CachedToken(store: Store): (token: Option<string>)
    ensures token.Some? <==> TokenKey in store && store[TokenKey].Text? && store[TokenKey].text != ""
    ensures token.Some? ==> store[TokenKey] == Text(token.value)
  {
    match Lookup(store, TokenKey)
    case Some(Text(t)) => if t != "" then Some(t) else None
    case _ => None
  }

  /** The two stores agree on every key outside `keys`. */
  ghost predicate AgreeOutside(before: Store, after: Store, keys: set<string>) {
    forall k :: k !in keys ==> Lookup(before, k) == Lookup(after, k)
  }

  /**
   * Three puts: both lists, then the stamp. The snapshot keys get the new values and
   * every other key, the token included, keeps its own.
   */
  function WriteSnapshot(store: Store, marks: seq<Entry>, attendance: seq<Entry>, now: Timestamp): (r: Store)
    ensures StoredList(r, MarksKey) == marks && StoredList(r, AttendanceKey) == attendance
    ensures MarksKey in r && AttendanceKey in r
    ensures Lookup(r, LastUpdatedKey) == Some(Text(now))
    ensures AgreeOutside(store, r, SnapshotKeys)
    ensures WellTyped(store) ==> WellTyped(r)
  {
    store[MarksKey := List(marks)][AttendanceKey := List(attendance)][LastUpdatedKey := Text(now)]
  }

  /** Agreement outside a set of keys composes, the key sets adding up. */
  lemma AgreeOutsideTrans(a: Store, b: Store, c: Store, keys1: set<string>, keys2: set<string>)
    requires AgreeOutside(a, b, keys1) && AgreeOutside(b, c, keys2)
    ensures AgreeOutside(a, c, keys1 + keys2)
  {
    forall k | k !in keys1 + keys2 ensures Lookup(a, k) == Lookup(c, k) {
      assert Lookup(a, k) == Lookup(b, k);
    }
  }
}

/**
 * The two HTTP handlers as methods over the `notifier` namespace, which they update
 * key by key with `put`. Each is proved to leave the store exactly as its
 * specification in module SyncCycle says.
 */
module Handlers {
  import opened Wrappers
  import opened Records
  import opened DiffEngine
  import opened SessionStore
  import opened Upstream
  import opened SyncCycle

  class Notifier {
    /** The key-value namespace. */
    var kv: Store

    /**
     * Only this program writes the namespace, so tokens and stamps are text and the
     * snapshot keys hold lists. Under this invariant, reading a list key that holds no
     * list as empty (`StoredList`) agrees with parsing the stored JSON; the parse of
     * other text is outside the model.
     */
    ghost predicate Valid()
      reads this
    {
      WellTyped(kv)
    }

    constructor (initial: Store)
      requires WellTyped(initial)
      ensures Valid() && kv == initial
    {
      kv := initial;
    }

    /** Reads one key of the namespace; absent keys give `None`. */
    method Get(key: string) returns (v: Option<StoredValue>)
      ensures v.Some? <==> key in kv
      ensures v.Some? ==> v.value == kv[key]
    {
      v := if key in kv then Some(kv[key]) else None;
    }

    /** Writes one key of the namespace, replacing what it held. */
    method Put(key: string, value: StoredValue)
      modifies this
      ensures kv == old(kv)[key := value]
    {
      kv := kv[key := value];
    }

    /** The `/reset` handler: empty lists under both list keys, then the stamp. */
    method Reset(now: Timestamp)
      requires Valid()
      modifies this
      ensures Valid()
      ensures kv == ResetSpec(old(kv), now)
    {
      Put(MarksKey, List([]));
      Put(AttendanceKey, List([]));
      Put(LastUpdatedKey, Text(now));
    }

    /** Reads a stored list; an absent key gives the empty list (src/index.ts:83, 86). */
    method LoadList(key: string) returns (entries: seq<Entry>)
      ensures entries == StoredList(kv, key)
    {
      var stored := Get(key);
      entries := if stored.Some? && stored.value.List? then stored.value.entries else [];
    }

    /**
     * Lines 57-68 of the `/` handler: resolve the token (cached and non-empty, else log
     * in) and store it, fetch both resources, and on a `logout` flag log in once more,
     * store the new token and fetch both again.
     */
    method OpenSession(up: Service)
      returns (result: SessionResult, ghost logins: nat, ghost fetchTokens: seq<string>)
      modifies this
      ensures Session(kv, logins, fetchTokens, result) == SessionSpec(old(kv), up)
    {
      logins, fetchTokens := 0, [];
      var cached := Get(TokenKey);
      var token: string;
      var loginCalls: nat := 0;
      if cached.Some? && cached.value.Text? && cached.value.text != "" {
        token := cached.value.text;
      } else {
        var loggedIn := up.login(loginCalls);
        loginCalls := loginCalls + 1;
        logins := loginCalls;
        if loggedIn.None? {
          result := Aborted(LoginFailed);
          return;
        }
        token := loggedIn.value;
      }
      Put(TokenKey, Text(token));

      var fetched := up.fetchInfo(token, 0);
      fetchTokens := [token];
      if fetched.Unreachable? {
        result := Aborted(FetchFailed);
        return;
      }
      var marks, attendance := fetched.marks, fetched.attendance;
      if LoggedOut(marks, attendance) {
        var renewed := up.login(loginCalls);
        loginCalls := loginCalls + 1;
        logins := loginCalls;
        if renewed.None? {
          result := Aborted(LoginFailed);
          return;
        }
        Put(TokenKey, Text(renewed.value));
        var refetched := up.fetchInfo(renewed.value, 1);
        fetchTokens := fetchTokens + [renewed.value];
        if refetched.Unreachable? {
          result := Aborted(FetchFailed);
          return;
        }
        marks, attendance := refetched.marks, refetched.attendance;
      }
      result := Ready(marks, attendance);
    }

    /**
     * Lines 81-108 and 149-150: diff the current lists against the stored (or, when
     * forced, empty) ones and, when either diff is non-empty, overwrite both lists and
     * the stamp.
     */
    method DiffAndPersist(force: bool, current: Snapshot, now: Timestamp) returns (outcome: Outcome)
      modifies this
      ensures Decision(outcome, kv) == Decide(old(kv), force, current, now)
    {
      var prevMarks: seq<Entry> := [];
      var prevAttendance: seq<Entry> := [];
      if !force {
        prevMarks := LoadList(MarksKey);
        prevAttendance := LoadList(AttendanceKey);
      }

      var marksDiff := Diff(current.marks, prevMarks);
      var attendanceDiff := Diff(current.attendance, prevAttendance);
      if |marksDiff| > 0 || |attendanceDiff| > 0 {
        Put(MarksKey, List(current.marks));
        Put(AttendanceKey, List(current.attendance));
        Put(LastUpdatedKey, Text(now));
        outcome := Notified;
      } else {
        outcome := NoChange;
      }
    }

    /**
     * The `/` handler: open the session, normalise both payloads (a payload without its
     * list, or a mark without `overall`, throws), then diff and persist or report no update.
     */
    method RunCycle(force: bool, up: Service, now: Timestamp)
      returns (outcome: Outcome, ghost logins: nat, ghost fetchTokens: seq<string>)
      requires Valid()
      modifies this
      ensures Valid()
      ensures CycleRun(outcome, kv, logins, fetchTokens) == CycleSpec(old(kv), force, up, now)
    {
      CycleFrame(kv, force, up, now);
      var result;
      result, logins, fetchTokens := OpenSession(up);
      if result.Aborted? {
        outcome := Failed(result.failure);
        return;
      }
      var marks, attendance := result.marks, result.attendance;
      if marks.marks.None? || attendance.attendance.None? {
        outcome := Failed(MissingRecords);
        return;
      }
      var currentMarks := NormalizeMarks(marks.marks.value);
      if currentMarks.None? {
        outcome := Failed(MissingRecords);
        return;
      }
      var currentAttendance := NormalizeAttendance(attendance.attendance.value);
      outcome := DiffAndPersist(force, Snapshot(currentMarks.value, currentAttendance), now);
    }
  }
}

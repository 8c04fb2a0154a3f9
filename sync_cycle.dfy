/**
 * One run of the `/` handler and one run of `/reset`, as functions from the store
 * before to the store after. The handler methods of module Handlers are proved to
 * compute exactly these; the lemmas below state what the cycle promises.
 */
module SyncCycle {
  import opened Wrappers
  import opened Records
  import opened DiffEngine
  import opened SessionStore
  import opened Upstream

  /** Why a cycle stopped early: a login or a fetch threw, or a payload lacked its list. */
  datatype Failure = LoginFailed | FetchFailed | MissingRecords

  /** The handler's three ends: notification sent, "No new updates found", or an exception. */
  datatype Outcome = Notified | NoChange | Failed(failure: Failure)

  /** The normalised marks and attendance lists of one fetch, or of the stored snapshot. */
  datatype Snapshot = Snapshot(marks: seq<Entry>, attendance: seq<Entry>)

  /** Where the session phase stops: with both payloads in hand, or aborted. */
  datatype SessionResult = Ready(marks: MarksResponse, attendance: AttendanceResponse) | Aborted(failure: Failure)

  /** The store after the session phase, how many logins it made and the token of each fetch. */
  datatype Session = Session(store: Store, logins: nat, fetchTokens: seq<string>, result: SessionResult)

  /** The store after the persist-or-not step, and the handler's answer. */
  datatype Decision = Decision(outcome: Outcome, store: Store)

  /** A whole cycle: outcome, final store and the upstream calls it made. */
  datatype CycleRun = CycleRun(outcome: Outcome, store: Store, logins: nat, fetchTokens: seq<string>)

  /** The n-th paired fetch, sent with `token`, came back with a `logout` flag. */
  ghost predicate ExpiredAt(up: Service, token: string, n: nat) {
    up.fetchInfo(token, n).Fetched? && LoggedOut(up.fetchInfo(token, n).marks, up.fetchInfo(token, n).attendance)
  }

  /** The token the cycle starts with: the cached one when usable, else the first login's. */
  function ResolvedToken(store: Store, up: Service): Option<string> {
    if CachedToken(store).Some? then CachedToken(store) else up.login(0)
  }

  /** Logins made before the first fetch: none with a usable cached token, else one. */
  function LoginsBeforeFetch(store: Store): nat {
    if CachedToken(store).Some? then 0 else 1
  }

  /**
   * Resolve the token (cached and non-empty, else log in), write it back, fetch both
   * resources, and on a `logout` flag log in once more, store the new token and fetch
   * both again; the second fetch's flags are not looked at.
   */
  function SessionSpec(store: Store, up: Service): (s: Session)
    // only the token key is written, and the token of the last fetch is the one stored
    ensures AgreeOutside(store, s.store, {TokenKey})
    ensures s.fetchTokens == [] ==> s.store == store && s.result == Aborted(LoginFailed)
    ensures s.fetchTokens != [] ==> Lookup(s.store, TokenKey) == Some(Text(s.fetchTokens[|s.fetchTokens| - 1]))
    // a fetch happens exactly when a token was resolved, and it is sent with that token
    ensures s.fetchTokens != [] <==> ResolvedToken(store, up).Some?
    ensures s.fetchTokens != [] ==> s.fetchTokens[0] == ResolvedToken(store, up).value
    // logins: one unless a usable token was cached, plus one exactly when the first fetch was flagged
    ensures |s.fetchTokens| <= 2
    ensures s.logins == LoginsBeforeFetch(store)
                        + (if s.fetchTokens != [] && ExpiredAt(up, s.fetchTokens[0], 0) then 1 else 0)
    // an unflagged first fetch is used as it is
    ensures s.fetchTokens != [] && up.fetchInfo(s.fetchTokens[0], 0).Unreachable? ==>
      s.fetchTokens == [s.fetchTokens[0]] && s.result == Aborted(FetchFailed)
    ensures s.fetchTokens != [] && up.fetchInfo(s.fetchTokens[0], 0).Fetched? && !ExpiredAt(up, s.fetchTokens[0], 0) ==>
      && s.fetchTokens == [s.fetchTokens[0]]
      && s.result == Ready(up.fetchInfo(s.fetchTokens[0], 0).marks, up.fetchInfo(s.fetchTokens[0], 0).attendance)
    // a flagged first fetch: a second fetch exactly when the second login succeeds, with its token
    ensures s.fetchTokens != [] && ExpiredAt(up, s.fetchTokens[0], 0) ==>
      (|s.fetchTokens| == 2 <==> up.login(LoginsBeforeFetch(store)).Some?)
    ensures s.fetchTokens != [] && ExpiredAt(up, s.fetchTokens[0], 0) && up.login(LoginsBeforeFetch(store)).None? ==>
      s.result == Aborted(LoginFailed)
    ensures |s.fetchTokens| == 2 ==>
      ExpiredAt(up, s.fetchTokens[0], 0) && up.login(LoginsBeforeFetch(store)) == Some(s.fetchTokens[1])
    // the second fetch's payloads are used whatever their flags say
    ensures |s.fetchTokens| == 2 ==>
      s.result == (match up.fetchInfo(s.fetchTokens[1], 1)
                   case Fetched(marks, attendance) => Ready(marks, attendance)
                   case Unreachable => Aborted(FetchFailed))
  {
    var first := ResolvedToken(store, up);
    var logins := LoginsBeforeFetch(store);
    if first.None? then Session(store, logins, [], Aborted(LoginFailed))
    else
      var token := first.value;
      var withToken := store[TokenKey := Text(token)];
      match up.fetchInfo(token, 0)
      case Unreachable => Session(withToken, logins, [token], Aborted(FetchFailed))
      case Fetched(marks, attendance) =>
        if !LoggedOut(marks, attendance) then Session(withToken, logins, [token], Ready(marks, attendance))
        else
          match up.login(logins)
          case None => Session(withToken, logins + 1, [token], Aborted(LoginFailed))
          case Some(renewed) =>
            var withRenewed := withToken[TokenKey := Text(renewed)];
            match up.fetchInfo(renewed, 1)
            case Unreachable => Session(withRenewed, logins + 1, [token, renewed], Aborted(FetchFailed))
            case Fetched(marks2, attendance2) =>
              Session(withRenewed, logins + 1, [token, renewed], Ready(marks2, attendance2))
  }

  /**
   * A `logout` flag on the first fetch, followed by a successful second login, stores the
   * new token and fetches both resources again with it; the payloads of that second fetch
   * are the ones the cycle goes on with.
   */
  lemma ExpiredSessionRefetchesBoth(store: Store, up: Service)
    requires ResolvedToken(store, up).Some?
    requires ExpiredAt(up, ResolvedToken(store, up).value, 0)
    requires up.login(LoginsBeforeFetch(store)).Some?
    ensures var renewed := up.login(LoginsBeforeFetch(store)).value;
      var s := SessionSpec(store, up);
      && s.fetchTokens == [ResolvedToken(store, up).value, renewed]
      && Lookup(s.store, TokenKey) == Some(Text(renewed))
      && s.logins == LoginsBeforeFetch(store) + 1
      && (up.fetchInfo(renewed, 1).Fetched? ==>
            s.result == Ready(up.fetchInfo(renewed, 1).marks, up.fetchInfo(renewed, 1).attendance))
  {
  }

  /** A `logout` flag on the attendance payload alone is enough to refetch both resources. */
  lemma AttendanceOnlyLogoutRefetchesBoth(store: Store, up: Service, marks: MarksResponse, attendance: AttendanceResponse)
    requires ResolvedToken(store, up).Some?
    requires up.fetchInfo(ResolvedToken(store, up).value, 0) == Fetched(marks, attendance)
    requires attendance.logout && !marks.logout
    requires up.login(LoginsBeforeFetch(store)).Some?
    ensures |SessionSpec(store, up).fetchTokens| == 2
    ensures SessionSpec(store, up).fetchTokens[1] == up.login(LoginsBeforeFetch(store)).value
  {
    ExpiredSessionRefetchesBoth(store, up);
  }

  /**
   * Normalise both payloads (src/index.ts:70-79); `None` when either lacks its list or a
   * mark lacks `overall`, where the projection throws.
   */
  function Current(marks: MarksResponse, attendance: AttendanceResponse): (c: Option<Snapshot>)
    ensures c.Some? <==> marks.marks.Some? && attendance.attendance.Some? && AllHaveOverall(marks.marks.value)
    ensures c.Some? ==>
      var rawMarks, rawAttendance := marks.marks.value, attendance.attendance.value;
      && |c.value.marks| == |rawMarks|
      && (forall i :: 0 <= i < |rawMarks| ==>
            c.value.marks[i] == Entry(rawMarks[i].courseCode, rawMarks[i].overall.value.total))
      && |c.value.attendance| == |rawAttendance|
      && (forall i :: 0 <= i < |rawAttendance| ==>
            c.value.attendance[i] == Entry(rawAttendance[i].courseCode, rawAttendance[i].attendancePercentage))
  {
    if marks.marks.None? || attendance.attendance.None? then None
    else
      match NormalizeMarks(marks.marks.value)
      case None => None
      case Some(currentMarks) => Some(Snapshot(currentMarks, NormalizeAttendance(attendance.attendance.value)))
  }

  /** The baseline of the diff (src/index.ts:81-86): nothing when forced, else the stored lists. */
  function Previous(store: Store, force: bool): (prev: Snapshot)
    ensures force ==> prev.marks == [] && prev.attendance == []
    ensures !force && MarksKey !in store ==> prev.marks == []
    ensures !force && AttendanceKey !in store ==> prev.attendance == []
    ensures !force && MarksKey in store && store[MarksKey].List? ==> prev.marks == store[MarksKey].entries
    ensures !force && AttendanceKey in store && store[AttendanceKey].List? ==> prev.attendance == store[AttendanceKey].entries
  {
    if force then Snapshot([], [])
    else Snapshot(StoredList(store, MarksKey), StoredList(store, AttendanceKey))
  }

  /**
   * Diff both lists; when either diff is non-empty, overwrite both lists and the
   * stamp, else leave the store alone.
   */
  function Decide(store: Store, force: bool, current: Snapshot, now: Timestamp): (d: Decision)
    ensures d.outcome == Notified || d.outcome == NoChange
    ensures var prev := Previous(store, force);
      d.outcome == Notified <==> HasNew(current.marks, prev.marks) || HasNew(current.attendance, prev.attendance)
    ensures d.outcome == Notified ==>
      && StoredList(d.store, MarksKey) == current.marks
      && StoredList(d.store, AttendanceKey) == current.attendance
      && Lookup(d.store, LastUpdatedKey) == Some(Text(now))
      && AgreeOutside(store, d.store, SnapshotKeys)
    ensures d.outcome == NoChange ==> d.store == store
  {
    var prev := Previous(store, force);
    var marksDiff := Diff(current.marks, prev.marks);
    var attendanceDiff := Diff(current.attendance, prev.attendance);
    DiffNonEmptyIffHasNew(current.marks, prev.marks);
    DiffNonEmptyIffHasNew(current.attendance, prev.attendance);
    if |marksDiff| > 0 || |attendanceDiff| > 0 then
      Decision(Notified, WriteSnapshot(store, current.marks, current.attendance, now))
    else Decision(NoChange, store)
  }

  /** The `/` handler, from the store before to the store after. */
  function CycleSpec(store: Store, force: bool, up: Service, now: Timestamp): (r: CycleRun)
    ensures r.logins <= 2 && |r.fetchTokens| <= 2
  {
    var s := SessionSpec(store, up);
    match s.result
    case Aborted(failure) => CycleRun(Failed(failure), s.store, s.logins, s.fetchTokens)
    case Ready(marks, attendance) =>
      match Current(marks, attendance)
      case None => CycleRun(Failed(MissingRecords), s.store, s.logins, s.fetchTokens)
      case Some(current) =>
        var d := Decide(s.store, force, current, now);
        CycleRun(d.outcome, d.store, s.logins, s.fetchTokens)
  }

  /**
   * What a cycle may write: the token, and the snapshot only when it notifies, in which
   * case the stamp is the cycle's own. A well-typed store stays well-typed.
   */
  lemma CycleFrame(store: Store, force: bool, up: Service, now: Timestamp)
    ensures var r := CycleSpec(store, force, up, now);
      && AgreeOutside(store, r.store, {TokenKey} + SnapshotKeys)
      && (r.outcome != Notified ==> AgreeOutside(store, r.store, {TokenKey}))
      && (r.outcome == Notified ==> Lookup(r.store, LastUpdatedKey) == Some(Text(now)))
      && (WellTyped(store) ==> WellTyped(r.store))
  {
    var s := SessionSpec(store, up);
    var r := CycleSpec(store, force, up, now);
    assert WellTyped(store) ==> WellTyped(s.store) by {
      assert Lookup(store, LastUpdatedKey) == Lookup(s.store, LastUpdatedKey);
      assert Lookup(store, MarksKey) == Lookup(s.store, MarksKey);
      assert Lookup(store, AttendanceKey) == Lookup(s.store, AttendanceKey);
    }
    if s.result.Ready? && Current(s.result.marks, s.result.attendance).Some? {
      var d := Decide(s.store, force, Current(s.result.marks, s.result.attendance).value, now);
      assert r.store == d.store;
      AgreeOutsideTrans(store, s.store, d.store, {TokenKey}, SnapshotKeys);
      if d.outcome == Notified {
        assert WellTyped(s.store) ==> WellTyped(d.store) by {
          assert Lookup(s.store, TokenKey) == Lookup(d.store, TokenKey);
        }
      }
    }
  }

  /** The snapshot the cycle compares against upstream, when its session gets that far. */
  function FetchedSnapshot(store: Store, up: Service): (c: Option<Snapshot>)
  {
    var s := SessionSpec(store, up);
    if s.result.Ready? then Current(s.result.marks, s.result.attendance) else None
  }

  /** No self-diff: when upstream returns what is stored, the cycle reports no update and writes no snapshot. */
  lemma UnchangedDataIsNoChange(store: Store, up: Service, now: Timestamp)
    requires FetchedSnapshot(store, up) == Some(Snapshot(StoredList(store, MarksKey), StoredList(store, AttendanceKey)))
    ensures CycleSpec(store, false, up, now).outcome == NoChange
    ensures AgreeOutside(store, CycleSpec(store, false, up, now).store, {TokenKey})
  {
    var s := SessionSpec(store, up);
    assert Lookup(store, MarksKey) == Lookup(s.store, MarksKey);
    assert Lookup(store, AttendanceKey) == Lookup(s.store, AttendanceKey);
    DiffSelfIsEmpty(StoredList(store, MarksKey));
    DiffSelfIsEmpty(StoredList(store, AttendanceKey));
  }

  /** A forced cycle with any upstream data notifies and rewrites the snapshot, whatever was stored. */
  lemma ForcedCycleNotifies(store: Store, up: Service, now: Timestamp, current: Snapshot)
    requires FetchedSnapshot(store, up) == Some(current)
    requires current.marks != [] || current.attendance != []
    ensures CycleSpec(store, true, up, now).outcome == Notified
    ensures StoredList(CycleSpec(store, true, up, now).store, MarksKey) == current.marks
    ensures StoredList(CycleSpec(store, true, up, now).store, AttendanceKey) == current.attendance
  {
    if current.marks != [] {
      assert current.marks[0] in current.marks;
    } else {
      assert current.attendance[0] in current.attendance;
    }
  }

  /** A stored snapshot with no lists at all behaves like an empty one: any data is new. */
  lemma AbsentSnapshotMakesAllNew(store: Store, up: Service, now: Timestamp, current: Snapshot)
    requires MarksKey !in store && AttendanceKey !in store
    requires FetchedSnapshot(store, up) == Some(current)
    requires current.marks != [] || current.attendance != []
    ensures CycleSpec(store, false, up, now).outcome == Notified
  {
    var s := SessionSpec(store, up);
    assert Lookup(store, MarksKey) == Lookup(s.store, MarksKey);
    assert Lookup(store, AttendanceKey) == Lookup(s.store, AttendanceKey);
    if current.marks != [] {
      assert current.marks[0] in current.marks;
    } else {
      assert current.attendance[0] in current.attendance;
    }
  }

  /**
   * One changed mark in a snapshot with unique codes is reported: the cycle notifies,
   * and stores the new marks together with the unchanged attendance.
   */
  lemma ChangedMarkIsNotified(store: Store, up: Service, now: Timestamp, i: nat, v: Score)
    requires UniqueCodes(StoredList(store, MarksKey))
    requires i < |StoredList(store, MarksKey)| && v != StoredList(store, MarksKey)[i].value
    requires var marks := StoredList(store, MarksKey);
      FetchedSnapshot(store, up) == Some(Snapshot(marks[i := Entry(marks[i].courseCode, v)], StoredList(store, AttendanceKey)))
    ensures var r := CycleSpec(store, false, up, now);
      && r.outcome == Notified
      && StoredList(r.store, MarksKey) == StoredList(store, MarksKey)[i := Entry(StoredList(store, MarksKey)[i].courseCode, v)]
      && StoredList(r.store, AttendanceKey) == StoredList(store, AttendanceKey)
  {
    var marks := StoredList(store, MarksKey);
    var s := SessionSpec(store, up);
    assert Lookup(store, MarksKey) == Lookup(s.store, MarksKey);
    assert Lookup(store, AttendanceKey) == Lookup(s.store, AttendanceKey);
    SingleValueChangeIsReported(marks, i, v);
    var x := Entry(marks[i].courseCode, v);
    assert x in Diff(marks[i := x], marks);
  }

  /** The `/reset` handler: both lists emptied and the stamp written, the token kept. */
  function ResetSpec(store: Store, now: Timestamp): (r: Store)
    ensures StoredList(r, MarksKey) == [] && StoredList(r, AttendanceKey) == []
    ensures Lookup(r, LastUpdatedKey) == Some(Text(now))
    ensures Lookup(r, TokenKey) == Lookup(store, TokenKey)
  {
    WriteSnapshot(store, [], [], now)
  }

  /** Resetting twice is resetting once, with the later stamp. */
  lemma ResetIsIdempotent(store: Store, t1: Timestamp, t2: Timestamp)
    ensures ResetSpec(ResetSpec(store, t1), t2) == ResetSpec(store, t2)
  {
  }

  /** After a reset, a plain cycle that fetches any data notifies. */
  lemma ResetThenCycleNotifies(store: Store, t: Timestamp, up: Service, now: Timestamp, current: Snapshot)
    requires FetchedSnapshot(ResetSpec(store, t), up) == Some(current)
    requires current.marks != [] || current.attendance != []
    ensures CycleSpec(ResetSpec(store, t), false, up, now).outcome == Notified
  {
    var reset := ResetSpec(store, t);
    var s := SessionSpec(reset, up);
    assert Lookup(reset, MarksKey) == Lookup(s.store, MarksKey);
    assert Lookup(reset, AttendanceKey) == Lookup(s.store, AttendanceKey);
    if current.marks != [] {
      assert current.marks[0] in current.marks;
    } else {
      assert current.attendance[0] in current.attendance;
    }
  }
}

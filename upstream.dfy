/**
 * What the change detector needs from the upstream scraper: the token a login
 * returns, and the two JSON payloads a paired fetch returns. The network itself is
 * an oracle given to each cycle.
 */
module Upstream {
  import opened Wrappers
  import opened Records

  /**
   * The marks payload: either the `marks` list or a `logout` flag. A payload without
   * the list is `None`; normalising it throws.
   */
  datatype MarksResponse = MarksResponse(logout: bool, marks: Option<seq<RawMark>>)

  /** The attendance payload, likewise. */
  datatype AttendanceResponse = AttendanceResponse(logout: bool, attendance: Option<seq<RawAttendance>>)

  /** The outcome of `fetchInfo`: both payloads, or a request or parse that threw. */
  datatype FetchResult =
    | Fetched(marks: MarksResponse, attendance: AttendanceResponse)
    | Unreachable

  /**
   * The upstream service during one cycle. `login(n)` is what the n-th login call of
   * the cycle returns (`None` when it throws); `fetchInfo(token, n)` is what the n-th
   * paired fetch of the cycle returns when sent with `token`.
   */
  datatype Service = Service(login: nat -> Option<string>, fetchInfo: (string, nat) -> FetchResult)

  /** The session has expired when either payload carries the `logout` flag (src/index.ts:64). */
  predicate LoggedOut(marks: MarksResponse, attendance: AttendanceResponse): (expired: bool)
    ensures marks.logout ==> expired
    ensures attendance.logout ==> expired
    ensures !marks.logout && !attendance.logout ==> !expired
  {
    attendance.logout || marks.logout
  }
}

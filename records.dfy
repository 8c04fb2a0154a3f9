/**
 * Upstream mark and attendance records, and their projection down to the
 * (course code, value) pairs that the change detection compares.
 */
module Records {
  import opened Wrappers

  /** A score or a percentage. Only ever compared with `===`, so any equality type will do. */
  type Score = int

  /** The `overall` object of a raw mark record; only its `total` is read. */
  datatype Overall = Overall(total: Score)

  /**
   * A raw mark record; `courseName` and `courseType` are for display only. A course
   * with no marks yet may come without `overall` (`None`).
   */
  datatype RawMark = RawMark(courseCode: string, courseName: string, courseType: string, overall: Option<Overall>)

  /** A raw attendance record; `courseTitle` is for display only. */
  datatype RawAttendance = RawAttendance(courseCode: string, courseTitle: string, attendancePercentage: Score)

  /**
   * A normalised record: course code and overall total for marks, course code and
   * percentage for attendance. Both lists are compared the same way, so one shape serves both.
   */
  datatype Entry = Entry(courseCode: string, value: Score)

  /** Every raw mark carries its `overall` object. */
  ghost predicate AllHaveOverall(raw: seq<RawMark>) {
    forall i :: 0 <= i < |raw| ==> raw[i].overall.Some?
  }

  /**
   * Projects each raw mark to its course code and `overall.total` (src/index.ts:70-73).
   * Reading `total` of a missing `overall` throws, so the projection fails (`None`)
   * as soon as one record lacks it.
   */
  function NormalizeMarks(raw: seq<RawMark>): (r: Option<seq<Entry>>)
    ensures r.Some? <==> AllHaveOverall(raw)
    ensures r.Some? ==> |r.value| == |raw|
    ensures r.Some? ==> forall i :: 0 <= i < |raw| ==>
      r.value[i].courseCode == raw[i].courseCode && r.value[i].value == raw[i].overall.value.total
  {
    if raw == [] then Some([])
    else
      match raw[0].overall
      case None => None
      case Some(overall) =>
        match NormalizeMarks(raw[1..])
        case None => None
        case Some(rest) => Some([Entry(raw[0].courseCode, overall.total)] + rest)
  }

  /** Projects each raw attendance record to its course code and percentage (src/index.ts:74-79). */
  function NormalizeAttendance(raw: seq<RawAttendance>): (r: seq<Entry>)
    ensures |r| == |raw|
    ensures forall i :: 0 <= i < |raw| ==>
      r[i].courseCode == raw[i].courseCode && r[i].value == raw[i].attendancePercentage
  {
    if raw == [] then []
    else [Entry(raw[0].courseCode, raw[0].attendancePercentage)] + NormalizeAttendance(raw[1..])
  }

  /** Two raw mark lists that agree on code and total, position by position. */
  ghost predicate SameMarkKeys(a: seq<RawMark>, b: seq<RawMark>) {
    |a| == |b| &&
    forall i :: 0 <= i < |a| ==> a[i].courseCode == b[i].courseCode && a[i].overall == b[i].overall
  }

  /** Two raw attendance lists that agree on code and percentage, position by position. */
  ghost predicate SameAttendanceKeys(a: seq<RawAttendance>, b: seq<RawAttendance>) {
    |a| == |b| &&
    forall i :: 0 <= i < |a| ==>
      a[i].courseCode == b[i].courseCode && a[i].attendancePercentage == b[i].attendancePercentage
  }

  /**
   * The display-only fields of a mark never reach the comparison: lists that agree on
   * code and `overall` normalise alike, and lists that normalise to the same entries
   * agree on them.
   */
  lemma {:induction false} MarkDisplayFieldsIgnored(a: seq<RawMark>, b: seq<RawMark>)
    ensures SameMarkKeys(a, b) ==> NormalizeMarks(a) == NormalizeMarks(b)
    ensures NormalizeMarks(a).Some? && NormalizeMarks(a) == NormalizeMarks(b) ==> SameMarkKeys(a, b)
  {
    var na, nb := NormalizeMarks(a), NormalizeMarks(b);
    if na.Some? && na == nb {
      forall i | 0 <= i < |a|
        ensures a[i].courseCode == b[i].courseCode && a[i].overall == b[i].overall
      {
        assert na.value[i] == nb.value[i];
      }
    }
    if SameMarkKeys(a, b) {
      assert AllHaveOverall(a) <==> AllHaveOverall(b);
      if na.Some? {
        assert nb.Some? && |na.value| == |nb.value|;
        forall i | 0 <= i < |na.value| ensures na.value[i] == nb.value[i] {
          assert na.value[i] == Entry(a[i].courseCode, a[i].overall.value.total);
          assert nb.value[i] == Entry(b[i].courseCode, b[i].overall.value.total);
        }
        assert na.value == nb.value;
      }
    }
  }

  /** Likewise `courseTitle` never reaches the attendance comparison. */
  lemma {:induction false} AttendanceDisplayFieldsIgnored(a: seq<RawAttendance>, b: seq<RawAttendance>)
    ensures SameAttendanceKeys(a, b) <==> NormalizeAttendance(a) == NormalizeAttendance(b)
  {
    var na, nb := NormalizeAttendance(a), NormalizeAttendance(b);
    if na == nb {
      forall i | 0 <= i < |a|
        ensures a[i].courseCode == b[i].courseCode && a[i].attendancePercentage == b[i].attendancePercentage
      {
        assert na[i] == nb[i];
      }
    }
    if SameAttendanceKeys(a, b) {
      forall i | 0 <= i < |na| ensures na[i] == nb[i] { }
    }
  }
}

/**
 * The change detector: keep each current entry for which the previous list holds no
 * entry with the same course code and the same value. The marks diff and the
 * attendance diff are this one filter applied to two independent pairs of lists.
 */
module DiffEngine {
  import opened Records

  /** Whether some previous entry has the same course code and the same value (src/index.ts:90-93). */
  function AnyMatch(prev: seq<Entry>, e: Entry): (found: bool)
    ensures found <==> exists p :: p in prev && p.courseCode == e.courseCode && p.value == e.value
    ensures found <==> e in prev
  {
    if prev == [] then false
    else (prev[0].courseCode == e.courseCode && prev[0].value == e.value) || AnyMatch(prev[1..], e)
  }

  /** `a` is `b` with some elements dropped and the rest kept in order. */
  ghost predicate IsSubsequence(a: seq<Entry>, b: seq<Entry>)
    decreases |b|
  {
    if a == [] then true
    else if b == [] then false
    else (a[0] == b[0] && IsSubsequence(a[1..], b[1..])) || IsSubsequence(a, b[1..])
  }

  /**
   * The entries of `current`, in their order and with their repetitions, that have no
   * equal pair in `prev` (src/index.ts:88-103).
   */
  function Diff(current: seq<Entry>, prev: seq<Entry>): (d: seq<Entry>)
    ensures IsSubsequence(d, current)
    ensures forall e :: e in d <==> e in current && e !in prev
    ensures forall e :: multiset(d)[e] == if e in prev then 0 else multiset(current)[e]
  {
    if current == [] then []
    else
      var rest := Diff(current[1..], prev);
      assert current == [current[0]] + current[1..];
      if AnyMatch(prev, current[0]) then rest
      else
        assert ([current[0]] + rest)[1..] == rest;
        [current[0]] + rest
  }

  /** Some current entry has no equal pair in the previous list. */
  ghost predicate HasNew(current: seq<Entry>, prev: seq<Entry>) {
    exists e :: e in current && e !in prev
  }

  /** A diff is non-empty exactly when some current entry is new (src/index.ts:105). */
  lemma DiffNonEmptyIffHasNew(current: seq<Entry>, prev: seq<Entry>)
    ensures |Diff(current, prev)| > 0 <==> HasNew(current, prev)
  {
    var d := Diff(current, prev);
    if d != [] {
      assert d[0] in d;
    }
  }

  /** Within the list, no course code occurs twice. */
  ghost predicate UniqueCodes(s: seq<Entry>) {
    forall i, j :: 0 <= i < j < |s| ==> s[i].courseCode != s[j].courseCode
  }

  /** Filtering distributes over concatenation of the current list. */
  lemma {:induction false} DiffAppend(a: seq<Entry>, b: seq<Entry>, prev: seq<Entry>)
    ensures Diff(a + b, prev) == Diff(a, prev) + Diff(b, prev)
  {
    if a != [] {
      var ab := a + b;
      assert ab[0] == a[0] && ab[1..] == a[1..] + b;
      DiffAppend(a[1..], b, prev);
      if AnyMatch(prev, a[0]) {
        assert Diff(ab, prev) == Diff(a[1..] + b, prev);
        assert Diff(a, prev) == Diff(a[1..], prev);
      } else {
        assert Diff(ab, prev) == [a[0]] + Diff(a[1..] + b, prev);
        assert Diff(a, prev) == [a[0]] + Diff(a[1..], prev);
      }
    } else {
      assert a + b == b;
    }
  }

  /** No self-diff: a list compared with itself yields nothing. */
  lemma DiffSelfIsEmpty(s: seq<Entry>)
    ensures Diff(s, s) == []
  {
  }

  /** An empty previous list (first run, reset or forced) makes every current entry new. */
  lemma {:induction false} DiffAgainstEmpty(current: seq<Entry>)
    ensures Diff(current, []) == current
  {
    if current != [] {
      DiffAgainstEmpty(current[1..]);
    }
  }

  /**
   * The diff sees the previous list only through the set of its pairs: reordering it,
   * or repeating an entry of it, changes nothing.
   */
  lemma {:induction false} DiffDependsOnlyOnPrevPairs(current: seq<Entry>, prev1: seq<Entry>, prev2: seq<Entry>)
    requires forall e :: e in prev1 <==> e in prev2
    ensures Diff(current, prev1) == Diff(current, prev2)
  {
    if current != [] {
      DiffDependsOnlyOnPrevPairs(current[1..], prev1, prev2);
    }
  }

  /** In particular, a permutation of the previous list gives the same diff. */
  lemma DiffIgnoresPrevOrder(current: seq<Entry>, prev1: seq<Entry>, prev2: seq<Entry>)
    requires multiset(prev1) == multiset(prev2)
    ensures Diff(current, prev1) == Diff(current, prev2)
  {
    forall e ensures e in prev1 <==> e in prev2 {
      assert e in prev1 <==> e in multiset(prev1);
      assert e in prev2 <==> e in multiset(prev2);
    }
    DiffDependsOnlyOnPrevPairs(current, prev1, prev2);
  }

  /**
   * A course that appears only in the previous list (it was removed upstream) never
   * contributes to the diff: dropping such entries from `prev` leaves the diff unchanged,
   * so removals alone are never reported.
   */
  lemma {:induction false} RemovedCoursesNeverReported(current: seq<Entry>, prev: seq<Entry>, removed: seq<Entry>)
    requires forall r, e :: r in removed && e in current ==> r.courseCode != e.courseCode
    ensures Diff(current, prev + removed) == Diff(current, prev)
    ensures Diff(current, prev) == [] ==> Diff(current, prev + removed) == []
  {
    if current != [] {
      assert current[0] in current;
      assert current[0] !in removed;
      RemovedCoursesNeverReported(current[1..], prev, removed);
    }
  }

  /** Every current entry that already occurs in `prev` is filtered out. */
  lemma {:induction false} DiffOfMatched(current: seq<Entry>, prev: seq<Entry>)
    requires forall e :: e in current ==> e in prev
    ensures Diff(current, prev) == []
  {
    if current != [] {
      assert current[0] in current;
      DiffOfMatched(current[1..], prev);
    }
  }

  /** Replacing position `i` is splicing a one-element list between the two halves. */
  lemma SpliceAt(s: seq<Entry>, i: nat, x: Entry)
    requires i < |s|
    ensures s[i := x] == s[..i] + [x] + s[i + 1..]
  {
    var spliced := s[..i] + [x] + s[i + 1..];
    forall k | 0 <= k < |s| ensures s[i := x][k] == spliced[k] {
      if k < i {
        assert spliced[k] == s[..i][k];
      } else if k > i {
        assert spliced[k] == s[i + 1..][k - i - 1];
      }
    }
  }

  /** With unique codes, a course with a new value matches no previous entry. */
  lemma ChangedEntryIsNew(prev: seq<Entry>, i: nat, v: Score)
    requires UniqueCodes(prev)
    requires i < |prev| && v != prev[i].value
    ensures Entry(prev[i].courseCode, v) !in prev
  {
    var x := Entry(prev[i].courseCode, v);
    forall j | 0 <= j < |prev| ensures prev[j] != x {
      if j < i {
        assert prev[j].courseCode != prev[i].courseCode;
      } else if j > i {
        assert prev[i].courseCode != prev[j].courseCode;
      }
    }
  }

  /** The entries around position `i` all occur in the list itself, so they are filtered out. */
  lemma DiffOfNeighbours(prev: seq<Entry>, i: nat)
    requires i < |prev|
    ensures Diff(prev[..i], prev) == [] && Diff(prev[i + 1..], prev) == []
  {
    var before, after := prev[..i], prev[i + 1..];
    forall e | e in before ensures e in prev {
      var k :| 0 <= k < |before| && before[k] == e;
      assert prev[k] == e;
    }
    forall e | e in after ensures e in prev {
      var k :| 0 <= k < |after| && after[k] == e;
      assert prev[i + 1 + k] == e;
    }
    DiffOfMatched(before, prev);
    DiffOfMatched(after, prev);
  }

  /**
   * Changing the value of one course, all else fixed, is reported, and exactly that
   * course is reported (codes unique within the snapshot).
   */
  lemma SingleValueChangeIsReported(prev: seq<Entry>, i: nat, v: Score)
    requires UniqueCodes(prev)
    requires i < |prev| && v != prev[i].value
    ensures Diff(prev[i := Entry(prev[i].courseCode, v)], prev) == [Entry(prev[i].courseCode, v)]
  {
    var x := Entry(prev[i].courseCode, v);
    var before, after := prev[..i], prev[i + 1..];
    DiffOfNeighbours(prev, i);
    ChangedEntryIsNew(prev, i, v);
    assert Diff([x], prev) == [x] by {
      assert [x][1..] == [];
    }
    SpliceAt(prev, i, x);
    DiffAppend(before + [x], after, prev);
    DiffAppend(before, [x], prev);
  }
}

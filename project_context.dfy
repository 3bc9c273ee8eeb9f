/** The shared project state (context/ProjectContext.js): the activity list,
    deduplicated by reference number and ordered by status; per project the
    groups and tests the API returned; and today's tasks, one per group and
    scheduled test. */
module ProjectContext {
  import opened Common
  import Calendar

  // ---------------------------------------------------------------------------
  // Records as the API delivers them.

  datatype Activity = Activity(activityId: string, refNum: string, status: Option<string>)

  datatype Group = Group(id: int, groupId: int, name: string, studyType: string)

  /** A test's `test_frequency` code: 'D', 'W', 'O', 'B', 'N', or anything else. */
  datatype Frequency = Daily | Weekly | OnceAtEnd | BeforeStart | DateSchedule | Unrecognised(code: string)

  /** The code as the API sends it, read into a Frequency. */
  function FrequencyOf(code: string): Frequency
  {
    if code == "D" then Daily
    else if code == "W" then Weekly
    else if code == "O" then OnceAtEnd
    else if code == "B" then BeforeStart
    else if code == "N" then DateSchedule
    else Unrecognised(code)
  }

  function FrequencyCode(f: Frequency): string
  {
    match f
    case Daily => "D"
    case Weekly => "W"
    case OnceAtEnd => "O"
    case BeforeStart => "B"
    case DateSchedule => "N"
    case Unrecognised(code) => code
  }

  /** Reading a code loses nothing: the code can be written back. */
  lemma FrequencyCodeRoundTrip(code: string)
    ensures FrequencyCode(FrequencyOf(code)) == code
  {
  }

  /** Each known code is read back as itself; Unrecognised codes never collide with the known ones. */
  lemma FrequencyOfRoundTrip(f: Frequency)
    requires f.Unrecognised? ==> f.code !in {"D", "W", "O", "B", "N"}
    ensures FrequencyOf(FrequencyCode(f)) == f
  {
  }

  datatype TestType = TestType(id: int, name: string, projectCode: string, frequency: Frequency, noOfDays: int)

  /** An entry of todaysTasks. */
  datatype Task = Task(projectCode: string, groupName: string, group: Group, test: TestType)

  /** The outcome of an awaited API call: it threw, or it answered with a
      status code and its data list. Missing data is modelled as the empty
      list, as the readers that write `data || []` see it; the group list is
      also stored raw, which this type does not distinguish. */
  datatype Response<T> = Threw | Response(status: int, data: seq<T>)

  // ---------------------------------------------------------------------------
  // The test-schedule rule.

  /** isTestScheduledToday, with the whole-day offset `d` of today from the
      study start passed in. JavaScript's `%` and Dafny's agree on whether d
      is a multiple of 7, also for negative d. */
  predicate IsTestScheduledToday(frequency: Frequency, noOfDays: int, d: int)
  {
    match frequency
    case Daily => 0 <= d < noOfDays
    case Weekly => d % 7 == 0 && d < noOfDays
    case OnceAtEnd => d == noOfDays - 1
    case BeforeStart => d == 0
    case DateSchedule => false
    case Unrecognised(_) => false
  }

  /** The hard-coded START_DATE and TODAY ('2025-06-13' and '2025-06-20' parse
      as UTC midnight); the offset is the floored millisecond difference in days. */
  const StartDate: Calendar.Civil := Calendar.Civil(2025, 6, 13)
  const Today: Calendar.Civil := Calendar.Civil(2025, 6, 20)

  function DaysSinceStart(): int
  {
    var startMs := Calendar.DayFromCivil(StartDate) * Calendar.MsPerDay;
    var todayMs := Calendar.DayFromCivil(Today) * Calendar.MsPerDay;
    (todayMs - startMs) / Calendar.MsPerDay
  }

  /** With the configured dates the offset is 7, so daily and weekly tests run
      iff they last more than 7 days, once-at-end tests iff they last exactly 8,
      and before-start tests never. */
  lemma ConfiguredSchedule(noOfDays: int)
    ensures DaysSinceStart() == 7
    ensures IsTestScheduledToday(Daily, noOfDays, DaysSinceStart()) <==> 7 < noOfDays
    ensures IsTestScheduledToday(Weekly, noOfDays, DaysSinceStart()) <==> 7 < noOfDays
    ensures IsTestScheduledToday(OnceAtEnd, noOfDays, DaysSinceStart()) <==> noOfDays == 8
    ensures !IsTestScheduledToday(BeforeStart, noOfDays, DaysSinceStart())
  {
  }

  /** Only the four dated codes are ever scheduled. */
  lemma ScheduledCodes(code: string, noOfDays: int, d: int)
    requires IsTestScheduledToday(FrequencyOf(code), noOfDays, d)
    ensures code == "D" || code == "W" || code == "O" || code == "B"
  {
  }

  /** Within the study, a weekly test is due only on days a daily test is due. */
  lemma WeeklyWithinDaily(noOfDays: int, d: int)
    requires 0 <= d && IsTestScheduledToday(Weekly, noOfDays, d)
    ensures IsTestScheduledToday(Daily, noOfDays, d)
  {
  }

  /** How many of the offsets 0 .. k-1 a test is due on. */
  function CountScheduled(frequency: Frequency, noOfDays: int, k: nat): nat
  {
    if k == 0 then 0
    else CountScheduled(frequency, noOfDays, k - 1) + (if IsTestScheduledToday(frequency, noOfDays, k - 1) then 1 else 0)
  }

  /** Over the study's own days 0 .. n-1: a daily test is due n times, a weekly
      test ceil(n/7) times, once-at-end and before-start tests once, and
      date-schedule tests never. */
  lemma {:induction false} CountsOverStudy(n: nat, k: nat)
    requires k <= n
    ensures CountScheduled(Daily, n, k) == k
    ensures CountScheduled(Weekly, n, k) == (k + 6) / 7
    ensures CountScheduled(OnceAtEnd, n, k) == (if k == n && n > 0 then 1 else 0)
    ensures CountScheduled(BeforeStart, n, k) == (if k > 0 then 1 else 0)
    ensures CountScheduled(DateSchedule, n, k) == 0
  {
    if k > 0 {
      CountsOverStudy(n, k - 1);
      assert (k - 1) % 7 == 0 <==> (k + 6) / 7 == (k + 5) / 7 + 1;
    }
  }

  // ---------------------------------------------------------------------------
  // Deduplication by reference number (first occurrence wins).

  /** Some record of s carries reference number `ref`. */
  predicate HasRef(s: seq<Activity>, ref: string)
  {
    exists i :: 0 <= i < |s| && s[i].refNum == ref
  }

  lemma HasRefLast(s: seq<Activity>, ref: string)
    requires |s| > 0
    ensures HasRef(s, ref) <==> HasRef(s[..|s| - 1], ref) || s[|s| - 1].refNum == ref
  {
    var n := |s| - 1;
    if HasRef(s, ref) && s[n].refNum != ref {
      var i :| 0 <= i < |s| && s[i].refNum == ref;
      assert s[..n][i].refNum == ref;
    }
    if HasRef(s[..n], ref) {
      var i :| 0 <= i < n && s[..n][i].refNum == ref;
      assert s[i].refNum == ref;
    }
  }

  lemma HasRefFirst(s: seq<Activity>, ref: string)
    requires |s| > 0
    ensures HasRef(s, ref) <==> s[0].refNum == ref || HasRef(s[1..], ref)
  {
    if HasRef(s, ref) && s[0].refNum != ref {
      var i :| 0 <= i < |s| && s[i].refNum == ref;
      assert s[1..][i - 1].refNum == ref;
    }
    if HasRef(s[1..], ref) {
      var i :| 0 <= i < |s| - 1 && s[1..][i].refNum == ref;
      assert s[i + 1].refNum == ref;
    }
  }

  /** `acc.find(item => item.ref_num === ref)`: the first record with that reference. */
  function FindByRef(acc: seq<Activity>, ref: string): (r: Option<Activity>)
    ensures r.None? <==> !HasRef(acc, ref)
    ensures r.Some? ==> r.value in acc && r.value.refNum == ref
  {
    if |acc| == 0 then None
    else
      HasRefFirst(acc, ref);
      if acc[0].refNum == ref then Some(acc[0])
      else
        var r := FindByRef(acc[1..], ref);
        assert r.Some? ==> r.value in acc;
        r
  }

  /** The first index of s holding reference `ref`. */
  function FirstIndex(s: seq<Activity>, ref: string): (i: nat)
    requires HasRef(s, ref)
    ensures i < |s| && s[i].refNum == ref
    ensures forall j :: 0 <= j < i ==> s[j].refNum != ref
  {
    var n := |s| - 1;
    HasRefLast(s, ref);
    if HasRef(s[..n], ref) then
      var i := FirstIndex(s[..n], ref);
      assert s[i] == s[..n][i];
      i
    else
      assert forall j :: 0 <= j < n ==> s[j] == s[..n][j];
      n
  }

  /** The records of s that are the first with their reference number, in order. */
  function FirstOccurrences(s: seq<Activity>): seq<Activity>
  {
    if |s| == 0 then []
    else
      var n := |s| - 1;
      FirstOccurrences(s[..n]) + (if HasRef(s[..n], s[n].refNum) then [] else [s[n]])
  }

  /** The reduce at lines 49-53 (and the identical one in ProjectList). */
  method DedupByRefNum(list: seq<Activity>) returns (acc: seq<Activity>)
    ensures acc == FirstOccurrences(list)
  {
    acc := [];
    var i := 0;
    while i < |list|
      invariant 0 <= i <= |list|
      invariant acc == FirstOccurrences(list[..i])
      invariant forall r :: HasRef(acc, r) <==> HasRef(list[..i], r)
    {
      var current := list[i];
      var x := FindByRef(acc, current.refNum);
      ghost var acc0 := acc;
      if x.None? {
        acc := acc + [current];
      }
      assert list[..i + 1][..i] == list[..i];
      forall r
        ensures HasRef(acc, r) <==> HasRef(list[..i + 1], r)
      {
        HasRefLast(list[..i + 1], r);
        if x.None? {
          HasRefLast(acc, r);
          assert acc[..|acc| - 1] == acc0;
        }
      }
      i := i + 1;
    }
    assert list[..|list|] == list;
  }

  /** Every reference number of the input is kept, and none twice. */
  lemma {:induction false} FirstOccurrencesRefs(s: seq<Activity>)
    ensures forall r :: HasRef(FirstOccurrences(s), r) <==> HasRef(s, r)
    ensures forall i, j :: 0 <= i < j < |FirstOccurrences(s)| ==>
      FirstOccurrences(s)[i].refNum != FirstOccurrences(s)[j].refNum
  {
    if |s| > 0 {
      var n := |s| - 1;
      var p, out := FirstOccurrences(s[..n]), FirstOccurrences(s);
      FirstOccurrencesRefs(s[..n]);
      forall r
        ensures HasRef(out, r) <==> HasRef(s, r)
      {
        HasRefLast(s, r);
        if !HasRef(s[..n], s[n].refNum) {
          HasRefLast(out, r);
          assert out[..|out| - 1] == p;
        } else {
          assert out == p;
        }
      }
      if !HasRef(s[..n], s[n].refNum) {
        forall i | 0 <= i < |p|
          ensures p[i].refNum != s[n].refNum
        {
          assert HasRef(p, p[i].refNum);
        }
      }
    }
  }

  /** Each kept record is the first input record with its reference number,
      and kept records appear in input order. */
  lemma {:induction false} FirstOccurrencesAreFirst(s: seq<Activity>)
    ensures forall k :: 0 <= k < |FirstOccurrences(s)| ==>
      HasRef(s, FirstOccurrences(s)[k].refNum) &&
      FirstOccurrences(s)[k] == s[FirstIndex(s, FirstOccurrences(s)[k].refNum)]
    ensures forall k, l :: 0 <= k < l < |FirstOccurrences(s)| ==>
      HasRef(s, FirstOccurrences(s)[k].refNum) && HasRef(s, FirstOccurrences(s)[l].refNum) &&
      FirstIndex(s, FirstOccurrences(s)[k].refNum) < FirstIndex(s, FirstOccurrences(s)[l].refNum)
  {
    if |s| > 0 {
      var n := |s| - 1;
      var p, out := FirstOccurrences(s[..n]), FirstOccurrences(s);
      FirstOccurrencesAreFirst(s[..n]);
      forall k | 0 <= k < |p|
        ensures HasRef(s, p[k].refNum) && FirstIndex(s, p[k].refNum) == FirstIndex(s[..n], p[k].refNum)
        ensures p[k] == s[FirstIndex(s, p[k].refNum)]
      {
        HasRefLast(s, p[k].refNum);
      }
      if !HasRef(s[..n], s[n].refNum) {
        HasRefLast(s, s[n].refNum);
        assert FirstIndex(s, s[n].refNum) == n;
      }
    }
  }

  // ---------------------------------------------------------------------------
  // Ordering by status.

  /** A character as `toLowerCase` gives it, for the ASCII letters. */
  function LowerChar(c: char): char
  {
    if 'A' <= c <= 'Z' then (c as int + 32) as char else c
  }

  function ToLowerAscii(s: string): (r: string)
    ensures |r| == |s|
    ensures forall i :: 0 <= i < |s| ==> r[i] == LowerChar(s[i])
  {
    if |s| == 0 then []
    else [LowerChar(s[0])] + ToLowerAscii(s[1..])
  }

  /** Lower-casing twice is lower-casing once. */
  lemma {:induction false} ToLowerIdempotent(s: string)
    ensures ToLowerAscii(ToLowerAscii(s)) == ToLowerAscii(s)
  {
    if |s| > 0 {
      ToLowerIdempotent(s[1..]);
      assert ToLowerAscii(s)[1..] == ToLowerAscii(s[1..]);
    }
  }

  /** The priority ignores case: a status ranks as its lower-case form. */
  lemma StatusIgnoresCase(s: string)
    ensures StatusPriority(Some(s)) == StatusPriority(Some(ToLowerAscii(s)))
  {
    ToLowerIdempotent(s);
  }

  /** getStatusPriority: 'in progress' < 'completed' < anything else, ignoring case. */
  function StatusPriority(status: Option<string>): (p: int)
    ensures 1 <= p <= 3
    ensures p == 1 <==> status.Some? && ToLowerAscii(status.value) == "in progress"
    ensures p == 2 <==> status.Some? && ToLowerAscii(status.value) == "completed"
  {
    if status.None? then 3
    else if ToLowerAscii(status.value) == "in progress" then 1
    else if ToLowerAscii(status.value) == "completed" then 2
    else 3
  }

  /** The records of s with priority p, in order. */
  function Bucket(s: seq<Activity>, p: int): (r: seq<Activity>)
    ensures forall i :: 0 <= i < |r| ==> StatusPriority(r[i].status) == p
  {
    if |s| == 0 then []
    else (if StatusPriority(s[0].status) == p then [s[0]] else []) + Bucket(s[1..], p)
  }

  /** What the stable `sort` with the priority comparator returns (lines 55-64). */
  function SortByStatusPriority(s: seq<Activity>): seq<Activity>
  {
    Bucket(s, 1) + Bucket(s, 2) + Bucket(s, 3)
  }

  /** Priorities never decrease along s. */
  predicate SortedByPriority(s: seq<Activity>)
  {
    |s| <= 1 || (StatusPriority(s[0].status) <= StatusPriority(s[1].status) && SortedByPriority(s[1..]))
  }

  lemma {:induction false} SortedConcat(a: seq<Activity>, b: seq<Activity>)
    requires SortedByPriority(a) && SortedByPriority(b)
    requires |a| > 0 && |b| > 0 ==> StatusPriority(a[|a| - 1].status) <= StatusPriority(b[0].status)
    ensures SortedByPriority(a + b)
  {
    if |a| > 0 {
      assert (a + b)[1..] == a[1..] + b;
      SortedConcat(a[1..], b);
    } else {
      assert a + b == b;
    }
  }

  lemma {:induction false} BucketSorted(s: seq<Activity>, p: int)
    ensures SortedByPriority(Bucket(s, p))
  {
    if |s| > 0 {
      var rest := Bucket(s[1..], p);
      BucketSorted(s[1..], p);
      if StatusPriority(s[0].status) == p {
        var b := [s[0]] + rest;
        assert b[1..] == rest;
        assert |rest| > 0 ==> b[1] == rest[0] && StatusPriority(rest[0].status) == p;
        assert Bucket(s, p) == b;
      } else {
        assert Bucket(s, p) == [] + rest == rest;
      }
    }
  }

  /** The result is ordered by priority. */
  lemma SortIsSorted(s: seq<Activity>)
    ensures SortedByPriority(SortByStatusPriority(s))
  {
    var b1, b2, b3 := Bucket(s, 1), Bucket(s, 2), Bucket(s, 3);
    BucketSorted(s, 1);
    BucketSorted(s, 2);
    BucketSorted(s, 3);
    SortedConcat(b1, b2);
    SortedConcat(b1 + b2, b3);
  }

  /** How often record a occurs in s. */
  function Occurrences(s: seq<Activity>, a: Activity): nat
  {
    if |s| == 0 then 0 else (if s[0] == a then 1 else 0) + Occurrences(s[1..], a)
  }

  lemma {:induction false} OccurrencesMultiset(s: seq<Activity>, a: Activity)
    ensures multiset(s)[a] == Occurrences(s, a)
  {
    if |s| > 0 {
      OccurrencesMultiset(s[1..], a);
      assert s == [s[0]] + s[1..];
    }
  }

  lemma {:induction false} OccurrencesConcat(s: seq<Activity>, t: seq<Activity>, a: Activity)
    ensures Occurrences(s + t, a) == Occurrences(s, a) + Occurrences(t, a)
  {
    if |s| > 0 {
      OccurrencesConcat(s[1..], t, a);
      assert (s + t)[1..] == s[1..] + t;
    } else {
      assert s + t == t;
    }
  }

  lemma {:induction false} BucketsOccurrences(s: seq<Activity>, a: Activity)
    ensures Occurrences(Bucket(s, 1), a) + Occurrences(Bucket(s, 2), a) + Occurrences(Bucket(s, 3), a) == Occurrences(s, a)
  {
    if |s| > 0 {
      var x, r := s[0], s[1..];
      BucketsOccurrences(r, a);
      OccurrencesConcat(if StatusPriority(x.status) == 1 then [x] else [], Bucket(r, 1), a);
      OccurrencesConcat(if StatusPriority(x.status) == 2 then [x] else [], Bucket(r, 2), a);
      OccurrencesConcat(if StatusPriority(x.status) == 3 then [x] else [], Bucket(r, 3), a);
    }
  }

  /** The sort only reorders: the result is a permutation of its input. */
  lemma SortIsPermutation(s: seq<Activity>)
    ensures multiset(SortByStatusPriority(s)) == multiset(s)
  {
    var b1, b2, b3 := Bucket(s, 1), Bucket(s, 2), Bucket(s, 3);
    forall a
      ensures multiset(b1 + b2 + b3)[a] == multiset(s)[a]
    {
      BucketsOccurrences(s, a);
      OccurrencesMultiset(s, a);
      OccurrencesMultiset(b1, a);
      OccurrencesMultiset(b2, a);
      OccurrencesMultiset(b3, a);
    }
  }

  lemma {:induction false} BucketConcat(a: seq<Activity>, b: seq<Activity>, p: int)
    ensures Bucket(a + b, p) == Bucket(a, p) + Bucket(b, p)
  {
    if |a| > 0 {
      assert (a + b)[1..] == a[1..] + b;
      BucketConcat(a[1..], b, p);
    } else {
      assert a + b == b;
    }
  }

  lemma {:induction false} BucketEmpty(s: seq<Activity>, p: int)
    requires forall i :: 0 <= i < |s| ==> StatusPriority(s[i].status) != p
    ensures Bucket(s, p) == []
  {
    if |s| > 0 {
      BucketEmpty(s[1..], p);
    }
  }

  lemma {:induction false} BucketAll(s: seq<Activity>, p: int)
    requires forall i :: 0 <= i < |s| ==> StatusPriority(s[i].status) == p
    ensures Bucket(s, p) == s
  {
    if |s| > 0 {
      BucketAll(s[1..], p);
      assert s == [s[0]] + s[1..];
    }
  }

  lemma BucketOfBucket(s: seq<Activity>, q: int, p: int)
    ensures Bucket(Bucket(s, q), p) == (if q == p then Bucket(s, q) else [])
  {
    if q == p {
      BucketAll(Bucket(s, q), p);
    } else {
      BucketEmpty(Bucket(s, q), p);
    }
  }

  /** Stability: records of equal priority keep their relative order. */
  lemma SortIsStable(s: seq<Activity>, p: int)
    ensures Bucket(SortByStatusPriority(s), p) == Bucket(s, p)
  {
    var b1, b2, b3 := Bucket(s, 1), Bucket(s, 2), Bucket(s, 3);
    BucketConcat(b1 + b2, b3, p);
    BucketConcat(b1, b2, p);
    BucketOfBucket(s, 1, p);
    BucketOfBucket(s, 2, p);
    BucketOfBucket(s, 3, p);
    if p != 1 && p != 2 && p != 3 {
      BucketEmpty(s, p);
    }
  }

  /** In a sorted sequence nothing ranks below its first record. */
  lemma {:induction false} SortedBelowHeadEmpty(u: seq<Activity>, q: int)
    requires SortedByPriority(u) && |u| > 0 && q < StatusPriority(u[0].status)
    ensures Bucket(u, q) == []
  {
    if |u| > 1 {
      SortedBelowHeadEmpty(u[1..], q);
    }
  }

  lemma {:induction false} SortedIsBuckets(t: seq<Activity>)
    requires SortedByPriority(t)
    ensures t == Bucket(t, 1) + Bucket(t, 2) + Bucket(t, 3)
  {
    if |t| > 0 {
      var x, u := t[0], t[1..];
      SortedIsBuckets(u);
      var px := StatusPriority(x.status);
      if |u| > 0 && px >= 2 {
        SortedBelowHeadEmpty(u, 1);
      }
      if |u| > 0 && px == 3 {
        SortedBelowHeadEmpty(u, 2);
      }
      assert t == [x] + u;
    }
  }

  /** Any priority-sorted arrangement that keeps the order within each priority
      is exactly SortByStatusPriority: the function is the result of every stable sort. */
  lemma StableSortUnique(s: seq<Activity>, t: seq<Activity>)
    requires SortedByPriority(t)
    requires forall p :: Bucket(t, p) == Bucket(s, p)
    ensures t == SortByStatusPriority(s)
  {
    SortedIsBuckets(t);
  }

  // ---------------------------------------------------------------------------
  // Today's tasks.

  /** What one group contributes: a task per scheduled test, in test order. */
  function GroupTasks(g: Group, tests: seq<TestType>, d: int): seq<Task>
  {
    if |tests| == 0 then []
    else
      var t := tests[0];
      (if IsTestScheduledToday(t.frequency, t.noOfDays, d) then [Task(t.projectCode, g.name, g, t)] else [])
      + GroupTasks(g, tests[1..], d)
  }

  /** Group-major cross product of groups and scheduled tests. */
  function CrossTasks(groups: seq<Group>, tests: seq<TestType>, d: int): seq<Task>
  {
    if |groups| == 0 then [] else GroupTasks(groups[0], tests, d) + CrossTasks(groups[1..], tests, d)
  }

  /** What a project contributes: none unless its test fetch answered 200;
      the groups iterated are the group fetch's data whatever its status. */
  function ProjectTasks(groupRes: Response<Group>, testRes: Response<TestType>, d: int): seq<Task>
  {
    if groupRes.Threw? || testRes.Threw? || testRes.status != 200 then []
    else CrossTasks(groupRes.data, testRes.data, d)
  }

  /** Per-project task lists concatenated in project order. */
  function Concat(parts: seq<seq<Task>>): seq<Task>
  {
    if |parts| == 0 then [] else Concat(parts[..|parts| - 1]) + parts[|parts| - 1]
  }

  /** What each project contributes, in project order. */
  function ProjectTaskLists(projects: seq<Activity>, groupApi: string -> Response<Group>,
                            testApi: string -> Response<TestType>, d: int): (r: seq<seq<Task>>)
    ensures |r| == |projects|
  {
    if |projects| == 0 then []
    else
      var n := |projects| - 1;
      ProjectTaskLists(projects[..n], groupApi, testApi, d)
      + [ProjectTasks(groupApi(projects[n].refNum), testApi(projects[n].refNum), d)]
  }

  function AllTasks(projects: seq<Activity>, groupApi: string -> Response<Group>,
                    testApi: string -> Response<TestType>, d: int): seq<Task>
  {
    Concat(ProjectTaskLists(projects, groupApi, testApi, d))
  }

  predicate GroupsRecorded(groupApi: string -> Response<Group>, ref: string)
  {
    groupApi(ref).Response? && groupApi(ref).status == 200
  }

  predicate TestsRecorded(groupApi: string -> Response<Group>, testApi: string -> Response<TestType>, ref: string)
  {
    groupApi(ref).Response? && testApi(ref).Response? && testApi(ref).status == 200
  }

  /** The nested group and test loops of one project (lines 83-101). */
  method CollectProjectTasks(groups: seq<Group>, tests: seq<TestType>, d: int) returns (tasks: seq<Task>)
    ensures tasks == CrossTasks(groups, tests, d)
  {
    tasks := [];
    var gi := 0;
    while gi < |groups|
      invariant 0 <= gi <= |groups|
      invariant tasks == CrossTasks(groups[..gi], tests, d)
    {
      var group := groups[gi];
      var ti := 0;
      while ti < |tests|
        invariant 0 <= ti <= |tests|
        invariant tasks == CrossTasks(groups[..gi], tests, d) + GroupTasks(group, tests[..ti], d)
      {
        var test := tests[ti];
        GroupTasksSnoc(group, tests[..ti], test, d);
        assert tests[..ti + 1] == tests[..ti] + [test];
        if IsTestScheduledToday(test.frequency, test.noOfDays, d) {
          tasks := tasks + [Task(test.projectCode, group.name, group, test)];
        }
        ti := ti + 1;
      }
      assert tests[..ti] == tests;
      CrossTasksSnoc(groups[..gi], group, tests, d);
      assert groups[..gi + 1] == groups[..gi] + [group];
      gi := gi + 1;
    }
    assert groups[..gi] == groups;
  }

  /** The per-project loop of fetchAllData (lines 69-106). `groupApi` and
      `testApi` stand for getGLPGroupList and getGLPTestList; a Threw answer
      is the exception the loop catches before going on with the next project. */
  method FetchProjects(projects: seq<Activity>, groupApi: string -> Response<Group>,
                       testApi: string -> Response<TestType>, d: int)
    returns (groupsData: map<string, seq<Group>>, testsData: map<string, seq<TestType>>, tasks: seq<Task>)
    ensures forall r :: r in groupsData <==> HasRef(projects, r) && GroupsRecorded(groupApi, r)
    ensures forall r :: r in groupsData ==> GroupsRecorded(groupApi, r) && groupsData[r] == groupApi(r).data
    ensures forall r :: r in testsData <==> HasRef(projects, r) && TestsRecorded(groupApi, testApi, r)
    ensures forall r :: r in testsData ==> TestsRecorded(groupApi, testApi, r) && testsData[r] == testApi(r).data
    ensures tasks == AllTasks(projects, groupApi, testApi, d)
  {
    groupsData, testsData, tasks := map[], map[], [];
    var i := 0;
    while i < |projects|
      invariant 0 <= i <= |projects|
      invariant forall r :: r in groupsData <==> HasRef(projects[..i], r) && GroupsRecorded(groupApi, r)
      invariant forall r :: r in groupsData ==> GroupsRecorded(groupApi, r) && groupsData[r] == groupApi(r).data
      invariant forall r :: r in testsData <==> HasRef(projects[..i], r) && TestsRecorded(groupApi, testApi, r)
      invariant forall r :: r in testsData ==> TestsRecorded(groupApi, testApi, r) && testsData[r] == testApi(r).data
      invariant tasks == AllTasks(projects[..i], groupApi, testApi, d)
    {
      var ref := projects[i].refNum;
      assert projects[..i + 1][..i] == projects[..i];
      forall r
        ensures HasRef(projects[..i + 1], r) <==> HasRef(projects[..i], r) || r == ref
      {
        HasRefLast(projects[..i + 1], r);
      }
      var groupRes := groupApi(ref);
      if groupRes.Response? {
        if groupRes.status == 200 {
          groupsData := groupsData[ref := groupRes.data];
        }
        var testRes := testApi(ref);
        if testRes.Response? && testRes.status == 200 {
          testsData := testsData[ref := testRes.data];
          var projectTasks := CollectProjectTasks(groupRes.data, testRes.data, d);
          tasks := tasks + projectTasks;
        }
      }
      ghost var lists := ProjectTaskLists(projects[..i], groupApi, testApi, d);
      assert (lists + [ProjectTasks(groupRes, testApi(ref), d)])[..|lists|] == lists;
      i := i + 1;
    }
    assert projects[..i] == projects;
  }

  lemma {:induction false} GroupTasksSnoc(g: Group, tests: seq<TestType>, t: TestType, d: int)
    ensures GroupTasks(g, tests + [t], d) ==
      GroupTasks(g, tests, d) + (if IsTestScheduledToday(t.frequency, t.noOfDays, d) then [Task(t.projectCode, g.name, g, t)] else [])
    decreases |tests|
  {
    if |tests| == 0 {
      assert (tests + [t])[1..] == [];
    } else {
      assert (tests + [t])[1..] == tests[1..] + [t];
      GroupTasksSnoc(g, tests[1..], t, d);
    }
  }

  lemma {:induction false} CrossTasksSnoc(groups: seq<Group>, g: Group, tests: seq<TestType>, d: int)
    ensures CrossTasks(groups + [g], tests, d) == CrossTasks(groups, tests, d) + GroupTasks(g, tests, d)
    decreases |groups|
  {
    if |groups| == 0 {
      assert (groups + [g])[1..] == [];
    } else {
      assert (groups + [g])[1..] == groups[1..] + [g];
      CrossTasksSnoc(groups[1..], g, tests, d);
    }
  }

  function ScheduledTests(tests: seq<TestType>, d: int): (r: seq<TestType>)
  {
    if |tests| == 0 then []
    else
      (if IsTestScheduledToday(tests[0].frequency, tests[0].noOfDays, d) then [tests[0]] else [])
      + ScheduledTests(tests[1..], d)
  }

  /** A group contributes exactly its scheduled tests, in order. */
  lemma {:induction false} GroupTasksAreScheduledTests(g: Group, tests: seq<TestType>, d: int)
    ensures |GroupTasks(g, tests, d)| == |ScheduledTests(tests, d)|
    ensures forall k :: 0 <= k < |GroupTasks(g, tests, d)| ==>
      GroupTasks(g, tests, d)[k] == Task(ScheduledTests(tests, d)[k].projectCode, g.name, g, ScheduledTests(tests, d)[k])
  {
    if |tests| > 0 {
      GroupTasksAreScheduledTests(g, tests[1..], d);
    }
  }

  /** One task per (group, scheduled test) pair: the count is a product. */
  lemma {:induction false} CrossTasksCount(groups: seq<Group>, tests: seq<TestType>, d: int)
    ensures |CrossTasks(groups, tests, d)| == |groups| * |ScheduledTests(tests, d)|
  {
    if |groups| > 0 {
      CrossTasksCount(groups[1..], tests, d);
      GroupTasksAreScheduledTests(groups[0], tests, d);
    }
  }

  /** A task is listed iff its group is one of the groups and its test is a
      scheduled one of the tests. */
  lemma {:induction false} CrossTasksMembership(groups: seq<Group>, tests: seq<TestType>, d: int, task: Task)
    ensures task in CrossTasks(groups, tests, d) <==>
      task.group in groups && task.test in tests && task.groupName == task.group.name &&
      task.projectCode == task.test.projectCode &&
      IsTestScheduledToday(task.test.frequency, task.test.noOfDays, d)
  {
    if |groups| > 0 {
      CrossTasksMembership(groups[1..], tests, d, task);
      GroupTasksMembership(groups[0], tests, d, task);
      assert forall g :: g in groups <==> g == groups[0] || g in groups[1..];
    }
  }

  lemma {:induction false} GroupTasksMembership(g: Group, tests: seq<TestType>, d: int, task: Task)
    ensures task in GroupTasks(g, tests, d) <==>
      task.group == g && task.test in tests && task.groupName == g.name &&
      task.projectCode == task.test.projectCode &&
      IsTestScheduledToday(task.test.frequency, task.test.noOfDays, d)
  {
    if |tests| > 0 {
      GroupTasksMembership(g, tests[1..], d, task);
      assert forall t :: t in tests <==> t == tests[0] || t in tests[1..];
    }
  }

  lemma {:induction false} ConcatSplit(a: seq<seq<Task>>, b: seq<seq<Task>>)
    ensures Concat(a + b) == Concat(a) + Concat(b)
    decreases |b|
  {
    if |b| == 0 {
      assert a + b == a;
    } else {
      assert (a + b)[..|a + b| - 1] == a + b[..|b| - 1];
      ConcatSplit(a, b[..|b| - 1]);
    }
  }

  lemma {:induction false} ProjectTaskListsSplit(ps: seq<Activity>, qs: seq<Activity>, groupApi: string -> Response<Group>,
                                                 testApi: string -> Response<TestType>, d: int)
    ensures ProjectTaskLists(ps + qs, groupApi, testApi, d)
            == ProjectTaskLists(ps, groupApi, testApi, d) + ProjectTaskLists(qs, groupApi, testApi, d)
    decreases |qs|
  {
    if |qs| == 0 {
      assert ps + qs == ps;
    } else {
      var n := |qs| - 1;
      assert (ps + qs)[..|ps + qs| - 1] == ps + qs[..n];
      ProjectTaskListsSplit(ps, qs[..n], groupApi, testApi, d);
    }
  }

  /** Projects contribute independently and in order: a failure of one project
      only removes that project's own tasks. */
  lemma AllTasksSplit(ps: seq<Activity>, qs: seq<Activity>, groupApi: string -> Response<Group>,
                      testApi: string -> Response<TestType>, d: int)
    ensures AllTasks(ps + qs, groupApi, testApi, d) == AllTasks(ps, groupApi, testApi, d) + AllTasks(qs, groupApi, testApi, d)
  {
    ProjectTaskListsSplit(ps, qs, groupApi, testApi, d);
    ConcatSplit(ProjectTaskLists(ps, groupApi, testApi, d), ProjectTaskLists(qs, groupApi, testApi, d));
  }
}

/** The provider's state and its fetchAllData effect (context/ProjectContext.js). */
module ProjectProvider {
  import opened Common
  import opened ProjectContext

  class ProjectStore {
    var projects: seq<Activity>
    var groupsByProject: map<string, seq<Group>>
    var testsByProject: map<string, seq<TestType>>
    var todaysTasks: seq<Task>
    var loading: bool
    var error: Option<string>

    constructor ()
      ensures projects == [] && groupsByProject == map[] && testsByProject == map[]
      ensures todaysTasks == [] && !loading && error == None
    {
      projects, groupsByProject, testsByProject, todaysTasks := [], map[], map[], [];
      loading, error := false, None;
    }

    /** fetchAllData. `activityList` is `projectRes?.data?.a_list`: None when
        the activity fetch threw or its data or list is missing, which makes
        the outer `try` fail before any state is set. */
    method FetchAllData(activityList: Option<seq<Activity>>, groupApi: string -> Response<Group>,
                        testApi: string -> Response<TestType>, d: int)
      modifies this
      ensures !loading
      ensures activityList.None? ==>
        error == Some("Error fetching data") && projects == old(projects) &&
        groupsByProject == old(groupsByProject) && testsByProject == old(testsByProject) &&
        todaysTasks == old(todaysTasks)
      ensures activityList.Some? ==>
        error == old(error) &&
        projects == SortByStatusPriority(FirstOccurrences(activityList.value)) &&
        todaysTasks == AllTasks(projects, groupApi, testApi, d) &&
        (forall r :: r in groupsByProject <==> HasRef(projects, r) && GroupsRecorded(groupApi, r)) &&
        (forall r :: r in testsByProject <==> HasRef(projects, r) && TestsRecorded(groupApi, testApi, r))
      ensures activityList.Some? ==>
        (forall r :: r in groupsByProject ==> groupsByProject[r] == groupApi(r).data) &&
        (forall r :: r in testsByProject ==> testsByProject[r] == testApi(r).data)
    {
      loading := true;
      if activityList.None? {
        error := Some("Error fetching data");
      } else {
        var unique := DedupByRefNum(activityList.value);
        projects := SortByStatusPriority(unique);
        var g, t, tasks := FetchProjects(projects, groupApi, testApi, d);
        groupsByProject, testsByProject, todaysTasks := g, t, tasks;
      }
      loading := false;
    }
  }
}

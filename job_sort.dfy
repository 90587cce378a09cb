/**
  The ordering step of the job list: `Array.prototype.sort` with the
  comparator of the store's query, for the sort keys 'priority', 'aging' and
  'joining' (any other key compares everything as equal). The built-in sort
  is stable, so its result is the stable sort of the input under the
  comparator's preorder; it is modelled here as a stable insertion sort.
 */
module JobSort {
  import opened Records
  import opened Seqs

  const SortPriority: string := "priority"
  const SortAging: string := "aging"
  const SortJoining: string := "joining"

  /** The posted-date label the comparator treats as "now". */
  const PostedToday: string := "0 day ago"
  /** The joining date assumed for a job that has none. */
  const DefaultJoining: string := "2024-12-31"

  /** `priorityOrder[p || 'medium'] || 2` with high=3, medium=2, low=1. */
  function PriorityRank(p: Option<string>): (r: int)
    ensures 1 <= r <= 3
    ensures r == 3 <==> p == Some("high")
    ensures r == 1 <==> p == Some("low")
  {
    match p
    case None => 2
    case Some(s) => if s == "high" then 3 else if s == "low" then 1 else 2
  }

  /**
    The aging comparator turns '0 day ago' into `Date.now()` and every other
    label into one day earlier, then sorts ascending: older jobs (bucket 0)
    come first.
   */
  function AgingBucket(j: Job): (b: int)
    ensures b == 0 || b == 1
    ensures b == 1 <==> j.postedDate == PostedToday
  {
    if j.postedDate == PostedToday then 1 else 0
  }

  /** `a.expectedJoining || '2024-12-31'`: a missing or empty date becomes the default. */
  function JoiningKey(j: Job): (d: string)
    ensures d != ""
    ensures j.expectedJoining.Some? && j.expectedJoining.value != "" ==> d == j.expectedJoining.value
    ensures j.expectedJoining.None? || j.expectedJoining.value == "" ==> d == DefaultJoining
  {
    match j.expectedJoining
    case None => DefaultJoining
    case Some(d) => if d == "" then DefaultJoining else d
  }

  /** Lexicographic order on strings; on ISO dates it is the order of the days. */
  predicate StrLe(a: string, b: string)
    decreases |a|
  {
    a == [] || (b != [] && (a[0] < b[0] || (a[0] == b[0] && StrLe(a[1..], b[1..]))))
  }

  lemma {:induction false} StrLeTotal(a: string, b: string)
    ensures StrLe(a, b) || StrLe(b, a)
    decreases |a|
  {
    if a != [] && b != [] && a[0] == b[0] {
      StrLeTotal(a[1..], b[1..]);
    }
  }

  lemma {:induction false} StrLeTransitive(a: string, b: string, c: string)
    requires StrLe(a, b) && StrLe(b, c)
    ensures StrLe(a, c)
    decreases |a|
  {
    if a != [] && b != [] && c != [] && a[0] == b[0] && b[0] == c[0] {
      StrLeTransitive(a[1..], b[1..], c[1..]);
    }
  }

  lemma {:induction false} StrLeAntisymmetric(a: string, b: string)
    requires StrLe(a, b) && StrLe(b, a)
    ensures a == b
    decreases |a|
  {
    if a != [] {
      StrLeAntisymmetric(a[1..], b[1..]);
      assert a == [a[0]] + a[1..] && b == [b[0]] + b[1..];
    }
  }

  /** The comparator returns a value `<= 0`: `a` may stay in front of `b`. */
  predicate Before(sortBy: string, a: Job, b: Job)
    ensures sortBy == SortPriority ==> (Before(sortBy, a, b) <==> PriorityRank(b.priority) - PriorityRank(a.priority) <= 0)
    ensures sortBy == SortAging ==> forall now: int ::
      Before(sortBy, a, b) <==> PostedTime(a, now) - PostedTime(b, now) <= 0
    ensures sortBy == SortJoining ==> (Before(sortBy, a, b) <==> StrLe(JoiningKey(a), JoiningKey(b)))
    ensures sortBy != SortPriority && sortBy != SortAging && sortBy != SortJoining ==> Before(sortBy, a, b)
  {
    if sortBy == SortPriority then PriorityRank(a.priority) >= PriorityRank(b.priority)
    else if sortBy == SortAging then AgingBucket(a) <= AgingBucket(b)
    else if sortBy == SortJoining then StrLe(JoiningKey(a), JoiningKey(b))
    else true
  }

  const DayMillis: int := 86400000

  /** The aging comparator's time for a job: now when posted today, a day earlier otherwise. */
  function PostedTime(j: Job, now: int): int {
    if j.postedDate == PostedToday then now else now - DayMillis
  }

  /** The comparator is a total preorder for every sort key. */
  lemma BeforeTotal(sortBy: string, a: Job, b: Job)
    ensures Before(sortBy, a, b) || Before(sortBy, b, a)
  {
    if sortBy == SortJoining {
      StrLeTotal(JoiningKey(a), JoiningKey(b));
    }
  }

  lemma BeforeTransitive(sortBy: string, a: Job, b: Job, c: Job)
    requires Before(sortBy, a, b) && Before(sortBy, b, c)
    ensures Before(sortBy, a, c)
  {
    if sortBy == SortJoining {
      StrLeTransitive(JoiningKey(a), JoiningKey(b), JoiningKey(c));
    }
  }

  /** The comparator returns 0 both ways: the stable sort keeps such jobs in input order. */
  predicate Equivalent(sortBy: string, a: Job, b: Job) {
    Before(sortBy, a, b) && Before(sortBy, b, a)
  }

  /** What "compares equal" means for each key. */
  lemma EquivalentMeaning(sortBy: string, a: Job, b: Job)
    ensures sortBy == SortPriority ==>
      (Equivalent(sortBy, a, b) <==> PriorityRank(a.priority) == PriorityRank(b.priority))
    ensures sortBy == SortAging ==>
      (Equivalent(sortBy, a, b) <==> (a.postedDate == PostedToday) == (b.postedDate == PostedToday))
    ensures sortBy == SortJoining ==> (Equivalent(sortBy, a, b) <==> JoiningKey(a) == JoiningKey(b))
    ensures sortBy !in {SortPriority, SortAging, SortJoining} ==> Equivalent(sortBy, a, b)
  {
    if sortBy == SortJoining {
      if Equivalent(sortBy, a, b) {
        StrLeAntisymmetric(JoiningKey(a), JoiningKey(b));
      }
      if JoiningKey(a) == JoiningKey(b) {
        StrLeTotal(JoiningKey(a), JoiningKey(a));
      }
    }
  }

  /** Every job is in front of every later one. */
  ghost predicate Sorted(s: seq<Job>, sortBy: string) {
    forall i, j :: 0 <= i < j < |s| ==> Before(sortBy, s[i], s[j])
  }

  /** The jobs of `s` that compare equal to `e`, in their order in `s`. */
  function Class(s: seq<Job>, sortBy: string, e: Job): seq<Job> {
    Filter(s, SameAs(sortBy, e))
  }

  /** The test "compares equal to `e`" as a filter predicate. */
  function SameAs(sortBy: string, e: Job): Job -> bool {
    (x: Job) => Equivalent(sortBy, e, x)
  }

  /**
    Places `x`, which came after every job of `t` in the input, behind the
    last job of `t` that may stay in front of it.
   */
  function Insert(t: seq<Job>, x: Job, sortBy: string): (r: seq<Job>)
    ensures |r| == |t| + 1
    ensures multiset(r) == multiset(t) + multiset{x}
    decreases |t|
  {
    if t == [] then [x]
    else if Before(sortBy, t[|t| - 1], x) then t + [x]
    else
      assert t == t[..|t| - 1] + [t[|t| - 1]];
      Insert(t[..|t| - 1], x, sortBy) + [t[|t| - 1]]
  }

  /** The stable sort of `s`: insert each job, in input order, into the sorted prefix. */
  function InsertionSorted(s: seq<Job>, sortBy: string): (r: seq<Job>)
    ensures multiset(r) == multiset(s)
    decreases |s|
  {
    if s == [] then []
    else
      assert s == s[..|s| - 1] + [s[|s| - 1]];
      Insert(InsertionSorted(s[..|s| - 1], sortBy), s[|s| - 1], sortBy)
  }

  lemma {:induction false} InsertSorted(t: seq<Job>, x: Job, sortBy: string)
    requires Sorted(t, sortBy)
    ensures Sorted(Insert(t, x, sortBy), sortBy)
    decreases |t|
  {
    if t != [] {
      var last := t[|t| - 1];
      if Before(sortBy, last, x) {
        forall i | 0 <= i < |t| - 1
          ensures Before(sortBy, t[i], x)
        {
          BeforeTransitive(sortBy, t[i], last, x);
        }
      } else {
        var init := t[..|t| - 1];
        InsertSorted(init, x, sortBy);
        var u := Insert(init, x, sortBy);
        BeforeTotal(sortBy, last, x);
        forall i | 0 <= i < |u|
          ensures Before(sortBy, u[i], last)
        {
          assert u[i] in multiset(u);
          if u[i] != x {
            assert u[i] in init;
          }
        }
      }
    }
  }

  lemma {:induction false} InsertClass(t: seq<Job>, x: Job, sortBy: string, e: Job)
    ensures Class(Insert(t, x, sortBy), sortBy, e) == Class(t, sortBy, e) + Class([x], sortBy, e)
    decreases |t|
  {
    var p := SameAs(sortBy, e);
    if t == [] {
    } else if Before(sortBy, t[|t| - 1], x) {
      FilterConcat(t, [x], p);
    } else {
      var init, last := t[..|t| - 1], t[|t| - 1];
      assert t == init + [last];
      var u := Insert(init, x, sortBy);
      assert Insert(t, x, sortBy) == u + [last];
      InsertClass(init, x, sortBy, e);
      NotBothEquivalent(sortBy, e, last, x);
      ClassStep(init, u, x, last, p);
    }
  }

  /** A job that may not stay in front of `x` never compares equal to the same job as `x`. */
  lemma NotBothEquivalent(sortBy: string, e: Job, last: Job, x: Job)
    ensures Equivalent(sortBy, e, last) && Equivalent(sortBy, e, x) ==> Before(sortBy, last, x)
  {
    if Equivalent(sortBy, e, last) && Equivalent(sortBy, e, x) {
      BeforeTransitive(sortBy, last, e, x);
    }
  }

  /** Appending `last` behind `x` keeps the class order when `x` and `last` are not both in it. */
  lemma ClassStep(init: seq<Job>, u: seq<Job>, x: Job, last: Job, p: Job -> bool)
    requires Filter(u, p) == Filter(init, p) + Filter([x], p)
    requires !(p(x) && p(last))
    ensures Filter(u + [last], p) == Filter(init + [last], p) + Filter([x], p)
  {
    FilterConcat(u, [last], p);
    FilterConcat(init, [last], p);
    assert Filter([x], p) == [] || Filter([last], p) == [] by {
      assert [x][1..] == [] && [last][1..] == [];
    }
    SwapWhenOneEmpty(Filter(init, p), Filter([x], p), Filter([last], p));
  }

  lemma SwapWhenOneEmpty(a: seq<Job>, b: seq<Job>, c: seq<Job>)
    requires b == [] || c == []
    ensures a + b + c == a + c + b
  {
    if b == [] {
      assert a + b == a;
    } else {
      assert a + c == a;
    }
  }

  /** The sorted output is ordered by the comparator. */
  lemma {:induction false} InsertionSortedIsSorted(s: seq<Job>, sortBy: string)
    ensures Sorted(InsertionSorted(s, sortBy), sortBy)
    decreases |s|
  {
    if s != [] {
      InsertionSortedIsSorted(s[..|s| - 1], sortBy);
      InsertSorted(InsertionSorted(s[..|s| - 1], sortBy), s[|s| - 1], sortBy);
    }
  }

  /** Stability: jobs that compare equal come out in the order they went in. */
  lemma {:induction false} InsertionSortedIsStable(s: seq<Job>, sortBy: string, e: Job)
    ensures Class(InsertionSorted(s, sortBy), sortBy, e) == Class(s, sortBy, e)
    decreases |s|
  {
    if s != [] {
      var init, x := s[..|s| - 1], s[|s| - 1];
      assert s == init + [x];
      InsertionSortedIsStable(init, sortBy, e);
      InsertClass(InsertionSorted(init, sortBy), x, sortBy, e);
      FilterConcat(init, [x], SameAs(sortBy, e));
    }
  }

  /** Sorting an already sorted list leaves it as it is. */
  lemma {:induction false} SortedInputUnchanged(s: seq<Job>, sortBy: string)
    requires Sorted(s, sortBy)
    ensures InsertionSorted(s, sortBy) == s
    decreases |s|
  {
    if s != [] {
      var init := s[..|s| - 1];
      assert Sorted(init, sortBy);
      SortedInputUnchanged(init, sortBy);
      if init != [] {
        assert Before(sortBy, init[|init| - 1], s[|s| - 1]);
      }
      assert s == init + [s[|s| - 1]];
    }
  }

  /** A key other than 'priority', 'aging' or 'joining' leaves the order untouched. */
  lemma UnknownKeyKeepsOrder(s: seq<Job>, sortBy: string)
    requires sortBy !in {SortPriority, SortAging, SortJoining}
    ensures InsertionSorted(s, sortBy) == s
  {
    SortedInputUnchanged(s, sortBy);
  }

  /**
    The in-place sort of the query: every job is inserted, in input order,
    into the sorted prefix built so far.
   */
  method SortJobs(s: seq<Job>, sortBy: string) returns (r: seq<Job>)
    ensures r == InsertionSorted(s, sortBy)
    ensures multiset(r) == multiset(s)
    ensures Sorted(r, sortBy)
    ensures forall e :: Class(r, sortBy, e) == Class(s, sortBy, e)
  {
    r := [];
    var i := 0;
    while i < |s|
      invariant 0 <= i <= |s|
      invariant r == InsertionSorted(s[..i], sortBy)
    {
      assert s[..i + 1][..i] == s[..i];
      r := Insert(r, s[i], sortBy);
      i := i + 1;
    }
    assert s[..|s|] == s;
    InsertionSortedIsSorted(s, sortBy);
    forall e
      ensures Class(r, sortBy, e) == Class(s, sortBy, e)
    {
      InsertionSortedIsStable(s, sortBy, e);
    }
  }
}

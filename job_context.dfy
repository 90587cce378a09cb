/**
  The job/candidate store of the dashboard and the queries computed from it:
  the record mutators, the selected-job lookup, the candidates of a job, and
  the filtered and sorted job list shown in the sidebar.
 */
module JobContext {
  import opened Records
  import opened Seqs
  import opened Text
  import opened JobSort

  /** The filter map: category name to the values checked in that category. */
  type Filters = map<string, seq<string>>

  const EmploymentCategory: string := "employmentType"
  const LocationCategory: string := "location"
  const HiringManagerCategory: string := "hiringManager"
  const ProjectCategory: string := "project"

  /** A candidate after a fitment update: new score, and new skills when some were given. */
  function Refit(c: Candidate, newScore: int, enhancedSkills: Option<seq<string>>): Candidate {
    c.(fitmentScore := newScore, skills := if enhancedSkills.Some? then enhancedSkills.value else c.skills)
  }

  /**
    `updateCandidateFitment`'s map over the candidate list: every candidate
    with the id gets the new score (not clamped) and, when given, the new
    skills; every other candidate is left as it is.
   */
  function WithFitment(cs: seq<Candidate>, candidateId: string, newScore: int,
                       enhancedSkills: Option<seq<string>>): (r: seq<Candidate>)
    ensures |r| == |cs|
    ensures forall i :: 0 <= i < |cs| && cs[i].id != candidateId ==> r[i] == cs[i]
    ensures forall i :: 0 <= i < |cs| && cs[i].id == candidateId ==>
      && r[i].fitmentScore == newScore
      && r[i].skills == (if enhancedSkills.Some? then enhancedSkills.value else cs[i].skills)
      && r[i].(fitmentScore := cs[i].fitmentScore, skills := cs[i].skills) == cs[i]
    decreases |cs|
  {
    if cs == [] then []
    else
      var head := if cs[0].id == candidateId then Refit(cs[0], newScore, enhancedSkills) else cs[0];
      [head] + WithFitment(cs[1..], candidateId, newScore, enhancedSkills)
  }

  /**
    `updateCandidateSkills`'s map: only the skills of candidates with the id
    change; every other field and every other candidate stays.
   */
  function WithSkills(cs: seq<Candidate>, candidateId: string, newSkills: seq<string>): (r: seq<Candidate>)
    ensures |r| == |cs|
    ensures forall i :: 0 <= i < |cs| && cs[i].id != candidateId ==> r[i] == cs[i]
    ensures forall i :: 0 <= i < |cs| && cs[i].id == candidateId ==>
      r[i].skills == newSkills && r[i].(skills := cs[i].skills) == cs[i]
    decreases |cs|
  {
    if cs == [] then []
    else
      var head := if cs[0].id == candidateId then cs[0].(skills := newSkills) else cs[0];
      [head] + WithSkills(cs[1..], candidateId, newSkills)
  }

  /** An id no candidate has leaves the list identical, for both updates. */
  lemma UnknownCandidateUnchanged(cs: seq<Candidate>, candidateId: string, newScore: int,
                                  enhancedSkills: Option<seq<string>>, newSkills: seq<string>)
    requires forall c :: c in cs ==> c.id != candidateId
    ensures WithFitment(cs, candidateId, newScore, enhancedSkills) == cs
    ensures WithSkills(cs, candidateId, newSkills) == cs
  {
  }

  /** A fitment update with skills is a score-only update followed by a skills update. */
  lemma FitmentWithSkillsDecomposes(cs: seq<Candidate>, candidateId: string, newScore: int, skills: seq<string>)
    ensures WithFitment(cs, candidateId, newScore, Some(skills))
         == WithSkills(WithFitment(cs, candidateId, newScore, None), candidateId, skills)
  {
    var a := WithFitment(cs, candidateId, newScore, Some(skills));
    var b := WithSkills(WithFitment(cs, candidateId, newScore, None), candidateId, skills);
    assert |a| == |b|;
    forall i | 0 <= i < |a|
      ensures a[i] == b[i]
    {
    }
  }

  /** Repeating a fitment update changes nothing more. */
  lemma WithFitmentIdempotent(cs: seq<Candidate>, candidateId: string, newScore: int,
                              enhancedSkills: Option<seq<string>>)
    ensures WithFitment(WithFitment(cs, candidateId, newScore, enhancedSkills), candidateId, newScore, enhancedSkills)
         == WithFitment(cs, candidateId, newScore, enhancedSkills)
  {
    var once := WithFitment(cs, candidateId, newScore, enhancedSkills);
    var twice := WithFitment(once, candidateId, newScore, enhancedSkills);
    forall i | 0 <= i < |once|
      ensures twice[i] == once[i]
    {
    }
  }

  /** The two record lists the dashboard keeps in React state. */
  class JobStore {
    var jobs: seq<Job>
    var candidates: seq<Candidate>

    constructor (initialJobs: seq<Job>, initialCandidates: seq<Candidate>)
      ensures jobs == initialJobs && candidates == initialCandidates
    {
      jobs := initialJobs;
      candidates := initialCandidates;
    }

    /** `addJob`: the new job goes in front; ids are not checked for uniqueness. */
    method AddJob(newJob: Job)
      modifies this
      ensures jobs == [newJob] + old(jobs)
      ensures |jobs| == |old(jobs)| + 1 && jobs[1..] == old(jobs)
      ensures candidates == old(candidates)
    {
      jobs := [newJob] + jobs;
    }

    /** `updateCandidateFitment`: a silent no-op for an unknown id. */
    method UpdateCandidateFitment(candidateId: string, newScore: int, enhancedSkills: Option<seq<string>>)
      modifies this
      ensures candidates == WithFitment(old(candidates), candidateId, newScore, enhancedSkills)
      ensures jobs == old(jobs)
    {
      candidates := WithFitment(candidates, candidateId, newScore, enhancedSkills);
    }

    /** `updateCandidateSkills`. */
    method UpdateCandidateSkills(candidateId: string, newSkills: seq<string>)
      modifies this
      ensures candidates == WithSkills(old(candidates), candidateId, newSkills)
      ensures jobs == old(jobs)
    {
      candidates := WithSkills(candidates, candidateId, newSkills);
    }
  }

  /** `getSelectedJob`: `jobs.find` by id; nothing is selected when the id is null. */
  function SelectedJob(jobs: seq<Job>, selectedJobId: Option<string>): (r: Option<Job>)
    ensures r.None? <==> selectedJobId.None? || forall j :: j in jobs ==> j.id != selectedJobId.value
    ensures r.Some? ==> selectedJobId == Some(r.value.id) && r.value in jobs
    ensures forall i ::
      (0 <= i < |jobs| && selectedJobId == Some(jobs[i].id) && forall k :: 0 <= k < i ==> jobs[k].id != jobs[i].id)
      ==> r == Some(jobs[i])
    decreases |jobs|
  {
    if selectedJobId.None? || jobs == [] then None
    else if jobs[0].id == selectedJobId.value then Some(jobs[0])
    else
      assert forall i :: 1 <= i < |jobs| ==> jobs[1..][i - 1] == jobs[i];
      SelectedJob(jobs[1..], selectedJobId)
  }

  /** A job added in front is what a lookup of its id finds, whatever was there before. */
  lemma AddedJobIsSelected(jobs: seq<Job>, newJob: Job)
    ensures SelectedJob([newJob] + jobs, Some(newJob.id)) == Some(newJob)
  {
  }

  function ForJob(jobId: string): Candidate -> bool {
    (c: Candidate) => c.jobId == jobId
  }

  /** `getCandidatesForJob`: the candidates of the job, in store order. */
  function CandidatesForJob(candidates: seq<Candidate>, jobId: string): (r: seq<Candidate>)
    ensures forall c :: c in r <==> c in candidates && c.jobId == jobId
    ensures forall c :: multiset(r)[c] == if c.jobId == jobId then multiset(candidates)[c] else 0
    ensures IsSubsequence(r, candidates)
  {
    Filter(candidates, ForJob(jobId))
  }

  /** The values checked in a category; a missing category has none. */
  function CategoryValues(filters: Filters, category: string): seq<string> {
    if category in filters then filters[category] else []
  }

  /** `filters.<category>?.length > 0`. */
  predicate Active(filters: Filters, category: string) {
    |CategoryValues(filters, category)| > 0
  }

  /** The case-insensitive search on title, description or any skill. */
  predicate SearchHit(j: Job, term: string) {
    var t := Lower(term);
    Contains(Lower(j.title), t) || Contains(Lower(j.description), t)
    || exists s :: s in j.skills && Contains(Lower(s), t)
  }

  /** Exact membership of the employment type. */
  predicate EmploymentHit(j: Job, filters: Filters) {
    j.employment in CategoryValues(filters, EmploymentCategory)
  }

  /** Some checked location is a case-sensitive substring of the location or the work type. */
  predicate LocationHit(j: Job, filters: Filters) {
    exists loc :: loc in CategoryValues(filters, LocationCategory) && (Contains(j.location, loc) || Contains(j.workType, loc))
  }

  /** Exact membership of the hiring manager; a job without one never matches. */
  predicate HiringManagerHit(j: Job, filters: Filters) {
    j.hiringManager.Some? && j.hiringManager.value in CategoryValues(filters, HiringManagerCategory)
  }

  /** Exact membership of the project; a job without one never matches. */
  predicate ProjectHit(j: Job, filters: Filters) {
    j.project.Some? && j.project.value in CategoryValues(filters, ProjectCategory)
  }

  /** A job is listed when it passes every stage: AND across categories, OR within one. */
  predicate Matches(j: Job, term: string, filters: Filters)
    ensures term == "" && (forall k :: k in filters ==> filters[k] == []) ==> Matches(j, term, filters)
    ensures Matches(j, term, filters) && term != "" ==> SearchHit(j, term)
    ensures Matches(j, term, filters) && Active(filters, EmploymentCategory) ==>
      j.employment in filters[EmploymentCategory]
    ensures Matches(j, term, filters) && Active(filters, HiringManagerCategory) ==>
      j.hiringManager.Some? && j.hiringManager.value in filters[HiringManagerCategory]
    ensures Matches(j, term, filters) && Active(filters, ProjectCategory) ==>
      j.project.Some? && j.project.value in filters[ProjectCategory]
  {
    && (term == "" || SearchHit(j, term))
    && (!Active(filters, EmploymentCategory) || EmploymentHit(j, filters))
    && (!Active(filters, LocationCategory) || LocationHit(j, filters))
    && (!Active(filters, HiringManagerCategory) || HiringManagerHit(j, filters))
    && (!Active(filters, ProjectCategory) || ProjectHit(j, filters))
  }

  function SearchTest(term: string): Job -> bool { (j: Job) => SearchHit(j, term) }
  function EmploymentTest(filters: Filters): Job -> bool { (j: Job) => EmploymentHit(j, filters) }
  function LocationTest(filters: Filters): Job -> bool { (j: Job) => LocationHit(j, filters) }
  function HiringManagerTest(filters: Filters): Job -> bool { (j: Job) => HiringManagerHit(j, filters) }
  function ProjectTest(filters: Filters): Job -> bool { (j: Job) => ProjectHit(j, filters) }

  /** Whether the `n`-th stage of the pipeline runs: a search term, or a checked value in its category. */
  predicate StageActive(n: nat, term: string, filters: Filters) {
    if n == 1 then term != ""
    else if n == 2 then Active(filters, EmploymentCategory)
    else if n == 3 then Active(filters, LocationCategory)
    else if n == 4 then Active(filters, HiringManagerCategory)
    else Active(filters, ProjectCategory)
  }

  /** The test of the `n`-th stage. */
  function StageTest(n: nat, term: string, filters: Filters): Job -> bool {
    if n == 1 then SearchTest(term)
    else if n == 2 then EmploymentTest(filters)
    else if n == 3 then LocationTest(filters)
    else if n == 4 then HiringManagerTest(filters)
    else ProjectTest(filters)
  }

  /** The stages up to and including the `n`-th, each applied only when active. */
  predicate PassesFirst(n: nat, j: Job, term: string, filters: Filters) {
    n == 0 || (PassesFirst(n - 1, j, term, filters) && (!StageActive(n, term, filters) || StageTest(n, term, filters)(j)))
  }

  function FirstStages(n: nat, term: string, filters: Filters): Job -> bool {
    (j: Job) => PassesFirst(n, j, term, filters)
  }

  /** The jobs that pass every filter, in store order. */
  function MatchingJobs(jobs: seq<Job>, term: string, filters: Filters): (r: seq<Job>)
    ensures forall j :: j in r <==> j in jobs && Matches(j, term, filters)
    ensures forall j :: multiset(r)[j] == if Matches(j, term, filters) then multiset(jobs)[j] else 0
    ensures IsSubsequence(r, jobs)
  {
    AllStagesAreMatches(term, filters);
    Filter(jobs, FirstStages(5, term, filters))
  }

  /** Passing all five stages is exactly matching the query. */
  lemma AllStagesAreMatches(term: string, filters: Filters)
    ensures forall j :: PassesFirst(5, j, term, filters) == Matches(j, term, filters)
  {
    forall j
      ensures PassesFirst(5, j, term, filters) == Matches(j, term, filters)
    {
      assert PassesFirst(1, j, term, filters) == (term == "" || SearchHit(j, term));
      assert PassesFirst(2, j, term, filters)
          == (PassesFirst(1, j, term, filters) && (!Active(filters, EmploymentCategory) || EmploymentHit(j, filters)));
      assert PassesFirst(3, j, term, filters)
          == (PassesFirst(2, j, term, filters) && (!Active(filters, LocationCategory) || LocationHit(j, filters)));
      assert PassesFirst(4, j, term, filters)
          == (PassesFirst(3, j, term, filters) && (!Active(filters, HiringManagerCategory) || HiringManagerHit(j, filters)));
    }
  }

  /**
    One stage of the pipeline: the jobs that passed the earlier stages are
    filtered by the stage's test only when the stage is active, which leaves
    the jobs that pass the first `n` stages.
   */
  method ApplyStage(filtered: seq<Job>, jobs: seq<Job>, n: nat, term: string, filters: Filters)
    returns (r: seq<Job>)
    requires 1 <= n
    requires filtered == Filter(jobs, FirstStages(n - 1, term, filters))
    ensures r == Filter(jobs, FirstStages(n, term, filters))
  {
    if StageActive(n, term, filters) {
      r := Filter(filtered, StageTest(n, term, filters));
      FilterTwice(jobs, FirstStages(n - 1, term, filters), StageTest(n, term, filters), FirstStages(n, term, filters));
    } else {
      r := filtered;
      FilterExtensional(jobs, FirstStages(n - 1, term, filters), FirstStages(n, term, filters));
    }
  }

  /**
    `getFilteredAndSortedJobs` as a value: the matching jobs, stably sorted
    by the comparator of `sortBy`.
   */
  function FilteredAndSorted(jobs: seq<Job>, term: string, filters: Filters, sortBy: string): (r: seq<Job>)
    ensures forall j :: j in r ==> Matches(j, term, filters)
    ensures forall j :: multiset(r)[j] == if Matches(j, term, filters) then multiset(jobs)[j] else 0
    ensures Sorted(r, sortBy)
    ensures forall e :: Class(r, sortBy, e) == Class(MatchingJobs(jobs, term, filters), sortBy, e)
  {
    var matching := MatchingJobs(jobs, term, filters);
    InsertionSortedIsSorted(matching, sortBy);
    assert forall e :: Class(InsertionSorted(matching, sortBy), sortBy, e) == Class(matching, sortBy, e) by {
      forall e {
        InsertionSortedIsStable(matching, sortBy, e);
      }
    }
    InsertionSorted(matching, sortBy)
  }

  /**
    The filter half of `getFilteredAndSortedJobs`: five stages, each applied
    only when its search term or category is non-empty.
   */
  method FilterStages(jobs: seq<Job>, searchTerm: string, filters: Filters) returns (filtered: seq<Job>)
    ensures filtered == Filter(jobs, FirstStages(5, searchTerm, filters))
  {
    filtered := jobs;
    FilterKeepsAll(jobs, FirstStages(0, searchTerm, filters));
    filtered := ApplyStage(filtered, jobs, 1, searchTerm, filters);
    filtered := ApplyStage(filtered, jobs, 2, searchTerm, filters);
    filtered := ApplyStage(filtered, jobs, 3, searchTerm, filters);
    filtered := ApplyStage(filtered, jobs, 4, searchTerm, filters);
    filtered := ApplyStage(filtered, jobs, 5, searchTerm, filters);
  }

  /** `getFilteredAndSortedJobs`: the filter stages, then the sort. */
  method FilteredAndSortedJobs(jobs: seq<Job>, searchTerm: string, filters: Filters, sortBy: string)
    returns (r: seq<Job>)
    ensures r == FilteredAndSorted(jobs, searchTerm, filters, sortBy)
  {
    var filtered := FilterStages(jobs, searchTerm, filters);
    r := SortJobs(filtered, sortBy);
  }

  /** With an empty search and no checked value in any category, every job is listed. */
  lemma NoFiltersKeepsAll(jobs: seq<Job>, filters: Filters, sortBy: string)
    requires forall c :: c in filters ==> filters[c] == []
    ensures MatchingJobs(jobs, "", filters) == jobs
    ensures multiset(FilteredAndSorted(jobs, "", filters, sortBy)) == multiset(jobs)
  {
    AllStagesAreMatches("", filters);
    FilterKeepsAll(jobs, FirstStages(5, "", filters));
  }

  /** Running the query on its own result with the same parameters gives the same list. */
  lemma FilteredAndSortedIdempotent(jobs: seq<Job>, term: string, filters: Filters, sortBy: string)
    ensures FilteredAndSorted(FilteredAndSorted(jobs, term, filters, sortBy), term, filters, sortBy)
         == FilteredAndSorted(jobs, term, filters, sortBy)
  {
    var r := FilteredAndSorted(jobs, term, filters, sortBy);
    FilterKeepsAll(r, FirstStages(5, term, filters));
    SortedInputUnchanged(r, sortBy);
  }
}

/**
  The candidate pipeline board of the selected job: three columns by stage,
  the fitment score shown on each card, and the handler that stores what the
  résumé enhancer saved.
 */
module CandidatesKanban {
  import opened Records
  import opened Seqs
  import opened Storage
  import opened JobContext

  /**
    The candidates on the board: those of the selected job, or none when no
    job is selected (a null id and an empty id are both falsy).
   */
  function KanbanCandidates(cs: seq<Candidate>, selectedJobId: Option<string>): (r: seq<Candidate>)
    ensures selectedJobId.None? || selectedJobId == Some("") ==> r == []
    ensures forall c :: c in r <==> c in cs && selectedJobId == Some(c.jobId) && c.jobId != ""
    ensures IsSubsequence(r, cs)
    ensures forall c :: multiset(r)[c] == if selectedJobId == Some(c.jobId) && c.jobId != "" then multiset(cs)[c] else 0
  {
    if selectedJobId.None? || selectedJobId.value == "" then []
    else CandidatesForJob(cs, selectedJobId.value)
  }

  function AtStage(stage: Stage): Candidate -> bool {
    (c: Candidate) => c.stage == stage
  }

  /** `getCandidatesByStage`: one column, in board order. */
  function CandidatesByStage(cs: seq<Candidate>, stage: Stage): (r: seq<Candidate>)
    ensures forall c :: c in r <==> c in cs && c.stage == stage
    ensures IsSubsequence(r, cs)
  {
    Filter(cs, AtStage(stage))
  }

  /**
    The three columns split the board: every candidate sits in the column of
    its own stage and in no other, and together the columns hold exactly the
    board's candidates, as often as they occur there.
   */
  lemma ColumnsPartitionBoard(cs: seq<Candidate>)
    ensures multiset(CandidatesByStage(cs, Fitment)) + multiset(CandidatesByStage(cs, BasicScreening))
          + multiset(CandidatesByStage(cs, Technical)) == multiset(cs)
    ensures |CandidatesByStage(cs, Fitment)| + |CandidatesByStage(cs, BasicScreening)|
          + |CandidatesByStage(cs, Technical)| == |cs|
    ensures forall c, s :: c in cs ==> (c in CandidatesByStage(cs, s) <==> s == c.stage)
  {
    var f, b, t := CandidatesByStage(cs, Fitment), CandidatesByStage(cs, BasicScreening),
                   CandidatesByStage(cs, Technical);
    var columns := multiset(f) + multiset(b) + multiset(t);
    forall c
      ensures columns[c] == multiset(cs)[c]
    {
      assert multiset(f)[c] == if c.stage == Fitment then multiset(cs)[c] else 0;
      assert multiset(b)[c] == if c.stage == BasicScreening then multiset(cs)[c] else 0;
      assert multiset(t)[c] == if c.stage == Technical then multiset(cs)[c] else 0;
    }
    assert columns == multiset(cs);
    assert |columns| == |f| + |b| + |t|;
  }

  /**
    `getCurrentFitmentScore`: the score of a saved enhancement progress entry
    when one is stored and readable, otherwise the candidate's own score.
   */
  function CurrentFitmentScore(items: map<string, Stored>, c: Candidate): (r: int)
    ensures ProgressKey(c.id) !in items ==> r == c.fitmentScore
    ensures ProgressKey(c.id) in items && items[ProgressKey(c.id)].ProgressJson? ==>
      r == items[ProgressKey(c.id)].currentScore
    ensures ProgressKey(c.id) in items && !items[ProgressKey(c.id)].ProgressJson? ==> r == c.fitmentScore
  {
    match GetTruthy(items, ProgressKey(c.id))
    case Some(ProgressJson(score, _)) => score
    case _ => c.fitmentScore
  }

  /**
    The storage writes of `handleSaveEnhancements`: the enhanced résumé (when
    one was given) under its key, then the progress entry with the new score
    and the time of the save.
   */
  function SaveWrites(items: map<string, Stored>, candidateId: string, newScore: int,
                      enhancedResume: Option<Resume>, now: int): (r: map<string, Stored>)
    ensures r.Keys == items.Keys + {ProgressKey(candidateId)}
                    + (if enhancedResume.Some? then {EnhancedResumeKey(candidateId)} else {})
    ensures r[ProgressKey(candidateId)] == ProgressJson(newScore, now)
    ensures enhancedResume.Some? ==> r[EnhancedResumeKey(candidateId)] == ResumeJson(enhancedResume.value)
    ensures forall k :: k in items && k != ProgressKey(candidateId)
                          && (enhancedResume.None? || k != EnhancedResumeKey(candidateId))
                        ==> r[k] == items[k]
  {
    KeysDistinct(candidateId, candidateId);
    var withResume := if enhancedResume.Some?
      then items[EnhancedResumeKey(candidateId) := ResumeJson(enhancedResume.value)]
      else items;
    withResume[ProgressKey(candidateId) := ProgressJson(newScore, now)]
  }

  /** The skills forwarded to the store: those of the résumé, when there is one. */
  function EnhancedSkills(enhancedResume: Option<Resume>): (r: Option<seq<string>>)
    ensures r.Some? <==> enhancedResume.Some?
    ensures r.Some? ==> r.value == enhancedResume.value.skills
  {
    if enhancedResume.Some? then Some(enhancedResume.value.skills) else None
  }

  /**
    After a save, the board shows the saved score on the card of every
    candidate with that id, whatever was stored before, and the scores of
    all other candidates do not change.
   */
  lemma SavedScoreIsShown(items: map<string, Stored>, candidateId: string, newScore: int,
                          enhancedResume: Option<Resume>, now: int, c: Candidate)
    ensures c.id == candidateId ==>
      CurrentFitmentScore(SaveWrites(items, candidateId, newScore, enhancedResume, now), c) == newScore
    ensures c.id != candidateId ==>
      CurrentFitmentScore(SaveWrites(items, candidateId, newScore, enhancedResume, now), c)
        == CurrentFitmentScore(items, c)
  {
    KeysDistinct(c.id, candidateId);
  }

  /**
    `handleSaveEnhancements`, wired as the enhancer's save callback: update the
    candidate in the store, then write the résumé and the progress entry.
   */
  method HandleSaveEnhancements(store: JobStore, storage: LocalStorage, candidateId: string,
                                newScore: int, enhancedResume: Option<Resume>, now: int)
    modifies store, storage
    ensures store.candidates
         == WithFitment(old(store.candidates), candidateId, newScore, EnhancedSkills(enhancedResume))
    ensures store.jobs == old(store.jobs)
    ensures storage.items == SaveWrites(old(storage.items), candidateId, newScore, enhancedResume, now)
  {
    store.UpdateCandidateFitment(candidateId, newScore, EnhancedSkills(enhancedResume));
    if enhancedResume.Some? {
      storage.SetItem(EnhancedResumeKey(candidateId), ResumeJson(enhancedResume.value));
    }
    storage.SetItem(ProgressKey(candidateId), ProgressJson(newScore, now));
  }

  /**
    The store and the board agree after a save: every stored candidate with
    the id carries the new score, and that is also the score its card shows.
   */
  lemma StoreAndBoardAgree(cs: seq<Candidate>, items: map<string, Stored>, candidateId: string,
                           newScore: int, enhancedResume: Option<Resume>, now: int, i: int)
    requires 0 <= i < |cs| && cs[i].id == candidateId
    ensures var updated := WithFitment(cs, candidateId, newScore, EnhancedSkills(enhancedResume));
      && updated[i].fitmentScore == newScore
      && CurrentFitmentScore(SaveWrites(items, candidateId, newScore, enhancedResume, now), updated[i]) == newScore
  {
    var updated := WithFitment(cs, candidateId, newScore, EnhancedSkills(enhancedResume));
    SavedScoreIsShown(items, candidateId, newScore, enhancedResume, now, updated[i]);
  }
}

/**
  The résumé viewer: which résumé it shows, the label above the score, and
  the score it shows, all read from local storage with the built-in résumé
  table as the fallback.
 */
module ResumeViewer {
  import opened Records
  import opened Storage
  import opened JobContext
  import opened CandidatesKanban
  import opened ResumeEnhancer

  /**
    `getResumeData`: the saved enhanced résumé when one is stored and
    readable, otherwise the table's résumé for the candidate (the first
    entry for an unknown id).
   */
  function ResumeData(items: map<string, Stored>, candidate: Candidate, table: map<string, Resume>): (r: Resume)
    requires "1" in table
    ensures EnhancedResumeKey(candidate.id) in items && items[EnhancedResumeKey(candidate.id)].ResumeJson? ==>
      r == items[EnhancedResumeKey(candidate.id)].resume
    ensures !(EnhancedResumeKey(candidate.id) in items && items[EnhancedResumeKey(candidate.id)].ResumeJson?) ==>
      Some(r) == OriginalResumeData(Some(candidate), table)
  {
    match GetTruthy(items, EnhancedResumeKey(candidate.id))
    case Some(ResumeJson(resume)) => resume
    case _ => OriginalResumeData(Some(candidate), table).value
  }

  /** The heading over the score: it only asks whether an enhanced résumé entry is there at all. */
  function ScoreLabel(items: map<string, Stored>, candidate: Candidate): (r: string)
    ensures r == "Enhanced" <==> GetTruthy(items, EnhancedResumeKey(candidate.id)).Some?
    ensures r == "Enhanced" || r == "Current"
  {
    if GetTruthy(items, EnhancedResumeKey(candidate.id)).Some? then "Enhanced" else "Current"
  }

  /** The score shown: a saved enhancement's score when readable, otherwise the candidate's. */
  function DisplayedScore(items: map<string, Stored>, candidate: Candidate): (r: int)
    ensures SavedEnhancements(items, candidate.id).Some? ==> r == items[EnhancementsKey(candidate.id)].fitmentScore
    ensures SavedEnhancements(items, candidate.id).None? ==> r == candidate.fitmentScore
  {
    match SavedEnhancements(items, candidate.id)
    case Some(EnhancementsJson(score, _, _, _)) => score
    case _ => candidate.fitmentScore
  }

  /**
    The label and the résumé are read independently: an unreadable entry
    under the enhanced-résumé key makes the heading say "Enhanced" while the
    table's original résumé is the one shown. The lemma is a witness that
    this can happen, not a general property.
   */
  lemma LabelCanClaimEnhancedForOriginal(candidate: Candidate, table: map<string, Resume>)
    requires "1" in table
    ensures var items := map[EnhancedResumeKey(candidate.id) := Malformed("{")];
      && ScoreLabel(items, candidate) == "Enhanced"
      && Some(ResumeData(items, candidate, table)) == OriginalResumeData(Some(candidate), table)
  {
  }

  /**
    After the enhancer saves with a résumé, every view of that candidate
    agrees: the viewer shows the saved résumé under an "Enhanced" heading
    with the saved score, the board shows the same score, and a reopened
    enhancer restores the saved state.
   */
  lemma ViewsAgreeAfterSave(items: map<string, Stored>, candidate: Candidate, table: map<string, Resume>,
                            score: int, summary: string, resume: Resume, now: int)
    requires "1" in table
    ensures var after := SaveWrites(items, candidate.id, score, Some(resume), now)[EnhancementsKey(candidate.id) :=
                           EnhancementsJson(score, summary, Some(resume), now)];
      && ResumeData(after, candidate, table) == resume
      && ScoreLabel(after, candidate) == "Enhanced"
      && DisplayedScore(after, candidate) == score
      && CurrentFitmentScore(after, candidate) == score
      && SavedEnhancements(after, candidate.id) == Some(EnhancementsJson(score, summary, Some(resume), now))
  {
    KeysDistinct(candidate.id, candidate.id);
    var saved := SaveWrites(items, candidate.id, score, Some(resume), now);
    SavedScoreIsShown(items, candidate.id, score, Some(resume), now, candidate);
    assert CurrentFitmentScore(saved, candidate) == score;
  }

  /**
    A save without a résumé leaves the viewer's résumé and heading as they
    were, while its score and the board's score both move to the saved one.
   */
  lemma SaveWithoutResumeKeepsResume(items: map<string, Stored>, candidate: Candidate, table: map<string, Resume>,
                                     score: int, summary: string, now: int)
    requires "1" in table
    ensures var after := SaveWrites(items, candidate.id, score, None, now)[EnhancementsKey(candidate.id) :=
                           EnhancementsJson(score, summary, None, now)];
      && ResumeData(after, candidate, table) == ResumeData(items, candidate, table)
      && ScoreLabel(after, candidate) == ScoreLabel(items, candidate)
      && DisplayedScore(after, candidate) == score
      && CurrentFitmentScore(after, candidate) == score
  {
    KeysDistinct(candidate.id, candidate.id);
    SavedScoreIsShown(items, candidate.id, score, None, now, candidate);
  }
}

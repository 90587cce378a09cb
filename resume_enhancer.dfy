/**
  The résumé enhancer dialog: the simulated enhancement run that fills the
  skill gaps against the job's required skills, the score it predicts, the
  markers that highlight what was added, and saving or reloading the result.
 */
module ResumeEnhancer {
  import opened Records
  import opened Seqs
  import opened Text
  import opened Storage
  import opened JobContext
  import opened CandidatesKanban

  /** The skills the (single, hard-wired) job asks for, in the order they are listed. */
  const RequiredSkills: seq<string> := ["Java", "React", "SQL", "Git"]
  const ImprovementPerSkill: int := 5
  const ScoreCap: int := 95
  const DefaultScore: int := 75
  /** The values the progress bar takes, one per simulated step. */
  const ProgressSteps: seq<int> := [15, 30, 50, 70, 85, 100]
  const SummarySuffix: string := " Demonstrated proficiency in full-stack development with strong problem-solving abilities."
  const CourseworkEntry: string := "Completed additional coursework in missing technical areas to strengthen job readiness"
  const LearningProjectsPrefix: string := "Personal Learning Projects - Self-directed study in "
  const GithubPrefix: string := "github.com/"
  const SummaryOpening: string := "Enhanced resume by adding "
  const SummaryListOpening: string := " missing skills ("
  const SummaryMiddle: string :=
    "), improved professional summary, and strengthened project portfolio. Fitment score improved from "

  /** The initial predicted score: the candidate's, unless absent or zero (falsy). */
  function InitialScore(candidate: Option<Candidate>): (r: int)
    ensures candidate.Some? && candidate.value.fitmentScore != 0 ==> r == candidate.value.fitmentScore
    ensures candidate.None? || candidate.value.fitmentScore == 0 ==> r == DefaultScore
    ensures r != 0
  {
    if candidate.Some? && candidate.value.fitmentScore != 0 then candidate.value.fitmentScore else DefaultScore
  }

  /**
    `getOriginalResumeData`: no résumé without a candidate; otherwise the
    table's résumé for the id, and the first table entry for an unknown id.
   */
  function OriginalResumeData(candidate: Option<Candidate>, table: map<string, Resume>): (r: Option<Resume>)
    requires "1" in table
    ensures r.None? <==> candidate.None?
    ensures candidate.Some? && candidate.value.id in table ==> r == Some(table[candidate.value.id])
    ensures candidate.Some? && candidate.value.id !in table ==> r == Some(table["1"])
  {
    if candidate.None? then None
    else if candidate.value.id in table then Some(table[candidate.value.id])
    else Some(table["1"])
  }

  /**
    `candidateSkills.some(c => c.toLowerCase().includes(skill.toLowerCase()))`:
    some skill of the résumé mentions the required skill, ignoring case.
   */
  function Mentions(candidateSkills: seq<string>, skill: string): (r: bool)
    ensures r <==> exists i :: 0 <= i < |candidateSkills| && Contains(Lower(candidateSkills[i]), Lower(skill))
    decreases |candidateSkills|
  {
    if candidateSkills == [] then false
    else if Contains(Lower(candidateSkills[0]), Lower(skill)) then true
    else
      var r := Mentions(candidateSkills[1..], skill);
      assert r ==> exists i :: 0 <= i < |candidateSkills| && Contains(Lower(candidateSkills[i]), Lower(skill)) by {
        if r {
          var i :| 0 <= i < |candidateSkills[1..]| && Contains(Lower(candidateSkills[1..][i]), Lower(skill));
          assert candidateSkills[i + 1] == candidateSkills[1..][i];
        }
      }
      assert (exists i :: 0 <= i < |candidateSkills| && Contains(Lower(candidateSkills[i]), Lower(skill))) ==> r by {
        if exists i :: 0 <= i < |candidateSkills| && Contains(Lower(candidateSkills[i]), Lower(skill)) {
          var i :| 0 <= i < |candidateSkills| && Contains(Lower(candidateSkills[i]), Lower(skill));
          assert i != 0;
          assert candidateSkills[1..][i - 1] == candidateSkills[i];
        }
      }
      r
  }

  function Unmentioned(candidateSkills: seq<string>): string -> bool {
    (skill: string) => !Mentions(candidateSkills, skill)
  }

  /** The required skills no skill of the résumé mentions, in the required order. */
  function MissingSkills(required: seq<string>, candidateSkills: seq<string>): (r: seq<string>)
    ensures forall s :: s in r <==> s in required && !Mentions(candidateSkills, s)
    ensures IsSubsequence(r, required)
    ensures |r| <= |required|
  {
    Filter(required, Unmentioned(candidateSkills))
  }

  /** A skill of the résumé always mentions itself. */
  lemma ListedIsMentioned(candidateSkills: seq<string>, s: string)
    ensures s in candidateSkills ==> Mentions(candidateSkills, s)
  {
    if s in candidateSkills {
      var i :| 0 <= i < |candidateSkills| && candidateSkills[i] == s;
      ContainsSelf(Lower(s));
    }
  }

  /** So a skill reported missing is never one the résumé lists. */
  lemma MissingIsNotListed(required: seq<string>, candidateSkills: seq<string>, s: string)
    requires s in MissingSkills(required, candidateSkills)
    ensures s !in candidateSkills
  {
    ListedIsMentioned(candidateSkills, s);
  }

  /**
    Mentions are substrings: a résumé listing "JavaScript" is taken to know
    "Java", which is then not reported missing. This is one witness of that
    behaviour, not a general property.
   */
  lemma JavaScriptCountsAsJava()
    ensures "Java" !in MissingSkills(RequiredSkills, ["JavaScript"])
  {
    var skill, required := Lower("JavaScript"), Lower("Java");
    assert forall i :: 0 <= i < 4 ==> "JavaScript"[i] == "Java"[i];
    assert skill[..4] == required;
    assert StartsWith(skill, required);
    assert Contains(Lower(["JavaScript"][0]), required);
  }

  /** `Math.min(95, base + 5 * missing)`. */
  function NewScore(base: int, missingCount: nat): (r: int)
    ensures r <= ScoreCap
    ensures r <= base + ImprovementPerSkill * missingCount
    ensures r == ScoreCap || r == base + ImprovementPerSkill * missingCount
  {
    if base + ImprovementPerSkill * missingCount < ScoreCap then base + ImprovementPerSkill * missingCount else ScoreCap
  }

  /**
    The predicted score never passes 95 and never drops below the base score
    for a base of 95 or less, while a base above 95 is pulled down to 95;
    each missing skill adds at most five points.
   */
  lemma NewScoreBounds(base: int, missingCount: nat)
    ensures base <= ScoreCap ==> base <= NewScore(base, missingCount)
    ensures base > ScoreCap ==> NewScore(base, missingCount) == ScoreCap < base
    ensures base + ImprovementPerSkill * missingCount <= ScoreCap ==>
      NewScore(base, missingCount) - base == ImprovementPerSkill * missingCount
    ensures NewScore(base, missingCount) <= base + ImprovementPerSkill * |RequiredSkills|
            || missingCount > |RequiredSkills|
  {
  }

  /** The GitHub entry: the résumé's, or one made from the lower-cased name with its first space removed. */
  function GithubHandle(orig: Resume): (r: string)
    ensures orig.github != "" ==> r == orig.github
    ensures orig.github == "" ==> GithubPrefix <= r
  {
    if orig.github != "" then orig.github
    else GithubPrefix + RemoveFirst(Lower(orig.name), ' ')
  }

  /**
    A generated handle is the lower-cased name behind the prefix, one
    character shorter when the name has a space to drop.
   */
  lemma GithubHandleFromName(orig: Resume)
    requires orig.github == ""
    ensures ' ' !in orig.name ==> GithubHandle(orig) == GithubPrefix + Lower(orig.name)
    ensures ' ' in orig.name ==> |GithubHandle(orig)| == |GithubPrefix| + |orig.name| - 1
    ensures ' ' in orig.name ==> DropsFirstSpace(orig.name, GithubHandle(orig)[|GithubPrefix|..])
  {
    var name := orig.name;
    var lower := Lower(name);
    LowerKeepsSpaces(name);
    assert (' ' in lower) <==> (' ' in name) by {
      assert (' ' in lower) <==> multiset(lower)[' '] > 0;
      assert (' ' in name) <==> multiset(name)[' '] > 0;
    }
    if ' ' in name {
      GithubHandleDropsFirstSpace(orig);
    }
  }

  /**
    `handle` is `name` lower-cased with its first space taken out: the
    characters before that space keep their place, the later ones move up by one.
   */
  predicate DropsFirstSpace(name: string, handle: string) {
    var i := IndexOf(name, ' ');
    && i < |name| && |handle| == |name| - 1
    && (forall k :: 0 <= k < i ==> handle[k] == LowerChar(name[k]))
    && (forall k :: i <= k < |handle| ==> handle[k] == LowerChar(name[k + 1]))
  }

  /** The generated handle of a name with a space drops exactly its first space. */
  lemma GithubHandleDropsFirstSpace(orig: Resume)
    requires orig.github == "" && ' ' in orig.name
    ensures DropsFirstSpace(orig.name, GithubHandle(orig)[|GithubPrefix|..])
  {
    var handle := RemoveFirst(Lower(orig.name), ' ');
    LowerDropsFirstSpace(orig.name);
    assert GithubHandle(orig) == GithubPrefix + handle;
    assert GithubHandle(orig)[|GithubPrefix|..] == handle;
  }

  /** Lower-casing a name and removing its first space drops exactly that space. */
  lemma LowerDropsFirstSpace(name: string)
    requires ' ' in name
    ensures DropsFirstSpace(name, RemoveFirst(Lower(name), ' '))
  {
    var lower := Lower(name);
    var i := IndexOf(name, ' ');
    LowerFindsSameSpace(name);
    var handle := RemoveFirst(lower, ' ');
    assert ' ' in lower by {
      assert lower[i] == ' ';
    }
    var front, back := lower[..i], lower[i + 1..];
    assert handle == front + back && |front| == i;
    forall k | 0 <= k < i
      ensures handle[k] == LowerChar(name[k])
    {
      assert handle[k] == front[k] == lower[k];
    }
    forall k | i <= k < |handle|
      ensures handle[k] == LowerChar(name[k + 1])
    {
      assert handle[k] == back[k - i] == lower[k + 1];
    }
  }

  /** Lower-casing moves no space: the first space sits at the same index. */
  lemma LowerFindsSameSpace(s: string)
    ensures IndexOf(Lower(s), ' ') == IndexOf(s, ' ')
  {
    var lower := Lower(s);
    var a, b := IndexOf(s, ' '), IndexOf(lower, ' ');
    assert forall k :: 0 <= k < |s| ==> (lower[k] == ' ' <==> s[k] == ' ');
    assert forall k :: 0 <= k < a ==> s[..a][k] == s[k] && s[k] != ' ';
    assert forall k :: 0 <= k < b ==> lower[..b][k] == lower[k] && lower[k] != ' ';
  }

  /** A name with two spaces keeps the second one in the generated handle. */
  lemma GithubHandleKeepsLaterSpaces(orig: Resume)
    requires orig.github == "" && multiset(orig.name)[' '] >= 2
    ensures ' ' in GithubHandle(orig)
  {
    var lower := Lower(orig.name);
    assert multiset(lower)[' '] == multiset(orig.name)[' '] by {
      LowerKeepsSpaces(orig.name);
    }
    var handle := RemoveFirst(lower, ' ');
    assert multiset(handle)[' '] >= 1;
    assert GithubHandle(orig) == GithubPrefix + handle;
    assert ' ' in multiset(GithubHandle(orig));
  }

  /** Lower-casing neither adds nor removes spaces. */
  lemma {:induction false} LowerKeepsSpaces(s: string)
    ensures multiset(Lower(s))[' '] == multiset(s)[' ']
    decreases |s|
  {
    if s != [] {
      LowerKeepsSpaces(s[1..]);
      assert s == [s[0]] + s[1..];
      var l := Lower(s);
      assert l == [l[0]] + l[1..];
      assert l[1..] == Lower(s[1..]);
      assert (l[0] == ' ') <==> (s[0] == ' ');
    }
  }

  /** The enhanced résumé built from the original and the missing skills. */
  function Enhance(orig: Resume, missing: seq<string>): (e: Resume)
    ensures e.skills == orig.skills + missing
    ensures e.summary == orig.summary + SummarySuffix
    ensures e.experience == orig.experience + [CourseworkEntry]
    ensures e.projects == orig.projects + [LearningProjectsPrefix + Join(missing, ", ")]
    ensures e.github == GithubHandle(orig)
    ensures e.(skills := orig.skills, summary := orig.summary, experience := orig.experience,
               github := orig.github, projects := orig.projects) == orig
  {
    orig.(
      skills := orig.skills + missing,
      summary := orig.summary + SummarySuffix,
      experience := orig.experience + [CourseworkEntry],
      github := GithubHandle(orig),
      projects := orig.projects + [LearningProjectsPrefix + Join(missing, ", ")])
  }

  /**
    Enhancement only adds: the original lists are kept as prefixes, exactly
    one experience and one project entry are appended, the skills grow by
    the missing ones (the "new technical skills" count), and the contact
    details, education and achievements stay as they were.
   */
  lemma EnhanceOnlyAdds(required: seq<string>, orig: Resume)
    ensures var e := Enhance(orig, MissingSkills(required, orig.skills));
      && e.skills[..|orig.skills|] == orig.skills
      && |e.skills| - |orig.skills| == |MissingSkills(required, orig.skills)|
      && e.experience[..|orig.experience|] == orig.experience && |e.experience| == |orig.experience| + 1
      && e.projects[..|orig.projects|] == orig.projects && |e.projects| == |orig.projects| + 1
      && e.summary[..|orig.summary|] == orig.summary
      && e.skills == orig.skills + MissingSkills(required, orig.skills)
      && e.summary == orig.summary + SummarySuffix
      && e.github == GithubHandle(orig)
      && (e.name, e.email, e.contact, e.linkedin, e.education, e.achievements)
         == (orig.name, orig.email, orig.contact, orig.linkedin, orig.education, orig.achievements)
  {
    var e := Enhance(orig, MissingSkills(required, orig.skills));
    assert e.skills[..|orig.skills|] == orig.skills;
    assert e.experience[..|orig.experience|] == orig.experience;
    assert e.projects[..|orig.projects|] == orig.projects;
    assert e.summary[..|orig.summary|] == orig.summary;
  }

  /** The "NEW" marker of an experience or project entry: its index is past the original list. */
  predicate AppendedAt(original: seq<string>, index: int) {
    index >= |original|
  }

  /** The sparkle marker of a skill: the original résumé does not list it. */
  predicate SkillIsNew(orig: Resume, skill: string) {
    skill !in orig.skills
  }

  /**
    The two kinds of markers agree on a fresh enhancement: a skill is marked
    new exactly when it sits past the original skills, so the marked skills
    are the missing ones; and the one experience and project entry past the
    originals are the added ones.
   */
  lemma MarkersShowAdditions(required: seq<string>, orig: Resume)
    ensures var e := Enhance(orig, MissingSkills(required, orig.skills));
      forall i :: 0 <= i < |e.skills| ==> (SkillIsNew(orig, e.skills[i]) <==> AppendedAt(orig.skills, i))
    ensures var e := Enhance(orig, MissingSkills(required, orig.skills));
      && (forall i :: 0 <= i < |e.experience| && AppendedAt(orig.experience, i) ==> e.experience[i] == CourseworkEntry)
      && (forall i :: 0 <= i < |e.projects| && AppendedAt(orig.projects, i) ==>
            e.projects[i] == LearningProjectsPrefix + Join(MissingSkills(required, orig.skills), ", "))
  {
    var missing := MissingSkills(required, orig.skills);
    var e := Enhance(orig, missing);
    forall i | 0 <= i < |e.skills|
      ensures SkillIsNew(orig, e.skills[i]) <==> AppendedAt(orig.skills, i)
    {
      if i < |orig.skills| {
        assert e.skills[i] == orig.skills[i];
      } else {
        assert e.skills[i] == missing[i - |orig.skills|];
        MissingIsNotListed(required, orig.skills, e.skills[i]);
      }
    }
  }

  /** After adding the missing skills, every required skill is mentioned. */
  lemma AllRequiredMentioned(required: seq<string>, candidateSkills: seq<string>, s: string)
    requires s in required
    ensures Mentions(candidateSkills + MissingSkills(required, candidateSkills), s)
  {
    var missing := MissingSkills(required, candidateSkills);
    var skills := candidateSkills + missing;
    if Mentions(candidateSkills, s) {
      var i :| 0 <= i < |candidateSkills| && Contains(Lower(candidateSkills[i]), Lower(s));
      assert skills[i] == candidateSkills[i];
    } else {
      var k :| 0 <= k < |missing| && missing[k] == s;
      assert skills[|candidateSkills| + k] == s;
      ListedIsMentioned(skills, s);
    }
  }

  /** Enhancing an enhanced résumé finds nothing missing any more. */
  lemma SecondRunFindsNothingMissing(required: seq<string>, orig: Resume)
    ensures MissingSkills(required, orig.skills + MissingSkills(required, orig.skills)) == []
  {
    var skills := orig.skills + MissingSkills(required, orig.skills);
    var r := MissingSkills(required, skills);
    forall x
      ensures multiset(r)[x] == 0
    {
      if x in required {
        AllRequiredMentioned(required, orig.skills, x);
      }
      assert x !in r;
    }
    assert multiset(r) == multiset{};
  }

  /** The sentence shown after a run. */
  function EnhancementSummary(missing: seq<string>, base: int, newScore: int): (r: string)
    ensures SummaryOpening + NatToString(|missing|) <= r
  {
    var count := NatToString(|missing|);
    var tail := SummaryListOpening + Join(missing, ", ") + SummaryMiddle
      + IntToString(base) + "% to " + IntToString(newScore) + "%.";
    assert SummaryOpening + (count + tail) == SummaryOpening + count + tail;
    SummaryOpening + (count + tail)
  }

  /** The enhanced résumé mentions every skill the job requires. */
  lemma EnhancedMentionsAll(orig: Resume, e: Resume, required: seq<string>)
    requires e == Enhance(orig, MissingSkills(required, orig.skills))
    ensures forall s :: s in required ==> Mentions(e.skills, s)
  {
    forall s | s in required
      ensures Mentions(e.skills, s)
    {
      AllRequiredMentioned(required, orig.skills, s);
    }
  }

  /** What one enhancement run produces. */
  datatype Outcome = Outcome(enhancedResume: Resume, newScore: int, summary: string)

  /** The result of a run on the original résumé for a candidate with the given score. */
  function Enhancement(orig: Resume, base: int, required: seq<string>): (r: Outcome)
    ensures orig.skills <= r.enhancedResume.skills
    ensures forall s :: s in required ==> Mentions(r.enhancedResume.skills, s)
    ensures forall s :: s in r.enhancedResume.skills[|orig.skills|..] <==> s in required && !Mentions(orig.skills, s)
    ensures r.newScore == NewScore(base, |r.enhancedResume.skills| - |orig.skills|)
    ensures base <= ScoreCap ==> base <= r.newScore <= ScoreCap
  {
    var missing := MissingSkills(required, orig.skills);
    var score := NewScore(base, |missing|);
    var e := Enhance(orig, missing);
    EnhancedMentionsAll(orig, e, required);
    NewScoreBounds(base, |missing|);
    Outcome(e, score, EnhancementSummary(missing, base, score))
  }

  /** A saved enhancement under the candidate's key, when one is stored and readable. */
  function SavedEnhancements(items: map<string, Stored>, candidateId: string): (r: Option<Stored>)
    ensures r.Some? <==> EnhancementsKey(candidateId) in items && items[EnhancementsKey(candidateId)].EnhancementsJson?
    ensures r.Some? ==> r.value == items[EnhancementsKey(candidateId)]
  {
    match GetTruthy(items, EnhancementsKey(candidateId))
    case Some(EnhancementsJson(score, summary, resume, time)) => Some(EnhancementsJson(score, summary, resume, time))
    case _ => None
  }

  /** The state of one open enhancer dialog. */
  class EnhancerSession {
    const candidate: Option<Candidate>
    const originalResume: Option<Resume>
    var isEnhancing: bool
    var enhancementProgress: int
    var enhancementComplete: bool
    var enhancedFitmentScore: int
    var enhancementSummary: string
    var enhancedResume: Option<Resume>
    /** Every value the progress bar has shown since the last run started. */
    ghost var shownProgress: seq<int>

    constructor (candidate: Option<Candidate>, table: map<string, Resume>)
      requires "1" in table
      ensures this.candidate == candidate && originalResume == OriginalResumeData(candidate, table)
      ensures !isEnhancing && enhancementProgress == 0 && !enhancementComplete
      ensures enhancedFitmentScore == InitialScore(candidate)
      ensures enhancementSummary == "" && enhancedResume.None?
      ensures shownProgress == []
    {
      this.candidate := candidate;
      originalResume := OriginalResumeData(candidate, table);
      isEnhancing := false;
      enhancementProgress := 0;
      enhancementComplete := false;
      enhancedFitmentScore := InitialScore(candidate);
      enhancementSummary := "";
      enhancedResume := None;
      shownProgress := [];
    }

    /** The effect that restores a saved enhancement when the dialog opens. */
    method LoadSavedEnhancements(items: map<string, Stored>)
      modifies this
      ensures candidate.None? || SavedEnhancements(items, candidate.value.id).None? ==>
        && enhancedFitmentScore == old(enhancedFitmentScore) && enhancementSummary == old(enhancementSummary)
        && enhancedResume == old(enhancedResume) && enhancementComplete == old(enhancementComplete)
      ensures candidate.Some? && SavedEnhancements(items, candidate.value.id).Some? ==>
        var saved := items[EnhancementsKey(candidate.value.id)];
        && enhancedFitmentScore == saved.fitmentScore && enhancementSummary == saved.summary
        && enhancedResume == saved.enhancedResume && enhancementComplete
      ensures isEnhancing == old(isEnhancing) && enhancementProgress == old(enhancementProgress)
      ensures shownProgress == old(shownProgress)
    {
      if candidate.Some? {
        var saved := SavedEnhancements(items, candidate.value.id);
        if saved.Some? {
          enhancedFitmentScore := saved.value.fitmentScore;
          enhancementSummary := saved.value.summary;
          enhancedResume := saved.value.enhancedResume;
          enhancementComplete := true;
        }
      }
    }

    /** The simulated steps: the bar restarts at 0 and takes each step's value in turn. */
    method StepProgress()
      modifies this
      ensures enhancementProgress == 100 && shownProgress == [0] + ProgressSteps
      ensures isEnhancing == old(isEnhancing) && enhancementComplete == old(enhancementComplete)
      ensures enhancedFitmentScore == old(enhancedFitmentScore) && enhancementSummary == old(enhancementSummary)
      ensures enhancedResume == old(enhancedResume)
    {
      enhancementProgress := 0;
      shownProgress := [0];
      var i := 0;
      while i < |ProgressSteps|
        invariant 0 <= i <= |ProgressSteps|
        invariant shownProgress == [0] + ProgressSteps[..i]
        invariant enhancementProgress == shownProgress[|shownProgress| - 1]
        invariant isEnhancing == old(isEnhancing) && enhancementComplete == old(enhancementComplete)
        invariant enhancedFitmentScore == old(enhancedFitmentScore)
        invariant enhancementSummary == old(enhancementSummary)
        invariant enhancedResume == old(enhancedResume)
      {
        enhancementProgress := ProgressSteps[i];
        shownProgress := shownProgress + [enhancementProgress];
        i := i + 1;
      }
      assert ProgressSteps[..i] == ProgressSteps;
    }

    /** The end of a run: show the outcome and leave the enhancing state. */
    method Finish(outcome: Outcome)
      modifies this
      ensures enhancedResume == Some(outcome.enhancedResume)
      ensures enhancedFitmentScore == outcome.newScore && enhancementSummary == outcome.summary
      ensures !isEnhancing && enhancementComplete
      ensures enhancementProgress == old(enhancementProgress) && shownProgress == old(shownProgress)
    {
      enhancedResume := Some(outcome.enhancedResume);
      enhancedFitmentScore := outcome.newScore;
      enhancementSummary := outcome.summary;
      isEnhancing := false;
      enhancementComplete := true;
    }

    /**
      `runEnhancement`: with a candidate and a résumé, step the progress bar
      through its values, then show the enhanced résumé, its score and the
      summary; without them, do nothing.
     */
    method RunEnhancement()
      modifies this
      ensures candidate.None? || originalResume.None? ==>
        && isEnhancing == old(isEnhancing) && enhancementProgress == old(enhancementProgress)
        && enhancementComplete == old(enhancementComplete)
        && enhancedFitmentScore == old(enhancedFitmentScore) && enhancementSummary == old(enhancementSummary)
        && enhancedResume == old(enhancedResume) && shownProgress == old(shownProgress)
      ensures candidate.Some? && originalResume.Some? ==>
        && enhancedResume.Some?
        && Outcome(enhancedResume.value, enhancedFitmentScore, enhancementSummary)
           == Enhancement(originalResume.value, candidate.value.fitmentScore, RequiredSkills)
        && !isEnhancing && enhancementComplete && enhancementProgress == 100
        && shownProgress == [0] + ProgressSteps
    {
      if candidate.Some? && originalResume.Some? {
        isEnhancing := true;
        enhancementComplete := false;
        StepProgress();
        var outcome := Enhancement(originalResume.value, candidate.value.fitmentScore, RequiredSkills);
        Finish(outcome);
      }
    }

    /**
      `handleSave`: only with a candidate, a save callback and a finished
      enhancement, run the board's save handler (the callback the board
      passes in), then store the enhancement under the candidate's key and
      close the dialog. Otherwise nothing happens.
     */
    method HandleSave(store: JobStore, storage: LocalStorage, onSaveGiven: bool, now: int)
      returns (closed: bool)
      modifies store, storage
      ensures closed <==> candidate.Some? && onSaveGiven && enhancementComplete
      ensures closed ==>
        var id := candidate.value.id;
        && store.candidates
           == WithFitment(old(store.candidates), id, enhancedFitmentScore, EnhancedSkills(enhancedResume))
        && storage.items
           == SaveWrites(old(storage.items), id, enhancedFitmentScore, enhancedResume, now)[EnhancementsKey(id) :=
                EnhancementsJson(enhancedFitmentScore, enhancementSummary, enhancedResume, now)]
      ensures !closed ==> store.candidates == old(store.candidates) && storage.items == old(storage.items)
      ensures store.jobs == old(store.jobs)
    {
      closed := candidate.Some? && onSaveGiven && enhancementComplete;
      if closed {
        var id := candidate.value.id;
        HandleSaveEnhancements(store, storage, id, enhancedFitmentScore, enhancedResume, now);
        storage.SetItem(EnhancementsKey(id), EnhancementsJson(enhancedFitmentScore, enhancementSummary, enhancedResume, now));
      }
    }
  }

  /** The progress bar only moves forward, from 0 to 100. */
  lemma ProgressRisesToFull()
    ensures var shown := [0] + ProgressSteps;
      && shown[|shown| - 1] == 100
      && (forall i, j :: 0 <= i < j < |shown| ==> shown[i] < shown[j])
      && (forall i :: 0 <= i < |shown| ==> 0 <= shown[i] <= 100)
  {
  }

  /**
    A dialog reopened on saved storage comes back to the saved state: the
    stored score, summary and résumé, and a finished enhancement.
   */
  lemma SaveThenReload(items: map<string, Stored>, candidateId: string, score: int, summary: string,
                       resume: Option<Resume>, now: int)
    ensures var after := items[EnhancementsKey(candidateId) := EnhancementsJson(score, summary, resume, now)];
      SavedEnhancements(after, candidateId) == Some(EnhancementsJson(score, summary, resume, now))
  {
  }
}

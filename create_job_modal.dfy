/**
  The "Create New Job" dialog: the form it edits, the job record it builds
  on submit, and the reset of the form afterwards. The job id and the
  expected joining date come from the clock in the application; here they
  are inputs.
 */
module CreateJobModal {
  import opened Records
  import opened Text
  import opened JobSort
  import opened JobContext

  /** The form state; every input holds a string except the hybrid checkbox. */
  datatype FormData = FormData(
    title: string,
    location: string,
    hiringManager: string,
    department: string,
    priority: string,
    employmentType: string,
    experience: string,
    estimatedSalary: string,
    industry: string,
    description: string,
    qualifications: string,
    skills: string,
    hybridWork: bool
  )

  /** The form as the dialog first shows it, and as a submit leaves it. */
  const InitialForm: FormData := FormData("", "", "", "", "medium", "full-time", "", "", "Technology",
                                          "", "", "", false)

  /** The names of the form's inputs. */
  datatype Field = Title | Location | HiringManager | Department | Priority | EmploymentType
                 | Experience | EstimatedSalary | Industry | Description | Qualifications | Skills
                 | HybridWork

  /**
    `handleInputChange`: the named input takes the new value; the checkbox
    takes its checked state instead of its value.
   */
  function HandleInputChange(form: FormData, name: Field, value: string, checked: bool): (r: FormData)
    ensures name == Title ==> r == form.(title := value)
    ensures name == Location ==> r == form.(location := value)
    ensures name == HiringManager ==> r == form.(hiringManager := value)
    ensures name == Department ==> r == form.(department := value)
    ensures name == Priority ==> r == form.(priority := value)
    ensures name == EmploymentType ==> r == form.(employmentType := value)
    ensures name == Experience ==> r == form.(experience := value)
    ensures name == EstimatedSalary ==> r == form.(estimatedSalary := value)
    ensures name == Industry ==> r == form.(industry := value)
    ensures name == Description ==> r == form.(description := value)
    ensures name == Qualifications ==> r == form.(qualifications := value)
    ensures name == Skills ==> r == form.(skills := value)
    ensures name == HybridWork ==> r == form.(hybridWork := checked)
  {
    match name
    case Title => form.(title := value)
    case Location => form.(location := value)
    case HiringManager => form.(hiringManager := value)
    case Department => form.(department := value)
    case Priority => form.(priority := value)
    case EmploymentType => form.(employmentType := value)
    case Experience => form.(experience := value)
    case EstimatedSalary => form.(estimatedSalary := value)
    case Industry => form.(industry := value)
    case Description => form.(description := value)
    case Qualifications => form.(qualifications := value)
    case Skills => form.(skills := value)
    case HybridWork => form.(hybridWork := checked)
  }

  /** The comma-separated pieces of a text, each trimmed. */
  function TrimmedPieces(text: string): (r: seq<string>)
    ensures |r| == multiset(text)[','] + 1
    ensures forall k :: 0 <= k < |r| ==> r[k] == Trim(Split(text, ',')[k])
  {
    var pieces := Split(text, ',');
    seq(|pieces|, k requires 0 <= k < |pieces| => Trim(pieces[k]))
  }

  /**
    The job record `handleSubmit` builds from the form: derived work type
    and employment, every counter at zero, a fresh posting date, and skills
    and qualifications taken from the comma-separated texts.
   */
  function BuildJob(form: FormData, id: string, expectedJoining: string): (j: Job)
    ensures j.id == id && j.title == form.title && j.location == form.location
    ensures j.workType == (if form.hybridWork then "Hybrid" else form.location)
    ensures j.employment == "Full-time" <==> form.employmentType == "full-time"
    ensures j.employment == "Full-time" || j.employment == "Internship"
    ensures j.status == Active && j.postedDate == PostedToday && j.lastUpdated == "Just now"
    ensures j.candidateCount == 0 && j.totalCandidates == 0 && j.shortlisted == 0
         && j.inScreening == 0 && j.offersSent == 0
    ensures j.experience == form.experience && j.experienceRequired == form.experience
    ensures j.budget == form.estimatedSalary && j.budgetRange == Some(form.estimatedSalary)
    ensures j.priority == Some(form.priority) && j.hiringManager == Some(form.hiringManager)
    ensures j.project == Some("New Project") && j.expectedJoining == Some(expectedJoining)
    ensures j.description == form.description && j.industry == form.industry && j.recruiterNotes == ""
    ensures j.skills == TrimmedPieces(form.skills)
    ensures |j.qualifications| == multiset(form.qualifications)[','] + 1
    ensures forall k :: 0 <= k < |j.qualifications| ==>
      j.qualifications[k] == Qualification(TrimmedPieces(form.qualifications)[k], true)
  {
    var quals := TrimmedPieces(form.qualifications);
    Job(
      id := id,
      title := form.title,
      location := form.location,
      workType := if form.hybridWork then "Hybrid" else form.location,
      status := Active,
      candidateCount := 0,
      experience := form.experience,
      experienceRequired := form.experience,
      employment := if form.employmentType == "full-time" then "Full-time" else "Internship",
      budget := form.estimatedSalary,
      budgetRange := Some(form.estimatedSalary),
      industry := form.industry,
      postedDate := PostedToday,
      description := form.description,
      qualifications := seq(|quals|, k requires 0 <= k < |quals| => Qualification(quals[k], true)),
      skills := TrimmedPieces(form.skills),
      recruiterNotes := "",
      totalCandidates := 0,
      shortlisted := 0,
      inScreening := 0,
      offersSent := 0,
      lastUpdated := "Just now",
      priority := Some(form.priority),
      expectedJoining := Some(expectedJoining),
      hiringManager := Some(form.hiringManager),
      project := Some("New Project")
    )
  }

  /**
    Every skill is one piece between commas: it holds no comma and has no
    whitespace at either end; there are as many skills as commas plus one.
   */
  lemma SkillsArePieces(form: FormData, id: string, expectedJoining: string)
    ensures var skills := BuildJob(form, id, expectedJoining).skills;
      && |skills| == multiset(form.skills)[','] + 1
      && forall k :: 0 <= k < |skills| ==>
           ',' !in skills[k] && (skills[k] == [] || (!IsWhitespace(skills[k][0]) && !IsWhitespace(skills[k][|skills[k]| - 1])))
  {
    PiecesAreTrimmed(form.skills);
  }

  /** The trimmed pieces of a text hold no comma and start and end with no whitespace. */
  lemma PiecesAreTrimmed(text: string)
    ensures var r := TrimmedPieces(text);
      forall k :: 0 <= k < |r| ==>
        ',' !in r[k] && (r[k] == [] || (!IsWhitespace(r[k][0]) && !IsWhitespace(r[k][|r[k]| - 1])))
  {
    var r := TrimmedPieces(text);
    var pieces := Split(text, ',');
    forall k | 0 <= k < |r|
      ensures ',' !in r[k]
    {
      var i, j :| 0 <= i <= j <= |pieces[k]| && r[k] == pieces[k][i..j];
      assert forall c :: c in r[k] ==> c in pieces[k];
    }
  }

  /** An empty skills text gives one empty skill, and likewise for qualifications. */
  lemma EmptyTextGivesOneBlank(form: FormData, id: string, expectedJoining: string)
    requires form.skills == "" && form.qualifications == ""
    ensures BuildJob(form, id, expectedJoining).skills == [""]
    ensures BuildJob(form, id, expectedJoining).qualifications == [Qualification("", true)]
  {
    var j := BuildJob(form, id, expectedJoining);
    assert Trim("") == "";
    assert |j.qualifications| == 1;
  }

  /**
    When no piece has whitespace at its ends, joining the skills with commas
    gives back exactly the text that was typed.
   */
  lemma SkillsRoundTrip(form: FormData, id: string, expectedJoining: string)
    requires forall p :: p in Split(form.skills, ',') ==> Trim(p) == p
    ensures Join(BuildJob(form, id, expectedJoining).skills, ",") == form.skills
  {
    var pieces := Split(form.skills, ',');
    var skills := BuildJob(form, id, expectedJoining).skills;
    assert skills == pieces by {
      forall k | 0 <= k < |pieces|
        ensures skills[k] == pieces[k]
      {
        assert pieces[k] in pieces;
      }
    }
    JoinSplit(form.skills, ',');
  }

  /** The untouched form builds a medium-priority, full-time job with one blank skill and qualification. */
  lemma DefaultFormJob(id: string, expectedJoining: string)
    ensures var j := BuildJob(InitialForm, id, expectedJoining);
      && j.priority == Some("medium") && j.employment == "Full-time" && j.industry == "Technology"
      && j.workType == "" && j.skills == [""] && j.qualifications == [Qualification("", true)]
  {
    EmptyTextGivesOneBlank(InitialForm, id, expectedJoining);
  }

  /** A value typed into the skills input is what the built job's skills are split from. */
  lemma TypedSkillsAreSubmitted(form: FormData, value: string, id: string, expectedJoining: string)
    ensures BuildJob(HandleInputChange(form, Skills, value, false), id, expectedJoining).skills
         == TrimmedPieces(value)
  {
  }

  /** Ticking the hybrid box makes the job hybrid whatever its location; unticking restores the location. */
  lemma HybridBoxDecidesWorkType(form: FormData, checked: bool, id: string, expectedJoining: string)
    ensures BuildJob(HandleInputChange(form, HybridWork, "", checked), id, expectedJoining).workType
         == (if checked then "Hybrid" else form.location)
  {
  }

  /**
    The new job is among the newest: under the aging sort it belongs to the
    "posted today" bucket, so every job may come before it.
   */
  lemma NewJobIsNewest(form: FormData, id: string, expectedJoining: string, other: Job)
    ensures AgingBucket(BuildJob(form, id, expectedJoining)) == 1
    ensures Before(SortAging, other, BuildJob(form, id, expectedJoining))
  {
  }

  /** The employment filter "Full-time" keeps the new job exactly when the form said full-time. */
  lemma EmploymentFilterSeesNewJob(form: FormData, id: string, expectedJoining: string)
    ensures var filters := map[EmploymentCategory := ["Full-time"]];
      EmploymentHit(BuildJob(form, id, expectedJoining), filters) <==> form.employmentType == "full-time"
  {
  }

  /**
    `handleSubmit`, with `onCreateJob` bound to the store's `addJob`: the
    built job goes in front of the list, the candidates are untouched, and
    the form comes back to its initial defaults.
   */
  method HandleSubmit(store: JobStore, form: FormData, id: string, expectedJoining: string)
    returns (reset: FormData)
    modifies store
    ensures store.jobs == [BuildJob(form, id, expectedJoining)] + old(store.jobs)
    ensures store.candidates == old(store.candidates)
    ensures reset == InitialForm
  {
    store.AddJob(BuildJob(form, id, expectedJoining));
    reset := InitialForm;
  }

  /** After a submit, selecting the new job's id finds the job the form built. */
  lemma SubmittedJobIsSelectable(jobs: seq<Job>, form: FormData, id: string, expectedJoining: string)
    ensures SelectedJob([BuildJob(form, id, expectedJoining)] + jobs, Some(id)) == Some(BuildJob(form, id, expectedJoining))
  {
    AddedJobIsSelected(jobs, BuildJob(form, id, expectedJoining));
  }
}

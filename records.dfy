/**
  The records of the recruiting dashboard: jobs, candidates and résumés.
  Optional fields of the TypeScript interfaces are `Option`s; numbers the
  application only ever sets to whole values are `int`.
 */
module Records {

  datatype Option<T> = None | Some(value: T)

  datatype JobStatus = Active | Paused | Closed

  datatype Qualification = Qualification(text: string, mandatory: bool)

  datatype Job = Job(
    id: string,
    title: string,
    location: string,
    workType: string,
    status: JobStatus,
    candidateCount: int,
    experience: string,
    experienceRequired: string,
    employment: string,
    budget: string,
    budgetRange: Option<string>,
    industry: string,
    postedDate: string,
    description: string,
    qualifications: seq<Qualification>,
    skills: seq<string>,
    recruiterNotes: string,
    totalCandidates: int,
    shortlisted: int,
    inScreening: int,
    offersSent: int,
    lastUpdated: string,
    /** Declared as 'high' | 'medium' | 'low', but the job form stores whatever its select held. */
    priority: Option<string>,
    expectedJoining: Option<string>,
    hiringManager: Option<string>,
    project: Option<string>
  )

  /** The three columns of the candidate pipeline. */
  datatype Stage = Fitment | BasicScreening | Technical

  datatype StatusColor = Yellow | Green | Blue | Red | Gray

  datatype Candidate = Candidate(
    id: string,
    name: string,
    jobId: string,
    stage: Stage,
    matchPercentage: Option<int>,
    status: string,
    avatar: Option<string>,
    skills: seq<string>,
    fitmentScore: int,
    fitmentSummary: string,
    profileImage: string,
    statusColor: StatusColor
  )

  /** A résumé as the enhancer and the viewer display it. */
  datatype Resume = Resume(
    name: string,
    email: string,
    contact: string,
    linkedin: string,
    github: string,
    education: string,
    summary: string,
    experience: seq<string>,
    skills: seq<string>,
    projects: seq<string>,
    achievements: seq<string>
  )
}

# Recruiting dashboard core, modelled in Dafny

This project models the logic behind a recruiting dashboard: a React
application where recruiters browse open jobs, filter and sort them, and
follow the candidates of a job through a three-column pipeline board. Next
to that sits a simulated "résumé enhancer". It fills a candidate's skill
gaps against the job's required skills, predicts a new fitment score and
saves the result to the browser's local storage. A résumé viewer and the
board then read that result back.

Modules, one per source file of the core, plus three shared ones:

- `Records`: the `Job`, `Candidate` and `Resume` records.
- `Seqs`: order-preserving `filter`.
- `Text`: `toLowerCase`, `includes`, `trim`, `split`, `join`, `replace` of one character, decimal rendering.
- `Storage`: local storage as a class over a map, with the three key families the application uses.
- `JobContext`: the store's state is the `JobStore` class. Its mutators are methods. The queries are functions over the store's lists: the selected job, a job's candidates, and the filter pipeline with its method `FilteredAndSortedJobs`.
- `JobSort`: the comparator of the job list and a stable insertion sort, which is what `Array.prototype.sort` guarantees.
- `SearchFilterPanel`: editing the filter map, clearing it, and the "active filters" test.
- `CandidatesKanban`: the board's columns, the score each card shows, and the save handler.
- `ResumeEnhancer`:
  - the missing-skill analysis, the enhanced résumé, the score cap and the "new" markers;
  - the dialog's state as the class `EnhancerSession`, with the progress run, the reload of a saved enhancement and the guarded save.
- `ResumeViewer`: which résumé, heading and score the viewer shows.
- `CreateJobModal`: the job record built from the creation form, and the form reset.

## Model

| member | source | states |
|---|---|---|
| JobContext.JobStore.AddJob | src/contexts/JobContext.tsx:324-326 | The new job goes in front and the old jobs follow in their order. The list grows by one, and no id is checked for uniqueness. Candidates are untouched. |
| JobContext.AddedJobIsSelected | src/contexts/JobContext.tsx:324-351 | After `addJob`, looking up the new job's id finds the new job, even if an older job shares the id. |
| JobContext.WithFitment | src/contexts/JobContext.tsx:328-340 | Length is kept. Each candidate with the id gets the new score, unclamped. Its skills are replaced only when skills are given, and its other fields are kept. Every other candidate is unchanged. |
| JobContext.JobStore.UpdateCandidateFitment | src/contexts/JobContext.tsx:328-340 | The store's candidates become the fitment update of the old list. Jobs are unchanged. |
| JobContext.WithSkills | src/contexts/JobContext.tsx:342-350 | Only the skills of candidates with the id change. Every other field and every other candidate is kept. |
| JobContext.JobStore.UpdateCandidateSkills | src/contexts/JobContext.tsx:342-350 | The store's candidates become the skills update of the old list. Jobs are unchanged. |
| JobContext.UnknownCandidateUnchanged | src/contexts/JobContext.tsx:328-350 | An id no candidate has leaves the list identical under both updates. |
| JobContext.FitmentWithSkillsDecomposes | src/contexts/JobContext.tsx:328-350 | A fitment update with skills equals a score-only update followed by a skills update. |
| JobContext.WithFitmentIdempotent | src/contexts/JobContext.tsx:328-340 | Repeating the same fitment update changes nothing more. |
| JobContext.SelectedJob | src/contexts/JobContext.tsx:351 | Nothing is found when no id is selected or no job has the id. Otherwise the result is a job with that id and is the first job with it in the list. |
| JobContext.CandidatesForJob | src/contexts/JobContext.tsx:353-354 | The result is exactly the candidates with that job id, each as often as in the store, in store order. |
| JobContext.Matches | src/contexts/JobContext.tsx:359-393 | An empty search with no checked value keeps a job. A kept job satisfies a non-empty search. When the employment, hiring-manager or project category has a checked value, a kept job's value is one of them; a job without a hiring manager or project is never kept by that category. |
| JobContext.MatchingJobs | src/contexts/JobContext.tsx:356-393 | A job is kept iff it satisfies the search and every non-empty category, with AND across categories. Multiplicities and store order are kept. |
| JobContext.AllStagesAreMatches | src/contexts/JobContext.tsx:359-393 | Passing the five stages in turn, each applied only when active, is the same as matching the whole query. |
| JobContext.ApplyStage | src/contexts/JobContext.tsx:359-393 | Filtering by a stage's test only when that stage is active turns "passed the first n−1 stages" into "passed the first n". |
| JobContext.FilterStages | src/contexts/JobContext.tsx:357-393 | The reassigned list left after the five conditional filter steps is exactly the matching jobs. |
| JobContext.FilteredAndSorted | src/contexts/JobContext.tsx:356-411 | Every listed job matches the query. The list is a permutation of the matching jobs, ordered by the comparator. Jobs that compare equal keep their filtered order. |
| JobContext.FilteredAndSortedJobs | src/contexts/JobContext.tsx:356-411 | The stage-by-stage filtering and the in-place sort compute exactly the filtered-and-sorted list. |
| JobContext.NoFiltersKeepsAll | src/contexts/JobContext.tsx:359-393 | With an empty search and no checked value in any category, every job passes. The sorted result is a permutation of all jobs. |
| JobContext.FilteredAndSortedIdempotent | src/contexts/JobContext.tsx:356-411 | Running the query again on its own result returns that result unchanged. |
| JobSort.PriorityRank | src/contexts/JobContext.tsx:398-400 | Ranks lie between 1 and 3. Rank 3 iff the priority is "high", rank 1 iff it is "low"; a missing or any other priority ranks 2. |
| JobSort.AgingBucket | src/contexts/JobContext.tsx:401-402 | A job's aging key is 1 exactly when it was posted "0 day ago", and 0 otherwise. |
| JobSort.JoiningKey | src/contexts/JobContext.tsx:403-404 | The key is never empty. A present, non-empty joining date is its own key; otherwise the key is 2024-12-31. |
| JobSort.StrLeTotal | src/contexts/JobContext.tsx:403-404 | Any two date strings are comparable. |
| JobSort.StrLeTransitive | src/contexts/JobContext.tsx:403-404 | The order on date strings is transitive. |
| JobSort.StrLeAntisymmetric | src/contexts/JobContext.tsx:403-404 | Date strings ordered both ways are equal. |
| JobSort.Before | src/contexts/JobContext.tsx:395-408 | `a` may stay in front of `b` exactly when the source's comparator returns at most 0. For priority that is the rank difference `rank(b) - rank(a)`. For aging it is the posted-time difference at any clock value. For joining, the joining keys are compared as ISO date strings. Any other key ties every pair. |
| JobSort.BeforeTotal | src/contexts/JobContext.tsx:395-408 | For every sort key, any two jobs are comparable by the comparator. |
| JobSort.BeforeTransitive | src/contexts/JobContext.tsx:395-408 | For every sort key, the comparator's order is transitive. |
| JobSort.EquivalentMeaning | src/contexts/JobContext.tsx:395-408 | Two jobs compare equal iff: their priority ranks match (priority); both or neither were posted today (aging); their joining keys match (joining); always, for any other key. |
| JobSort.Insert | src/contexts/JobContext.tsx:395-408 | Inserting one job adds exactly that job to the multiset. |
| JobSort.InsertionSorted | src/contexts/JobContext.tsx:395-408 | The sort is a permutation of its input. |
| JobSort.InsertSorted | src/contexts/JobContext.tsx:395-408 | Inserting into an ordered list keeps it ordered. |
| JobSort.InsertClass | src/contexts/JobContext.tsx:395-408 | Inserting a job places it behind every job that compares equal to it. |
| JobSort.InsertionSortedIsSorted | src/contexts/JobContext.tsx:395-408 | The sorted list is ordered by the comparator. |
| JobSort.InsertionSortedIsStable | src/contexts/JobContext.tsx:395-408 | Jobs that compare equal come out in the order they went in. |
| JobSort.SortedInputUnchanged | src/contexts/JobContext.tsx:395-408 | Sorting an already ordered list leaves it as it is. |
| JobSort.UnknownKeyKeepsOrder | src/contexts/JobContext.tsx:405-406 | A sort key other than priority, aging or joining leaves the order unchanged. |
| JobSort.SortJobs | src/contexts/JobContext.tsx:395-408 | The sorting loop's result is a permutation of the input. It is ordered by the comparator and stable. |
| SearchFilterPanel.HandleFilterChange | src/components/SearchFilterPanel.tsx:33-44 | The result's categories are the old ones plus this one, and all other categories are unchanged. Checking appends the value at the end of the category (empty when absent). Unchecking removes every occurrence of the value, keeps the counts of all other values, and keeps their order. |
| SearchFilterPanel.CheckingTwiceDuplicates | src/components/SearchFilterPanel.tsx:37-38 | Checking the same value twice adds it twice; there is no de-duplication. |
| SearchFilterPanel.CheckThenUncheckRestores | src/components/SearchFilterPanel.tsx:35-41 | Checking and then unchecking a value that was not listed restores the map. An absent category comes back as an empty list. |
| SearchFilterPanel.HasActiveFilters | src/components/SearchFilterPanel.tsx:52 | No filter is active exactly when the search is empty and no category has a checked value, using the same per-category test as the job list. |
| SearchFilterPanel.ClearAllFilters | src/components/SearchFilterPanel.tsx:46-50 | Clearing gives an empty search, the "priority" sort and no filters. |
| SearchFilterPanel.ClearedIsInactive | src/components/SearchFilterPanel.tsx:46-52 | Right after clearing, no filter is active. |
| SearchFilterPanel.CheckedIsActive | src/components/SearchFilterPanel.tsx:37-52 | After checking any value, some filter is active. |
| SearchFilterPanel.InactiveListsEveryJob | src/components/SearchFilterPanel.tsx:52 | When the panel reports no active filter, the job list is every job: unfiltered, and a permutation of the store. |
| CandidatesKanban.KanbanCandidates | src/components/CandidatesKanban.tsx:29 | With no selected job (null or empty id) the board is empty. Otherwise it holds exactly the selected job's candidates, each as often as in the store, in store order. |
| CandidatesKanban.CandidatesByStage | src/components/CandidatesKanban.tsx:31-32 | A column holds exactly the board's candidates at that stage, in board order. |
| CandidatesKanban.ColumnsPartitionBoard | src/components/CandidatesKanban.tsx:34-36 | The three columns together hold every board candidate exactly as often as the board does. Each candidate appears in the column of its own stage and in no other. |
| CandidatesKanban.CurrentFitmentScore | src/components/CandidatesKanban.tsx:90-101 | A stored progress entry's `currentScore` is what the card shows. Without a progress entry, or with an entry of another shape, the card shows the candidate's own score. |
| CandidatesKanban.SaveWrites | src/components/CandidatesKanban.tsx:76-85 | The keys afterwards are the old keys plus the progress key, plus the enhanced-résumé key only when a résumé is given. The progress key holds the new score and the time, and the résumé key holds the given résumé. Every other key keeps its value, including the enhanced-résumé key when no résumé is given. |
| CandidatesKanban.EnhancedSkills | src/components/CandidatesKanban.tsx:66 | Skills are forwarded exactly when a résumé is given, and they are that résumé's skills. |
| CandidatesKanban.SavedScoreIsShown | src/components/CandidatesKanban.tsx:81-101 | After a save, every card with that id shows the new score, whatever was stored before. Every other card's score is unchanged. |
| CandidatesKanban.HandleSaveEnhancements | src/components/CandidatesKanban.tsx:64-88 | The store gets the fitment update, with skills only when a résumé is given. Storage gets exactly the save's writes. Jobs are untouched. |
| CandidatesKanban.StoreAndBoardAgree | src/components/CandidatesKanban.tsx:64-101 | After a save, a stored candidate with the id carries the new score, and its card shows that same score. |
| Storage.GetTruthy | src/components/CandidatesKanban.tsx:91-92 | An entry is read iff the key is present and its text is non-empty. The value read is the stored one. |
| Storage.KeysDistinct | src/components/CandidatesKanban.tsx:77-81 | Within a key family, equal keys mean equal ids. The three families never share a key. |
| Storage.LocalStorage.SetItem | src/components/CandidatesKanban.tsx:77 | Storage is the old map with that one key set to the value. |
| ResumeEnhancer.InitialScore | src/components/ResumeEnhancer.tsx:29 | The initial score is the candidate's, unless there is no candidate or the score is 0; then it is 75. It is never 0. |
| ResumeEnhancer.OriginalResumeData | src/components/ResumeEnhancer.tsx:34-172 | There is no résumé without a candidate. Otherwise it is the table entry for the id, and entry "1" for an unknown id. |
| ResumeEnhancer.Mentions | src/components/ResumeEnhancer.tsx:202-206 | True iff some résumé skill, lower-cased, contains the lower-cased required skill. |
| ResumeEnhancer.MissingSkills | src/components/ResumeEnhancer.tsx:200-206 | A required skill is missing iff no résumé skill mentions it. Missing skills keep the required order. |
| ResumeEnhancer.ListedIsMentioned | src/components/ResumeEnhancer.tsx:202-206 | A skill the résumé lists always mentions itself. |
| ResumeEnhancer.MissingIsNotListed | src/components/ResumeEnhancer.tsx:200-206 | A skill reported missing is never one the résumé lists. |
| ResumeEnhancer.JavaScriptCountsAsJava | src/components/ResumeEnhancer.tsx:202-206 | Mentions are substring tests: a résumé with "JavaScript" does not miss "Java". |
| ResumeEnhancer.NewScore | src/components/ResumeEnhancer.tsx:227-228 | The score is at most 95 and at most base + 5 per missing skill. It is one of those two values. |
| ResumeEnhancer.NewScoreBounds | src/components/ResumeEnhancer.tsx:227-228 | A base of at most 95 never goes down. A base above 95 is lowered to 95. Below the cap, the gain is exactly 5 per missing skill. With at most four missing skills, the score never exceeds base + 20. |
| ResumeEnhancer.GithubHandle | src/components/ResumeEnhancer.tsx:217 | A non-empty GitHub entry is kept. Otherwise the entry starts with "github.com/". |
| ResumeEnhancer.GithubHandleFromName | src/components/ResumeEnhancer.tsx:217 | A generated handle is "github.com/" and the lower-cased name. When the name has a space, the handle is one character shorter and is the lower-cased name with its first space removed. |
| ResumeEnhancer.GithubHandleDropsFirstSpace | src/components/ResumeEnhancer.tsx:217 | For a name with a space, the handle after "github.com/" keeps the lower-cased characters before the first space in place and moves every later one up by one. |
| ResumeEnhancer.LowerDropsFirstSpace | src/components/ResumeEnhancer.tsx:217 | Lower-casing a name and then replacing its first space removes exactly that space, character by character. |
| ResumeEnhancer.LowerFindsSameSpace | src/components/ResumeEnhancer.tsx:217 | Lower-casing leaves the first space at the same index, so lower-casing before or after the replace makes no difference. |
| ResumeEnhancer.GithubHandleKeepsLaterSpaces | src/components/ResumeEnhancer.tsx:217 | Only the first space goes: a name with two spaces leaves a space in the handle. |
| ResumeEnhancer.LowerKeepsSpaces | src/components/ResumeEnhancer.tsx:217 | Lower-casing neither adds nor removes spaces. |
| ResumeEnhancer.Enhance | src/components/ResumeEnhancer.tsx:208-221 | The given skills are appended to the original skills. The summary gets the fixed proficiency sentence. One coursework entry is appended to experience. One project entry naming the skills is appended to projects. The GitHub entry is the generated handle. Every other field of the résumé is unchanged. |
| ResumeEnhancer.EnhanceOnlyAdds | src/components/ResumeEnhancer.tsx:199-221 | For the skills missing against the required list: the appended skills are exactly those missing skills, in required order. The summary is the original plus the fixed sentence, and GitHub is the generated handle. Experience and projects each keep their originals and gain one entry. Name, contacts, education and achievements are unchanged. |
| ResumeEnhancer.EnhancedMentionsAll | src/components/ResumeEnhancer.tsx:199-210 | After the missing skills are appended, every required skill is mentioned by the enhanced résumé. |
| ResumeEnhancer.EnhancementSummary | src/components/ResumeEnhancer.tsx:231-232 | The summary sentence opens with "Enhanced resume by adding " followed by the decimal count of missing skills. |
| ResumeEnhancer.Enhancement | src/components/ResumeEnhancer.tsx:198-233 | The enhanced résumé keeps the original skills as a prefix. The skills appended after it are exactly the required skills the original does not mention. Every required skill is then mentioned. The new score is the capped score for that number of added skills. For a base of at most 95 it lies between the base and 95. |
| ResumeEnhancer.MarkersShowAdditions | src/components/ResumeEnhancer.tsx:608-653 | A skill gets the "new" marker exactly when it sits past the original skills. Entries marked NEW are exactly the added experience entry and the added project entry. |
| ResumeEnhancer.AllRequiredMentioned | src/components/ResumeEnhancer.tsx:200-211 | After the missing skills are added, every required skill is mentioned. |
| ResumeEnhancer.SecondRunFindsNothingMissing | src/components/ResumeEnhancer.tsx:200-211 | Running the analysis on an enhanced skill list finds nothing missing. |
| ResumeEnhancer.SavedEnhancements | src/components/ResumeEnhancer.tsx:257-272 | A saved enhancement is read iff its key holds a readable enhancement document, and it is that document. |
| ResumeEnhancer.EnhancerSession.constructor | src/components/ResumeEnhancer.tsx:25-175 | The dialog opens idle, at progress 0 and not complete, with the initial score, no summary and no enhanced résumé. |
| ResumeEnhancer.EnhancerSession.LoadSavedEnhancements | src/components/ResumeEnhancer.tsx:257-272 | A readable saved enhancement restores its score, summary and résumé, and marks the run complete. Otherwise nothing changes. |
| ResumeEnhancer.EnhancerSession.StepProgress | src/components/ResumeEnhancer.tsx:181-197 | The bar restarts at 0, shows each step's value in turn and ends at 100. Nothing else changes. |
| ResumeEnhancer.EnhancerSession.Finish | src/components/ResumeEnhancer.tsx:223-236 | The dialog shows the run's résumé, score and summary. It stops enhancing and is complete. |
| ResumeEnhancer.EnhancerSession.RunEnhancement | src/components/ResumeEnhancer.tsx:177-237 | Without a candidate or a résumé nothing changes. Otherwise the bar runs 0, 15, …, 100, and the dialog ends complete, showing the enhancement of the original résumé, its capped score and its summary. |
| ResumeEnhancer.EnhancerSession.HandleSave | src/components/ResumeEnhancer.tsx:239-254 | The save happens iff there is a candidate, a save callback and a complete run. The store then gets the fitment update. Storage gets the board's writes plus the enhancement document. Otherwise store and storage are untouched. |
| ResumeEnhancer.ProgressRisesToFull | src/components/ResumeEnhancer.tsx:181-197 | The shown progress values rise strictly from 0 to 100 and stay within 0..100. |
| ResumeEnhancer.SaveThenReload | src/components/ResumeEnhancer.tsx:245-272 | Reopening after a save reads back exactly the saved score, summary and résumé. |
| ResumeViewer.ResumeData | src/components/ResumeViewer.tsx:26-173 | A readable enhanced résumé under the candidate's key is shown. Otherwise the table's résumé for the id is shown, or entry "1" for an unknown id. |
| ResumeViewer.ScoreLabel | src/components/ResumeViewer.tsx:330 | The heading says "Enhanced" iff the enhanced-résumé key holds non-empty text, and "Current" otherwise. |
| ResumeViewer.DisplayedScore | src/components/ResumeViewer.tsx:336-363 | The score shown is a readable saved enhancement's score, otherwise the candidate's own. |
| ResumeViewer.LabelCanClaimEnhancedForOriginal | src/components/ResumeViewer.tsx:26-330 | An unreadable enhanced-résumé entry makes the heading say "Enhanced" while the table's résumé is shown. |
| ResumeViewer.ViewsAgreeAfterSave | src/components/ResumeViewer.tsx:26-363 | After a save with a résumé: the viewer shows that résumé, under "Enhanced", with the saved score. The board shows the same score, and a reopened enhancer reads the same document. |
| ResumeViewer.SaveWithoutResumeKeepsResume | src/components/ResumeViewer.tsx:26-363 | A save without a résumé leaves the viewer's résumé and heading as they were. Its score and the board's score both become the saved one. |
| CreateJobModal.HandleInputChange | src/components/CreateJobModal.tsx:27-33 | For each of the thirteen inputs, editing it sets that field to the new value and leaves every other field unchanged. The hybrid checkbox takes its checked state instead of its value. |
| CreateJobModal.TrimmedPieces | src/components/CreateJobModal.tsx:53-54 | There is one piece per comma plus one, and each piece is the trimmed text between commas. |
| CreateJobModal.BuildJob | src/components/CreateJobModal.tsx:38-65 | Work type is "Hybrid" when the box is ticked, else the location. Employment is "Full-time" exactly when the form says full-time, else "Internship". The job is active, posted today, in "New Project", with every counter at 0. Title, location, experience, salary, priority, hiring manager, industry and description are copied from the form. Recruiter notes are empty. Skills and qualifications come from the comma-separated texts, and every qualification is mandatory. |
| CreateJobModal.PiecesAreTrimmed | src/components/CreateJobModal.tsx:53-54 | Every trimmed comma-separated piece holds no comma and has no whitespace at either end. |
| CreateJobModal.SkillsArePieces | src/components/CreateJobModal.tsx:54 | There are as many skills as commas plus one. No skill holds a comma or has whitespace at either end. |
| CreateJobModal.EmptyTextGivesOneBlank | src/components/CreateJobModal.tsx:53-54 | An empty skills text gives `[""]`. An empty qualifications text gives one blank mandatory qualification. |
| CreateJobModal.SkillsRoundTrip | src/components/CreateJobModal.tsx:54 | When no piece has whitespace at its ends, joining the skills with commas gives back the typed text. |
| CreateJobModal.DefaultFormJob | src/components/CreateJobModal.tsx:11-65 | The untouched form builds a medium-priority, full-time, Technology job with one blank skill and one blank qualification. |
| CreateJobModal.TypedSkillsAreSubmitted | src/components/CreateJobModal.tsx:27-54 | Text typed into the skills input is what the job's skills are split from. |
| CreateJobModal.HybridBoxDecidesWorkType | src/components/CreateJobModal.tsx:27-42 | Ticking the hybrid box makes the job "Hybrid"; unticking it gives back the location. |
| CreateJobModal.NewJobIsNewest | src/components/CreateJobModal.tsx:51 | A new job falls in the "posted today" aging bucket, so under the aging sort every other job may come before it. |
| CreateJobModal.EmploymentFilterSeesNewJob | src/components/CreateJobModal.tsx:47 | The "Full-time" employment filter keeps the new job exactly when the form said full-time. |
| CreateJobModal.HandleSubmit | src/components/CreateJobModal.tsx:35-87 | The built job goes in front of the store's jobs and the candidates are untouched. The form is reset to exactly its initial values. |
| CreateJobModal.SubmittedJobIsSelectable | src/components/CreateJobModal.tsx:67 | After a submit, selecting the new id finds the job the form built. |
| Text.Lower | src/contexts/JobContext.tsx:362 | Lower-casing keeps the length and maps each character through the ASCII lower-case function. |
| Text.ContainsAt | src/contexts/JobContext.tsx:362 | `includes` holds iff the substring occurs at some position. |
| Text.Trim | src/components/CreateJobModal.tsx:54 | The result is a slice of the text with only whitespace cut off on either side. It neither starts nor ends with whitespace. |
| Text.Split | src/components/CreateJobModal.tsx:54 | There are as many pieces as separators plus one, and no piece holds the separator. |
| Text.JoinSplit | src/components/CreateJobModal.tsx:54 | Joining the pieces of a split with the separator gives back the text. |
| Text.RemoveFirst | src/components/ResumeEnhancer.tsx:217 | Only the first occurrence of the character is removed. Text without it is unchanged. |

## Left out

- Rendering is not modelled: JSX markup, styling, icons, image `onError` handlers, and the purely presentational components (dashboard, header, sidebar, tabs, cards, widgets).
- JSON is not modelled as text. Storage keeps each document the application writes as a value. Text that does not parse is `Malformed`; only `Malformed("")` is falsy, as the empty string is in JavaScript.
- Storage.GetTruthy: a readable document of a different shape under a key counts as a failed read. JavaScript would instead read `undefined` fields from it.
- The clock (`Date.now()`, `new Date`, `toISOString`) is not modelled:
  - the new job's id and its expected joining date are inputs;
  - the save timestamps are one `now` input, where the source calls the clock separately for the progress entry and the enhancement document;
  - the aging sort is two buckets, so the drift between its two clock readings is ignored;
  - the joining sort compares date strings lexicographically, which matches date order only for ISO dates; invalid dates (NaN comparisons) are not modelled.
- ResumeEnhancer.EnhancerSession.StepProgress: the 800 ms delays are not modelled. Only the sequence of progress values is kept, so user actions during a run cannot interleave with it.
- EnhancementSummary: only the sentence's opening and the count of missing skills are stated. The rest of its wording is not stated: the listed skills, the two scores, and the rendering of negative or fractional scores.
- Enhancement: states nothing about the summary sentence beyond what EnhancementSummary states.
- Text.Lower: only ASCII letters are lower-cased; Unicode case folding is not modelled.
- Text.Trim: removes only ASCII whitespace, NBSP, BOM, and the line and paragraph separators. The other Unicode space separators that JavaScript's `trim` also removes are not modelled.
- The built-in résumé table and the mock jobs and candidates are not modelled. The table is a parameter required to hold entry "1", the only property the code relies on.
- ResumeEnhancer.EnhancerSession.HandleSave: the `onSave` callback is the board's `handleSaveEnhancements`, the only one the application passes. A flag says whether one was given.
- `onClose`, `console.log`, `console.error` and `alert` have no effect on state and are not modelled.
- CreateJobModal.HandleInputChange: only the thirteen inputs of the form are modelled. An input name outside the form, which would add a new key to the form state, is not modelled.
- Scores are integers: NaN and fractional scores are not modelled.
- JobSort.PriorityRank: a priority naming a property inherited by the lookup object (such as "constructor") would make the comparator return NaN. The model ranks it 2 instead.
- The floating-point hiring-progress percentage of the job overview widget is not modelled.

# College companion: a Dafny model of its state logic

The study companion is a single-page React app with three views. The
**assignment tracker** keeps a list of assignments in browser storage and
offers add, toggle-completed and delete. It renders the list through a
pending / completed / all filter, sorted by due date. The **study tips**
view starts from ten predefined tips and prepends one AI-generated tip per
click. The **concept explainer** sends one concept per submit and shows the
answer split into paragraphs. Both AI views call a small **service** layer.
That layer builds the API client lazily, caches it, and maps every failure
to one of two fixed messages.

This project models that logic and proves what it promises:

- `types.dfy` (module `Types`): the `Assignment` and `StudyTip` records, the
  fixed messages and prompts, and the ten predefined tips. It also defines
  `Result`, which is a value or a rejection carrying an error message.
- `gemini.dfy` (module `Gemini`): the class `GeminiService`. Its field `ai`
  is the module-level client cache. A ghost log `sent` records the remote
  requests, and a ghost counter records how many clients were constructed.
  The environment (`Env`) and the outcome of the remote call (`Remote`) are
  inputs.
- `assignment_list.dfy` (module `AssignmentList`): the pure list
  operations. These are the filter, the toggle map, the delete filter, a
  stable sort by due date, and the tab counts, with their lemmas.
- `assignment_tracker.dfy` (module `Tracker`): the class
  `AssignmentTracker`. Its fields are the component state (`assignments`,
  `draft`, `showForm`, `filter`) and the storage slot `stored`. Each handler
  is a method.
- `study_tips.dfy` (module `Tips`): the class `StudyTips`. Its ghost
  history of fetched texts pins down the order of the tips.
- `concept_explainer.dfy` (module `Explainer`): the class
  `ConceptExplainer`, JavaScript's `trim`, and the split on `"\n\n"` with
  its inverse.

Each async handler is split in two. A `Begin…` method covers the
synchronous part before the `await`. A `Complete…` method covers the part
after the promise settles. A third method runs both around the service
call.

Due dates are compared lexicographically on their text. For the
`yyyy-mm-dd` strings that a date input yields, this is chronological order.
The sort is a stable insertion sort, because `Array.prototype.sort` must be
stable under section 22.1.3.27 of ECMA-262, 10th edition (ECMAScript 2019).

## Model

| member | source | states |
|---|---|---|
| `Gemini.UsableKey` | services/geminiService.ts:10-17 | a key is accepted only when `process` exists and `API_KEY` is present and non-empty, and then it is that key; otherwise no key is accepted |
| `Gemini.GeminiService.constructor` | services/geminiService.ts:5 | the cache starts empty, and no request has been sent |
| `Gemini.GeminiService.InitializeAi` | services/geminiService.ts:7-21 | a cached client is returned unchanged, without looking at the environment; with no `process` or an absent or empty `API_KEY`, it returns nothing and the cache stays empty; otherwise exactly one fresh client is built with that key, cached and returned; at most one client is ever constructed; no request is sent |
| `Gemini.ExplainRequestRoundTrip` | services/geminiService.ts:31-36 | the prompt is `"Explain the concept of: "` followed by the concept, with the explainer instruction; the concept can be read back from the request, and the request is never the study-tip request |
| `Gemini.Settle` | services/geminiService.ts:30-46 | a response yields its text unchanged; any exception becomes a rejection with the general message, which differs from the key message |
| `Gemini.GeminiService.ExplainConcept` | services/geminiService.ts:24-47 | with no client it rejects with the key message and sends nothing; otherwise it sends exactly one explain request for the concept, then returns the text or the general rejection |
| `Gemini.GeminiService.FetchStudyTip` | services/geminiService.ts:49-70 | the same guard; otherwise exactly one request with the fixed tip prompt and no system instruction |
| `AssignmentList.Filtered` | components/AssignmentTracker.tsx:62-65 | a record is in a tab's list exactly when it is in the list and the tab shows it |
| `AssignmentList.FilteredCounts` | components/AssignmentTracker.tsx:62-65 | a tab lists each record it shows as often as the list holds it, and no other record |
| `AssignmentList.FilteredAppend` | components/AssignmentTracker.tsx:62-65 | filtering distributes over concatenation, so the tab keeps list order |
| `AssignmentList.FilteredAll` | components/AssignmentTracker.tsx:65 | the "all" tab lists the whole list unchanged |
| `AssignmentList.PendingCompletedPartition` | components/AssignmentTracker.tsx:68-69 | the pending and completed lists together hold exactly the records of the list (as multisets), so their lengths add up to its length |
| `AssignmentList.AddedShowsAsPending` | components/AssignmentTracker.tsx:36-41 | an appended incomplete record becomes the last entry of the pending list and leaves the completed list unchanged |
| `AssignmentList.Toggled` | components/AssignmentTracker.tsx:48-51 | same length and order; a record whose id matches has `completed` flipped and every other field kept; all other records are unchanged |
| `AssignmentList.ToggleTwice` | components/AssignmentTracker.tsx:48-51 | toggling the same id twice restores the list |
| `AssignmentList.ToggleUnknown` | components/AssignmentTracker.tsx:48-51 | toggling an id that no record carries changes nothing |
| `AssignmentList.Without` | components/AssignmentTracker.tsx:56-57 | a record survives a delete exactly when it was in the list and has another id |
| `AssignmentList.WithoutCounts` | components/AssignmentTracker.tsx:56-57 | every record with another id survives as often as the list held it; none with the deleted id survives |
| `AssignmentList.WithoutAppend` | components/AssignmentTracker.tsx:56-57 | delete distributes over concatenation, so survivors keep their order |
| `AssignmentList.WithoutUnknown` | components/AssignmentTracker.tsx:56-57 | deleting an id that no record carries changes nothing |
| `AssignmentList.WithoutTwice` | components/AssignmentTracker.tsx:56-57 | deleting the same id again is a no-op |
| `AssignmentList.DueLeqTotal` | components/AssignmentTracker.tsx:66 | any two due dates are comparable |
| `AssignmentList.DueLeqTransitive` | components/AssignmentTracker.tsx:66 | the due-date order is transitive |
| `AssignmentList.DueLeqAntisymmetric` | components/AssignmentTracker.tsx:66 | two dates that each precede the other are the same date, so the order is a total order |
| `AssignmentList.SortByDue` | components/AssignmentTracker.tsx:66 | the sorted list is a permutation of its input |
| `AssignmentList.SortByDueSorted` | components/AssignmentTracker.tsx:66 | the sorted list is ascending by due date |
| `AssignmentList.SortByDueStable` | components/AssignmentTracker.tsx:66 | records that share a due date keep their input order (stability) |
| `AssignmentList.View` | components/AssignmentTracker.tsx:62-66 | the rendered list holds the tab's records, each as often as the tab lists it, ascending by due date |
| `AssignmentList.ViewIsSortedFilter` | components/AssignmentTracker.tsx:62-66 | the rendered list is a permutation of the tab's records, holds exactly the records the tab shows, is ascending by due date, and is stable |
| `AssignmentList.TabCount` | components/AssignmentTracker.tsx:123 | a tab's label count is the number of records the tab lists, including the "all" tab |
| `AssignmentList.TabCountsAgree` | components/AssignmentTracker.tsx:123 | each tab's label count equals the length of the list that tab renders; pending plus completed equals all |
| `Tracker.NewAssignment` | components/AssignmentTracker.tsx:36-40 | the added record carries the given id, is not completed, and holds the draft's four fields unchanged |
| `Tracker.WithField` | components/AssignmentTracker.tsx:25-28 | the edited input reads back the typed value, and every other input keeps its text |
| `Tracker.AssignmentTracker.constructor` | components/AssignmentTracker.tsx:9-12 | the list is empty, the draft is all empty strings, the form is hidden and the pending tab is selected |
| `Tracker.AssignmentTracker.Load` | components/AssignmentTracker.tsx:14-19 | when the slot holds a list it becomes the list in memory, so stored and in-memory agree; otherwise nothing changes |
| `Tracker.AssignmentTracker.SaveAssignments` | components/AssignmentTracker.tsx:21-23 | the slot holds exactly the given list |
| `Tracker.AssignmentTracker.HandleInputChange` | components/AssignmentTracker.tsx:25-28 | only the named draft field takes the new value |
| `Tracker.AssignmentTracker.ToggleForm` | components/AssignmentTracker.tsx:77 | the form's visibility flips |
| `Tracker.AssignmentTracker.SetFilter` | components/AssignmentTracker.tsx:116 | the chosen tab becomes the filter |
| `Tracker.AssignmentTracker.HandleAddAssignment` | components/AssignmentTracker.tsx:30-46 | a draft with an empty title, course or due date changes nothing; otherwise exactly one incomplete record built from the draft and the id is appended, earlier records are kept, the slot equals the new list, the draft is reset and the form is hidden |
| `Tracker.AssignmentTracker.ToggleComplete` | components/AssignmentTracker.tsx:48-54 | the list becomes its toggled version, the slot equals it, and draft, form and filter are unchanged |
| `Tracker.AssignmentTracker.DeleteAssignment` | components/AssignmentTracker.tsx:56-60 | the list loses exactly the records with the id, the slot equals it, and draft, form and filter are unchanged |
| `Tracker.AssignmentTracker.Visible` | components/AssignmentTracker.tsx:62-66 | the rendered list holds exactly the current tab's records and is ascending by due date |
| `Tracker.AssignmentTracker.Count` | components/AssignmentTracker.tsx:123 | a tab's count is the length of what that tab renders; the "all" count is the list length |
| `Tips.TipError` | components/StudyTips.tsx:26-30 | the key message is shown exactly when it was thrown; any other failure shows the fixed apology |
| `Tips.AiTip` | components/StudyTips.tsx:19-23 | a fetched tip carries the response text unchanged, the id `gemini-` plus the timestamp and the category "AI Generated", so it is never one of the predefined tips |
| `Tips.StudyTips.constructor` | components/StudyTips.tsx:10-12 | the tips are the predefined tips, nothing is loading and there is no error |
| `Tips.StudyTips.BeginFetch` | components/StudyTips.tsx:15-16 | allowed only while the button is enabled (not loading); sets loading, clears the error and keeps the tips |
| `Tips.StudyTips.CompleteFetch` | components/StudyTips.tsx:18-34 | a success prepends exactly one tip with the fetched text and category "AI Generated" and clears the error; a failure keeps the tips and shows the classified error; loading ends either way; the predefined tips stay the suffix in order, and index k holds the (k+1)-th most recent fetch |
| `Tips.StudyTips.GetNewTipFromAI` | components/StudyTips.tsx:14-35 | with the service: a cached client stays cached; from an empty cache a client is cached exactly when the environment has a usable key; with no client nothing is sent and the key message shows; otherwise exactly one tip request is sent, a remote failure shows the apology and keeps the tips, and a success prepends the response text |
| `Explainer.ExplainError` | components/ConceptExplainer.tsx:28-32 | the key message is shown exactly when it was thrown; any other failure shows the fixed apology |
| `Explainer.TrimStart` | components/ConceptExplainer.tsx:16 | the result is a suffix of the input; everything removed is whitespace; it does not start with whitespace |
| `Explainer.TrimEnd` | components/ConceptExplainer.tsx:16 | the result is a prefix of the input; everything removed is whitespace; it does not end with whitespace |
| `Explainer.Trim` | components/ConceptExplainer.tsx:16 | the trimmed concept is no longer than the concept, and when non-empty it neither starts nor ends with whitespace |
| `Explainer.TrimEmptyIffBlank` | components/ConceptExplainer.tsx:16 | a concept trims to the empty string exactly when every character is ECMAScript whitespace |
| `Explainer.SplitParagraphs` | components/ConceptExplainer.tsx:90 | splitting always yields at least one paragraph |
| `Explainer.SplitJoinRoundTrip` | components/ConceptExplainer.tsx:90 | rejoining the paragraphs with `"\n\n"` gives back the explanation |
| `Explainer.SplitIsSeparable` | components/ConceptExplainer.tsx:90 | no paragraph contains `"\n\n"`, and no paragraph except the last ends in a newline |
| `Explainer.JoinSplitRoundTrip` | components/ConceptExplainer.tsx:90 | splitting a joined list of such paragraphs gives the list back |
| `Explainer.JoinSplitExactly` | components/ConceptExplainer.tsx:90 | join followed by split is the identity on exactly the lists that splitting can produce |
| `Explainer.ConceptExplainer.constructor` | components/ConceptExplainer.tsx:9-12 | empty concept and explanation, not loading, no error |
| `Explainer.ConceptExplainer.SetConcept` | components/ConceptExplainer.tsx:56-59 | typing is possible only while the input is enabled (not loading) and replaces the concept |
| `Explainer.ConceptExplainer.SubmitEnabled` | components/ConceptExplainer.tsx:63 | submit is enabled exactly when not loading and the concept has a non-whitespace character |
| `Explainer.ConceptExplainer.BeginExplain` | components/ConceptExplainer.tsx:16-22 | a blank concept only sets "Please enter a concept to explain." and starts nothing; otherwise loading starts with the error and the explanation cleared |
| `Explainer.ConceptExplainer.CompleteExplain` | components/ConceptExplainer.tsx:24-36 | a success sets the explanation to the text verbatim with no error; a failure keeps the explanation empty and shows the classified error; loading ends either way |
| `Explainer.ConceptExplainer.HandleExplainConcept` | components/ConceptExplainer.tsx:14-37 | a blank concept makes no request and leaves the service untouched; otherwise a cached client stays cached, and from an empty cache a client is cached exactly when the environment has a usable key; with no client nothing is sent and the key message shows; otherwise exactly one explain request for the concept is sent, and its result or the apology is shown |
| `Explainer.ConceptExplainer.Paragraphs` | components/ConceptExplainer.tsx:87-90 | once an explanation is shown and nothing is loading, the rendered paragraphs rejoin to it and contain no blank line; otherwise nothing is rendered |

## Left out

- JSX, styling, icons and the purely presentational components: the navbar, the spinner and the assignment item. Also `App.tsx` with its hash routing and API-key probe. These are rendering and navigation, not state logic.
- `localStorage` and JSON. The slot `stored` holds the list itself, and `None` stands for an absent key. The slot is therefore never the empty string, which `JSON.stringify` never produces anyway.
- The load path's parse failure and storage write failures. Unparsable stored data makes `JSON.parse` throw, because the load does not catch it; a failed write is not reported. Both are browser I/O errors.
- `Date.now()`. The new assignment's id and the AI tip's timestamp are method parameters.
- Id uniqueness. Ids come from the clock, so two adds within the same millisecond get the same id. No contract assumes or claims that ids are unique.
- `new Date(dueDate).getTime()`. Due dates are ordered lexicographically on their text. Dates in other formats, and unparsable dates with their NaN comparisons, are not modelled.
- The `@google/genai` SDK, the model name and the sampling parameters (temperature, top-p, top-k). The SDK is a foreign library and the parameters are floating point. The client is an opaque object, a request is its prompt plus its system instruction, and the remote outcome is an input. The model does not cover a response whose `text` is undefined.
- async scheduling, state updates after unmount, `console.error` logging and `alert`. The add handler returns `false` where the code alerts.
- `Tracker.AssignmentTracker.HandleInputChange`: the input name can only be one of the four form fields. The code would also accept any other `name` attribute.
- The loading-spinner and dimming conditions in the study-tips view. They only decide what is drawn.

# Learning-platform client: route authorization, OAuth callback, quiz page state

A Dafny model of three decision layers of a React client for a medical learning
platform. Everything is written as pure functions over immutable datatypes, with
lemmas that connect each operation to an independent description of it.

- **Routing** (`routing.dfy`) covers the guard components `PrivateRoute`,
  `ProtectedContent` and `AdminRoute`, and the route table of `App`. The table
  is kept as data: a sequence of path/element entries, where an element is a page
  wrapped in guards. It also has the inline "signed-in users leave `/` and
  `/auth`" rule and the catch-all `*` route. The session is `Option<Session>`,
  its `user` is optional, and so are `user_metadata` and both flags. A missing
  flag reads as `false`, as `?? false` does. A `Role` (anonymous, signed in,
  entitled, admin) is read off the same booleans the guards test. `Decide(role,
  page)` is an independent role-by-tier table. `RouterAgreesWithRoleTable` proves
  that the guards nested in the route table decide exactly as that table does.
  The properties follow from it: no locked placeholder for visitors, redirect
  targets, unknown paths going home, and no redirect loop within two hops.
- **Form parsing** (`form_urlencoded.dfy`) is the part of `URLSearchParams` the
  callback uses (WHATWG URL Standard, section 5.1, application/x-www-form-urlencoded
  parsing). The input is split on `&` and empty pieces are skipped. Each piece is
  cut at its first `=`. The constructor drops a leading `?`, and `get` returns the
  first value for a name. Splitting and joining are proved inverse in both
  directions. Parsing undoes serializing for encodable pairs; the other direction
  does not hold, because parsing is lossy: empty pieces are dropped and a bare
  name gains `=` when printed again.
- **OAuth callback** (`auth_callback.dfy`) is the effect of the callback page.
  It drops the first character of `location.hash`, reads `access_token` and
  `refresh_token`, and calls `setSession` only when both are truthy (present and
  non-empty). It then issues one navigation: to `/dashboard` when the promise
  returned by `setSession` fulfils, to `/auth` when it rejects or no call was
  made. Whether the promise fulfils is a boolean input.
- **Quiz page** (`quiz_page.dfy`) is the page state: the quiz list, the selected
  quiz, the answers map, the score, the chosen file and the manual form. It covers
  scoring, answer recording, the form editors, and the list updates of create,
  upload and delete. The server response and the confirm dialog are inputs.
  Scoring compares `answers[idx] === q.answer` literally. A question whose correct
  answer is missing (`Question.answer == None`) therefore counts as correct while
  it is unanswered, because `undefined === undefined`.

## Model

| member | source | states |
|---|---|---|
| Routing.CurrentUser | src/App.jsx:25 | no contract; the user of the session if there is one, characterised through DeriveRole |
| Routing.IsAdmin | src/App.jsx:49 | no contract; `user_metadata?.isAdmin ?? false`, characterised through DeriveRole and AdminRoute |
| Routing.IsPaid | src/App.jsx:34 | no contract; `user_metadata?.isPaid ?? false`, characterised through DeriveRole and ProtectedContent |
| Routing.DeriveRole | src/App.jsx:23-53 | visitor exactly when there is no current user; admin exactly when signed in with `isAdmin`; entitled exactly when signed in, not admin, and paid |
| Routing.PrivateRoute | src/App.jsx:23-27 | any signed-in role gets the child; a visitor is redirected to `/auth` |
| Routing.ProtectedContent | src/App.jsx:30-43 | the child exactly when paid or admin, otherwise the locked placeholder; it never introduces a navigation of its own |
| Routing.AdminRoute | src/App.jsx:46-53 | visitor goes to `/auth`, signed-in non-admin to `/dashboard`, admin gets the child |
| Routing.AdminPassesEveryGuard | src/App.jsx:30-53 | a signed-in admin passes all three guards whatever `isPaid` is |
| Routing.Eval | src/App.jsx:64-178 | no contract; each route's element is evaluated with its guards nested outside-in, characterised by TableAgreesWithRoleTable |
| Routing.Lookup | src/App.jsx:64-178 | no contract; static path matching over the route table, characterised by LookupFindsEntry and LookupMissesToCatchAll |
| Routing.Route | src/App.jsx:59-180 | no contract; the router's decision for a path and session, characterised by RouterAgreesWithRoleTable |
| Routing.RoutesHaveUniquePaths | src/App.jsx:64-178 | no two routes of the table share a path |
| Routing.LookupFindsEntry | src/App.jsx:64-178 | with unique paths, a requested path that is in the table selects its own route's element |
| Routing.LookupMissesToCatchAll | src/App.jsx:177 | a path in no route falls to the `*` route |
| Routing.TableAgreesWithRoleTable | src/App.jsx:66-172 | each route's guard nesting decides as the role-by-tier table does for its page |
| Routing.RouterAgreesWithRoleTable | src/App.jsx:59-180 | for every path and session, the router's decision equals the role table applied to the derived role |
| Routing.AnonymousNeverLocked | src/App.jsx:119-150 | a visitor never sees the locked placeholder, and on the paid routes is sent to `/auth` |
| Routing.LockedExactlyForUnpaidMembers | src/App.jsx:119-150 | the placeholder appears if and only if a signed-in, unpaid non-admin asks for a paid route |
| Routing.PublicPagesRedirectSignedIn | src/App.jsx:66-79 | `/` and `/auth` send signed-in users to `/dashboard` and render Landing/Auth for visitors |
| Routing.UnknownPathGoesHome | src/App.jsx:177 | a path matching no route redirects to `/` for any session |
| Routing.RenderedPageMatchesPath | src/App.jsx:66-172 | a rendered page is always the page bound to the requested path |
| Routing.RedirectTargets | src/App.jsx:59-180 | redirects go only to `/`, `/auth` or `/dashboard`; `/auth` only for visitors, `/dashboard` only for signed-in users, `/` exactly for unknown paths |
| Routing.RoleDeterminesDecision | src/App.jsx:59-180 | two sessions with the same derived role are routed identically |
| Routing.DashboardAdmitsSignedIn | src/App.jsx:88-95 | `/dashboard` renders for every signed-in user and sends visitors to `/auth` |
| Routing.NoRedirectLoop | src/App.jsx:59-180 | following redirects from any path settles within two hops, on a rendered page whenever a redirect happened |
| Routing.TwoHopsAreNeeded | src/App.jsx:66-177 | a signed-in user on an unknown path needs both hops: `/` then `/dashboard` |
| Routing.NonAdminBouncedOnceFromAdminRoutes | src/App.jsx:156-172 | a signed-in non-admin on an admin route is redirected once to `/dashboard`, which lets them in |
| Routing.AdminReachesEveryGatedPage | src/App.jsx:88-172 | an admin reaches every page of the member, paid and admin tiers |
| Routing.CallbackRouteAlwaysRenders | src/App.jsx:82 | the callback route renders its page for every session |
| FormUrlEncoded.Split | src/pages/AuthCallback.jsx:12 | always at least one piece, even for the empty string |
| FormUrlEncoded.SplitPiecesLackSeparator | src/pages/AuthCallback.jsx:12 | no piece contains the separator |
| FormUrlEncoded.SplitThenJoin | src/pages/AuthCallback.jsx:12 | splitting loses nothing: joining the pieces with the separator gives the input back |
| FormUrlEncoded.JoinThenSplit | src/pages/AuthCallback.jsx:12 | pieces without the separator survive joining and splitting unchanged |
| FormUrlEncoded.ParsePair | src/pages/AuthCallback.jsx:12 | the name has no `=`; with an `=` the piece is `name=value`, without one the value is empty |
| FormUrlEncoded.PairRoundTrip | src/pages/AuthCallback.jsx:12 | printing a pair as `name=value` and parsing it gives the pair back when the name has no `=` |
| FormUrlEncoded.ParseSerialize | src/pages/AuthCallback.jsx:12 | parsing the `&`-joined text of encodable pairs gives the same list of pairs |
| FormUrlEncoded.Parse | src/pages/AuthCallback.jsx:12 | no contract; the pieces of the `&` split, empty ones skipped, each cut at its first `=`, characterised by ParseSerialize |
| FormUrlEncoded.SearchParams | src/pages/AuthCallback.jsx:12 | no contract; the constructor drops one leading `?` and parses the rest, characterised with NoLeadingQuestionMark and ExtractReadsFirstValues |
| FormUrlEncoded.Get | src/pages/AuthCallback.jsx:13-14 | no contract; first-match lookup by name, characterised by GetFindsFirst and GetFirstWins |
| FormUrlEncoded.GetFindsFirst | src/pages/AuthCallback.jsx:13-14 | absent exactly when no pair has the name; otherwise the value of a pair with that name that no earlier pair shares |
| FormUrlEncoded.GetFirstWins | src/pages/AuthCallback.jsx:13-14 | on a concatenation, a name found in the first part hides every later pair |
| AuthCallback.FragmentBody | src/pages/AuthCallback.jsx:11 | the hash is its first character followed by the result; an empty hash gives the empty string |
| AuthCallback.ExtractTokens | src/pages/AuthCallback.jsx:11-14 | no contract; both tokens read from the fragment without its first character, characterised by ExtractReadsFirstValues and ProviderFragmentYieldsTokens |
| AuthCallback.Truthy | src/pages/AuthCallback.jsx:16 | no contract; JavaScript truthiness of a `get` result: present and non-empty, used by CompleteCallback's call condition |
| AuthCallback.CompleteCallback | src/pages/AuthCallback.jsx:10-28 | `setSession` is called exactly when both extracted tokens are non-empty, and with exactly those strings; the one navigation goes to `/dashboard` exactly when the call was made and its promise fulfilled, otherwise to `/auth` |
| AuthCallback.ExtractReadsFirstValues | src/pages/AuthCallback.jsx:11-14 | for any leading character and encodable pairs whose first name does not start with `?` (the constructor would strip it), extraction yields the first value of each token name |
| AuthCallback.ProviderFragmentYieldsTokens | src/pages/AuthCallback.jsx:11-14 | for tokens A and R without `&`, `#access_token=A&refresh_token=R` yields exactly A and R |
| AuthCallback.ProviderFragmentCompletes | src/pages/AuthCallback.jsx:16-24 | with both tokens non-empty and without `&`, the call receives them and the promise's outcome picks `/dashboard` or `/auth` |
| AuthCallback.MissingRefreshTokenGoesToSignIn | src/pages/AuthCallback.jsx:25-27 | a fragment with only an access token makes no call and navigates to `/auth` |
| AuthCallback.NoCallIgnoresOutcome | src/pages/AuthCallback.jsx:16-27 | when no call is made, the outcome is `/auth` whatever the promise would have done |
| AuthCallback.CallbackTargetSettles | src/pages/AuthCallback.jsx:19-27 | under any session, the callback's target renders a page after at most one more redirect |
| QuizPage.IsCorrect | src/pages/Quizzes.jsx:124 | no contract; `answers[idx] === q.answer` with a missing answer read as `undefined`, characterised by CorrectBelowStep and SubmitQuiz |
| QuizPage.CorrectBelowStep | src/pages/Quizzes.jsx:123-125 | one more question adds one to the count exactly when its recorded answer matches |
| QuizPage.SubmitQuiz | src/pages/Quizzes.jsx:121-127 | the score is the number of indices whose answer equals the question's answer, at most the question count; nothing else changes |
| QuizPage.CorrectBelowBounds | src/pages/Quizzes.jsx:121-127 | the count of matching indices below n is at most n, and equals n exactly when all of them match |
| QuizPage.PerfectScoreIffAllCorrect | src/pages/Quizzes.jsx:121-127 | the score equals the denominator shown exactly when every question is answered correctly |
| QuizPage.HandleAnswer | src/pages/Quizzes.jsx:117-119 | the answer for the question becomes the option; every other answer and all other state stay |
| QuizPage.AnswerOverwrites | src/pages/Quizzes.jsx:117-119 | a second answer to the same question replaces the first |
| QuizPage.AnswersCommute | src/pages/Quizzes.jsx:117-119 | answers to different questions can be recorded in either order |
| QuizPage.CorrectAnswerNeverLowersScore | src/pages/Quizzes.jsx:117-127 | choosing the correct option never lowers the score and raises it by at most one |
| QuizPage.HandleQuestionChange | src/pages/Quizzes.jsx:55-59 | only the named field of the named question changes; options, other questions and other state stay |
| QuizPage.HandleOptionChange | src/pages/Quizzes.jsx:61-65 | only the named option of the named question changes |
| QuizPage.OptionChangeUndo | src/pages/Quizzes.jsx:61-65 | typing the old option text back restores the state |
| QuizPage.QuestionTextUndo | src/pages/Quizzes.jsx:55-59 | typing the old question text back restores the state |
| QuizPage.AddQuestion | src/pages/Quizzes.jsx:67-75 | exactly one blank question with four empty options is appended; existing questions stay in order |
| QuizPage.FormEditsKeepShape | src/pages/Quizzes.jsx:55-75 | the form editors keep at least one question and four options per question |
| QuizPage.RemoveId | src/pages/Quizzes.jsx:133 | no survivor has the deleted id, and the list does not grow |
| QuizPage.RemoveIdMembers | src/pages/Quizzes.jsx:133 | a quiz survives exactly when it was in the list with another id |
| QuizPage.RemoveIdKeepsOrder | src/pages/Quizzes.jsx:133 | removal works piecewise on a concatenation, so relative order is kept |
| QuizPage.RemoveAbsentId | src/pages/Quizzes.jsx:133 | a list with no quiz of that id is unchanged |
| QuizPage.RemoveIdIdempotent | src/pages/Quizzes.jsx:133 | deleting twice equals deleting once |
| QuizPage.CreateManualQuiz | src/pages/Quizzes.jsx:77-94 | on success the new quiz is prepended to the old list and the form is reset; on failure nothing changes |
| QuizPage.UploadQuiz | src/pages/Quizzes.jsx:96-115 | a request is made exactly when a file is selected; on success the quiz is prepended and the file cleared, otherwise nothing changes |
| QuizPage.DeleteQuiz | src/pages/Quizzes.jsx:129-138 | a request is made exactly when confirmed; on success exactly the quizzes with another id remain, otherwise nothing changes |
| QuizPage.DeleteUndoesCreate | src/pages/Quizzes.jsx:77-137 | deleting a just-created quiz whose id was new gives the old list back |
| QuizPage.DeleteUndoesUpload | src/pages/Quizzes.jsx:96-137 | deleting a just-uploaded quiz whose id was new gives the old list back |
| QuizPage.CreateResetsForm | src/pages/Quizzes.jsx:83-88 | after a successful save the form holds a single blank question with four empty options |

## Left out

- `src/main.jsx` only wires providers and the router together; it holds no decision logic.
- Rendering is not modelled: JSX, styling, animations, the progress spinner, the snackbar messages and the `loading` flag.
- HTTP calls and the Supabase client are not modelled. Each request's outcome is an input: the created or generated quiz, a success flag for delete, and whether the promise returned by `setSession` fulfils.
- React scheduling, effect timing and unmounting are not modelled. `React.StrictMode` may run the callback effect twice, and the code has no guard against that. `createManualQuiz` and `uploadQuiz` prepend to the list captured when the handler started, and `deleteQuiz` filters the list it captured before its request, so a concurrent change to the list (say a create that completes while a delete is in flight) is lost. Neither is represented.
- AuthCallback.CompleteCallback: the page branches only on whether the `setSession` promise fulfils or rejects; it never reads the `{ data, error }` value it fulfils with. A token pair the backend refuses without rejecting therefore still navigates to `/dashboard`, where `PrivateRoute` sends a visitor on to `/auth`; CallbackTargetSettles proves that bounce settles for any session. The backend's verdict itself is not modelled.
- Callback tokens are required to be truthy, not merely present: `access_token=` with an empty value counts as missing and leads to `/auth` without a call.
- Route matching uses exact string equality. react-router's case-insensitive matching and its trailing-slash tolerance are not modelled.
- Metadata flags are optional booleans. A non-boolean JSON value, such as the string `"false"`, is truthy in JavaScript; that case is not represented.
- FormUrlEncoded.ParsePair: names and values are not percent-decoded and `+` is not turned into a space; keys and values are compared as raw text.
- The initial fetch of the quiz list (`res.data.quizzes || []`) and selecting a quiz to take are not modelled as operations. Selecting a quiz does not reset the answers in the source, and `SubmitQuiz` scores whatever answers are in the state.
- QuizPage.HandleQuestionChange: requires an in-range question index. The UI only passes indices of rendered questions; an out-of-range index would throw in the source. Field names other than `question` and `answer` are not modelled.
- QuizPage.HandleOptionChange: requires in-range indices. An out-of-range option index would grow the options array in JavaScript, and that is not modelled.
- QuizPage.IsCorrect: a question's correct answer is either a string or missing (`undefined`). A JSON `null` answer is read as missing, so an unanswered question with `answer: null` counts as correct in the model, whereas `undefined === null` is false in JavaScript.
- The form editors mutate the shared question object in place before the state is replaced. The model treats them as pure updates, which is the state React ends up with.

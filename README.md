# Competition workflow — a Dafny model

This project models the server side of a video-submission competition, built on Express and Mongoose, together with two client-side reductions that mirror its rules. It covers these flows:

- **Accounts.** Participants, evaluators and admins register and log in. A participant may create a team while registering.
- **Teams.** A team lead adds members, up to five per team, and each user belongs to at most one team.
- **Evaluator approval.** An admin approves evaluators.
- **Submissions.** A team submits a video. A new submission gets a panel of three randomly chosen approved evaluators and a 30-day deadline. A resubmission only overwrites the content.
- **Evaluations.** Evaluators score submissions on a ten-criterion rubric whose maxima sum to 100. Once three evaluations exist, the submission becomes `evaluated`.
- **Leaderboard.** It lists the evaluated submissions by average total score, highest first.

The store is the class `Store.Db`. It holds one `seq` per collection, in insertion order, which is the order `find` and `findOne` see. It also holds a counter `nextId` that plays the part of ObjectId generation. `Db.Valid()` is the invariant every handler keeps:

- ids are fresh and distinct;
- emails are distinct, and every stored user passes the User validators when saved again;
- teams pass their validators and have unique names;
- each team's member list and each user's `teamId` point at each other;
- there is one submission per team, and its panel is three distinct approved evaluators;
- every stored evaluation passes the schema's validators.

Each handler that writes is specified in two layers:

- **A pure function.** It takes the collections' values and returns the outcome together with the new collections. Errors are a `Result` with a `Failure`, and `Base.StatusCode` maps each failure to its HTTP status.
- **A method.** It runs the handler on the store. Its contract says the method does exactly what the function says, and that it keeps `Valid()`.

Read-only handlers and the client-side code are pure functions. A few inputs the server takes from outside become parameters:

- the current time (`now`);
- the order `Math.random` leaves the evaluator pool in (`perm`, any permutation);
- what `parseFloat` makes of a text field.

## Model

| member | source | states |
|---|---|---|
| Base.Count | routes/admin.js:55-60 | Counting the matching documents one at a time gives the length of the filtered list, and never more than the collection holds. |
| Base.StatusCode | routes/teams.js:15-29 | Every failure is answered with a 4xx status: 404 exactly for "not found", 403 exactly for ownership, and 401 exactly for bad credentials or pending approval. |
| Text.TrimStartShape | models/User.js:7 | Trimming the front removes a prefix made only of white space and leaves a string that does not start with white space. |
| Text.TrimEndShape | models/User.js:7 | Trimming the end removes a suffix made only of white space and leaves a string that does not end with white space. |
| Text.Trim | models/User.js:7 | The trimmed string starts and ends with a non-space character, or is empty. |
| Text.TrimShape | models/User.js:7 | The trimmed string is a contiguous slice of the input, with only white space cut on either side. |
| Text.TrimEmptyIffBlank | models/Submission.js:9-18 | A string trims to nothing exactly when it is all white space. |
| Text.TrimIdempotent | models/User.js:7 | Trimming twice is trimming once. |
| Text.TrimOption | models/User.js:26-41 | An optional field keeps its presence, and a present value is trimmed. |
| Text.Lower | models/User.js:13 | Lower-casing maps each character and keeps the length. |
| Text.LowerTrimStart | models/User.js:13-14 | Lower-casing commutes with trimming the front. |
| Text.LowerTrimEnd | models/User.js:13-14 | Lower-casing commutes with trimming the end. |
| Text.LowerIdempotent | models/User.js:13 | Lower-casing twice is lower-casing once. |
| Text.NormalizeEmail | models/User.js:9-15 | A normalised email is no longer than the input and has no upper-case ASCII letter. |
| Text.NormalizeEmailIdempotent | models/User.js:9-15 | Normalising an email twice is normalising it once, so a stored email matches itself as a query filter. |
| UserSchema.ParseRole | models/User.js:21-25 | A string is accepted exactly when it is the name of one of the three roles, and then it names that role. |
| UserSchema.RoleNamesRoundTrip | models/User.js:21-25 | Every role's name parses back to that role. |
| UserSchema.CastRole | models/User.js:21-25 | An absent role becomes `participant`. A given role is kept exactly when it is one of the three enum values, and is rejected otherwise. |
| UserSchema.Build | models/User.js:3-56 | Saving succeeds exactly when name, email and password are present, the trimmed name and the normalised email are non-empty, the password is at least 6 long, and the role is in the enumeration. The stored user then has the trimmed name, the normalised email, the defaulted role, `approved` only when it was given as true, and no team. |
| UserSchema.BuildPassesValidators | models/User.js:4-20 | A user that was saved once passes the required, trim, lowercase and minlength validators again when it is saved a second time. |
| UserSchema.HashedPasswordLongEnough | models/User.js:16-20 | A bcrypt hash always satisfies `minlength: 6`. |
| TeamSchema.NewTeam | models/Team.js:4-18 | A new team stores its name trimmed, and keeps its lead and members as given. |
| TeamSchema.NewTeamValid | models/Team.js:4-30 | `ValidTeam`, the checks `save()` makes of a team, holds of a new team exactly when its name has a non-space character and it has at most 5 members. |
| TeamSchema.BlankNameRejected | models/Team.js:4-9 | A name that is all white space fails the required validator. |
| SubmissionSchema.ParseStatus | models/Submission.js:27-31 | A status string is accepted exactly when it is one of the three enum values. |
| SubmissionSchema.StatusNamesRoundTrip | models/Submission.js:27-31 | Every status's name parses back to that status. |
| SubmissionSchema.Normalize | models/Submission.js:9-26 | `videoLink`, `topic` and `description` are trimmed, and `learningOutcomes` is kept verbatim. |
| SubmissionSchema.ContentAccepted | models/Submission.js:9-22 | The content passes the required validators exactly when `videoLink` and `topic` contain a non-space character and `learningOutcomes` is non-empty. |
| SubmissionSchema.ValidSubmissionContent | models/Submission.js:9-47 | `ValidSubmission`, the checks `save()` makes of a submission, holds after new content is written exactly when `videoLink` and `topic` have a non-space character, `learningOutcomes` is non-empty and the submission has a deadline. |
| SubmissionSchema.WithContent | routes/submissions.js:106-110 | An update overwrites the four content fields and `updatedAt`. The id, team, status, panel, submission time and deadline are unchanged. |
| EvaluationSchema.CriteriaEnumerateKeys | models/Evaluation.js:14-75 | The ten criteria are listed once each, under distinct keys. |
| EvaluationSchema.MaximaSumTo100 | models/Evaluation.js:15-81 | The criterion maxima 5, 15, 10, 5, 25, 5, 10, 5, 10, 10 sum to the `totalScore` maximum of 100. |
| EvaluationSchema.InBoundsTotalWithin | models/Evaluation.js:15-81 | Criteria within their `[0, max]` bounds always total within `[0, 100]`. |
| EvaluationSchema.DefaultsValid | models/Evaluation.js:19-80 | The all-default rubric, every criterion 0, is within bounds and totals 0. |
| EvaluationSchema.ValidEvaluationTotal | models/Evaluation.js:3-92 | In a valid evaluation the rubric's sum lies in `[0, 100]`, the range the schema demands of the stored total. |
| EvaluationSchema.NewEvaluation | models/Evaluation.js:3-92 | The evaluation is valid exactly when `submission` and `evaluator` are present, every criterion is in bounds and the total is in `[0, 100]`. The comments are trimmed. |
| Store.EmailLookup | routes/auth.js:17-20 | A present email finds the first user whose stored email equals its normalised form, or none exactly when no user has it. An absent email finds nobody. |
| Store.Db.constructor | server.js:20-21 | An empty store satisfies the invariant. |
| Store.ApprovedEvaluators | routes/admin.js:24 | The list is exactly the stored evaluators that are approved, and its length is their count. The panel pool of routes/submissions.js:11 is the same query. |
| Store.ApprovedGrows | routes/admin.js:41-42 | Replacing one user by one with the same id that stays, or becomes, an approved evaluator never shrinks the approved pool. |
| Store.SubmissionsKeepPanels | routes/submissions.js:11-22 | Panels stay valid when the pool of approved evaluators grows. |
| Store.ReplaceKeepsSubmissionsOk | routes/submissions.js:106-111 | Replacing a submission by one with the same id, team and panel keeps the submission invariant. |
| Store.AppendKeepsSubmissionsOk | routes/submissions.js:125-136 | Appending a submission with a fresh id, a new team and a valid panel keeps the submission invariant. |
| Submissions.PoolIdsApproved | routes/submissions.js:11-14 | The pool lists every approved evaluator exactly once, and nothing else. |
| Submissions.SelectPanel | routes/submissions.js:16-22 | No panel exactly when the pool has fewer than 3 evaluators. Otherwise the panel is 3 ids from the pool, pairwise distinct when the pool is. |
| Submissions.SwapKeepsShuffle | routes/submissions.js:21 | Swapping two entries of a permutation gives a permutation. |
| Submissions.AnyTripleReachable | routes/submissions.js:21-22 | Every three distinct members of the pool form the panel for some shuffle, so the model fixes no particular choice. |
| Submissions.NewSubmission | routes/submissions.js:125-134 | A new submission is `under_review` with the panel as `assignedEvaluators`, a deadline of now plus 30·24·60·60·1000 ms, and normalised content. |
| Submissions.CallerTeam | routes/submissions.js:96-100 | A found team is the `teamId` of the first user with the caller's id, and it names a stored team. An unknown caller crashes. A caller without a `teamId`, or whose `teamId` names no stored team, gets "You must be part of a team". |
| Submissions.CallerTeamFound | routes/submissions.js:96-100 | The caller's team is found exactly when the first user with the caller's id has a `teamId` that names a stored team. |
| Submissions.Edit | routes/submissions.js:104-113 | An update either fails validation and changes nothing, or replaces exactly that submission with its content overwritten. |
| Submissions.Create | routes/submissions.js:115-136 | A creation fails exactly when the pool is too small or the new document is invalid, and then stores nothing. Otherwise it appends the new submission with the selected panel. |
| Submissions.PostForTeam | routes/submissions.js:101-136 | Once the team is known, an error changes nothing. A team that has a submission keeps the same number of submissions, so it is never duplicated. A team without one that succeeds gets exactly one new submission for it, appended after the others. |
| Submissions.Post | routes/submissions.js:93-136 | On any error the submissions are unchanged, and success needs a caller with a team. |
| Submissions.PostWithoutTeam | routes/submissions.js:98-100 | A caller without a team gets `NotInTeam`, and nothing changes. |
| Submissions.PostUpdates | routes/submissions.js:102-113 | A team's existing submission gets only its content and `updatedAt` replaced. Status and panel are kept, no panel is drawn, and no other submission changes. |
| Submissions.PostWithoutPanel | routes/submissions.js:116-122 | A new submission with fewer than 3 approved evaluators is refused, and nothing is stored. |
| Submissions.PostCreates | routes/submissions.js:124-136 | A new submission is appended with the fresh id, the caller's team, `under_review`, the 30-day deadline and the panel, which is 3 distinct approved evaluators. |
| Submissions.PostKeepsSubmissionsOk | routes/submissions.js:93-136 | Posting keeps the submission invariant, keeps statuses moving only forward, and adds at most one submission. |
| Submissions.MyAssignments | routes/submissions.js:49-63 | Non-evaluators get 403. Otherwise the result is exactly the submissions whose panel contains the caller, and its length is their count. |
| Submissions.MyTeam | routes/submissions.js:72-84 | An unknown caller crashes. A caller without a team gets 404 "No team found". Otherwise the result is the first stored submission of the first matching user's team, or none when the team has none. |
| Submissions.UpdateSubmission | routes/submissions.js:104-112 | The update, run on the store, does what `Edit` says, keeps the invariant and moves statuses only forward. |
| Submissions.CreateSubmission | routes/submissions.js:115-136 | The creation, run on the store with the next id, does what `Create` says, keeps the invariant and moves statuses only forward. The id counter advances by one exactly when a submission was saved. |
| Submissions.SaveForTeam | routes/submissions.js:101-136 | The update-or-create step for a known team, run on the store, does what `PostForTeam` says and keeps the invariant. Statuses only move forward, and the id counter advances by one exactly when a new submission was saved. |
| Submissions.CreateOrUpdate | routes/submissions.js:93-136 | The handler, run on the store, does what `Post` says, keeps the invariant, and writes only submissions. The id counter advances by one exactly when a new submission was saved. |
| Evaluations.ParseKey | routes/evaluations.js:12-18 | A key names a criterion exactly when it is that criterion's key. |
| Evaluations.ParseKeyRoundTrip | routes/evaluations.js:12-18 | Every criterion's key is read back as that criterion. |
| Evaluations.ScoreFrom | routes/evaluations.js:18 | A criterion takes the value sent under its key, or the default 0 when the key is absent. |
| Evaluations.EntriesRoundTrip | routes/evaluations.js:13-18 | For an object holding exactly the ten criteria, the stored rubric is the one sent, and the computed total is that rubric's total. |
| Evaluations.ForSubmission | routes/evaluations.js:44 | The result is exactly the evaluations whose `submission` is the given id, and its length is their count. |
| Evaluations.ForSubmissionAppend | routes/evaluations.js:23-26 | Adding an evaluation adds it to its own submission's list and to no other. |
| Evaluations.Candidate | routes/evaluations.js:13-21 | The evaluation records the caller as evaluator, the given submission, the stored rubric, the sum of all sent values as total, and the trimmed comments. |
| Evaluations.Record | routes/evaluations.js:10-36 | The evaluation is appended exactly when the criteria are present and it passes the validators, and a success returns that evaluation. |
| Evaluations.Conclude | routes/evaluations.js:26-31 | Below the quorum the submissions are untouched. The evaluations are never changed again once saved. |
| Evaluations.RecordStores | routes/evaluations.js:15-23 | A stored evaluation has the caller, the submission, the summed total and the rubric sent. |
| Evaluations.RecordRejects | routes/evaluations.js:23 | An evaluation failing the validators is 400, and nothing is written. |
| Evaluations.RecordQuorum | routes/evaluations.js:26-31 | The submission's count grows by one. Below 3 nothing else changes. At 3 or more, that submission, and only that one, becomes `evaluated`. |
| Evaluations.RecordOrphan | routes/evaluations.js:23-35 | At the quorum with an unknown submission id the request fails, yet the evaluation is already stored. |
| Evaluations.FlipIdempotent | routes/evaluations.js:29 | Setting `evaluated` again on an evaluated submission changes nothing. |
| Evaluations.SameEvaluatorCountsTwice | routes/evaluations.js:15-27 | Two evaluations by the same evaluator both count towards the quorum. |
| Evaluations.RecordKeepsInvariant | routes/evaluations.js:10-36 | Recording keeps the evaluation and submission invariants, and statuses move only forward. |
| Evaluations.SaveEvaluation | routes/evaluations.js:23 | Saving a valid evaluation with the next id appends it and keeps the invariant. |
| Evaluations.ConcludeStored | routes/evaluations.js:26-31 | The quorum step, run on the store, does what `Conclude` says and keeps the invariant. |
| Evaluations.Submit | routes/evaluations.js:10-36 | The handler, run on the store, does what `Record` says, keeps the invariant, and writes only evaluations and submissions. The id counter advances by one exactly when an evaluation was saved. |
| Leaderboard.Average | routes/leaderboard.js:18-21 | The average is 0 for no evaluations, and otherwise the sum of the totals divided by their number. |
| Leaderboard.AverageWithin | routes/leaderboard.js:18-21 | Averages of valid evaluations lie in `[0, 100]`. |
| Leaderboard.ToFixed2 | routes/leaderboard.js:20 | Rounding to two decimals gives a whole number of hundredths, never negative, at most half a hundredth away from the value. |
| Leaderboard.ToFixed2Within | routes/leaderboard.js:20 | Rounding keeps a score within `[0, 100]`. |
| Leaderboard.EntryOf | routes/leaderboard.js:17-28 | An entry carries the submission's team and topic, exactly its evaluations, and their average, rounded, or 0 when there are none. |
| Leaderboard.EvaluatedSubmissions | routes/leaderboard.js:11 | The leaderboard reads exactly the evaluated submissions, and the list's length is their count. |
| Leaderboard.Unsorted | routes/leaderboard.js:17-29 | There is one entry per evaluated submission, in store order. |
| Leaderboard.Position | routes/leaderboard.js:31 | A new entry goes after every entry with an average at least as high. |
| Leaderboard.InsertSorted | routes/leaderboard.js:31 | Inserting into a sorted board keeps it sorted, and adds exactly that entry. |
| Leaderboard.Sort | routes/leaderboard.js:31 | The sorted board is in non-increasing order of average and is a permutation of its input. Its stability is `Leaderboard.SortStable`. |
| Leaderboard.InsertStable | routes/leaderboard.js:31 | Inserting keeps the relative order of entries with equal averages, and the new entry goes last among them. |
| Leaderboard.SortStable | routes/leaderboard.js:31 | Sorting is stable: entries with equal averages keep their store order. |
| Leaderboard.Board | routes/leaderboard.js:9-36 | The board the route answers is sorted highest average first and is a permutation of the entries of the evaluated submissions, one per submission. That ties keep store order is `Leaderboard.BoardCorrect`. |
| Leaderboard.BoardCorrect | routes/leaderboard.js:11-32 | The board is sorted non-increasing, holds exactly one entry per evaluated submission, and keeps ties in store order. |
| Leaderboard.BoardScoresWithin | routes/leaderboard.js:18-21 | Every average on the board lies in `[0, 100]`. |
| Teams.LedTeam | routes/teams.js:13 | The first team whose lead is the caller, or none exactly when the caller leads no team. |
| Teams.AddMember | routes/teams.js:10-38 | On error nothing changes. On success the sizes are kept and the saved team passes its validators. A missing `memberEmail` goes through the same email lookup as registration. |
| Teams.AddMemberWithoutTeam | routes/teams.js:13-17 | A caller who leads no team gets "Team not found", and nothing changes. |
| Teams.AddMemberToFullTeam | routes/teams.js:19-21 | A team of 5 or more refuses the add, and nothing changes. |
| Teams.AddMemberUnknownEmail | routes/teams.js:23-26 | An email matching no user is "User not found", and nothing changes. |
| Teams.AddMemberWithoutEmail | routes/teams.js:12-26 | A request without `memberEmail` finds no user: 404 "User not found", and nothing changes. |
| Teams.AddMemberAlreadyInTeam | routes/teams.js:28-30 | A user who already has a team is refused, and nothing changes. |
| Teams.AddMemberSucceeds | routes/teams.js:32-36 | The member id is appended to the team, and the member's `teamId` is set. The team grows by exactly one and stays within 5. |
| Teams.AddMemberKeepsStore | routes/teams.js:32-36 | Every outcome keeps ids, emails, team validity, unique names and the two-way link. Every user, the re-saved member included, still passes the User validators, so the member's save succeeds. |
| Teams.LinkGrows | routes/teams.js:32-36 | Appending the member and pointing the member back keeps the two-way link. |
| Teams.AddTeamMember | routes/teams.js:10-38 | The handler, run on the store, does what `AddMember` says, keeps the invariant, and writes only teams and users. |
| Admin.PendingEvaluators | routes/admin.js:12 | The list is exactly the stored evaluators that are not approved, and its length is their count. |
| Admin.EvaluatorListsPartition | routes/admin.js:12-24 | The pending list is exactly the unapproved evaluators and the approved list exactly the approved ones. Together they count every evaluator once. |
| Admin.Approve | routes/admin.js:36-42 | A missing user or a non-evaluator gives 404 "Evaluator not found" and no change. Otherwise the result is an approved evaluator. |
| Admin.ApproveRejects | routes/admin.js:36-39 | Without an evaluator of that id, approval is 404 and changes nothing. |
| Admin.ApproveSets | routes/admin.js:41-42 | Approval sets `approved` and changes nothing else, in that user or any other. |
| Admin.ApproveIdempotent | routes/admin.js:41-42 | Approving twice is approving once. |
| Admin.ApproveAddsToPool | routes/admin.js:41-42 | The approved pool grows by exactly the approved id. |
| Admin.ApproveResaves | routes/admin.js:41-42 | The approved evaluator, saved again, passes the User validators, and the users' invariant holds afterwards. |
| Admin.SameKeysKeepStore | routes/admin.js:41-42 | Changing a user without touching its id, name, email, password or team keeps the users' invariant and the link, and the changed user passes the User validators. |
| Admin.ApproveEvaluator | routes/admin.js:34-48 | The handler, run on the store, does what `Approve` says, keeps the invariant, and writes only users. |
| Admin.StatsOf | routes/admin.js:53-69 | The evaluator counts are the lengths of the two lists, and the submission counts are bounded by the total. |
| Admin.StatsAddUp | routes/admin.js:57-60 | The pending, under-review and evaluated counts add up to the total. The two evaluator counts add up to the number of evaluators. |
| Auth.DefaultedRole | routes/auth.js:30 | `role \|\| 'participant'`: a truthy role is kept, and any other becomes `participant`. |
| Auth.NewUser | routes/auth.js:23-38 | An absent password crashes the hash. A saved user has the hashed password, the normalised email, the cast role, no team, and `approved` exactly when the role sent was `participant`. |
| Auth.TeamStep | routes/auth.js:40-50 | Only a participant with a team name gets a team. It is a new valid team led by, and holding only, the user, who points back at it. A team failure leaves the user stored. |
| Auth.RegisterAs | routes/auth.js:12-50 | A success appends the user with a free email, the hashed password, the given role cast, and `approved` exactly for a literal `participant`. |
| Auth.Register | routes/auth.js:12-70 | A stored email is refused before any write. A failure leaves the teams unchanged. A success appends the user, approved exactly for a literal `participant`, with the role sent when it is truthy and an unapproved `participant` otherwise. |
| Auth.RegisterEmailTaken | routes/auth.js:17-20 | A stored email is refused before anything is written. |
| Auth.RegisterRole | routes/auth.js:30-35 | The role defaults to `participant`, but only a literal `participant` is approved, so registering without a role gives an unapproved participant. |
| Auth.RegisterCreatesTeam | routes/auth.js:41-50 | A participant naming a team leads and is the only member of a new team, with the user's `teamId` pointing at it. Anyone else leaves the teams alone. |
| Auth.RegisterKeepsStore | routes/auth.js:12-50 | Registering keeps ids, emails, teams and the link consistent, and the approved pool never shrinks. |
| Auth.RegisterKeepsStoreOk | routes/auth.js:12-50 | Registering keeps the whole store invariant. |
| Auth.Login | routes/auth.js:75-94 | A request without an email finds no user and gets 401. A success is the stored user holding the normalised email, whose password matches and who is not an unapproved evaluator. Failures are 401, or a crash for an absent password. |
| Auth.LoginUnknownEmail | routes/auth.js:80-83 | An unknown or absent email gives 401. |
| Auth.LoginOutcome | routes/auth.js:86-94 | For the user with that email: a wrong password is 401, an unapproved evaluator is 401, and anyone else gets in whatever their `approved` flag. |
| Auth.RegisterThenLogin | routes/auth.js:12-94 | A newly registered user can log in with the same credentials, unless they are an evaluator awaiting approval. |
| Auth.SaveUserAndTeam | routes/auth.js:38-50 | The user save and the team step, run on the store, do what `TeamStep` says. |
| Auth.RegisterUser | routes/auth.js:12-50 | Registration, run on the store with the next two ids, does what `RegisterAs` says and keeps the invariant. The id counter advances by two exactly when the user was saved. |
| AuthController.ControllerRegister | controllers/authController.js:7-27 | `approved` is exactly `role === 'participant'`, the role is cast as given, and an absent role gives an unapproved participant. A failure leaves the teams unchanged and at most the user stored. |
| AuthController.ControllerAgreesWithRoute | controllers/authController.js:15-18 | For every role but the empty string, the controller and the route give the same answer and the same store. |
| AuthController.EmptyRoleDiffers | controllers/authController.js:16 | With an empty role the controller fails validation without writing, while the route stores an unapproved participant. |
| AuthController.ControllerEmailTaken | controllers/authController.js:11-12 | A stored email is refused with 400 before any write. |
| AuthController.ControllerCreatesTeam | controllers/authController.js:22-27 | A participant with a team name becomes the lead and sole member of a new team, and `teamId` links back. |
| EvaluatorRoutes.AssignmentsOf | routes/evaluatorRoutes.js:12-14 | The list is exactly the assignments whose evaluator is the caller, and its length is their count. |
| EvaluatorRoutes.Checked | routes/evaluatorRoutes.js:49-58 | A failure is 404 or 403 and changes nothing. A success is the first assignment with that id, owned by the caller, changed and saved in its place, and nothing else changes. |
| EvaluatorRoutes.Grade | routes/evaluatorRoutes.js:43-73 | A failure is 404 "Assignment not found" or 403 and changes nothing. A success is the caller's assignment with that id, saved in place with the score and comment as sent and status `Completed`, its id and submission kept. |
| EvaluatorRoutes.Complete | routes/evaluatorRoutes.js:76-99 | A failure is 404 or 403 and changes nothing. A success sets `Completed` on the caller's assignment with that id and changes nothing else. |
| EvaluatorRoutes.WritesMissing | routes/evaluatorRoutes.js:51-53 | Grading or completing a missing assignment is 404 "Assignment not found", and nothing changes. |
| EvaluatorRoutes.WritesForbidden | routes/evaluatorRoutes.js:56-58 | Grading or completing another evaluator's assignment is 403, and nothing changes. |
| EvaluatorRoutes.GradeSets | routes/evaluatorRoutes.js:61-63 | Grading sets the score, the comment and `Completed`, keeps the id, evaluator and submission, and changes no other assignment. |
| EvaluatorRoutes.CompleteSets | routes/evaluatorRoutes.js:89 | Completing sets only the status. |
| EvaluatorRoutes.CompleteIdempotent | routes/evaluatorRoutes.js:78-89 | Completing twice is completing once. |
| EvaluatorRoutes.Regrade | routes/evaluatorRoutes.js:49-63 | A graded assignment can be graded again, and the second grade replaces the first. |
| EvaluatorRoutes.GradeAssignment | routes/evaluatorRoutes.js:43-68 | The grade handler, run on the store, does what `Grade` says and keeps the invariant. |
| EvaluatorRoutes.CompleteAssignment | routes/evaluatorRoutes.js:76-94 | The complete handler, run on the store, does what `Complete` says and keeps the invariant. |
| UserRoutes.ConflictMessage | routes/userRoutes.js:34-41 | The email message exactly when the first `keyPattern` field is `email`, the username message exactly when it is `username`, and the generic message otherwise. |
| UserRoutes.ErrorReply | routes/userRoutes.js:31-46 | 409 exactly for a duplicate-key error, with the message of its first field, and 500 exactly for any other error. |
| UserRoutes.SuccessReply | routes/userRoutes.js:25-29 | The 201 reply exposes only the id, the username and the email. |
| UserRoutes.Register | routes/userRoutes.js:9-13 | 400 exactly when a field is falsy, with nothing saved. |
| UserRoutes.RegisterNeverStores | routes/userRoutes.js:20-22 | The document lacks the required `name`, so no body ever stores a user. A complete body is answered 500, never 201 or 409. |
| EvaluatorDashboard.SetScore | client/src/components/EvaluatorDashboard.jsx:42-45 | Exactly the named criterion takes the new value. |
| EvaluatorDashboard.Change | client/src/components/EvaluatorDashboard.jsx:41-46 | The comments take the text verbatim. A criterion takes the parsed number, or 0 when parsing fails. Nothing else changes. |
| EvaluatorDashboard.ChangeOnlyNamedKey | client/src/components/EvaluatorDashboard.jsx:42-45 | The form's keys and their order are kept, and only the value under the named key can change. |
| EvaluatorDashboard.CalculateTotalIsTotal | client/src/components/EvaluatorDashboard.jsx:48-52 | Leaving out `comments` leaves exactly the ten criteria, all numbers, holding the rubric's scores in schema order. |
| EvaluatorDashboard.CalculateTotal | client/src/components/EvaluatorDashboard.jsx:48-52 | The displayed total is the rubric's total, the sum the server computes and stores. |
| EvaluatorDashboard.PayloadStoresForm | client/src/components/EvaluatorDashboard.jsx:54-71 | The server stores the rubric the form holds, and computes the total the form shows. |
| EvaluatorDashboard.SubmitEnabled | client/src/components/EvaluatorDashboard.jsx:268 | The submit button is enabled exactly when the rubric's total is not 0. |
| EvaluatorDashboard.SubmitEnabledIffScored | client/src/components/EvaluatorDashboard.jsx:268 | With no negative score, submitting is enabled exactly when some criterion is above 0. |
| EvaluatorDashboard.AfterSubmit | client/src/components/EvaluatorDashboard.jsx:76-88 | An accepted submit leaves a rubric within bounds, totalling 0, with no comments. A failed one leaves the form as it was. |
| EvaluatorDashboard.AfterSubmitResets | client/src/components/EvaluatorDashboard.jsx:76-88 | After an accepted submit the form is back to all zeros with no comments, total 0 and the submit button disabled. |
| EvaluatorDashboard.SlidersMatchSchema | client/src/components/EvaluatorDashboard.jsx:181-192 | The sliders are the schema's criteria in schema order, with the schema's maxima, summing to 100. |
| EvaluatorDashboard.ChangeKeepsBounds | client/src/components/EvaluatorDashboard.jsx:233-241 | Moving a slider to a half-point stop within its maximum, or typing unparsable text, keeps the rubric within bounds and the total within `[0, 100]`. |
| EvaluatorDashboard.ChangeMovesTotal | client/src/components/EvaluatorDashboard.jsx:41-52 | Changing one criterion moves the total by exactly that criterion's change. |
| AdminDashboard.LoadStatistics | client/src/components/AdminDashboard.jsx:65-79 | There are no more teams than submissions, the pending and completed counts add up to the total, and the pending-evaluator count is the list's length. |
| AdminDashboard.TeamIdsBound | client/src/components/AdminDashboard.jsx:74 | The distinct team ids are never more than the submissions. |
| AdminDashboard.TeamIdsDistinct | client/src/components/AdminDashboard.jsx:74 | With one submission per team, as the store keeps, the team count equals the submission count. |
| AdminDashboard.OpenAndDoneCover | client/src/components/AdminDashboard.jsx:76-77 | Each status is counted as pending or as completed, never both. |
| AdminDashboard.DashboardAgreesWithServer | client/src/components/AdminDashboard.jsx:72-79 | The dashboard's counts agree with the server's `/stats` counts. |
| AdminDashboard.PendingAlertIffPending | client/src/components/AdminDashboard.jsx:124 | The pending alert shows exactly when some evaluator awaits approval. |
| AdminDashboard.WarningIffNoPanel | client/src/components/AdminDashboard.jsx:141-144 | The minimum-evaluator warning shows exactly when panel selection would return no panel. |
| AdminDashboard.Recent | client/src/components/AdminDashboard.jsx:166 | The table shows the first five submissions, or all of them when there are fewer. |

## Left out

- **HTTP and Mongoose plumbing.** Express routing, response bodies beyond the status and error kind, `populate`, and JWT token generation are not modelled. The hashing inside bcrypt is not modelled either: a hash is the value `Hashed(p)`, and a password matches exactly its own hash.
- **Middleware.** The route middleware (`authMiddleware`, `adminOnly`, `evaluatorOnly`, `protect`, `evaluator`) is not part of this model. Its role checks are taken as given: the caller id is a parameter. `MyAssignments` keeps its own role check.
- **Unmounted code.** routes/evaluatorRoutes.js and routes/userRoutes.js are not mounted by server.js, and neither server.js nor any route file mounts or references controllers/authController.js; routes/auth.js defines its own handlers. All three are modelled as written.
- **The assignment model.** The EvaluatorAssignment model is not part of this model. Its documents carry only the fields the routes touch, and its save is taken to succeed, so its validators and the 500 answer are not modelled.
- **Concurrency.** Every request is one sequential step. Interleavings are not modelled, including the race between counting evaluations and flipping the status.
- **Clock and randomness.** The clock is the parameter `now`. `Math.random` is replaced by an arbitrary permutation `perm` of the pool: any three distinct approved evaluators can form the panel (`Submissions.AnyTripleReachable`). How uniform the choice is, is not modelled.
- **Number formatting.** Scores are exact reals. `toFixed` rounding is bounded to within half a hundredth (`Leaderboard.ToFixed2`) rather than computed digit by digit. Its string result is treated as a number.
- **Values of the wrong type.** A non-number value in the `criteria` object is not modelled. `parseFloat` is modelled by its result, not by parsing text.
- **Id consumption.** Ids are consumed as follows:
  - registration that saves the user reserves two ids, one for the user and one for the team, even when no team is made, and a registration that stores no user reserves none;
  - a submission or evaluation takes an id only when it is saved.
- **Lower-casing.** Lower-casing covers ASCII letters only.
- **Timestamps.** The `createdAt`/`updatedAt` timestamps that Mongoose adds are not modelled.
- **The full submission list.** GET /api/submissions (routes/submissions.js:32-44) is modelled only as the store's submission list in order, which `AdminDashboard.LoadStatistics` takes as input.
- **Other replies.** The controller's reply, which holds the full user document, is not modelled. The route's reply holds only id, name, email and role.
- **Out of scope.** Chat, UI rendering, the seeding script and the participant dashboard are not modelled.
- **Auth.RegisterUser and the controller.** Both handlers run through `Auth.RegisterUser`: the route passes `DefaultedRole(role)` and the controller passes the role as sent. The controller's login is the route's login, in the same order, and both are modelled by `Auth.Login`.
- **Auth.RegisterUser writes its outcome in one step.** The store receives the users and teams that `Auth.RegisterAs` computes in a single assignment. The order of the saves (user, team, then user again) is modelled on its own by `Auth.SaveUserAndTeam`, which `Auth.RegisterUser` does not call.
- **Team.js `teamLead` and `members` references.** Whether these references point at stored users is not checked. The route only ever supplies stored ids.

## Notes on the code

- **Rubric bounds are enforced.** Every `criteria` value and the `totalScore` carry `min`/`max` validators in models/Evaluation.js. They run on save, so an out-of-range rubric is rejected and nothing is stored (`Evaluations.RecordRejects`).
- **Duplicate evaluations count.** The quorum counts evaluations, not distinct evaluators. One evaluator submitting three times flips the status (`Evaluations.SameEvaluatorCountsTwice`).
- **An absent email matches nobody.** When the body has no email, `User.findOne({ email })` is sent with `email: undefined`, which the MongoDB driver serialises as `null` by default. Since `email` is required, no stored user has `null`, so the lookup finds nobody (`Store.EmailLookup`). This rests on the driver's default `ignoreUndefined: false`, which no source file sets. As a result, registering without an email fails the User validators, while logging in without one, or adding a member without `memberEmail`, is refused as an unknown user.
- **userRoutes.js and the User schema disagree.** The route builds `new User({ username, email, password })`, but the User schema has no `username` path and requires `name`. Against models/User.js, every request that passes the field check fails validation and is answered 500 (`UserRoutes.RegisterNeverStores`).
- **The two register handlers differ on an empty role.** The route replaces an empty role with `participant`. The controller passes it to the role enumeration, which rejects it (`AuthController.EmptyRoleDiffers`).

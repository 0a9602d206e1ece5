# Training core of the controlcenter roster application, in Dafny

This project models the decision and update logic behind training requests in a
virtual air-traffic-control training portal. It covers four parts:

- **The training status machine** (`Training::updateStatus`). A new status is compared
  with the status stored in the database. The comparison decides whether `started_at`
  and `finished_at` are cleared, set to the current time or left alone. The new status
  is always written.
- **The queue-length job** (`update:queuecalculation`). For every rating of every area,
  it takes the mean waiting time of the qualifying trainings and writes it onto the
  area/rating association row. A qualifying training has one single network rating and
  status -1.
- **The member sweep** (`update:members`). Mentors outside the allowed subdivisions lose
  their mentor group and associations, unless they are visiting controllers. Open
  trainings (status at least 0, type not 5) of trainees outside those subdivisions are
  closed with status -4, a fixed reason and one notice each.
- **The training policy** (`TrainingPolicy`). These are the authorization rules for
  viewing, updating, deleting, closing, applying, creating, reporting and examining.

Modules, one per source file, plus two shared ones:

- `Php` (php.dfy): nullable values, PHP's `trim`, `explode(',', …)` and the loose
  `in_array`.
- `Members` (members.dfy): the user attributes that the sweep reads and clears.
- `TrainingStatus` (training.dfy): app/Training.php. It has two parts:
  - `Transition`, a rule table over (stored status, new status, timestamps, now);
  - class `Training`, whose `UpdateStatus` method runs the source's three `if`
    statements in place and is proved equal to the table.
- `QueueCalculation` (queue.dfy): app/Console/Commands/UpdateQueueCalculation.php.
  It has the nested loops over areas and association rows, and the inner summing loop
  `MeasureQueue`. Each loop is proved against the specification function `Waits` and
  the lemmas about it.
- `MemberDetails` (member_details.dfy): app/Console/Commands/UpdateMemberDetails.php.
  It has the two loops with their counters. Each loop is proved against counting
  functions.
- `Policy` (policy.dfy): app/Policies/TrainingPolicy.php. Every rule is a pure function.

Inputs that the source takes from ambient services are parameters here:

- the clock (`now`);
- the settings `trainingEnabled` and `trainingSubDivisions`;
- the session's one-time key and the stored one-time links;
- the answers of the user model's role questions (`isModeratorOrAbove`, `isModerator`,
  `isMentor`, `isAdmin`, `hasActiveTrainings`);
- the set of ratings flagged as network ratings.

Timestamps are integer seconds. A queue length is an exact `real`.

Behaviour worth knowing, each stated by a lemma or contract of the model:

- The comparisons in `updateStatus` use the stored status. The missing-start test reads
  the in-memory copy.
- A waiting time is the absolute distance between creation and start, less the paused
  time. It is not clamped, so it can be negative.
- When a pair has no qualifying training, the attribute is set to null in memory but the
  row is not saved, so the stored value stays as it was.
- PHP's loose `in_array` lets a member with no subdivision pass whenever the allow-list
  has an empty entry. A trailing comma or an empty setting produces one.
- `apply` splits the subdivision setting without trimming, while the sweep trims each
  entry. So with a setting like `"NOR, SCA"`, a member of SCA is refused at application
  but kept by the sweep.
- The sweep checks the visiting-controller flag only for mentors. A visiting trainee's
  open training is closed like any other.
- The sweep's closing status -4 fires no timestamp rule. A closed training keeps its
  timestamps. A second sweep over the same data closes nothing, because the closed
  trainings have status -4 and so are no longer open.

Behaviour of the source that readers might not expect:

- The stored `queue_length` is not cleared when a pair has no qualifying training.
- The waiting time uses the absolute difference.
- Moving to status 1 from below leaves `finished_at` as it was, rather than making it
  unset.

## Model

| member | source | states |
|---|---|---|
| `TrainingStatus.Training.UpdateStatus` | app/Training.php:22-49 | the status always ends equal to the requested one; the timestamps end as the rule table gives for the stored status (not the in-memory one), the old timestamps and `now`; the closing reason is untouched |
| `TrainingStatus.BackToQueueClearsStamps` | app/Training.php:26-29 | moving to 0 or -1 from a higher stored status clears both timestamps |
| `TrainingStatus.BeginSetsStart` | app/Training.php:31-34 | moving to 1 from a stored status below 1 sets the start to now and keeps the finish |
| `TrainingStatus.ReopenClearsFinish` | app/Training.php:35-37 | moving to 1 from a stored status above 1 clears the finish and keeps the start |
| `TrainingStatus.CompleteUnstartedSetsBoth` | app/Training.php:40-42 | moving to 3 from below 3 without a start sets start and finish to the same instant |
| `TrainingStatus.CompleteStartedSetsFinish` | app/Training.php:43-45 | moving to 3 from below 3 with a start sets only the finish |
| `TrainingStatus.UnruledStatusKeepsStamps` | app/Training.php:26-48 | re-applying the stored status, or moving to any status other than -1, 0, 1, 3 (such as 2 or -4), changes no timestamp |
| `TrainingStatus.TransitionKeepsStartBeforeFinish` | app/Training.php:26-46 | no transition leaves a finish time without a start time if there was none before |
| `QueueCalculation.MeasureQueue` | app/Console/Commands/UpdateQueueCalculation.php:48-69 | the loop's sum and count are the sum and number of the pair's waiting times, starting from zero for each pair |
| `QueueCalculation.WaitingTimeCanBeNegative` | app/Console/Commands/UpdateQueueCalculation.php:58-62 | the waiting time is not clamped: it is negative exactly when the paused time exceeds the absolute creation-to-start distance |
| `QueueCalculation.MeasuredContributes` | app/Console/Commands/UpdateQueueCalculation.php:52-66 | every training of the area and rating that has both timestamps, a single network rating and status -1 adds its own entry, at its position, to the pair's waiting times (so equal waits are each counted); the entry is the absolute start-minus-creation distance less the paused time |
| `QueueCalculation.UnmeasuredIgnored` | app/Console/Commands/UpdateQueueCalculation.php:52-56 | a training failing any of those conditions has no influence on the pair's waiting times |
| `QueueCalculation.QueueLengthBounds` | app/Console/Commands/UpdateQueueCalculation.php:72-74 | when a pair has waiting times, its mean lies between the shortest and the longest of them |
| `QueueCalculation.MeanOfThree` | app/Console/Commands/UpdateQueueCalculation.php:72-74 | waiting times of 10, 20 and 30 seconds give a queue length of 20 seconds |
| `QueueCalculation.UpdatePivot` | app/Console/Commands/UpdateQueueCalculation.php:72-79 | with waiting times the row gets their mean in memory and in storage; without, the attribute becomes none and the stored value is unchanged |
| `QueueCalculation.HandleArea` | app/Console/Commands/UpdateQueueCalculation.php:46-80 | every association row of the area ends settled for its own rating: its mean written and saved when it has waiting times, otherwise none in memory and the stored value kept |
| `QueueCalculation.Handle` | app/Console/Commands/UpdateQueueCalculation.php:41-84 | every association row of every area ends settled for its own (area, rating) pair, independently of the other pairs |
| `Php.Explode` | app/Policies/TrainingPolicy.php:75 | `explode(',', …)` yields at least one piece, none containing a comma |
| `Php.JoinExplode` | app/Policies/TrainingPolicy.php:75 | joining the pieces with commas gives back the setting |
| `Php.ExplodeJoin` | app/Policies/TrainingPolicy.php:75 | splitting comma-joined comma-free pieces gives back the pieces |
| `Php.Trim` | app/Console/Commands/UpdateMemberDetails.php:48 | a trimmed entry starts and ends with a non-whitespace character |
| `Php.TrimStripsPadding` | app/Console/Commands/UpdateMemberDetails.php:48 | trimming removes exactly the surrounding whitespace of an entry |
| `Php.NullMatchesEmptyEntry` | app/Policies/TrainingPolicy.php:75-82 | at application, a missing subdivision passes the loose `in_array` against the untrimmed split of an empty setting or one with a trailing comma |
| `MemberDetails.AllowList` | app/Console/Commands/UpdateMemberDetails.php:48 | the allow-list has one trimmed entry per piece of the comma split |
| `MemberDetails.AllowListIgnoresPadding` | app/Console/Commands/UpdateMemberDetails.php:48 | a piece of the setting, at any position, that is a code with whitespace around it becomes exactly that code in the allow-list, so members of that subdivision are allowed |
| `MemberDetails.NullPassesSweep` | app/Console/Commands/UpdateMemberDetails.php:48-56 | in the sweep, a member or trainee without a subdivision passes the trimmed allow-list of an empty setting or one with a trailing comma |
| `MemberDetails.CountDemoted` | app/Console/Commands/UpdateMemberDetails.php:54-67 | the demotion count is at most the number of mentors and is zero exactly when every mentor is allowed or visiting |
| `MemberDetails.Demote` | app/Console/Commands/UpdateMemberDetails.php:58-63 | a demoted mentor ends with no training associations, no group memberships and no primary group |
| `MemberDetails.DetachMentors` | app/Console/Commands/UpdateMemberDetails.php:51-67 | mentors in an allowed subdivision or visiting are untouched; every other mentor has `teaches` and `groups` emptied and `group` cleared; the counter rises once per such mentor |
| `MemberDetails.OpenTrainings` | app/Console/Commands/UpdateMemberDetails.php:72 | the query returns exactly the trainings with status at least 0 and type other than 5 |
| `MemberDetails.Leaving` | app/Console/Commands/UpdateMemberDetails.php:77-79 | the trainings closed are exactly the open ones whose trainee is outside the allow-list |
| `MemberDetails.CloseOne` | app/Console/Commands/UpdateMemberDetails.php:82-84 | a closed training has status -4 and the fixed reason, and keeps the timestamps it had, since -4 fires no timestamp rule |
| `MemberDetails.CloseTrainings` | app/Console/Commands/UpdateMemberDetails.php:75-91 | each such training gets status -4 and the fixed reason and keeps its timestamps; the others are untouched; one notice with code -4 per closure; the counter equals the closures |
| `MemberDetails.Handle` | app/Console/Commands/UpdateMemberDetails.php:44-96 | the whole sweep with the trimmed allow-list; afterwards no training is left for a second sweep to close |
| `MemberDetails.NothingLeftToClose` | app/Console/Commands/UpdateMemberDetails.php:72-82 | when no open training has a departed trainee, the sweep's closing list is empty |
| `Policy.View` | app/Policies/TrainingPolicy.php:23-28 | the trainee can always view; whoever can view can see the reports |
| `Policy.Update` | app/Policies/TrainingPolicy.php:37-41 | the training's mentors can update; whoever can update can view |
| `Policy.Delete` | app/Policies/TrainingPolicy.php:50-53 | whoever can delete can update |
| `Policy.Close` | app/Policies/TrainingPolicy.php:62-65 | closing is possible only on a queued (status 0) training the user can view |
| `Policy.ViewReports` | app/Policies/TrainingPolicy.php:114-120 | an admin can always see the reports |
| `Policy.ModeratorGates` | app/Policies/TrainingPolicy.php:102-105 | creating a training by hand (and listing active and historic requests, lines 157-163) gives the same answer to any two users who answer the moderator-or-above question alike, whatever their other roles |
| `Policy.DeleteDependsOnlyOnArea` | app/Policies/TrainingPolicy.php:50-53 | deleting gives the same answer for any two trainings of the same area and users who are alike moderator-or-above there, whatever the mentors, trainee, status and other roles |
| `Policy.Apply` | app/Policies/TrainingPolicy.php:73-94 | disabled training denies first whatever else holds; otherwise the answer is allow exactly when the subdivision is in the untrimmed split, the user has no active training, and the rating is at most 2 or the user is active |
| `Policy.ApplyChecksSubdivision` | app/Policies/TrainingPolicy.php:82-86 | a subdivision outside the split is denied with its name, or "none" when unset; the `!= null` guard never disables this |
| `Policy.ApplyChecksActivity` | app/Policies/TrainingPolicy.php:89-93 | an inactive user above rating 2 without a training is denied as inactive; a user with an active training is denied for it |
| `Policy.ApplyAndSweepReadSettingDifferently` | app/Policies/TrainingPolicy.php:75 | a setting with a space after the comma refuses an application that the sweep's trimmed list accepts |
| `Policy.FindOneTimeLink` | app/Policies/TrainingPolicy.php:142-155 | a found link belongs to the training and carries the session's key; with a non-empty key and no matching link, none is found; a missing or empty key finds none |
| `Policy.CreateReport` | app/Policies/TrainingPolicy.php:122-130 | without a link, the trainee who is not a moderator of the area cannot report on their own training |
| `Policy.CreateExamination` | app/Policies/TrainingPolicy.php:132-140 | with or without a link, whoever may write an examination may write a report |

## Left out

- Persistence: the ORM calls (`fresh()`, `update()`, `save()`, `detach()`, `get()`) are
  not modelled. Records are objects in memory. The stored status is passed to
  `UpdateStatus` explicitly, and the association row keeps its stored value apart from
  its in-memory one.
- The relationship methods of `Training`, app/Handover.php and all Blade views are not
  part of this model. They hold configuration and rendering, not logic.
- `User::allWithGroup('3')` is not part of this model. The list of mentors is an input.
  So "a second sweep demotes no mentor" is shown only as "every demoted mentor ends
  with no group and no role membership".
- The user model's role questions and `hasActiveTrainings` are inputs. Their
  definitions are not part of this model.
- Both `now()` calls on app/Training.php:42 are taken as one instant. The model takes a
  single `now`.
- PHP divides integers into a float when the division is not exact. The model keeps the
  exact rational mean. The days figure in the console message (`round(…/60/60/24, 2)`)
  and all console output are left out.
- Notification delivery is left out. A closure is recorded as a notice in the returned
  sequence.
- PHP's loose comparison of two numeric strings by value is not modelled. Subdivision
  codes are compared as exact strings, and `null` loosely equals only `""`.
- An unset subdivision setting is taken to be the empty string. That is what `explode`
  sees for `null`.
- The key lookup of one-time links compares keys exactly. No database collation is
  modelled.
- The stored status is read on app/Training.php:24 and the status is written on line 48.
  Two requests can interleave between the two. This race is a concurrency matter and is
  not modelled.

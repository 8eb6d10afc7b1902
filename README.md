# Voice-powered task manager: task routes and voice commands

A model of two parts of the voice-powered task manager.

- **The server's task routes** (`backend/routes/tasks.js`):
  - the task-name resolver `findTaskByName`;
  - the document `createTaskInFirebase` builds;
  - the `fetchTasksForUser` projection;
  - the AI route `POST /tasks/ai`: its input checks, the code-fence stripping of the model's reply, and the create/delete/edit/done dispatch;
  - the manual `POST /tasks`, `DELETE /tasks/:taskId` and `PUT /tasks/:taskId` handlers.
- **The client's voice-command panel** (`frontend/src/components/VoiceRecording.jsx`):
  - how a transcript is routed to edit, delete, mark-done or create;
  - the name each command looks for, and the task it picks from the listing;
  - the requests each command sends;
  - the date picker's `isCreateCommand`;
  - the panel's state (`listening`, `transcript`, `dueDate`, `loading`) as the event handlers change it.

Files:

| file | module | what it holds |
|---|---|---|
| `wrappers.dfy` | `Wrappers` | `Option` and `Result` |
| `js_string.dfy` | `JsString` | the JavaScript built-ins the code relies on: `trim`, `toLowerCase`, `includes`, `split`, `join`, `Array.prototype.find`, and `replace` with a global pattern of literal alternatives |
| `task_match.dfy` | `TaskMatch` | `findTaskByName` as a four-rule cascade, and the lemmas that order the rules |
| `task_routes.dfy` | `TaskRoutes` | the task records and responses; the pure parts of the routes; the class `TaskStore`, whose `tasks` map is the collection and whose methods are the handlers |
| `edit_pattern.dfy` | `EditPattern` | the edit pattern `(?:edit|change)\s+task\s+(.+?)\s+to\s+(.+)` with the `i` flag, as a backtracking matcher picks its first match |
| `voice_commands.dfy` | `VoiceCommands` | routing, target names, the requests of each command, and the class `Recorder` for the panel's state |

How the environment enters the model:

- **The store.** It is a map from numeric id to task. Ids come from a counter.
- **The snapshot.** A `where("userId", "==", uid)` snapshot lists the caller's documents in id order.
- **Parameters.** Each of these is a parameter:
  - the clock (`Timestamp.now()`);
  - date parsing (`new Date(x)` with its `isNaN` test, as a partial function);
  - the parse of the model's reply (`JSON.parse` of the stripped reply, as a partial function);
  - the caller's uid;
  - on the client, the listing that `GET /tasks` answers.
- **Requests.** The client's requests are recorded in `Recorder.sent`, in the order they go out.

The picker and the routing disagree in two places, and the model proves both:

- `isCreateCommand` leaves out "change". A command such as "change task a to b" is shown the date picker, but it is routed to an edit, and the edit sends no date (`ChangeCommandOffersDate`).
- `isCreateCommand` rejects any transcript containing "mark". A command such as "mark up the report" has no "done" in it, so it is posted to the AI route as a create, yet the picker stays hidden (`MarkCommandHidesDate`).

`DateSentIffOffered` states what the picker is evidently for: a date is sent exactly when the command is routed to a create and a date is picked. `PickerShownVersusRoute` shows that "change" and "mark" are the only two places where `isCreateCommand` departs from that.

## Model

| member | source | states |
|---|---|---|
| JsString.Lower | frontend/src/components/VoiceRecording.jsx:13 | `toLowerCase` keeps the length and lowers each character in place |
| JsString.Trim | frontend/src/components/VoiceRecording.jsx:13 | `trim` leaves no white space at either end, never grows the string, and gives "" exactly when the string is all white space |
| JsString.BlankIffTrimEmpty | frontend/src/components/VoiceRecording.jsx:46 | `!transcript.trim()` holds exactly when every character is white space |
| JsString.TrimIdempotent | backend/routes/tasks.js:18 | trimming a trimmed string changes nothing |
| JsString.TrimIsSubstring | backend/routes/tasks.js:21 | the trimmed title is contained in the title |
| JsString.TrimPadded | frontend/src/components/VoiceRecording.jsx:119 | white space added at the ends does not survive `trim` |
| JsString.LowerTrimmed | backend/routes/tasks.js:18 | the normalised search key is already lower case |
| JsString.Split | backend/routes/tasks.js:29 | `split(' ')` gives at least one piece, and no piece holds a space |
| JsString.JoinSplit | backend/routes/tasks.js:29 | joining the pieces of a split with the separator gives back the string |
| JsString.JoinContainsEach | backend/routes/tasks.js:251 | every title is a piece of the joined list |
| JsString.SplitPieceContained | backend/routes/tasks.js:29-32 | every search word is contained in the search string |
| JsString.SplitCovers | backend/routes/tasks.js:39-41 | a space-free piece of a title lies within one of its words |
| JsString.Find | backend/routes/tasks.js:21 | `find` gives the first element that passes, or none when no element passes |
| JsString.WordAtStartFirst | frontend/src/components/VoiceRecording.jsx:119 | the alternation tries the alternatives in order and takes the first that matches |
| JsString.RemoveAll | frontend/src/components/VoiceRecording.jsx:119 | the global replace never lengthens the text |
| JsString.RemoveAllUntouched | frontend/src/components/VoiceRecording.jsx:119 | text in which no alternative matches is left as it is |
| JsString.RemoveAllKeepsPrefix | frontend/src/components/VoiceRecording.jsx:147 | characters that start no alternative are copied through |
| JsString.LeadingWordSkipped | frontend/src/components/VoiceRecording.jsx:119 | an alternative at the start, in any case, is removed |
| JsString.RemoveAllSeparated | frontend/src/components/VoiceRecording.jsx:147 | a character found in no alternative splits the removal into two independent halves |
| TaskMatch.FindTaskByName | backend/routes/tasks.js:17-47 | the result passes the earliest rule any task passes, and no earlier task passes that rule; with no result, no task passes any rule |
| TaskMatch.Cascade | backend/routes/tasks.js:20-46 | the four `find`s, tried in order, give the earliest (rule, position) pair |
| TaskMatch.FirstByRule | backend/routes/tasks.js:21 | one `find`: the first title passing the rule, or none when none passes |
| TaskMatch.CeilHalf | backend/routes/tasks.js:43 | `Math.ceil(n / 2)` is the least r with n <= 2r |
| TaskMatch.MatchCount | backend/routes/tasks.js:40-42 | the filter keeps at most all the search words |
| TaskMatch.MatchCountAll | backend/routes/tasks.js:40-43 | when every word is related to a title word, the count is the word count |
| TaskMatch.ExactImpliesContains | backend/routes/tasks.js:21-25 | an exact match is a contains match |
| TaskMatch.ContainsImpliesWords | backend/routes/tasks.js:25-32 | a contains match contains every search word |
| TaskMatch.WordsImpliesFuzzy | backend/routes/tasks.js:30-44 | an all-words match passes the fuzzy rule |
| TaskMatch.RuleWeakens | backend/routes/tasks.js:20-44 | each rule implies every later rule |
| TaskMatch.NoneIffNoFuzzy | backend/routes/tasks.js:17-47 | the result is null exactly when no title passes the fuzzy rule |
| TaskMatch.EmptyListFindsNothing | backend/routes/tasks.js:46 | an empty list gives null |
| TaskMatch.SearchKeyNormalises | backend/routes/tasks.js:18 | the result depends on the search name only through its lowercased, trimmed form |
| TaskMatch.SearchKeyIdempotent | backend/routes/tasks.js:18 | the search key is lowercase, has no white space at either end, and is its own key |
| TaskMatch.BlankSearchFindsATask | backend/routes/tasks.js:18-26 | a blank search name finds the first task, unless a blank title matches exactly before it |
| TaskMatch.EmptyTitleWordRelatesToAll | backend/routes/tasks.js:39-43 | a title with an empty word passes the fuzzy rule for every search |
| EditPattern.EditCommand | frontend/src/components/VoiceRecording.jsx:80-87 | the groups exist exactly when the pattern can match; they are the trimmed old and new names of a match |
| EditPattern.FirstMatch | frontend/src/components/VoiceRecording.jsx:80 | what `match` answers is a match |
| EditPattern.FirstMatchFirst | frontend/src/components/VoiceRecording.jsx:80 | `match` finds a match whenever one exists, and it is the first in backtracking order |
| EditPattern.MatchAt | frontend/src/components/VoiceRecording.jsx:80 | the match tried from one start position is a match starting there |
| EditPattern.MatchAtFirst | frontend/src/components/VoiceRecording.jsx:80 | every match from a start position is that one or is tried after it |
| EditPattern.AfterTaskFirst | frontend/src/components/VoiceRecording.jsx:80 | after "task", the greedy `\s+`, lazy `(.+?)` and greedy `(.+)` choose in backtracking order |
| EditPattern.AfterTask | frontend/src/components/VoiceRecording.jsx:80 | the choice after "task" is a way for the rest of the pattern to match |
| EditPattern.FromStartFirst | frontend/src/components/VoiceRecording.jsx:80 | from a fixed start, the lazy old name and the rest come no later than any other way |
| EditPattern.GreedyStart | frontend/src/components/VoiceRecording.jsx:80 | the `\s+` before the old name ends where the rest can match |
| EditPattern.GreedyStartFirst | frontend/src/components/VoiceRecording.jsx:80 | no later end of that `\s+` lets the rest match |
| EditPattern.OldName | frontend/src/components/VoiceRecording.jsx:80 | `(.+?)` stays on one line and lets " to " and the new name follow |
| EditPattern.OldNameFirst | frontend/src/components/VoiceRecording.jsx:80 | `(.+?)` is the shortest old name that works |
| EditPattern.AfterOld | frontend/src/components/VoiceRecording.jsx:80 | the `\s+to` and the new name after an old name form a match |
| EditPattern.AfterOldFirst | frontend/src/components/VoiceRecording.jsx:80 | that rest is found whenever it can match, in backtracking order |
| EditPattern.Tail | frontend/src/components/VoiceRecording.jsx:80 | `\s+(.+)` after "to" is white space, then a non-empty new name on one line |
| EditPattern.TailFirst | frontend/src/components/VoiceRecording.jsx:80 | the new name starts as late and runs as long as the quantifiers allow |
| EditPattern.AllWhiteMeans | frontend/src/components/VoiceRecording.jsx:80 | `\s` is ECMAScript white space |
| EditPattern.NoBreakMeans | frontend/src/components/VoiceRecording.jsx:80 | `.` is any character but a line terminator |
| EditPattern.KeywordEndUnique | frontend/src/components/VoiceRecording.jsx:80 | at most one of "edit" and "change" matches at a position |
| EditPattern.LastWhereLatest | frontend/src/components/VoiceRecording.jsx:80 | a greedy quantifier backs off from the longest length that works |
| EditPattern.FirstWhereEarliest | frontend/src/components/VoiceRecording.jsx:80 | a lazy quantifier grows to the shortest length that works |
| TaskRoutes.ApplyUpdate | backend/routes/tasks.js:471-473 | an update never changes the owner or the creation time; an empty update changes nothing |
| TaskRoutes.ApplyUpdateIdempotent | backend/routes/tasks.js:472 | applying the same update twice is applying it once |
| TaskRoutes.UserDocs | backend/routes/tasks.js:236 | the snapshot holds exactly the caller's documents, each once, in id order |
| TaskRoutes.Titles | backend/routes/tasks.js:248 | one title per snapshot document, in order |
| TaskRoutes.Views | backend/routes/tasks.js:86-97 | one projected record per document, in order |
| TaskRoutes.Insert | backend/routes/tasks.js:82 | inserting into a list sorted by `createdAt` descending keeps it sorted and adds exactly that record |
| TaskRoutes.SortByCreatedDesc | backend/routes/tasks.js:82 | `orderBy("createdAt", "desc")` is a permutation sorted latest first |
| TaskRoutes.FetchTasksForUser | backend/routes/tasks.js:78-98 | the list is sorted latest first, holds the projection of every caller document and of nothing else, and lists each id once |
| TaskRoutes.UserViews | backend/routes/tasks.js:79-97 | before sorting, the projections are of the caller's documents only, all of them, each once |
| TaskRoutes.DistinctIdsPermuted | backend/routes/tasks.js:82-86 | sorting does not repeat an id |
| TaskRoutes.StripCodeFenceUnwraps | backend/routes/tasks.js:170 | a body wrapped in a json code fence comes out as the trimmed body |
| TaskRoutes.StripCodeFencePlain | backend/routes/tasks.js:170 | a reply without backticks is only trimmed |
| TaskRoutes.StripCodeFence | backend/routes/tasks.js:170 | the stripped reply is never longer than the raw one and has no white space at either end |
| TaskRoutes.Interpret | backend/routes/tasks.js:111-216 | blank text gives 400 "No text provided"; past that, a reply that does not parse after the fence is stripped gives 500 "Failed to understand command. Please try again.", a reply without a truthy action or without a task gives 400 "Could not understand the command", and otherwise the result is the parsed action and task, with a non-empty action |
| TaskRoutes.WithRequestDueDate | backend/routes/tasks.js:222 | only the date of the extracted task can change; it becomes the request's date when that is truthy and stays as extracted otherwise |
| TaskRoutes.AiTaskRecord | backend/routes/tasks.js:52-73 | the stored task has the extracted title or "Untitled Task", the description or "", status pending, the caller and the clock; the date is kept only when it parses |
| TaskRoutes.RequestDueDateOverrides | backend/routes/tasks.js:222 | a truthy request date decides the stored date, whatever the model extracted |
| TaskRoutes.EditUpdate | backend/routes/tasks.js:276-284 | the AI edit sets the title or description exactly when a truthy new one is given, and the date exactly when it is not the placeholder and parses; never the status |
| TaskRoutes.EditChangesOnlySupplied | backend/routes/tasks.js:276-289 | an AI edit never touches the status, owner or creation time, and never clears a date |
| TaskRoutes.EditNothingSupplied | backend/routes/tasks.js:276-289 | an AI edit with no usable field writes nothing |
| TaskRoutes.NotFoundMessageLists | backend/routes/tasks.js:248-252 | the 404 message names the searched title and every title of the caller |
| TaskRoutes.LookupTarget | backend/routes/tasks.js:236-253 | an empty snapshot gives 404 "No tasks found"; a missing title gives 500; no match gives 404 with the titles listed; a match is the document at the position `findTaskByName` picks among the snapshot's titles |
| TaskRoutes.AiTarget | backend/routes/tasks.js:236-246 | the target found is one of the caller's own documents (it is `LookupTarget` on the caller's snapshot, so it is also the one `findTaskByName` picks) |
| TaskRoutes.AiChange | backend/routes/tasks.js:255-315 | delete removes only the target; edit and done keep every other document and the owner; done sets only the status |
| TaskRoutes.EditChange | backend/routes/tasks.js:286-289 | an AI edit whose fields come out empty leaves the collection as it was |
| TaskRoutes.PutUpdate | backend/routes/tasks.js:448-469 | a `null` status or a string other than "pending" and "done" gives "Invalid status" before any date check; an unparsable non-empty date gives "Invalid dueDate format"; null or "" clears the date; only the members present are set |
| TaskRoutes.PutChangesOnlyGiven | backend/routes/tasks.js:448-473 | a PUT changes exactly the fields its body names; owner and creation time never change |
| TaskRoutes.DoneAgainUnchanged | backend/routes/tasks.js:315 | marking a done task done again leaves it as it is |
| TaskRoutes.CreatedListedOnce | backend/routes/tasks.js:361-371 | after a create, the owner's list holds the new task exactly once, pending and with its title |
| TaskRoutes.TaskStore.Add | backend/routes/tasks.js:63-72 | `add` stores the document under a fresh id and changes nothing else |
| TaskRoutes.TaskStore.CreateTaskInStore | backend/routes/tasks.js:52-73 | `createTaskInFirebase` adds exactly the record `AiTaskRecord` describes, under a fresh id |
| TaskRoutes.TaskStore.AiCommand | backend/routes/tasks.js:103-339 | a refused request answers its error and changes nothing; create adds the task and answers its id and the list; delete, edit and done answer the lookup's error unchanged or apply `AiChange`; an unknown action changes nothing yet answers success |
| TaskRoutes.TaskStore.AiDispatch | backend/routes/tasks.js:218-330 | the action chain, then the refreshed list of the caller |
| TaskRoutes.TaskStore.AiAct | backend/routes/tasks.js:218-325 | each action's change to the collection, the new id of a create, or the failure that ends the route |
| TaskRoutes.TaskStore.AiDelete | backend/routes/tasks.js:235-259 | a failed lookup changes nothing; otherwise only the matched document is removed |
| TaskRoutes.TaskStore.AiEdit | backend/routes/tasks.js:261-289 | a failed lookup changes nothing; otherwise the matched document gets the supplied fields |
| TaskRoutes.TaskStore.AiDone | backend/routes/tasks.js:300-316 | a failed lookup changes nothing; otherwise the matched document becomes done |
| TaskRoutes.TaskStore.EditFields | backend/routes/tasks.js:276-284 | building `updateFields` field by field gives `EditUpdate` |
| TaskRoutes.TaskStore.CreateTask | backend/routes/tasks.js:344-376 | a blank title gives 400 "Title is required", a bad date 400 "Invalid dueDate format", both with no change; a non-blank title with no date or a parsable one always succeeds, and then the trimmed title is stored under the next id, pending, with the parsed date, and the refreshed list and new id are returned |
| TaskRoutes.TaskStore.DeleteTask | backend/routes/tasks.js:394-425 | an unknown id gives 404, another owner's task 403, both with no change; otherwise only that task is removed |
| TaskRoutes.TaskStore.PutFields | backend/routes/tasks.js:448-469 | building `updateFields` member by member gives `PutUpdate` |
| TaskRoutes.TaskStore.UpdateTask | backend/routes/tasks.js:430-497 | 404, then 403, then 400 for a bad body, each with no change; otherwise only that task changes, by `PutUpdate` |
| VoiceCommands.FirstContaining | frontend/src/components/VoiceRecording.jsx:94 | the first listed task whose lowercased title contains the lowercased name, or none exactly when no title does |
| VoiceCommands.RouteMeans | frontend/src/components/VoiceRecording.jsx:55-68 | "edit" or "change" routes to the edit whatever else the text holds; a delete holds "delete" or "remove"; a mark-done holds "mark" and "done"; a create is exactly the text that none of these claims |
| VoiceCommands.IsCreateCommand | frontend/src/components/VoiceRecording.jsx:202-206 | the picker test holds only for non-blank text routed to a create or holding "change", and it holds for every create whose text lacks "mark" |
| VoiceCommands.DeleteTargetName | frontend/src/components/VoiceRecording.jsx:119 | the delete name is never longer than the text and has no white space at either end |
| VoiceCommands.DoneTargetName | frontend/src/components/VoiceRecording.jsx:147 | the mark-done name is never longer than the text and has no white space at either end |
| VoiceCommands.CreateRequest | frontend/src/components/VoiceRecording.jsx:178-191 | one POST to the AI route with the text as it stands, carrying a date exactly when one is picked, and then the picked one |
| VoiceCommands.EditPlan | frontend/src/components/VoiceRecording.jsx:79-107 | an edit the pattern rejects sends nothing; otherwise the listing, then a PUT of `{title: newName}` to the first task containing the old name |
| VoiceCommands.DeletePlan | frontend/src/components/VoiceRecording.jsx:118-135 | the listing, then a DELETE of the first task containing the name, or nothing more |
| VoiceCommands.DonePlan | frontend/src/components/VoiceRecording.jsx:146-167 | the listing, then a PUT of `{status: "done"}` to the first task containing the name, or nothing more |
| VoiceCommands.PlanShape | frontend/src/components/VoiceRecording.jsx:59-68 | at most two requests; a create sends only its POST; no other branch posts to the AI route |
| VoiceCommands.RenameShape | frontend/src/components/VoiceRecording.jsx:81-107 | an edit sends at most the listing and one PUT |
| VoiceCommands.PlanChanges | frontend/src/components/VoiceRecording.jsx:59-68 | only the second request changes a task, always a listed one, with the body its branch calls for |
| VoiceCommands.RequestCount | frontend/src/components/VoiceRecording.jsx:46-84 | a blank transcript sends nothing, an edit the pattern rejects sends nothing, and no command sends more than two requests |
| VoiceCommands.LookupCommandTargetsFirstMatch | frontend/src/components/VoiceRecording.jsx:94-98 | a command that names a task changes exactly the first listed task containing the name, or nothing |
| VoiceCommands.PostOnlyForCreate | frontend/src/components/VoiceRecording.jsx:178-191 | only a create posts to the AI route; it sends the transcript as it stands, and the date exactly when one is picked |
| VoiceCommands.PutBodies | frontend/src/components/VoiceRecording.jsx:106 | a PUT carries either the new title of an edit or the done status |
| VoiceCommands.DeleteNameOfPhrase | frontend/src/components/VoiceRecording.jsx:119 | "delete task NAME" or "remove task NAME", in any case, looks for NAME trimmed |
| VoiceCommands.DoneNameOfPhrase | frontend/src/components/VoiceRecording.jsx:147 | "mark task NAME done" looks for NAME trimmed |
| VoiceCommands.DoneWordInsideName | frontend/src/components/VoiceRecording.jsx:147 | "mark", "done" and "task" are cut out inside other words too |
| VoiceCommands.DoneWordDropped | frontend/src/components/VoiceRecording.jsx:147 | a mark-done word at the front of the text is removed |
| VoiceCommands.PlainText | frontend/src/components/VoiceRecording.jsx:13 | text of lower-case letters and inner spaces is its own `lowerText` |
| VoiceCommands.BareDeleteParsed | frontend/src/components/VoiceRecording.jsx:55-62 | "delete task" alone routes to a delete and looks for the empty name |
| VoiceCommands.BareDeleteNameEmpty | frontend/src/components/VoiceRecording.jsx:119 | removing "delete task" from "delete task" leaves "" |
| VoiceCommands.EmptyNameFindsFirst | frontend/src/components/VoiceRecording.jsx:126 | the empty name is found in the first listed task |
| VoiceCommands.BareDeleteFirst | frontend/src/components/VoiceRecording.jsx:118-135 | "delete task" alone deletes the first listed task |
| VoiceCommands.NewestFirst | backend/routes/tasks.js:82 | the first task of the list is the newest |
| VoiceCommands.BareDeleteTakesNewest | frontend/src/components/VoiceRecording.jsx:118-135 | "delete task" alone deletes the caller's newest task |
| VoiceCommands.ChangesHitOwnedTasks | frontend/src/components/VoiceRecording.jsx:94-100 | every task a command changes exists and belongs to the caller, so the server's 404 and 403 checks pass |
| VoiceCommands.DoneBodyMarksDone | frontend/src/components/VoiceRecording.jsx:166 | `{status: "done"}` passes the PUT checks and sets only the status |
| VoiceCommands.TitleBodyRenames | frontend/src/components/VoiceRecording.jsx:106 | `{title}` passes the PUT checks and sets only the title |
| VoiceCommands.PostedCreateAccepted | frontend/src/components/VoiceRecording.jsx:178-191 | a posted create is never refused for missing text, and the server takes the picked date exactly when one is picked |
| VoiceCommands.CreateAccepted | frontend/src/components/VoiceRecording.jsx:178-191 | the one request of a create passes the text check and carries the picked date through |
| VoiceCommands.PickedDateUsed | frontend/src/components/VoiceRecording.jsx:179-182 | the server reads the date as picked: present exactly when picked, and then overriding |
| VoiceCommands.TextAccepted | backend/routes/tasks.js:111-113 | text that is not blank gets past the AI route's first check |
| VoiceCommands.DateSentIffOffered | frontend/src/components/VoiceRecording.jsx:178-182 | a date is sent exactly when the command routes to a create and a date is picked |
| VoiceCommands.DatedCreate | frontend/src/components/VoiceRecording.jsx:179-182 | the one request of a create carries a date exactly when one is picked |
| VoiceCommands.PickerShownVersusRoute | frontend/src/components/VoiceRecording.jsx:202-206 | `isCreateCommand` departs from the routing only over "change" and "mark" |
| VoiceCommands.ChangeShowsPicker | frontend/src/components/VoiceRecording.jsx:202-206 | a "change" command free of other keywords is shown the picker but is sent as an edit, without the date |
| VoiceCommands.MarkHidesPicker | frontend/src/components/VoiceRecording.jsx:202-206 | a "mark" command without "done" and the other keywords is posted as a create, yet its picker is hidden |
| VoiceCommands.Recorder.constructor | frontend/src/components/VoiceRecording.jsx:7-10 | the panel starts idle, with no transcript, no date, not loading and nothing sent |
| VoiceCommands.Recorder.PanelShown | frontend/src/components/VoiceRecording.jsx:220 | while listening, or with no transcript, the confirmation panel is hidden |
| VoiceCommands.Recorder.PickerShown | frontend/src/components/VoiceRecording.jsx:241 | the picker appears only inside the panel, for non-blank text that routes to a create or an edit, never to a delete or a mark-done |
| VoiceCommands.Recorder.ConfirmEnabled | frontend/src/components/VoiceRecording.jsx:274 | the confirm button is enabled exactly when nothing is loading and `transcript.trim()` is not empty |
| VoiceCommands.Recorder.ToggleListening | frontend/src/components/VoiceRecording.jsx:34-43 | while listening nothing changes; otherwise transcript and date are cleared and listening starts |
| VoiceCommands.Recorder.OnResult | frontend/src/components/VoiceRecording.jsx:26-28 | the heard text, trimmed, becomes the transcript |
| VoiceCommands.Recorder.OnEnd | frontend/src/components/VoiceRecording.jsx:30 | the end event stops listening |
| VoiceCommands.Recorder.EditTranscript | frontend/src/components/VoiceRecording.jsx:229 | typing replaces the transcript |
| VoiceCommands.Recorder.PickDueDate | frontend/src/components/VoiceRecording.jsx:250 | the picker sets the date |
| VoiceCommands.Recorder.ClearDueDate | frontend/src/components/VoiceRecording.jsx:256 | the clear button empties the date |
| VoiceCommands.Recorder.Cancel | frontend/src/components/VoiceRecording.jsx:281-284 | cancel empties transcript and date, which closes the panel |
| VoiceCommands.Recorder.ProcessCommand | frontend/src/components/VoiceRecording.jsx:45-77 | the requests sent are `CommandRequests` of the transcript and date; a blank transcript changes nothing; otherwise loading ends and transcript and date are cleared |
| VoiceCommands.Recorder.Run | frontend/src/components/VoiceRecording.jsx:47-76 | past the blank check: the command's requests go out, then the `finally` resets |
| VoiceCommands.Recorder.Finish | frontend/src/components/VoiceRecording.jsx:72-76 | the `finally` block ends loading and clears transcript and date, closing the panel |
| VoiceCommands.Recorder.Send | frontend/src/components/VoiceRecording.jsx:53-68 | the command's requests are appended to those already sent |
| VoiceCommands.Dispatch | frontend/src/components/VoiceRecording.jsx:53-68 | the keyword tests and the branch they pick send `CommandRequests` |
| VoiceCommands.Keywords | frontend/src/components/VoiceRecording.jsx:55-57 | the three keyword tests pick the branch `Route` names |
| VoiceCommands.EditTaskTitle | frontend/src/components/VoiceRecording.jsx:79-107 | `editTaskTitle` sends `EditRequests` |
| VoiceCommands.Rename | frontend/src/components/VoiceRecording.jsx:81-107 | after the pattern, nothing on no match; else the listing and, if found, the PUT |
| VoiceCommands.DeleteTaskByName | frontend/src/components/VoiceRecording.jsx:118-135 | `deleteTaskByName` sends `DeleteRequests` |
| VoiceCommands.MarkTaskDone | frontend/src/components/VoiceRecording.jsx:146-167 | `markTaskDone` sends `DoneRequests` |
| VoiceCommands.CreateTask | frontend/src/components/VoiceRecording.jsx:178-191 | `createTask` sends one POST of the text, with the date only when one is picked |

## Left out

- JsString.Lower: lowercases ASCII letters only. JavaScript's `toLowerCase` maps all of Unicode, so a non-ASCII title or keyword can compare differently.
- The Gemini call, the prompt text, the API-key checks and the model's error branches (`backend/routes/tasks.js:115-194`) are not modelled. The model's reply text and its parse are inputs instead.
- `sendNotification` is not modelled. It is push-messaging I/O whose failures are swallowed.
- The authentication middleware is not modelled. The caller's uid is a parameter.
- Timestamps are integers. `toDate().toISOString()` and the `|| ""` and `|| "pending"` defaults of the projection are not modelled, because stored records here always carry a description and a status.
- Ties in `createdAt` are broken by ascending id. The model picks that order; it does not model how the document store itself orders such ties.
- Document ids are numbers from a counter, not random strings.
- TaskRoutes.PutUpdate: a `null` title or description counts as absent, so the stored value stays. The source writes `null` there; stored titles and descriptions are strings in this model. A `null` status and a `null` date are modelled.
- JSON fields of other types than string (a numeric title, an array task) are not modelled. An absent or non-string field is `None`.
- The server's outer `catch` (500 with the error message) is modelled only for the one throw the model can reach: a delete, edit or done whose extracted task has no title.
- VoiceCommands.Recorder.ProcessCommand: every request is assumed to succeed.
  - Not modelled: the `await` of the ID token before the `try`, a `fetch` that throws, a listing without `tasks`, and the `alert`s.
  - The reset in `finally` is therefore stated only for the path without an error.
  - One listing answers every `GET /tasks` of a command.
  - The responses, and what `onTaskCreated` does with them, are not modelled.
- Concurrency is not modelled. The loading flag can be observed while a command awaits, and two commands can race on one task.
- VoiceCommands.Recorder.ToggleListening: `stop()` and `start()` of the recogniser are not modelled. The end event that clears `listening` is `OnEnd`.
- The speech-recognition setup and the alert when it is unsupported (`frontend/src/components/VoiceRecording.jsx:15-24`) are not modelled, nor the `min` date of the picker.
- `GET /tasks` is modelled only through `FetchTasksForUser`.

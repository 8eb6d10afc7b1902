/**
 * The voice-command panel of the web client: how a transcript is routed to
 * one of four commands, which name each command looks for among the
 * caller's tasks, and which requests it sends to the server. The requests
 * are recorded in the order they are sent; the listing a `GET /tasks`
 * answers with is a parameter.
 */
module VoiceCommands {
  import opened Wrappers
  import opened JsString
  import EditPattern
  import TaskRoutes

  /** The four branches of `processCommand`. */
  datatype Command = EditTitle | DeleteByName | MarkDone | CreateFromText

  /** A request the client sends: the listing, a PUT or a DELETE of one task, or the AI route. */
  datatype Request =
    | ListTasks
    | PutTask(id: TaskRoutes.TaskId, body: TaskRoutes.TaskBody)
    | DeleteTask(id: TaskRoutes.TaskId)
    | PostAi(text: string, dueDate: Option<string>)

  /** A request that changes a stored task. */
  predicate ChangesTask(r: Request) {
    r.PutTask? || r.DeleteTask?
  }

  /** `lowerText`: the transcript lowercased, then trimmed. */
  function LowerText(transcript: string): string {
    Trim(Lower(transcript))
  }

  /** The keyword tests of `processCommand`, tried in this order. */
  function Route(transcript: string): Command {
    var lower := LowerText(transcript);
    if Contains(lower, "edit") || Contains(lower, "change") then EditTitle
    else if Contains(lower, "delete") || Contains(lower, "remove") then DeleteByName
    else if Contains(lower, "mark") && Contains(lower, "done") then MarkDone
    else CreateFromText
  }

  /** "edit" or "change" wins over every other keyword, and a create is what no keyword claims. */
  lemma RouteMeans(transcript: string)
    ensures var lower := LowerText(transcript); var c := Route(transcript);
      && (c == EditTitle <==> Contains(lower, "edit") || Contains(lower, "change"))
      && (c == DeleteByName ==> Contains(lower, "delete") || Contains(lower, "remove"))
      && (c == MarkDone ==> Contains(lower, "mark") && Contains(lower, "done"))
      && (c == CreateFromText <==>
            && !Contains(lower, "edit") && !Contains(lower, "change")
            && !Contains(lower, "delete") && !Contains(lower, "remove")
            && !(Contains(lower, "mark") && Contains(lower, "done")))
  {
  }

  /**
   * `isCreateCommand`, which decides whether the due-date picker is shown: it
   * holds only for text that is routed to a create or, through "change", to an
   * edit, and for every create whose text lacks "mark".
   */
  predicate IsCreateCommand(transcript: string)
    ensures IsCreateCommand(transcript) ==>
      && !Blank(transcript)
      && (Route(transcript) == CreateFromText || Contains(LowerText(transcript), "change"))
    ensures !Blank(transcript) && Route(transcript) == CreateFromText && !Contains(LowerText(transcript), "mark") ==>
      IsCreateCommand(transcript)
  {
    var lower := LowerText(transcript);
    && !Contains(lower, "edit")
    && !Contains(lower, "delete")
    && !Contains(lower, "remove")
    && !Contains(lower, "mark")
    && !Blank(transcript)
  }

  /* ---------------- The task name of each command ---------------- */

  /** The alternatives of `/delete task|remove task/gi`. */
  const DeleteWords: seq<string> := ["delete task", "remove task"]

  /** The alternatives of `/mark|done|task/gi`. */
  const DoneWords: seq<string> := ["mark", "done", "task"]

  /** The name a delete command looks for: never longer than the text, and without white space at either end. */
  function DeleteTargetName(text: string): (name: string)
    ensures |name| <= |text|
    ensures name == [] || (!IsWhite(name[0]) && !IsWhite(name[|name| - 1]))
  {
    Trim(RemoveAll(text, DeleteWords, true))
  }

  /** The name a mark-done command looks for: never longer than the text, and without white space at either end. */
  function DoneTargetName(text: string): (name: string)
    ensures |name| <= |text|
    ensures name == [] || (!IsWhite(name[0]) && !IsWhite(name[|name| - 1]))
  {
    Trim(RemoveAll(text, DoneWords, true))
  }

  /** `tasks.find(t => t.title.toLowerCase().includes(name.toLowerCase()))`, as a position in the listing. */
  function FirstContaining(listing: seq<TaskRoutes.TaskView>, name: string): (r: Option<nat>)
    ensures r.Some? ==> r.value < |listing| && Contains(Lower(listing[r.value].title), Lower(name))
    ensures r.Some? ==> forall j | 0 <= j < r.value :: !Contains(Lower(listing[j].title), Lower(name))
    ensures r.None? <==> forall j | 0 <= j < |listing| :: !Contains(Lower(listing[j].title), Lower(name))
  {
    Find(listing, (v: TaskRoutes.TaskView) => Contains(Lower(v.title), Lower(name)))
  }

  /* ---------------- The requests each command sends ---------------- */

  /** The body `{title: newName}`. */
  function TitleBody(title: string): TaskRoutes.TaskBody {
    TaskRoutes.TaskBody(Some(title), None, TaskRoutes.Absent, TaskRoutes.Absent)
  }

  /** The body `{status: "done"}`. */
  const DoneBody := TaskRoutes.TaskBody(None, None, TaskRoutes.Given("done"), TaskRoutes.Absent)

  /** `editTaskTitle`: nothing without a match of the edit pattern, else the listing and, when a title contains the old name, the PUT. */
  function EditRequests(text: string, listing: seq<TaskRoutes.TaskView>): seq<Request> {
    RenameRequests(EditPattern.EditCommand(text), listing)
  }

  /** The requests of `editTaskTitle` once the pattern has given its groups, or failed to match. */
  function RenameRequests(groups: Option<(string, string)>, listing: seq<TaskRoutes.TaskView>): seq<Request> {
    match groups
    case None => []
    case Some((oldName, newName)) =>
      [ListTasks] + match FirstContaining(listing, oldName)
        case None => []
        case Some(k) => [PutTask(listing[k].id, TitleBody(newName))]
  }

  /** `deleteTaskByName`: the listing and, when a title contains the name, the DELETE. */
  function DeleteRequests(text: string, listing: seq<TaskRoutes.TaskView>): seq<Request> {
    [ListTasks] + match FirstContaining(listing, DeleteTargetName(text))
      case None => []
      case Some(k) => [DeleteTask(listing[k].id)]
  }

  /** `markTaskDone`: the listing and, when a title contains the name, the PUT of the status. */
  function DoneRequests(text: string, listing: seq<TaskRoutes.TaskView>): seq<Request> {
    [ListTasks] + match FirstContaining(listing, DoneTargetName(text))
      case None => []
      case Some(k) => [PutTask(listing[k].id, DoneBody)]
  }

  /** `createTask`: the text as it stands, and the picked date only when one is picked. */
  function CreateRequest(text: string, dueDate: string): (r: Request)
    ensures r.PostAi? && r.text == text
    ensures r.dueDate.Some? <==> dueDate != ""
    ensures r.dueDate.Some? ==> r.dueDate.value == dueDate
  {
    PostAi(text, if dueDate != "" then Some(dueDate) else None)
  }

  /** Everything `processCommand` sends for a transcript and a picked date. */
  function CommandRequests(transcript: string, dueDate: string, listing: seq<TaskRoutes.TaskView>): seq<Request> {
    if Blank(transcript) then [] else Plan(Route(transcript), transcript, dueDate, listing)
  }

  /** What each branch of `processCommand` sends. */
  function Plan(command: Command, transcript: string, dueDate: string, listing: seq<TaskRoutes.TaskView>): seq<Request> {
    match command
    case EditTitle => EditRequests(transcript, listing)
    case DeleteByName => DeleteRequests(transcript, listing)
    case MarkDone => DoneRequests(transcript, listing)
    case CreateFromText => [CreateRequest(transcript, dueDate)]
  }

  /** The name the command looks up in the listing; `None` for a create, or an edit the pattern rejects. */
  function TargetName(transcript: string): Option<string> {
    match Route(transcript)
    case EditTitle => (match EditPattern.EditCommand(transcript)
      case None => None
      case Some((oldName, _)) => Some(oldName))
    case DeleteByName => Some(DeleteTargetName(transcript))
    case MarkDone => Some(DoneTargetName(transcript))
    case CreateFromText => None
  }

  /* ---------------- What a command sends ---------------- */

  /** The requests of one lookup: the listing, then at most one change, of the first task whose title contains `name`. */
  predicate LookupPlanOk(listing: seq<TaskRoutes.TaskView>, name: string, rs: seq<Request>) {
    var found := FirstContaining(listing, name);
    && 1 <= |rs| <= 2 && rs[0] == ListTasks
    && (|rs| == 2 <==> found.Some?)
    && (|rs| == 2 ==> ChangesTask(rs[1]) && rs[1].id == listing[found.value].id && Listed(listing, rs[1].id))
  }

  /** Some task of the listing has this id. */
  predicate Listed(listing: seq<TaskRoutes.TaskView>, id: TaskRoutes.TaskId) {
    exists v <- listing :: v.id == id
  }

  /** An edit sends nothing unless the pattern matches, and then renames the first task containing the old name. */
  lemma EditPlan(groups: Option<(string, string)>, listing: seq<TaskRoutes.TaskView>)
    ensures groups.None? ==> RenameRequests(groups, listing) == []
    ensures groups.Some? ==>
      var (oldName, newName) := groups.value;
      && LookupPlanOk(listing, oldName, RenameRequests(groups, listing))
      && (forall r <- RenameRequests(groups, listing) :: r.PutTask? || r == ListTasks)
      && forall r <- RenameRequests(groups, listing) :: r.PutTask? ==> r.body == TitleBody(newName)
  {
    if groups.Some? {
      FoundIsListed(listing, groups.value.0);
    }
  }

  lemma FoundIsListed(listing: seq<TaskRoutes.TaskView>, name: string)
    ensures FirstContaining(listing, name).Some? ==> Listed(listing, listing[FirstContaining(listing, name).value].id)
  {
    if FirstContaining(listing, name).Some? {
      assert listing[FirstContaining(listing, name).value] in listing;
    }
  }

  /** A delete removes the first task containing the name left after the command words. */
  lemma DeletePlan(text: string, listing: seq<TaskRoutes.TaskView>)
    ensures LookupPlanOk(listing, DeleteTargetName(text), DeleteRequests(text, listing))
    ensures forall r <- DeleteRequests(text, listing) :: r.DeleteTask? || r == ListTasks
  {
    FoundIsListed(listing, DeleteTargetName(text));
  }

  /** A mark-done puts the done status on the first task containing the name left after the command words. */
  lemma DonePlan(text: string, listing: seq<TaskRoutes.TaskView>)
    ensures LookupPlanOk(listing, DoneTargetName(text), DoneRequests(text, listing))
    ensures forall r <- DoneRequests(text, listing) :: (r.PutTask? && r.body == DoneBody) || r == ListTasks
  {
    FoundIsListed(listing, DoneTargetName(text));
  }

  /** What the branches send, by branch. */
  lemma PlanShape(command: Command, transcript: string, dueDate: string, listing: seq<TaskRoutes.TaskView>)
    ensures var rs := Plan(command, transcript, dueDate, listing);
      && |rs| <= 2
      && (command == CreateFromText ==> rs == [CreateRequest(transcript, dueDate)])
      && (command != CreateFromText ==> forall i | 0 <= i < |rs| :: !rs[i].PostAi?)
      && (command == EditTitle ==> rs == RenameRequests(EditPattern.EditCommand(transcript), listing))
      && (command == DeleteByName ==> LookupPlanOk(listing, DeleteTargetName(transcript), rs))
      && (command == MarkDone ==> LookupPlanOk(listing, DoneTargetName(transcript), rs))
  {
    match command
    case EditTitle => RenameShape(EditPattern.EditCommand(transcript), listing);
    case DeleteByName => DeletePlan(transcript, listing); NoPostAi(DeleteRequests(transcript, listing));
    case MarkDone => DonePlan(transcript, listing); NoPostAi(DoneRequests(transcript, listing));
    case CreateFromText =>
  }

  /** An edit sends at most the listing and one PUT. */
  lemma RenameShape(groups: Option<(string, string)>, listing: seq<TaskRoutes.TaskView>)
    ensures var rs := RenameRequests(groups, listing);
      |rs| <= 2 && forall i | 0 <= i < |rs| :: !rs[i].PostAi?
  {
  }

  /** Requests of which none is a POST to the AI route, read by position. */
  lemma NoPostAi(rs: seq<Request>)
    requires forall r <- rs :: r.DeleteTask? || r.PutTask? || r == ListTasks
    ensures forall i | 0 <= i < |rs| :: !rs[i].PostAi?
  {
    forall i | 0 <= i < |rs|
      ensures !rs[i].PostAi?
    {
      assert rs[i] in rs;
    }
  }

  /** The changes the branches send: only the second request, always of a listed task, with the body its branch calls for. */
  lemma PlanChanges(command: Command, transcript: string, dueDate: string, listing: seq<TaskRoutes.TaskView>)
    ensures var rs := Plan(command, transcript, dueDate, listing);
      && (forall i | 0 <= i < |rs| && ChangesTask(rs[i]) :: i == 1 && Listed(listing, rs[i].id))
      && forall i | 0 <= i < |rs| && rs[i].PutTask? ::
        || (command == MarkDone && rs[i].body == DoneBody)
        || (command == EditTitle && EditPattern.EditCommand(transcript).Some?
            && rs[i].body == TitleBody(EditPattern.EditCommand(transcript).value.1))
  {
    match command
    case EditTitle => EditPlan(EditPattern.EditCommand(transcript), listing);
    case DeleteByName => DeletePlan(transcript, listing);
    case MarkDone => DonePlan(transcript, listing);
    case CreateFromText =>
  }

  /** A blank transcript sends nothing, an edit the pattern rejects sends nothing, and no command sends more than two requests. */
  lemma RequestCount(transcript: string, dueDate: string, listing: seq<TaskRoutes.TaskView>)
    ensures var rs := CommandRequests(transcript, dueDate, listing);
      && |rs| <= 2
      && (Blank(transcript) ==> rs == [])
      && (!Blank(transcript) && Route(transcript) == EditTitle && TargetName(transcript).None? ==> rs == [])
  {
    if !Blank(transcript) {
      PlanShape(Route(transcript), transcript, dueDate, listing);
      EditPlan(EditPattern.EditCommand(transcript), listing);
    }
  }

  /**
   * A command that names a task first fetches the listing, and then changes
   * exactly the first listed task whose title contains the name, or nothing
   * when no title does.
   */
  lemma LookupCommandTargetsFirstMatch(transcript: string, dueDate: string, listing: seq<TaskRoutes.TaskView>)
    requires !Blank(transcript) && TargetName(transcript).Some?
    ensures LookupPlanOk(listing, TargetName(transcript).value, CommandRequests(transcript, dueDate, listing))
  {
    PlanShape(Route(transcript), transcript, dueDate, listing);
    EditPlan(EditPattern.EditCommand(transcript), listing);
  }

  /**
   * Only a create command posts to the AI route; it sends the transcript as
   * it stands, and the picked date exactly when one is picked.
   */
  lemma PostOnlyForCreate(transcript: string, dueDate: string, listing: seq<TaskRoutes.TaskView>)
    ensures var rs := CommandRequests(transcript, dueDate, listing);
      && (!Blank(transcript) && Route(transcript) == CreateFromText ==> rs == [CreateRequest(transcript, dueDate)])
      && (Blank(transcript) || Route(transcript) != CreateFromText ==>
        forall i | 0 <= i < |rs| :: !rs[i].PostAi?)
    ensures var r := CreateRequest(transcript, dueDate);
      && r.PostAi? && r.text == transcript
      && (r.dueDate.Some? <==> dueDate != "")
      && (r.dueDate.Some? ==> r.dueDate.value == dueDate)
  {
    if !Blank(transcript) {
      PlanShape(Route(transcript), transcript, dueDate, listing);
    }
  }

  /** A PUT carries either the new title of an edit or the done status, and nothing else. */
  lemma PutBodies(transcript: string, dueDate: string, listing: seq<TaskRoutes.TaskView>)
    ensures var rs := CommandRequests(transcript, dueDate, listing);
      forall i | 0 <= i < |rs| && rs[i].PutTask? ::
        || (Route(transcript) == MarkDone && rs[i].body == DoneBody)
        || (Route(transcript) == EditTitle && EditPattern.EditCommand(transcript).Some?
            && rs[i].body == TitleBody(EditPattern.EditCommand(transcript).value.1))
  {
    if !Blank(transcript) {
      PlanChanges(Route(transcript), transcript, dueDate, listing);
    }
  }

  /* ---------------- The names the commands look for ---------------- */

  /** "delete task NAME" or "remove task NAME", in any case, looks for NAME trimmed, when NAME holds no command words. */
  lemma DeleteNameOfPhrase(command: string, j: nat, name: string)
    requires j < |DeleteWords| && |command| == |DeleteWords[j]| && MatchesAt(command, 0, DeleteWords[j], true)
    requires forall i: nat, w | w in DeleteWords :: !MatchesAt(name, i, w, true)
    ensures DeleteTargetName(command + " " + name) == Trim(name)
  {
    assert command + " " + name == command + (" " + name);
    LeadingWordSkipped(command, DeleteWords, j, " " + name);
    SpaceKept(DeleteWords, name);
    RemoveAllUntouched(name, DeleteWords, true);
    TrimPadded(' ', name, ' ');
  }

  /** "mark task NAME done" looks for NAME trimmed, when NAME holds none of the three words. */
  lemma DoneNameOfPhrase(name: string)
    requires forall i: nat, w | w in DoneWords :: !MatchesAt(name, i, w, true)
    ensures DoneTargetName("mark task " + name + " done") == Trim(name)
  {
    RemoveAllUntouched(name, DoneWords, true);
    DonePhraseRemoved(name);
  }

  lemma DonePhraseRemoved(name: string)
    requires RemoveAll(name, DoneWords, true) == name
    ensures DoneTargetName("mark task " + name + " done") == Trim(name)
  {
    var t3 := name + [' '] + "done";
    var t2 := " " + t3;
    var t1 := "task" + t2;
    var t0 := " " + t1;
    DonePhraseParts(name);
    DoneWordDropped(0, t0);
    SpaceKept(DoneWords, t1);
    DoneWordDropped(2, t2);
    SpaceKept(DoneWords, t3);
    NoSpaceInDoneWords();
    RemoveAllSeparated(name, ' ', "done", DoneWords, true);
    DoneWordRemoved();
    SpacePadded(name);
  }

  lemma NoSpaceInDoneWords()
    ensures forall w <- DoneWords :: FoldChar(' ', true) !in w
  {
    assert FoldChar(' ', true) == ' ';
    assert forall j, k | 0 <= j < |DoneWords| && 0 <= k < |DoneWords[j]| :: DoneWords[j][k] != ' ';
  }

  lemma DoneWordRemoved()
    ensures RemoveAll("done", DoneWords, true) == ""
  {
    DoneWordDropped(1, "");
    assert DoneWords[1] + "" == "done";
  }

  lemma DonePhraseParts(name: string)
    ensures "mark task " + name + " done" == "mark" + (" " + ("task" + (" " + (name + [' '] + "done"))))
  {
  }

  lemma SpacePadded(name: string)
    ensures Trim(" " + (" " + (name + [' '] + ""))) == Trim(name)
  {
    assert " " + (" " + (name + [' '] + "")) == [' '] + (" " + name) + [' '];
    TrimPadded(' ', " " + name, ' ');
    TrimPadded(' ', name, ' ');
  }

  /** A space starts no alternative and is kept. */
  lemma SpaceKept(words: seq<string>, b: string)
    requires forall w <- words :: |w| > 0 && w[0] != ' '
    ensures RemoveAll(" " + b, words, true) == " " + RemoveAll(b, words, true)
  {
    assert forall x <- " " :: StartsNoWord(x, words, true);
    RemoveAllKeepsPrefix(" ", b, words, true);
  }

  /** A mark-done word at the front of the text is removed. */
  lemma DoneWordDropped(j: nat, b: string)
    requires j < |DoneWords|
    ensures RemoveAll(DoneWords[j] + b, DoneWords, true) == RemoveAll(b, DoneWords, true)
  {
    assert MatchesAt(DoneWords[j], 0, DoneWords[j], true);
    LeadingWordSkipped(DoneWords[j], DoneWords, j, b);
  }

  /** The mark-done words are cut out wherever they occur, inside other words too ("undone" becomes "un"). */
  lemma DoneWordInsideName(a: string, j: nat, b: string)
    requires j < |DoneWords|
    requires forall x <- a :: StartsNoWord(x, DoneWords, true)
    ensures RemoveAll(a + DoneWords[j] + b, DoneWords, true) == a + RemoveAll(b, DoneWords, true)
  {
    assert a + DoneWords[j] + b == a + (DoneWords[j] + b);
    RemoveAllKeepsPrefix(a, DoneWords[j] + b, DoneWords, true);
    DoneWordDropped(j, b);
  }

  /** A letter of `w` that `s` lacks keeps `w` out of `s`. */
  lemma MissingLetter(s: string, w: string, k: nat)
    requires k < |w| && forall i | 0 <= i < |s| :: s[i] != w[k]
    ensures !Contains(s, w)
  {
    forall i | 0 <= i <= |s| - |w|
      ensures !OccursAt(s, w, i)
    {
      assert s[i..i + |w|][k] == s[i + k];
    }
  }

  /** Text of lower-case letters and inner spaces is its own `lowerText`. */
  lemma PlainText(t: string)
    requires |t| > 0 && t[0] != ' ' && t[|t| - 1] != ' '
    requires forall i | 0 <= i < |t| :: t[i] == ' ' || 'a' <= t[i] <= 'z'
    ensures LowerText(t) == t && Trim(t) == t
  {
    assert Lower(t) == t;
    TrimUnpadded(t);
  }

  /** "delete task" alone routes to a delete and looks for the empty name. */
  lemma BareDeleteParsed()
    ensures !Blank("delete task") && Route("delete task") == DeleteByName
    ensures DeleteTargetName("delete task") == ""
  {
    BareDeleteWords();
    ExampleKeywords();
    BareDeleteLacks();
    BareDeleteNameEmpty();
  }

  lemma BareDeleteWords()
    ensures LowerText("delete task") == "delete task" && Trim("delete task") == "delete task"
  {
    PlainText("delete task");
  }

  /** Each example command starts with its keyword. */
  lemma ExampleKeywords()
    ensures Contains("delete task", "delete")
    ensures Contains("change task a to b", "change")
    ensures Contains("mark up the report", "mark")
  {
    assert OccursAt("delete task", "delete", 0);
    assert OccursAt("change task a to b", "change", 0);
    assert OccursAt("mark up the report", "mark", 0);
  }

  lemma BareDeleteLacks()
    ensures !Contains("delete task", "edit") && !Contains("delete task", "change")
  {
    MissingLetter("delete task", "edit", 2);
    MissingLetter("delete task", "change", 0);
  }

  lemma BareDeleteNameEmpty()
    ensures DeleteTargetName("delete task") == ""
  {
    var t := "delete task";
    assert MatchesAt(t, 0, DeleteWords[0], true);
    LeadingWordSkipped(t, DeleteWords, 0, "");
    assert t + "" == t;
  }

  /**
   * Saying only "delete task" deletes the newest of the caller's tasks: the
   * empty name is contained in every title, and the listing is newest first.
   */
  lemma BareDeleteTakesNewest(tasks: map<TaskRoutes.TaskId, TaskRoutes.Task>, uid: TaskRoutes.UserId, bound: nat)
    requires TaskRoutes.FetchTasksForUser(tasks, uid, bound) != []
    ensures var listing := TaskRoutes.FetchTasksForUser(tasks, uid, bound);
      && CommandRequests("delete task", "", listing) == [ListTasks, DeleteTask(listing[0].id)]
      && forall v <- listing :: v.createdAt <= listing[0].createdAt
  {
    var listing := TaskRoutes.FetchTasksForUser(tasks, uid, bound);
    BareDeleteFirst(listing);
    NewestFirst(listing);
  }

  /** The first task of a listing sorted newest first is the newest. */
  lemma NewestFirst(listing: seq<TaskRoutes.TaskView>)
    requires TaskRoutes.SortedDesc(listing) && listing != []
    ensures forall v <- listing :: v.createdAt <= listing[0].createdAt
  {
    forall v <- listing
      ensures v.createdAt <= listing[0].createdAt
    {
      var k :| 0 <= k < |listing| && listing[k] == v;
    }
  }

  lemma BareDeleteFirst(listing: seq<TaskRoutes.TaskView>)
    requires listing != []
    ensures CommandRequests("delete task", "", listing) == [ListTasks, DeleteTask(listing[0].id)]
  {
    BareDeleteParsed();
    EmptyNameFindsFirst(listing);
  }

  /** The empty name is contained in every title, so the first task is found. */
  lemma EmptyNameFindsFirst(listing: seq<TaskRoutes.TaskView>)
    requires listing != []
    ensures FirstContaining(listing, "") == Some(0)
  {
    ContainsEmpty(Lower(listing[0].title));
    assert Lower("") == "";
  }

  /* ---------------- What the server makes of the requests ---------------- */

  /**
   * Every task a command changes, when it looks in the caller's own listing,
   * exists and belongs to the caller, so the server's 404 and 403 checks pass.
   */
  lemma ChangesHitOwnedTasks(tasks: map<TaskRoutes.TaskId, TaskRoutes.Task>, uid: TaskRoutes.UserId, bound: nat,
                             transcript: string, dueDate: string)
    ensures var rs := CommandRequests(transcript, dueDate, TaskRoutes.FetchTasksForUser(tasks, uid, bound));
      forall i | 0 <= i < |rs| && ChangesTask(rs[i]) :: rs[i].id in tasks && tasks[rs[i].id].userId == uid
  {
    var listing := TaskRoutes.FetchTasksForUser(tasks, uid, bound);
    if !Blank(transcript) {
      PlanChanges(Route(transcript), transcript, dueDate, listing);
    }
    forall id | Listed(listing, id)
      ensures id in tasks && tasks[id].userId == uid
    {
      var v :| v in listing && v.id == id;
    }
  }

  /** The body of a mark-done passes validation and sets the status, and only the status. */
  lemma DoneBodyMarksDone(t: TaskRoutes.Task, parse: TaskRoutes.DateParser)
    ensures TaskRoutes.PutUpdate(DoneBody, parse).Ok?
    ensures TaskRoutes.ApplyUpdate(t, TaskRoutes.PutUpdate(DoneBody, parse).value) == t.(status := TaskRoutes.Done)
  {
  }

  /** The body of an edit passes validation and sets the title, and only the title. */
  lemma TitleBodyRenames(t: TaskRoutes.Task, title: string, parse: TaskRoutes.DateParser)
    ensures TaskRoutes.PutUpdate(TitleBody(title), parse).Ok?
    ensures TaskRoutes.ApplyUpdate(t, TaskRoutes.PutUpdate(TitleBody(title), parse).value) == t.(title := title)
  {
  }

  /**
   * The text a create posts is never refused as missing, and the server takes
   * the picked date exactly when one was picked, over any date the model extracted.
   */
  lemma PostedCreateAccepted(transcript: string, dueDate: string, listing: seq<TaskRoutes.TaskView>,
                             reply: string, parseIntent: string -> Option<TaskRoutes.Intent>,
                             task: TaskRoutes.IntentTask, uid: TaskRoutes.UserId, now: int, parse: TaskRoutes.DateParser)
    ensures var rs := CommandRequests(transcript, dueDate, listing);
      forall i | 0 <= i < |rs| && rs[i].PostAi? ::
        && TaskRoutes.Interpret(Some(rs[i].text), reply, parseIntent) != Err(TaskRoutes.Failure(400, "No text provided"))
        && (TaskRoutes.Truthy(rs[i].dueDate) <==> dueDate != "")
        && (dueDate != "" ==>
              TaskRoutes.AiTaskRecord(TaskRoutes.WithRequestDueDate(task, rs[i].dueDate), uid, now, parse).dueDate == parse(dueDate))
  {
    PostOnlyForCreate(transcript, dueDate, listing);
    if !Blank(transcript) && Route(transcript) == CreateFromText {
      CreateAccepted(CommandRequests(transcript, dueDate, listing), transcript, dueDate,
                     reply, parseIntent, task, uid, now, parse);
    }
  }

  /** The one request of a create passes the text check and carries the picked date through. */
  lemma CreateAccepted(rs: seq<Request>, transcript: string, dueDate: string,
                       reply: string, parseIntent: string -> Option<TaskRoutes.Intent>,
                       task: TaskRoutes.IntentTask, uid: TaskRoutes.UserId, now: int, parse: TaskRoutes.DateParser)
    requires !Blank(transcript) && rs == [CreateRequest(transcript, dueDate)]
    ensures forall i | 0 <= i < |rs| && rs[i].PostAi? ::
        && TaskRoutes.Interpret(Some(rs[i].text), reply, parseIntent) != Err(TaskRoutes.Failure(400, "No text provided"))
        && (TaskRoutes.Truthy(rs[i].dueDate) <==> dueDate != "")
        && (dueDate != "" ==>
              TaskRoutes.AiTaskRecord(TaskRoutes.WithRequestDueDate(task, rs[i].dueDate), uid, now, parse).dueDate == parse(dueDate))
  {
    BlankIffTrimEmpty(transcript);
    TextAccepted(transcript, reply, parseIntent);
    PickedDateUsed(transcript, dueDate, task, uid, now, parse);
  }

  /** The server reads the date of a create as picked: present exactly when picked, and then overriding. */
  lemma PickedDateUsed(transcript: string, dueDate: string,
                       task: TaskRoutes.IntentTask, uid: TaskRoutes.UserId, now: int, parse: TaskRoutes.DateParser)
    ensures var r := CreateRequest(transcript, dueDate);
      && (TaskRoutes.Truthy(r.dueDate) <==> dueDate != "")
      && (dueDate != "" ==>
            TaskRoutes.AiTaskRecord(TaskRoutes.WithRequestDueDate(task, r.dueDate), uid, now, parse).dueDate == parse(dueDate))
  {
    if dueDate != "" {
      TaskRoutes.RequestDueDateOverrides(task, Some(dueDate), uid, now, parse);
    }
  }

  /** Text that is not blank gets past the route's first check. */
  lemma TextAccepted(text: string, reply: string, parseIntent: string -> Option<TaskRoutes.Intent>)
    requires Trim(text) != ""
    ensures TaskRoutes.Interpret(Some(text), reply, parseIntent) != Err(TaskRoutes.Failure(400, "No text provided"))
  {
    assert text != "";
  }

  /* ---------------- The date picker ---------------- */

  /** The picker is meant for the commands that post to the AI route, the only ones that send a date. */
  predicate OffersDueDate(transcript: string) {
    !Blank(transcript) && Route(transcript) == CreateFromText
  }

  /** A picked date is sent exactly when the command is offered the picker and a date is picked. */
  lemma DateSentIffOffered(transcript: string, dueDate: string, listing: seq<TaskRoutes.TaskView>)
    ensures var rs := CommandRequests(transcript, dueDate, listing);
      (exists i | 0 <= i < |rs| :: rs[i].PostAi? && rs[i].dueDate.Some?) <==> OffersDueDate(transcript) && dueDate != ""
  {
    var rs := CommandRequests(transcript, dueDate, listing);
    PostOnlyForCreate(transcript, dueDate, listing);
    if OffersDueDate(transcript) {
      DatedCreate(rs, transcript, dueDate);
    }
  }

  /** The one request of a create carries a date exactly when one is picked. */
  lemma DatedCreate(rs: seq<Request>, transcript: string, dueDate: string)
    requires rs == [CreateRequest(transcript, dueDate)]
    ensures (exists i | 0 <= i < |rs| :: rs[i].PostAi? && rs[i].dueDate.Some?) <==> dueDate != ""
  {
    if dueDate != "" {
      assert rs[0].PostAi? && rs[0].dueDate.Some?;
    }
  }

  /** `isCreateCommand` differs from the routing only over "change" and "mark". */
  lemma PickerShownVersusRoute(transcript: string)
    ensures IsCreateCommand(transcript) && !OffersDueDate(transcript) ==> Contains(LowerText(transcript), "change")
    ensures OffersDueDate(transcript) && !IsCreateCommand(transcript) ==> Contains(LowerText(transcript), "mark")
  {
  }

  /** A "change" command free of the other keywords is shown the picker, yet is sent as an edit that drops any date picked. */
  lemma ChangeShowsPicker(transcript: string, dueDate: string, listing: seq<TaskRoutes.TaskView>)
    requires !Blank(transcript) && Contains(LowerText(transcript), "change")
    requires !Contains(LowerText(transcript), "edit") && !Contains(LowerText(transcript), "delete")
    requires !Contains(LowerText(transcript), "remove") && !Contains(LowerText(transcript), "mark")
    ensures IsCreateCommand(transcript) && Route(transcript) == EditTitle
    ensures var rs := CommandRequests(transcript, dueDate, listing);
      forall i | 0 <= i < |rs| :: !rs[i].PostAi?
  {
    PostOnlyForCreate(transcript, dueDate, listing);
  }

  /** "change task a to b" is one of them. */
  lemma ChangeCommandOffersDate(dueDate: string, listing: seq<TaskRoutes.TaskView>)
    ensures IsCreateCommand("change task a to b")
    ensures var rs := CommandRequests("change task a to b", dueDate, listing);
      forall i | 0 <= i < |rs| :: !rs[i].PostAi?
  {
    ChangeExampleWords();
    ExampleKeywords();
    ChangeExampleLacks();
    ChangeShowsPicker("change task a to b", dueDate, listing);
  }

  lemma ChangeExampleWords()
    ensures LowerText("change task a to b") == "change task a to b" && Trim("change task a to b") == "change task a to b"
  {
    PlainText("change task a to b");
  }

  lemma ChangeExampleLacks()
    ensures var t := "change task a to b";
      !Contains(t, "edit") && !Contains(t, "delete") && !Contains(t, "remove") && !Contains(t, "mark")
  {
    var t := "change task a to b";
    MissingLetter(t, "edit", 2);
    MissingLetter(t, "delete", 2);
    MissingLetter(t, "remove", 4);
    MissingLetter(t, "mark", 0);
  }

  /** A "mark" command without "done" and the other keywords is posted to the AI route, yet the picker is hidden. */
  lemma MarkHidesPicker(transcript: string)
    requires !Blank(transcript) && Contains(LowerText(transcript), "mark")
    requires !Contains(LowerText(transcript), "edit") && !Contains(LowerText(transcript), "change")
    requires !Contains(LowerText(transcript), "delete") && !Contains(LowerText(transcript), "remove")
    requires !Contains(LowerText(transcript), "done")
    ensures !IsCreateCommand(transcript) && OffersDueDate(transcript)
  {
  }

  /** "mark up the report" is one of them. */
  lemma MarkCommandHidesDate()
    ensures !IsCreateCommand("mark up the report") && OffersDueDate("mark up the report")
  {
    MarkExampleWords();
    ExampleKeywords();
    MarkExampleLacks();
    MarkHidesPicker("mark up the report");
  }

  lemma MarkExampleWords()
    ensures LowerText("mark up the report") == "mark up the report" && Trim("mark up the report") == "mark up the report"
  {
    PlainText("mark up the report");
  }

  lemma MarkExampleLacks()
    ensures var t := "mark up the report";
      && !Contains(t, "edit") && !Contains(t, "change") && !Contains(t, "delete")
      && !Contains(t, "remove") && !Contains(t, "done")
  {
    var t := "mark up the report";
    MissingLetter(t, "edit", 1);
    MissingLetter(t, "change", 0);
    MissingLetter(t, "delete", 0);
    MissingLetter(t, "remove", 4);
    MissingLetter(t, "done", 0);
  }

  /* ---------------- The panel's state ---------------- */

  /**
   * The component's state: whether the recogniser is listening, the
   * transcript and picked date shown for confirmation, the loading flag, and
   * the requests sent so far.
   */
  class Recorder {
    var listening: bool
    var transcript: string
    var dueDate: string
    var loading: bool
    var sent: seq<Request>

    /** The initial state: idle, nothing heard, no date, nothing sent. */
    constructor()
      ensures !listening && transcript == "" && dueDate == "" && !loading && sent == []
    {
      listening := false;
      transcript := "";
      dueDate := "";
      loading := false;
      sent := [];
    }

    /** The confirmation panel is shown for a non-empty transcript once listening has stopped; listening hides it. */
    predicate PanelShown()
      reads this
      ensures listening || transcript == "" ==> !PanelShown()
    {
      transcript != "" && !listening
    }

    /** The due-date picker: only inside the panel, only for text that is not blank, and never for a delete or a mark-done. */
    predicate PickerShown()
      reads this
      ensures PickerShown() ==> PanelShown() && !Blank(transcript)
      ensures PickerShown() ==> Route(transcript) == CreateFromText || Route(transcript) == EditTitle
    {
      PanelShown() && IsCreateCommand(transcript)
    }

    /** The confirm button is enabled exactly when nothing is loading and `transcript.trim()` is not empty. */
    predicate ConfirmEnabled()
      reads this
      ensures ConfirmEnabled() <==> !loading && Trim(transcript) != ""
    {
      BlankIffTrimEmpty(transcript);
      !loading && !Blank(transcript)
    }

    /**
     * `toggleListening`: while listening it only asks the recogniser to stop
     * (the end event clears the flag later); otherwise it clears the
     * transcript and the date and starts listening.
     */
    method ToggleListening()
      modifies this
      ensures old(listening) ==> unchanged(this)
      ensures !old(listening) ==>
        listening && transcript == "" && dueDate == "" && loading == old(loading) && sent == old(sent)
    {
      if !listening {
        transcript := "";
        dueDate := "";
        listening := true;
      }
    }

    /** The recogniser's result event: the heard text, trimmed, becomes the transcript. */
    method OnResult(heard: string)
      modifies this`transcript
      ensures transcript == Trim(heard)
    {
      transcript := Trim(heard);
    }

    /** The recogniser's end event. */
    method OnEnd()
      modifies this`listening
      ensures !listening
    {
      listening := false;
    }

    /** Typing in the transcript box replaces the transcript as typed. */
    method EditTranscript(text: string)
      modifies this`transcript
      ensures transcript == text
    {
      transcript := text;
    }

    /** Choosing a date in the picker. */
    method PickDueDate(date: string)
      modifies this`dueDate
      ensures dueDate == date
    {
      dueDate := date;
    }

    /** The picker's clear button. */
    method ClearDueDate()
      modifies this`dueDate
      ensures dueDate == ""
    {
      dueDate := "";
    }

    /** The cancel button: the transcript and the date are dropped, so the panel closes. */
    method Cancel()
      modifies this`transcript, this`dueDate
      ensures transcript == "" && dueDate == "" && !PanelShown()
    {
      transcript := "";
      dueDate := "";
    }

    /**
     * `processCommand`: a blank transcript changes nothing; otherwise the
     * branch the keywords pick sends its requests, and the loading flag, the
     * transcript and the date are reset, which closes the panel.
     */
    method ProcessCommand(listing: seq<TaskRoutes.TaskView>)
      modifies this`sent, this`loading, this`transcript, this`dueDate
      ensures sent == old(sent) + CommandRequests(old(transcript), old(dueDate), listing)
      ensures Blank(old(transcript)) ==> loading == old(loading) && transcript == old(transcript) && dueDate == old(dueDate)
      ensures !Blank(old(transcript)) ==> !loading && transcript == "" && dueDate == ""
    {
      if Blank(transcript) {
        BlankSendsNothing(transcript, dueDate, listing);
        return;
      }
      Run(listing);
    }

    /** `processCommand` past its first check: loading, the branch's requests, then the `finally` block. */
    method Run(listing: seq<TaskRoutes.TaskView>)
      requires !Blank(transcript)
      modifies this`sent, this`loading, this`transcript, this`dueDate
      ensures sent == old(sent) + CommandRequests(old(transcript), old(dueDate), listing)
      ensures !loading && transcript == "" && dueDate == ""
    {
      loading := true;
      Send(transcript, dueDate, listing);
      Finish();
    }

    /** The `finally` block of `processCommand`: loading ends and the transcript and the date are cleared. */
    method Finish()
      modifies this`loading, this`transcript, this`dueDate
      ensures !loading && transcript == "" && dueDate == "" && !PanelShown()
    {
      loading := false;
      transcript := "";
      dueDate := "";
    }

    /** The requests of one command go out after those already sent. */
    method Send(text: string, date: string, listing: seq<TaskRoutes.TaskView>)
      requires !Blank(text)
      modifies this`sent
      ensures sent == old(sent) + CommandRequests(text, date, listing)
    {
      var requests := Dispatch(text, date, listing);
      sent := sent + requests;
    }
  }

  /** The `try` block of `processCommand`: the keyword tests, then the branch they pick. */
  method Dispatch(text: string, date: string, listing: seq<TaskRoutes.TaskView>) returns (requests: seq<Request>)
    requires !Blank(text)
    ensures requests == CommandRequests(text, date, listing)
  {
    var isEdit, isDelete, isDone := Keywords(text);
    KeywordPlan(text, date, listing, isEdit, isDelete, isDone);
    if isEdit {
      requests := EditTaskTitle(text, listing);
    } else if isDelete {
      requests := DeleteTaskByName(text, listing);
    } else if isDone {
      requests := MarkTaskDone(text, listing);
    } else {
      requests := CreateTask(text, date);
    }
  }

  /** `editTaskTitle`: the requests it sends. */
  method EditTaskTitle(text: string, listing: seq<TaskRoutes.TaskView>) returns (requests: seq<Request>)
    ensures requests == EditRequests(text, listing)
  {
    requests := Rename(EditPattern.EditCommand(text), listing);
  }

  /** The rest of `editTaskTitle` once the pattern has been tried. */
  method Rename(groups: Option<(string, string)>, listing: seq<TaskRoutes.TaskView>) returns (requests: seq<Request>)
    ensures requests == RenameRequests(groups, listing)
  {
    requests := [];
    if groups.None? {
      return;
    }
    var (oldName, newName) := groups.value;
    requests := requests + [ListTasks];
    var found := FirstContaining(listing, oldName);
    if found.None? {
      return;
    }
    requests := requests + [PutTask(listing[found.value].id, TitleBody(newName))];
  }

  /** `deleteTaskByName`: the requests it sends. */
  method DeleteTaskByName(text: string, listing: seq<TaskRoutes.TaskView>) returns (requests: seq<Request>)
    ensures requests == DeleteRequests(text, listing)
  {
    var name := DeleteTargetName(text);
    requests := [ListTasks];
    var found := FirstContaining(listing, name);
    if found.None? {
      return;
    }
    requests := requests + [DeleteTask(listing[found.value].id)];
  }

  /** `markTaskDone`: the requests it sends. */
  method MarkTaskDone(text: string, listing: seq<TaskRoutes.TaskView>) returns (requests: seq<Request>)
    ensures requests == DoneRequests(text, listing)
  {
    var name := DoneTargetName(text);
    requests := [ListTasks];
    var found := FirstContaining(listing, name);
    if found.None? {
      return;
    }
    requests := requests + [PutTask(listing[found.value].id, DoneBody)];
  }

  /** `createTask`: the one request it sends, with the date only when one is picked. */
  method CreateTask(text: string, date: string) returns (requests: seq<Request>)
    ensures requests == [CreateRequest(text, date)]
  {
    var payloadDate: Option<string> := None;
    if date != "" {
      payloadDate := Some(date);
    }
    requests := [PostAi(text, payloadDate)];
  }

  /** The three keyword tests of `processCommand` on the lowercased, trimmed transcript. */
  method Keywords(text: string) returns (isEdit: bool, isDelete: bool, isDone: bool)
    ensures Route(text) == if isEdit then EditTitle else if isDelete then DeleteByName
      else if isDone then MarkDone else CreateFromText
  {
    var lower := LowerText(text);
    isEdit := Contains(lower, "edit") || Contains(lower, "change");
    isDelete := Contains(lower, "delete") || Contains(lower, "remove");
    isDone := Contains(lower, "mark") && Contains(lower, "done");
    KeywordRoute(text, isEdit, isDelete, isDone);
  }

  /** A blank transcript sends nothing. */
  lemma BlankSendsNothing(text: string, date: string, listing: seq<TaskRoutes.TaskView>)
    requires Blank(text)
    ensures CommandRequests(text, date, listing) == []
  {
  }

  /** The keyword tests of `processCommand` pick the branch `Route` names. */
  lemma KeywordPlan(text: string, date: string, listing: seq<TaskRoutes.TaskView>, isEdit: bool, isDelete: bool, isDone: bool)
    requires !Blank(text)
    requires Route(text) == if isEdit then EditTitle else if isDelete then DeleteByName
      else if isDone then MarkDone else CreateFromText
    ensures CommandRequests(text, date, listing) ==
      if isEdit then EditRequests(text, listing)
      else if isDelete then DeleteRequests(text, listing)
      else if isDone then DoneRequests(text, listing)
      else [CreateRequest(text, date)]
  {
  }

  lemma KeywordRoute(text: string, isEdit: bool, isDelete: bool, isDone: bool)
    requires isEdit == (Contains(LowerText(text), "edit") || Contains(LowerText(text), "change"))
    requires isDelete == (Contains(LowerText(text), "delete") || Contains(LowerText(text), "remove"))
    requires isDone == (Contains(LowerText(text), "mark") && Contains(LowerText(text), "done"))
    ensures Route(text) == if isEdit then EditTitle else if isDelete then DeleteByName
      else if isDone then MarkDone else CreateFromText
  {
  }
}

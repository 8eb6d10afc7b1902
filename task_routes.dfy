/**
 * The task routes of the server: the listing projection, the AI command
 * dispatch (create, delete, edit, done), and the manual POST, PUT and DELETE
 * handlers, over an in-memory task collection.
 *
 * The document store is a map from task id to task record; ids come from a
 * counter, and a query by owner returns the owner's documents in id order.
 * Clocks (`Timestamp.now()`), date parsing (`new Date(x)` with the `isNaN`
 * test) and the parse of the language model's reply (`JSON.parse`) are
 * parameters.
 */
module TaskRoutes {
  import opened Wrappers
  import opened JsString
  import TaskMatch

  type TaskId = nat
  type UserId = string

  /** A date parser: `new Date(text)`, or `None` where `getTime()` is `NaN`. */
  type DateParser = string -> Option<int>

  datatype Status = Pending | Done

  function StatusName(s: Status): string {
    match s
    case Pending => "pending"
    case Done => "done"
  }

  /** A stored task document. */
  datatype Task = Task(
    title: string,
    description: string,
    status: Status,
    dueDate: Option<int>,
    createdAt: int,
    userId: UserId)

  /** One element of the list returned to the client. */
  datatype TaskView = TaskView(
    id: TaskId,
    title: string,
    description: string,
    status: string,
    userId: UserId,
    createdAt: int,
    dueDate: Option<int>)

  /** The `task` object of the model's reply; an absent or non-string field is `None`. */
  datatype IntentTask = IntentTask(
    title: Option<string>,
    description: Option<string>,
    dueDate: Option<string>,
    newTitle: Option<string>,
    newDescription: Option<string>,
    newDueDate: Option<string>)

  /** The parsed reply `{action, task}`. */
  datatype Intent = Intent(action: Option<string>, task: Option<IntentTask>)

  /** A JSON response: `{success: true, tasks, newTaskId?, message?}` or `{success: false, message}` with its HTTP status. */
  datatype Response =
    | Success(tasks: seq<TaskView>, newTaskId: Option<TaskId>, message: Option<string>)
    | Failure(code: nat, error: string)

  /** A `status` or `dueDate` member of a PUT body: left out, `null`, or a string. */
  datatype BodyField = Absent | Null | Given(text: string)

  /** The members of a PUT body; for the title and description `None` stands for `undefined`. */
  datatype TaskBody = TaskBody(
    title: Option<string>,
    description: Option<string>,
    status: BodyField,
    dueDate: BodyField)

  /**
   * The `updateFields` object: each present member replaces that field;
   * `dueDate` is `Some(None)` when it clears the date.
   */
  datatype Update = Update(
    title: Option<string>,
    description: Option<string>,
    status: Option<Status>,
    dueDate: Option<Option<int>>)
  {
    /** `Object.keys(updateFields).length == 0`. */
    predicate IsEmpty() {
      title.None? && description.None? && status.None? && dueDate.None?
    }
  }

  const NoUpdate := Update(None, None, None, None)

  /** The literal that the prompt gives the model as a date template. */
  const DatePlaceholder := "YYYY-MM-DDTHH:mm"

  /** The message of the `TypeError` raised by reading `toLowerCase` of `undefined`. */
  const UndefinedTitleError := "Cannot read properties of undefined (reading 'toLowerCase')"

  /** JavaScript truthiness of an optional string. */
  predicate Truthy(s: Option<string>) {
    s.Some? && s.value != ""
  }

  /* ---------------- The document store's update ---------------- */

  /** `ref.update(fields)`: the fields present replace the stored ones, the others stay. */
  function ApplyUpdate(t: Task, u: Update): (r: Task)
    ensures r.userId == t.userId && r.createdAt == t.createdAt
    ensures u.IsEmpty() ==> r == t
  {
    Task(
      u.title.GetOr(t.title),
      u.description.GetOr(t.description),
      u.status.GetOr(t.status),
      u.dueDate.GetOr(t.dueDate),
      t.createdAt,
      t.userId)
  }

  /** Applying the same update twice is applying it once. */
  lemma ApplyUpdateIdempotent(t: Task, u: Update)
    ensures ApplyUpdate(ApplyUpdate(t, u), u) == ApplyUpdate(t, u)
  {
  }

  /** Writing back the stored value changes nothing. */
  lemma UpdateUnchanged(tasks: map<TaskId, Task>, id: TaskId)
    requires id in tasks
    ensures tasks[id := tasks[id]] == tasks
  {
  }

  /* ---------------- Queries ---------------- */

  /**
   * The ids of `uid`'s documents below `bound`, in id order: the snapshot of
   * `where("userId", "==", uid).get()`.
   */
  function UserDocs(tasks: map<TaskId, Task>, uid: UserId, bound: nat): (ids: seq<TaskId>)
    ensures forall k :: 0 <= k < |ids| ==> ids[k] < bound && ids[k] in tasks && tasks[ids[k]].userId == uid
    ensures forall id :: id in tasks && id < bound && tasks[id].userId == uid ==> id in ids
    ensures forall i, j :: 0 <= i < j < |ids| ==> ids[i] < ids[j]
  {
    if bound == 0 then []
    else
      var last := bound - 1;
      UserDocs(tasks, uid, last) + (if last in tasks && tasks[last].userId == uid then [last] else [])
  }

  /** The titles of the snapshot's documents. */
  function Titles(tasks: map<TaskId, Task>, ids: seq<TaskId>): (r: seq<string>)
    requires forall id <- ids :: id in tasks
    ensures |r| == |ids| && forall k :: 0 <= k < |ids| ==> r[k] == tasks[ids[k]].title
  {
    seq(|ids|, k requires 0 <= k < |ids| => tasks[ids[k]].title)
  }

  /** The record `fetchTasksForUser` makes of one document. */
  function View(id: TaskId, t: Task): TaskView {
    TaskView(id, t.title, t.description, StatusName(t.status), t.userId, t.createdAt, t.dueDate)
  }

  function Views(tasks: map<TaskId, Task>, ids: seq<TaskId>): (r: seq<TaskView>)
    requires forall id <- ids :: id in tasks
    ensures |r| == |ids| && forall k :: 0 <= k < |ids| ==> r[k] == View(ids[k], tasks[ids[k]])
  {
    seq(|ids|, k requires 0 <= k < |ids| => View(ids[k], tasks[ids[k]]))
  }

  predicate SortedDesc(xs: seq<TaskView>) {
    forall i, j :: 0 <= i < j < |xs| ==> xs[i].createdAt >= xs[j].createdAt
  }

  function Insert(v: TaskView, xs: seq<TaskView>): (r: seq<TaskView>)
    requires SortedDesc(xs)
    ensures SortedDesc(r) && multiset(r) == multiset(xs) + multiset{v}
    ensures r[0] == v || (|xs| > 0 && r[0] == xs[0])
  {
    if |xs| == 0 || xs[0].createdAt <= v.createdAt then
      ConsSorted(v, xs);
      [v] + xs
    else
      assert xs == [xs[0]] + xs[1..];
      var rest := Insert(v, xs[1..]);
      ConsSorted(xs[0], rest);
      [xs[0]] + rest
  }

  /** A view no older than the head of a sorted list goes in front of it. */
  lemma ConsSorted(x: TaskView, ys: seq<TaskView>)
    requires SortedDesc(ys) && (|ys| > 0 ==> ys[0].createdAt <= x.createdAt)
    ensures SortedDesc([x] + ys)
  {
  }

  /** `orderBy("createdAt", "desc")`: a permutation of `xs`, latest first. */
  function SortByCreatedDesc(xs: seq<TaskView>): (r: seq<TaskView>)
    ensures SortedDesc(r) && multiset(r) == multiset(xs)
  {
    if |xs| == 0 then []
    else
      assert xs == [xs[0]] + xs[1..];
      Insert(xs[0], SortByCreatedDesc(xs[1..]))
  }

  /**
   * `fetchTasksForUser(uid)`: one view of each of `uid`'s documents and of
   * nothing else, latest first.
   */
  function FetchTasksForUser(tasks: map<TaskId, Task>, uid: UserId, bound: nat): (r: seq<TaskView>)
    ensures SortedDesc(r)
    ensures forall v <- r :: v.id in tasks && v.id < bound && tasks[v.id].userId == uid && v == View(v.id, tasks[v.id])
    ensures forall id :: id in tasks && id < bound && tasks[id].userId == uid ==> View(id, tasks[id]) in r
    ensures forall i, j :: 0 <= i < j < |r| ==> r[i].id != r[j].id
  {
    var views := Views(tasks, UserDocs(tasks, uid, bound));
    var r := SortByCreatedDesc(views);
    UserViews(tasks, uid, bound);
    SameMembers(r, views);
    DistinctIdsPermuted(tasks, r, views);
    r
  }

  /** The unsorted views of the snapshot: views of the owner's documents, each once. */
  lemma UserViews(tasks: map<TaskId, Task>, uid: UserId, bound: nat)
    ensures var views := Views(tasks, UserDocs(tasks, uid, bound));
      && (forall v <- views :: v.id in tasks && v.id < bound && tasks[v.id].userId == uid && v == View(v.id, tasks[v.id]))
      && (forall id :: id in tasks && id < bound && tasks[id].userId == uid ==> View(id, tasks[id]) in views)
      && (forall i, j :: 0 <= i < j < |views| ==> views[i].id != views[j].id)
  {
    var ids := UserDocs(tasks, uid, bound);
    var views := Views(tasks, ids);
    forall id | id in tasks && id < bound && tasks[id].userId == uid
      ensures View(id, tasks[id]) in views
    {
      var k :| 0 <= k < |ids| && ids[k] == id;
      assert views[k] == View(id, tasks[id]);
    }
  }

  /** Permutations have the same members. */
  lemma SameMembers(a: seq<TaskView>, b: seq<TaskView>)
    requires multiset(a) == multiset(b)
    ensures forall v :: v in a <==> v in b
  {
    forall v
      ensures v in a <==> v in b
    {
      assert v in a <==> v in multiset(a);
      assert v in b <==> v in multiset(b);
    }
  }

  /** A permutation of views with distinct ids, each the view of its own document, has distinct ids. */
  lemma DistinctIdsPermuted(tasks: map<TaskId, Task>, a: seq<TaskView>, b: seq<TaskView>)
    requires multiset(a) == multiset(b)
    requires forall i, j :: 0 <= i < j < |b| ==> b[i].id != b[j].id
    requires forall v <- a :: v.id in tasks && v == View(v.id, tasks[v.id])
    ensures forall i, j :: 0 <= i < j < |a| ==> a[i].id != a[j].id
  {
    forall i, j | 0 <= i < j < |a|
      ensures a[i].id != a[j].id
    {
      if a[i].id == a[j].id {
        assert a[i] in a && a[j] in a;
        RepeatCounted(a, i, j);
        DistinctCountsOne(b, a[i]);
        assert false;
      }
    }
  }

  /** A value at two positions of a sequence is counted twice. */
  lemma RepeatCounted(s: seq<TaskView>, i: nat, j: nat)
    requires i < j < |s| && s[i] == s[j]
    ensures multiset(s)[s[i]] >= 2
  {
    assert s == s[..j] + [s[j]] + s[j + 1..];
    assert s[i] in s[..j];
  }

  /** In a sequence without repeated ids every value is counted at most once. */
  lemma {:induction false} DistinctCountsOne(s: seq<TaskView>, x: TaskView)
    requires forall i, j :: 0 <= i < j < |s| ==> s[i].id != s[j].id
    ensures multiset(s)[x] <= 1
  {
    if |s| > 0 {
      assert s == [s[0]] + s[1..];
      DistinctCountsOne(s[1..], x);
      if s[0] == x {
        assert x !in s[1..];
      }
    }
  }

  /* ---------------- The AI route's pure parts ---------------- */

  /** The two literals of the fence pattern, tried in this order. */
  const FenceWords := ["```json", "```"]

  /** `aiOutput.replace(/```json|```/g, "").trim()`. */
  function StripCodeFence(raw: string): (r: string)
    ensures |r| <= |raw|
    ensures r == [] || (!IsWhite(r[0]) && !IsWhite(r[|r| - 1]))
  {
    Trim(RemoveAll(raw, FenceWords, false))
  }

  /** A JSON body wrapped in a json code fence is recovered, trimmed. */
  lemma StripCodeFenceUnwraps(body: string)
    requires '`' !in body
    ensures StripCodeFence("```json" + body + "```") == Trim(body)
  {
    assert "```json" + body + "```" == "```json" + (body + "```");
    OpeningFenceSkipped(body + "```");
    NoBacktickKept(body, "```");
    FenceRemoved();
    assert body + "" == body;
  }

  /** Text without backticks holds no fence and is kept in front of whatever follows. */
  lemma NoBacktickKept(a: string, b: string)
    requires '`' !in a
    ensures RemoveAll(a + b, FenceWords, false) == a + RemoveAll(b, FenceWords, false)
  {
    assert forall x <- a :: StartsNoWord(x, FenceWords, false);
    RemoveAllKeepsPrefix(a, b, FenceWords, false);
  }

  lemma FenceRemoved()
    ensures RemoveAll("```", FenceWords, false) == ""
  {
    var s := "```";
    assert WordAtStart(s, FenceWords, false) == Some(3);
    assert s[3..] == "";
  }

  lemma OpeningFenceSkipped(rest: string)
    ensures RemoveAll("```json" + rest, FenceWords, false) == RemoveAll(rest, FenceWords, false)
  {
    var s := "```json" + rest;
    assert MatchesAt(s, 0, "```json", false);
    assert WordAtStart(s, FenceWords, false) == Some(7);
    RemoveAllStep(s, FenceWords, false);
    assert s[7..] == rest;
  }

  /** A reply without backticks passes through untouched apart from the trim. */
  lemma StripCodeFencePlain(raw: string)
    requires '`' !in raw
    ensures StripCodeFence(raw) == Trim(raw)
  {
    NoBacktickKept(raw, "");
    assert raw + "" == raw;
  }

  /**
   * The first three checks of the AI route: blank text, an unparsable reply
   * and a reply without a truthy `action` and a `task` end the request.
   */
  function Interpret(text: Option<string>, reply: string, parseIntent: string -> Option<Intent>)
    : (r: Result<(string, IntentTask), Response>)
    ensures r.Err? ==> r.error.Failure? && r.error.code in {400, 500}
    ensures r.Ok? ==> Truthy(text) && Trim(text.value) != "" && r.value.0 != ""
    ensures !Truthy(text) || Trim(text.value) == "" ==> r == Err(Failure(400, "No text provided"))
    ensures Truthy(text) && Trim(text.value) != "" ==>
      var p := parseIntent(StripCodeFence(reply));
      && (p.None? ==> r == Err(Failure(500, "Failed to understand command. Please try again.")))
      && (p.Some? && (!Truthy(p.value.action) || p.value.task.None?) ==>
            r == Err(Failure(400, "Could not understand the command")))
      && (r.Ok? ==> p.Some? && r.value == (p.value.action.value, p.value.task.value))
  {
    if !Truthy(text) || Trim(text.value) == "" then Err(Failure(400, "No text provided"))
    else match parseIntent(StripCodeFence(reply))
      case None => Err(Failure(500, "Failed to understand command. Please try again."))
      case Some(intent) =>
        if !Truthy(intent.action) || intent.task.None? then Err(Failure(400, "Could not understand the command"))
        else Ok((intent.action.value, intent.task.value))
  }

  /** `if (dueDate) task.dueDate = dueDate`: a truthy request date replaces the extracted one. */
  function WithRequestDueDate(task: IntentTask, dueDate: Option<string>): (r: IntentTask)
    ensures r == task.(dueDate := r.dueDate)
    ensures r.dueDate == if Truthy(dueDate) then dueDate else task.dueDate
  {
    if Truthy(dueDate) then task.(dueDate := dueDate) else task
  }

  /** The document `createTaskInFirebase` adds for an extracted task. */
  function AiTaskRecord(task: IntentTask, uid: UserId, now: int, parse: DateParser): (r: Task)
    ensures r.title != "" && r.status == Pending && r.userId == uid && r.createdAt == now
    ensures Truthy(task.title) ==> r.title == task.title.value
    ensures !Truthy(task.title) ==> r.title == "Untitled Task"
    ensures r.description == (if Truthy(task.description) then task.description.value else "")
    ensures r.dueDate.Some? ==> Truthy(task.dueDate) && parse(task.dueDate.value) == r.dueDate
    ensures Truthy(task.dueDate) && parse(task.dueDate.value).Some? ==> r.dueDate == parse(task.dueDate.value)
  {
    var formattedDueDate :=
      if Truthy(task.dueDate) then parse(task.dueDate.value) else None;
    Task(
      if Truthy(task.title) then task.title.value else "Untitled Task",
      if Truthy(task.description) then task.description.value else "",
      Pending,
      formattedDueDate,
      now,
      uid)
  }

  /** A truthy request date decides the stored date, whatever the model extracted; an unparsable one is stored as no date. */
  lemma RequestDueDateOverrides(task: IntentTask, dueDate: Option<string>, uid: UserId, now: int, parse: DateParser)
    requires Truthy(dueDate)
    ensures AiTaskRecord(WithRequestDueDate(task, dueDate), uid, now, parse).dueDate == parse(dueDate.value)
  {
  }

  /** The `updateFields` the AI edit builds from the extracted task. */
  function EditUpdate(task: IntentTask, parse: DateParser): (u: Update)
    ensures u.status.None?
    ensures u.title.Some? <==> Truthy(task.newTitle)
    ensures u.title.Some? ==> u.title == task.newTitle
    ensures u.description.Some? <==> Truthy(task.newDescription)
    ensures u.description.Some? ==> u.description == task.newDescription
    ensures u.dueDate.Some? <==>
      Truthy(task.newDueDate) && task.newDueDate.value != DatePlaceholder && parse(task.newDueDate.value).Some?
    ensures u.dueDate.Some? ==> u.dueDate.value == parse(task.newDueDate.value) && u.dueDate.value.Some?
  {
    Update(
      if Truthy(task.newTitle) then task.newTitle else None,
      if Truthy(task.newDescription) then task.newDescription else None,
      None,
      if Truthy(task.newDueDate) && task.newDueDate.value != DatePlaceholder && parse(task.newDueDate.value).Some?
      then Some(parse(task.newDueDate.value))
      else None)
  }

  /** An AI edit changes only title, description and a date it could parse; it never clears the date or touches the status or the owner. */
  lemma EditChangesOnlySupplied(t: Task, task: IntentTask, parse: DateParser)
    ensures var r := ApplyUpdate(t, EditUpdate(task, parse));
      && r.status == t.status && r.userId == t.userId && r.createdAt == t.createdAt
      && (r.title == t.title || Truthy(task.newTitle))
      && (r.description == t.description || Truthy(task.newDescription))
      && (t.dueDate.Some? ==> r.dueDate.Some?)
      && (task.newDueDate == Some(DatePlaceholder) ==> r.dueDate == t.dueDate)
  {
  }

  /** An edit that supplies no usable field writes nothing. */
  lemma EditNothingSupplied(t: Task, task: IntentTask, parse: DateParser)
    requires !Truthy(task.newTitle) && !Truthy(task.newDescription)
    requires !Truthy(task.newDueDate) || task.newDueDate.value == DatePlaceholder
    ensures EditUpdate(task, parse).IsEmpty()
    ensures ApplyUpdate(t, EditUpdate(task, parse)) == t
  {
  }

  /** The 404 message: the searched title and every title the caller has. */
  function NotFoundMessage(title: string, titles: seq<string>): string {
    "Task not found: \"" + title + "\". Available: " + Join(titles, ", ")
  }

  /** The not-found message names the searched title and lists every available title. */
  lemma NotFoundMessageLists(title: string, titles: seq<string>, k: nat)
    requires k < |titles|
    ensures Contains(NotFoundMessage(title, titles), title)
    ensures Contains(NotFoundMessage(title, titles), titles[k])
  {
    var m := NotFoundMessage(title, titles);
    var prefix := "Task not found: \"";
    var rest := "\". Available: " + Join(titles, ", ");
    ContainsSelf(title);
    ContainsWithin(prefix, title, rest, title);
    assert m == prefix + title + rest;
    JoinContainsEach(titles, ", ", k);
    ContainsWithin(prefix + title + "\". Available: ", Join(titles, ", "), "", titles[k]);
    assert m == prefix + title + "\". Available: " + Join(titles, ", ") + "";
  }

  lemma ContainsSelf(s: string)
    ensures Contains(s, s)
  {
    assert OccursAt(s, s, 0);
  }

  /**
   * The target of an AI delete, edit or done among the snapshot `ids`: 404 on
   * an empty snapshot, a server error when the extracted title is missing,
   * 404 listing the titles when nothing matches.
   */
  function LookupTarget(tasks: map<TaskId, Task>, ids: seq<TaskId>, title: Option<string>): (r: Result<TaskId, Response>)
    requires forall id <- ids :: id in tasks
    ensures r.Ok? ==> r.value in ids
    ensures r.Err? ==> r.error.Failure?
    ensures |ids| == 0 ==> r == Err(Failure(404, "No tasks found"))
    ensures |ids| > 0 && title.None? ==> r == Err(Failure(500, UndefinedTitleError))
    ensures |ids| > 0 && title.Some? ==>
      (r.Err? <==> forall j | 0 <= j < |ids| :: !TaskMatch.Rule(3, tasks[ids[j]].title, TaskMatch.SearchKey(title.value)))
    ensures |ids| > 0 && title.Some? && r.Err? ==>
      r.error == Failure(404, NotFoundMessage(title.value, Titles(tasks, ids)))
    ensures |ids| > 0 && title.Some? && r.Ok? ==>
      var f := TaskMatch.FindTaskByName(Titles(tasks, ids), title.value);
      f.Some? && f.value < |ids| && r.value == ids[f.value]
  {
    if |ids| == 0 then Err(Failure(404, "No tasks found"))
    else if title.None? then Err(Failure(500, UndefinedTitleError))
    else
      var titles := Titles(tasks, ids);
      TaskMatch.NoneIffNoFuzzy(titles, title.value);
      match TaskMatch.FindTaskByName(titles, title.value)
      case Some(k) => Ok(ids[k])
      case None => Err(Failure(404, NotFoundMessage(title.value, titles)))
  }

  /** The AI route's target among `uid`'s documents below `bound`. */
  function AiTarget(tasks: map<TaskId, Task>, bound: nat, uid: UserId, title: Option<string>): (r: Result<TaskId, Response>)
    ensures r.Ok? ==> r.value in tasks && tasks[r.value].userId == uid
  {
    LookupTarget(tasks, UserDocs(tasks, uid, bound), title)
  }

  /** A date parser that accepts nothing, for the actions that parse no date. */
  function NoDates(text: string): Option<int> {
    None
  }

  /** The AI actions that act on an existing task. */
  datatype Change = Remove | Edit | MarkDone

  function ChangeOf(action: string): Change
    requires action in {"delete", "edit", "done"}
  {
    if action == "delete" then Remove else if action == "edit" then Edit else MarkDone
  }

  /** The collection after an AI delete, edit or done on the document `id`. */
  function AiChange(tasks: map<TaskId, Task>, id: TaskId, change: Change, task: IntentTask, parse: DateParser)
    : (r: map<TaskId, Task>)
    requires id in tasks
    ensures change == Remove ==> r.Keys == tasks.Keys - {id}
    ensures change != Remove ==> r.Keys == tasks.Keys && r[id].userId == tasks[id].userId
    ensures forall k <- tasks :: k != id ==> k in r && r[k] == tasks[k]
    ensures change == MarkDone ==> r[id] == tasks[id].(status := Done)
  {
    match change
    case Remove => tasks - {id}
    case Edit => tasks[id := ApplyUpdate(tasks[id], EditUpdate(task, parse))]
    case MarkDone => tasks[id := ApplyUpdate(tasks[id], NoUpdate.(status := Some(Done)))]
  }

  /** An AI edit whose `updateFields` come out empty leaves the collection as it was. */
  lemma EditChange(tasks: map<TaskId, Task>, id: TaskId, task: IntentTask, parse: DateParser)
    requires id in tasks
    ensures var u := EditUpdate(task, parse);
      AiChange(tasks, id, Edit, task, parse) == if u.IsEmpty() then tasks else tasks[id := ApplyUpdate(tasks[id], u)]
  {
    if EditUpdate(task, parse).IsEmpty() {
      UpdateUnchanged(tasks, id);
    }
  }

  /** An AI done writes the status `done` and nothing else. */
  lemma DoneChange(tasks: map<TaskId, Task>, id: TaskId, task: IntentTask)
    requires id in tasks
    ensures AiChange(tasks, id, MarkDone, task, NoDates) == tasks[id := ApplyUpdate(tasks[id], NoUpdate.(status := Some(Done)))]
  {
  }

  /* ---------------- PUT validation ---------------- */

  /**
   * The `updateFields` of a PUT body, or the 400 message that rejects it; the
   * status is checked before the date, and a `null` status is not a valid one.
   */
  function PutUpdate(body: TaskBody, parse: DateParser): (r: Result<Update, string>)
    ensures r.Err? <==>
      body.status.Null? || (body.status.Given? && body.status.text !in {"pending", "done"})
      || (body.dueDate.Given? && body.dueDate.text != "" && parse(body.dueDate.text).None?)
    ensures body.status.Null? || (body.status.Given? && body.status.text !in {"pending", "done"}) ==>
      r == Err("Invalid status")
    ensures r.Err? && (body.status.Absent? || (body.status.Given? && body.status.text in {"pending", "done"})) ==>
      r.error == "Invalid dueDate format"
    ensures r.Ok? ==> r.value.title == body.title && r.value.description == body.description
    ensures r.Ok? ==> (r.value.status.Some? <==> body.status.Given?)
    ensures r.Ok? && body.status.Given? ==> StatusName(r.value.status.value) == body.status.text
    ensures r.Ok? ==> (r.value.dueDate.None? <==> body.dueDate.Absent?)
    ensures r.Ok? && (body.dueDate.Null? || body.dueDate == Given("")) ==> r.value.dueDate == Some(None)
    ensures r.Ok? && body.dueDate.Given? && body.dueDate.text != "" ==> r.value.dueDate == Some(parse(body.dueDate.text))
  {
    if body.status.Null? || (body.status.Given? && body.status.text !in {"pending", "done"}) then Err("Invalid status")
    else
      var status := match body.status
        case Given(s) => Some(if s == "pending" then Pending else Done)
        case _ => None;
      match body.dueDate
      case Absent => Ok(Update(body.title, body.description, status, None))
      case Null => Ok(Update(body.title, body.description, status, Some(None)))
      case Given(text) =>
        if text == "" then Ok(Update(body.title, body.description, status, Some(None)))
        else if parse(text).None? then Err("Invalid dueDate format")
        else Ok(Update(body.title, body.description, status, Some(parse(text))))
  }

  /** A PUT changes exactly the fields its body names; owner and creation time never change. */
  lemma PutChangesOnlyGiven(t: Task, body: TaskBody, parse: DateParser)
    requires PutUpdate(body, parse).Ok?
    ensures var r := ApplyUpdate(t, PutUpdate(body, parse).value);
      && r.userId == t.userId && r.createdAt == t.createdAt
      && r.title == body.title.GetOr(t.title)
      && r.description == body.description.GetOr(t.description)
      && (body.status.Absent? ==> r.status == t.status)
      && (body.status.Given? ==> StatusName(r.status) == body.status.text)
      && (body.dueDate.Absent? ==> r.dueDate == t.dueDate)
      && (body.dueDate.Null? ==> r.dueDate.None?)
  {
  }

  /** Marking a task done that is done already leaves it as it is. */
  lemma DoneAgainUnchanged(t: Task)
    requires t.status == Done
    ensures ApplyUpdate(t, NoUpdate.(status := Some(Done))) == t
  {
  }

  /* ---------------- The store and its handlers ---------------- */

  class TaskStore {
    /** The `tasks` collection. */
    var tasks: map<TaskId, Task>
    /** The id the next added document receives. */
    var nextId: TaskId

    /** Every stored id was handed out by the counter. */
    ghost predicate Valid()
      reads this
    {
      forall id <- tasks :: id < nextId
    }

    constructor()
      ensures Valid() && tasks == map[] && nextId == 0
    {
      tasks := map[];
      nextId := 0;
    }

    /** `collection("tasks").add(doc)`: a fresh id for the new document. */
    method Add(doc: Task) returns (id: TaskId)
      requires Valid()
      modifies this
      ensures Valid()
      ensures id == old(nextId) && id !in old(tasks)
      ensures tasks == old(tasks)[id := doc] && nextId == old(nextId) + 1
    {
      id := nextId;
      tasks := tasks[id := doc];
      nextId := nextId + 1;
    }

    /** `createTaskInFirebase(uid, aiTask)`. */
    method CreateTaskInStore(uid: UserId, aiTask: IntentTask, now: int, parse: DateParser) returns (id: TaskId)
      requires Valid()
      modifies this
      ensures Valid()
      ensures id == old(nextId) && id !in old(tasks)
      ensures tasks == old(tasks)[id := AiTaskRecord(aiTask, uid, now, parse)] && nextId == old(nextId) + 1
    {
      var formattedDueDate: Option<int> := None;
      if Truthy(aiTask.dueDate) {
        var due := parse(aiTask.dueDate.value);
        if due.Some? {
          formattedDueDate := due;
        }
      }
      var title := if Truthy(aiTask.title) then aiTask.title.value else "Untitled Task";
      var description := if Truthy(aiTask.description) then aiTask.description.value else "";
      id := Add(Task(title, description, Pending, formattedDueDate, now, uid));
    }

    /** `POST /tasks/ai`, given the model's reply text and the parser of that reply. */
    method AiCommand(text: Option<string>, dueDate: Option<string>, uid: UserId, reply: string,
                     parseIntent: string -> Option<Intent>, parseDate: DateParser, now: int)
      returns (r: Response)
      requires Valid()
      modifies this
      ensures Valid()
      ensures Interpret(text, reply, parseIntent).Err? ==>
        r == Interpret(text, reply, parseIntent).error && tasks == old(tasks) && nextId == old(nextId)
      ensures Interpret(text, reply, parseIntent).Ok? && Interpret(text, reply, parseIntent).value.0 == "create" ==>
        var task := Interpret(text, reply, parseIntent).value.1;
        && tasks == old(tasks)[old(nextId) := AiTaskRecord(WithRequestDueDate(task, dueDate), uid, now, parseDate)]
        && nextId == old(nextId) + 1
        && r == Success(FetchTasksForUser(tasks, uid, nextId), Some(old(nextId)), None)
      ensures Interpret(text, reply, parseIntent).Ok? && Interpret(text, reply, parseIntent).value.0 in {"delete", "edit", "done"} ==>
        var (action, task) := Interpret(text, reply, parseIntent).value;
        var target := AiTarget(old(tasks), old(nextId), uid, task.title);
        && nextId == old(nextId)
        && (target.Err? ==> r == target.error && tasks == old(tasks))
        && (target.Ok? ==> tasks == AiChange(old(tasks), target.value, ChangeOf(action), task, parseDate))
        && (target.Ok? ==> r == Success(FetchTasksForUser(tasks, uid, nextId), None, None))
      ensures Interpret(text, reply, parseIntent).Ok? && Interpret(text, reply, parseIntent).value.0 !in {"create", "delete", "edit", "done"} ==>
        && tasks == old(tasks) && nextId == old(nextId)
        && r == Success(FetchTasksForUser(tasks, uid, nextId), None, None)
    {
      ghost var interpreted := Interpret(text, reply, parseIntent);
      if !Truthy(text) || Trim(text.value) == "" {
        return Failure(400, "No text provided");
      }
      var aiOutput := StripCodeFence(reply);
      var parsed := parseIntent(aiOutput);
      if parsed.None? {
        assert interpreted == Err(Failure(500, "Failed to understand command. Please try again."));
        return Failure(500, "Failed to understand command. Please try again.");
      }
      var action := parsed.value.action;
      var task := parsed.value.task;
      if !Truthy(action) || task.None? {
        assert interpreted == Err(Failure(400, "Could not understand the command"));
        return Failure(400, "Could not understand the command");
      }
      assert interpreted == Ok((action.value, task.value));
      r := AiDispatch(action.value, task.value, dueDate, uid, parseDate, now);
    }

    /** The AI route after its checks: the `if`/`else if` chain on `action`, then the refreshed list. */
    method AiDispatch(action: string, task: IntentTask, dueDate: Option<string>, uid: UserId,
                      parseDate: DateParser, now: int)
      returns (r: Response)
      requires Valid()
      modifies this
      ensures Valid()
      ensures action == "create" ==>
        && tasks == old(tasks)[old(nextId) := AiTaskRecord(WithRequestDueDate(task, dueDate), uid, now, parseDate)]
        && nextId == old(nextId) + 1
        && r == Success(FetchTasksForUser(tasks, uid, nextId), Some(old(nextId)), None)
      ensures action in {"delete", "edit", "done"} ==>
        var target := AiTarget(old(tasks), old(nextId), uid, task.title);
        && nextId == old(nextId)
        && (target.Err? ==> r == target.error && tasks == old(tasks))
        && (target.Ok? ==> tasks == AiChange(old(tasks), target.value, ChangeOf(action), task, parseDate))
        && (target.Ok? ==> r == Success(FetchTasksForUser(tasks, uid, nextId), None, None))
      ensures action !in {"create", "delete", "edit", "done"} ==>
        && tasks == old(tasks) && nextId == old(nextId)
        && r == Success(FetchTasksForUser(tasks, uid, nextId), None, None)
    {
      var failure, newTaskId := AiAct(action, task, dueDate, uid, parseDate, now);
      if failure.Some? {
        return failure.value;
      }
      r := Success(FetchTasksForUser(tasks, uid, nextId), newTaskId, None);
    }

    /** The `if`/`else if` chain on `action`: the change it makes, the new id, or the response that ends the route early. */
    method AiAct(action: string, task: IntentTask, dueDate: Option<string>, uid: UserId,
                 parseDate: DateParser, now: int)
      returns (failure: Option<Response>, newTaskId: Option<TaskId>)
      requires Valid()
      modifies this
      ensures Valid()
      ensures action == "create" ==>
        && tasks == old(tasks)[old(nextId) := AiTaskRecord(WithRequestDueDate(task, dueDate), uid, now, parseDate)]
        && nextId == old(nextId) + 1
        && failure.None? && newTaskId == Some(old(nextId))
      ensures action in {"delete", "edit", "done"} ==>
        var target := AiTarget(old(tasks), old(nextId), uid, task.title);
        && nextId == old(nextId) && newTaskId.None?
        && (target.Err? ==> failure == Some(target.error) && tasks == old(tasks))
        && (target.Ok? ==> failure.None? && tasks == AiChange(old(tasks), target.value, ChangeOf(action), task, parseDate))
      ensures action !in {"create", "delete", "edit", "done"} ==>
        tasks == old(tasks) && nextId == old(nextId) && failure.None? && newTaskId.None?
    {
      failure, newTaskId := None, None;
      if action == "create" {
        var aiTask := task;
        if Truthy(dueDate) {
          aiTask := aiTask.(dueDate := dueDate);
        }
        var id := CreateTaskInStore(uid, aiTask, now, parseDate);
        newTaskId := Some(id);
      } else if action == "delete" {
        failure := AiDelete(task, uid);
      } else if action == "edit" {
        failure := AiEdit(task, uid, parseDate);
      } else if action == "done" {
        failure := AiDone(task, uid);
      }
    }

    /** The delete branch of the AI route. */
    method AiDelete(task: IntentTask, uid: UserId) returns (failure: Option<Response>)
      requires Valid()
      modifies this
      ensures Valid() && nextId == old(nextId)
      ensures var target := AiTarget(old(tasks), old(nextId), uid, task.title);
        && (target.Err? ==> failure == Some(target.error) && tasks == old(tasks))
        && (target.Ok? ==> failure.None? && tasks == AiChange(old(tasks), target.value, Remove, task, NoDates))
    {
      var target := AiTarget(tasks, nextId, uid, task.title);
      if target.Err? {
        return Some(target.error);
      }
      tasks := tasks - {target.value};
      failure := None;
    }

    /** The edit branch of the AI route. */
    method AiEdit(task: IntentTask, uid: UserId, parse: DateParser) returns (failure: Option<Response>)
      requires Valid()
      modifies this
      ensures Valid() && nextId == old(nextId)
      ensures var target := AiTarget(old(tasks), old(nextId), uid, task.title);
        && (target.Err? ==> failure == Some(target.error) && tasks == old(tasks))
        && (target.Ok? ==> failure.None? && tasks == AiChange(old(tasks), target.value, Edit, task, parse))
    {
      var target := AiTarget(tasks, nextId, uid, task.title);
      if target.Err? {
        return Some(target.error);
      }
      var id := target.value;
      var updateFields := EditFields(task, parse);
      EditChange(tasks, id, task, parse);
      if !updateFields.IsEmpty() {
        tasks := tasks[id := ApplyUpdate(tasks[id], updateFields)];
      }
      failure := None;
    }

    /** The done branch of the AI route. */
    method AiDone(task: IntentTask, uid: UserId) returns (failure: Option<Response>)
      requires Valid()
      modifies this
      ensures Valid() && nextId == old(nextId)
      ensures var target := AiTarget(old(tasks), old(nextId), uid, task.title);
        && (target.Err? ==> failure == Some(target.error) && tasks == old(tasks))
        && (target.Ok? ==> failure.None? && tasks == AiChange(old(tasks), target.value, MarkDone, task, NoDates))
    {
      var target := AiTarget(tasks, nextId, uid, task.title);
      if target.Err? {
        return Some(target.error);
      }
      var id := target.value;
      DoneChange(tasks, id, task);
      tasks := tasks[id := ApplyUpdate(tasks[id], NoUpdate.(status := Some(Done)))];
      failure := None;
    }

    /** The AI edit's `updateFields`, built one field at a time. */
    static method EditFields(task: IntentTask, parse: DateParser) returns (u: Update)
      ensures u == EditUpdate(task, parse)
    {
      u := NoUpdate;
      if Truthy(task.newTitle) {
        u := u.(title := task.newTitle);
      }
      if Truthy(task.newDescription) {
        u := u.(description := task.newDescription);
      }
      if Truthy(task.newDueDate) && task.newDueDate.value != DatePlaceholder {
        var parsedDate := parse(task.newDueDate.value);
        if parsedDate.Some? {
          u := u.(dueDate := Some(parsedDate));
        }
      }
    }

    /** `POST /tasks`: the manual create. */
    method CreateTask(title: Option<string>, description: Option<string>, dueDate: Option<string>,
                      uid: UserId, now: int, parse: DateParser)
      returns (r: Response)
      requires Valid()
      modifies this
      ensures Valid()
      ensures !Truthy(title) || Trim(title.value) == "" ==>
        r == Failure(400, "Title is required") && tasks == old(tasks) && nextId == old(nextId)
      ensures Truthy(title) && Trim(title.value) != "" && Truthy(dueDate) && parse(dueDate.value).None? ==>
        r == Failure(400, "Invalid dueDate format") && tasks == old(tasks) && nextId == old(nextId)
      ensures Truthy(title) && Trim(title.value) != "" && (!Truthy(dueDate) || parse(dueDate.value).Some?) ==> r.Success?
      ensures r.Success? ==>
        && Truthy(title) && Trim(title.value) != ""
        && (!Truthy(dueDate) || parse(dueDate.value).Some?)
        && nextId == old(nextId) + 1
        && tasks == old(tasks)[old(nextId) := Task(
             Trim(title.value),
             if Truthy(description) then description.value else "",
             Pending,
             if Truthy(dueDate) then parse(dueDate.value) else None,
             now,
             uid)]
        && r == Success(FetchTasksForUser(tasks, uid, nextId), Some(old(nextId)), None)
    {
      if !Truthy(title) || Trim(title.value) == "" {
        return Failure(400, "Title is required");
      }
      var parsedDate: Option<int> := None;
      if Truthy(dueDate) {
        parsedDate := parse(dueDate.value);
        if parsedDate.None? {
          return Failure(400, "Invalid dueDate format");
        }
      }
      var id := Add(Task(
        Trim(title.value),
        if Truthy(description) then description.value else "",
        Pending,
        parsedDate,
        now,
        uid));
      r := Success(FetchTasksForUser(tasks, uid, nextId), Some(id), None);
    }

    /** `DELETE /tasks/:taskId`. */
    method DeleteTask(id: TaskId, uid: UserId) returns (r: Response)
      requires Valid()
      modifies this
      ensures Valid() && nextId == old(nextId)
      ensures id !in old(tasks) ==> r == Failure(404, "Task not found") && tasks == old(tasks)
      ensures id in old(tasks) && old(tasks)[id].userId != uid ==>
        r == Failure(403, "Unauthorized") && tasks == old(tasks)
      ensures id in old(tasks) && old(tasks)[id].userId == uid ==>
        tasks == old(tasks) - {id} && r == Success(FetchTasksForUser(tasks, uid, nextId), None, Some("Deleted"))
    {
      if id !in tasks {
        return Failure(404, "Task not found");
      }
      if tasks[id].userId != uid {
        return Failure(403, "Unauthorized");
      }
      tasks := tasks - {id};
      r := Success(FetchTasksForUser(tasks, uid, nextId), None, Some("Deleted"));
    }

    /** The PUT handler's `updateFields`, built one body member at a time, or its 400 message. */
    static method PutFields(body: TaskBody, parse: DateParser) returns (r: Result<Update, string>)
      ensures r == PutUpdate(body, parse)
    {
      var updateFields := NoUpdate;
      if body.title.Some? {
        updateFields := updateFields.(title := body.title);
      }
      if body.description.Some? {
        updateFields := updateFields.(description := body.description);
      }
      match body.status {
        case Absent =>
        case Null =>
          return Err("Invalid status");
        case Given(status) =>
          if status !in {"pending", "done"} {
            return Err("Invalid status");
          }
          updateFields := updateFields.(status := Some(if status == "pending" then Pending else Done));
      }
      match body.dueDate {
        case Absent =>
        case Null =>
          updateFields := updateFields.(dueDate := Some(None));
        case Given(text) =>
          if text == "" {
            updateFields := updateFields.(dueDate := Some(None));
          } else {
            var parsed := parse(text);
            if parsed.None? {
              return Err("Invalid dueDate format");
            }
            updateFields := updateFields.(dueDate := Some(parsed));
          }
      }
      r := Ok(updateFields);
    }

    /** `PUT /tasks/:taskId`: the partial update. */
    method UpdateTask(id: TaskId, body: TaskBody, uid: UserId, parse: DateParser) returns (r: Response)
      requires Valid()
      modifies this
      ensures Valid() && nextId == old(nextId)
      ensures id !in old(tasks) ==> r == Failure(404, "Task not found") && tasks == old(tasks)
      ensures id in old(tasks) && old(tasks)[id].userId != uid ==>
        r == Failure(403, "Unauthorized") && tasks == old(tasks)
      ensures id in old(tasks) && old(tasks)[id].userId == uid ==>
        match PutUpdate(body, parse)
        case Err(m) => r == Failure(400, m) && tasks == old(tasks)
        case Ok(u) =>
          && tasks == old(tasks)[id := ApplyUpdate(old(tasks)[id], u)]
          && r == Success(FetchTasksForUser(tasks, uid, nextId), None, Some("Task updated"))
    {
      if id !in tasks {
        return Failure(404, "Task not found");
      }
      if tasks[id].userId != uid {
        return Failure(403, "Unauthorized");
      }
      var fields := PutFields(body, parse);
      if fields.Err? {
        return Failure(400, fields.error);
      }
      var updateFields := fields.value;
      if !updateFields.IsEmpty() {
        tasks := tasks[id := ApplyUpdate(tasks[id], updateFields)];
      } else {
        UpdateUnchanged(tasks, id);
      }
      r := Success(FetchTasksForUser(tasks, uid, nextId), None, Some("Task updated"));
    }
  }

  /** After a create, the owner's list holds the new task exactly once, pending and with its title. */
  lemma CreatedListedOnce(tasks: map<TaskId, Task>, id: TaskId, t: Task)
    requires forall k <- tasks :: k < id
    requires t.status == Pending
    ensures var r := FetchTasksForUser(tasks[id := t], t.userId, id + 1);
      exists k :: 0 <= k < |r| && r[k].id == id && r[k].title == t.title && r[k].status == "pending"
        && forall k' :: 0 <= k' < |r| && r[k'].id == id ==> k' == k
  {
    var m := tasks[id := t];
    var r := FetchTasksForUser(m, t.userId, id + 1);
    assert View(id, m[id]) in r;
    var k :| 0 <= k < |r| && r[k] == View(id, t);
    assert r[k].id == id && r[k].title == t.title && r[k].status == "pending";
    assert forall k' | 0 <= k' < |r| && r[k'].id == id :: k' == k;
  }
}

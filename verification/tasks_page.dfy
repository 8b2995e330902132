/**
  The tasks page's handlers as atomic steps: the state before, the request the
  handler sends, the optimistic state while the request is in flight, and the
  state once the request has settled. The request's outcome is an input.
 */
module TasksPage {
  import opened JsCore
  import opened TaskList
  import opened ApiClient

  /** The body of `POST /tasks/`. */
  datatype NewTask = NewTask(title: string, description: string, completed: bool)

  /** The body of `PUT /tasks/{id}`: the single field `completed`. */
  datatype TaskPatch = TaskPatch(completed: bool)

  /** The requests the page sends through the client. */
  datatype ApiCall =
    | ListTasks
    | CreateTask(body: NewTask)
    | UpdateTask(id: int, patch: TaskPatch)
    | DestroyTask(id: int)

  /** The page's React state (the unused `editingTask` is omitted). */
  datatype PageState = PageState(
    tasks: seq<Task>,
    loading: bool,
    isModalOpen: bool,
    newTaskTitle: string,
    newTaskDesc: string,
    creating: bool)

  function Initial(): (st: PageState)
    ensures st.tasks == [] && st.loading && !st.isModalOpen && !st.creating
    ensures st.newTaskTitle == "" && st.newTaskDesc == ""
  {
    PageState([], true, false, "", "", false)
  }

  /** The outcome of a request whose response body the page ignores. */
  type Reply = Settled<HttpResponse, HttpError>

  /** `fetchTasks()` after its `GET /tasks/` settled: the list is replaced wholesale on
      success, kept on failure, and the spinner is cleared either way. */
  function Load(st: PageState, reply: Settled<seq<Task>, HttpError>): (r: PageState)
    ensures !r.loading
    ensures reply.Fulfilled? ==> r.tasks == reply.value
    ensures reply.Rejected? ==> r.tasks == st.tasks
    ensures r.isModalOpen == st.isModalOpen && r.creating == st.creating
    ensures r.newTaskTitle == st.newTaskTitle && r.newTaskDesc == st.newTaskDesc
  {
    var tasks := match reply
      case Fulfilled(list) => list
      case Rejected(_) => st.tasks;
    st.(tasks := tasks, loading := false)
  }

  /** The load on mount: a failure leaves the (initially empty) list empty. */
  lemma MountLoad(reply: Settled<seq<Task>, HttpError>)
    ensures !Load(Initial(), reply).loading
    ensures reply.Rejected? ==> Load(Initial(), reply).tasks == []
  {
  }

  /** One optimistic mutation: the request it sends (if any), the state while the
      request is in flight, and the state once it has settled. */
  datatype Mutation = Mutation(request: Option<ApiCall>, optimistic: PageState, settled: PageState)

  /** `toggleTask(task)`: flip `completed` on the records with `task.id`, send only the
      negation of the argument's own `completed`, and restore the snapshot on failure. */
  function Toggle(st: PageState, task: Task, reply: Reply): (m: Mutation)
    ensures m.request == Some(UpdateTask(task.id, TaskPatch(!task.completed)))
    ensures m.optimistic.tasks == ToggleById(st.tasks, task.id)
    ensures m.optimistic == st.(tasks := m.optimistic.tasks)
    ensures reply.Fulfilled? ==> m.settled == m.optimistic
    ensures reply.Rejected? ==> m.settled == st
  {
    var snapshot := st.tasks;
    var optimistic := st.(tasks := ToggleById(st.tasks, task.id));
    var settled := match reply
      case Fulfilled(_) => optimistic
      case Rejected(_) => st.(tasks := snapshot);
    Mutation(Some(UpdateTask(task.id, TaskPatch(!task.completed))), optimistic, settled)
  }

  /** When the argument is the record shown in the list, the optimistic value of that
      record is the value the request asks the server to store. */
  lemma ToggleAgreesWithRequest(st: PageState, i: int, reply: Reply)
    requires 0 <= i < |st.tasks|
    ensures var m := Toggle(st, st.tasks[i], reply);
      m.optimistic.tasks[i].completed == m.request.value.patch.completed
  {
  }

  /** Two successful toggles of the same id restore the page. */
  lemma ToggleTwiceRestores(st: PageState, a: Task, b: Task, r1: Reply, r2: Reply)
    requires a.id == b.id && r1.Fulfilled? && r2.Fulfilled?
    ensures Toggle(Toggle(st, a, r1).settled, b, r2).settled == st
  {
  }

  /** `deleteTask(id)`: nothing at all happens unless the user confirms; otherwise the
      records with `id` are filtered out, the request is sent even when no record has
      that id, and the snapshot is restored on failure. */
  function Delete(st: PageState, id: int, confirmed: bool, reply: Reply): (m: Mutation)
    ensures !confirmed ==> m.request.None? && m.optimistic == st && m.settled == st
    ensures confirmed ==> m.request == Some(DestroyTask(id))
    ensures confirmed ==> m.optimistic == st.(tasks := RemoveById(st.tasks, id))
    ensures confirmed && reply.Fulfilled? ==> m.settled == m.optimistic
    ensures reply.Rejected? ==> m.settled == st
  {
    if !confirmed then Mutation(None, st, st)
    else
      var snapshot := st.tasks;
      var optimistic := st.(tasks := RemoveById(st.tasks, id));
      var settled := match reply
        case Fulfilled(_) => optimistic
        case Rejected(_) => st.(tasks := snapshot);
      Mutation(Some(DestroyTask(id)), optimistic, settled)
  }

  /** A confirmed delete of an id no record carries sends the request and changes nothing. */
  lemma DeleteAbsent(st: PageState, id: int, reply: Reply)
    requires forall i :: 0 <= i < |st.tasks| ==> st.tasks[i].id != id
    ensures Delete(st, id, true, reply).request == Some(DestroyTask(id))
    ensures Delete(st, id, true, reply).settled == st
  {
    RemoveAbsent(st.tasks, id);
  }

  /** `handleCreateTask()`: the request it sends, the state while it is in flight, the
      state once it has settled, and whether it starts a reload (`fetchTasks()`). */
  datatype CreateStep = CreateStep(request: ApiCall, inFlight: PageState, settled: PageState, reloads: bool)

  /** The payload is always `{title, description, completed: false}`; the list itself is
      never touched. On success the inputs are cleared, the modal closes and a reload
      starts; on failure only the `creating` flag changes back. */
  function Create(st: PageState, reply: Reply): (c: CreateStep)
    ensures c.request == CreateTask(NewTask(st.newTaskTitle, st.newTaskDesc, false))
    ensures c.inFlight == st.(creating := true)
    ensures !c.settled.creating && c.settled.tasks == st.tasks && c.settled.loading == st.loading
    ensures reply.Fulfilled? <==> c.reloads
    ensures reply.Fulfilled? ==>
              c.settled.newTaskTitle == "" && c.settled.newTaskDesc == "" && !c.settled.isModalOpen
    ensures reply.Rejected? ==> c.settled == st.(creating := false)
  {
    var inFlight := st.(creating := true);
    var body := NewTask(st.newTaskTitle, st.newTaskDesc, false);
    match reply
    case Fulfilled(_) =>
      CreateStep(CreateTask(body), inFlight,
                 inFlight.(newTaskTitle := "", newTaskDesc := "", isModalOpen := false, creating := false), true)
    case Rejected(_) =>
      CreateStep(CreateTask(body), inFlight, inFlight.(creating := false), false)
  }

  /** The created record appears only through the reload: after a successful create and
      a successful reload the list is exactly what the server returned. */
  lemma CreateThenReload(st: PageState, reply: Reply, list: seq<Task>)
    requires reply.Fulfilled?
    ensures var c := Create(st, reply);
      c.reloads && Load(c.settled, Fulfilled(list)).tasks == list
  {
  }

  /** A create whose reload fails leaves the list as it was before the create. */
  lemma CreateThenFailedReload(st: PageState, reply: Reply, error: HttpError)
    requires reply.Fulfilled?
    ensures Load(Create(st, reply).settled, Rejected(error)).tasks == st.tasks
  {
  }
}

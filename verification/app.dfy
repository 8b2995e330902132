/**
  The components together: a page handler whose request goes through the
  client's response interceptor, so that a 401 both rolls back the page and
  ends the session, after which the route guard sends the user to the login page.
 */
module App {
  import opened JsCore
  import opened AuthStore
  import opened ApiClient
  import opened ProtectedRoute
  import opened TaskList
  import opened TasksPage

  /** The session store and the tasks page's state. */
  datatype ClientState<U> = ClientState(session: Session<U>, page: PageState)

  /** A toggle whose PUT settles with `reply`, as seen after the response interceptor. */
  function ToggleViaClient<U>(c: ClientState<U>, task: Task, reply: Reply): (r: ClientState<U>)
    ensures reply.Fulfilled? ==> r.session == c.session && r.page == c.page.(tasks := ToggleById(c.page.tasks, task.id))
    ensures reply.Rejected? ==> r.page == c.page
  {
    var seen := Intercept(c.session, reply);
    ClientState(seen.session, Toggle(c.page, task, seen.result).settled)
  }

  /** A confirmed delete whose DELETE settles with `reply`, as seen after the interceptor. */
  function DeleteViaClient<U>(c: ClientState<U>, id: int, reply: Reply): (r: ClientState<U>)
    ensures reply.Fulfilled? ==> r.session == c.session && r.page == c.page.(tasks := RemoveById(c.page.tasks, id))
    ensures reply.Rejected? ==> r.page == c.page
  {
    var seen := Intercept(c.session, reply);
    ClientState(seen.session, Delete(c.page, id, true, seen.result).settled)
  }

  /** A 401 on a toggle restores the snapshot, clears the session and makes the guard redirect. */
  lemma ToggleUnauthorized<U>(c: ClientState<U>, task: Task, error: HttpError)
    requires error.response == Some(HttpResponse(Unauthorized))
    ensures var r := ToggleViaClient(c, task, Rejected(error));
      && r.page == c.page
      && r.session.token.None? && !r.session.isAuthenticated
      && Guard(r.session) == Navigate(LoginPath, true)
  {
  }

  /** Any other failure restores the snapshot and leaves the session alone. */
  lemma ToggleOtherFailure<U>(c: ClientState<U>, task: Task, error: HttpError)
    requires !(error.response.Some? && error.response.value.status == Unauthorized)
    ensures ToggleViaClient(c, task, Rejected(error)) == c
  {
  }

  /** A 401 on a delete restores the snapshot, clears the session and makes the guard redirect. */
  lemma DeleteUnauthorized<U>(c: ClientState<U>, id: int, error: HttpError)
    requires error.response == Some(HttpResponse(Unauthorized))
    ensures var r := DeleteViaClient(c, id, Rejected(error));
      && r.page == c.page
      && r.session.token.None? && !r.session.isAuthenticated
      && Guard(r.session) == Navigate(LoginPath, true)
  {
  }

  /** The worked case of a single task toggled while the PUT is in flight and then failing. */
  lemma ToggleRollbackExample(st: PageState, error: HttpError)
    requires st.tasks == [Task(1, "A", None, false, "t0")]
    ensures var m := Toggle(st, st.tasks[0], Rejected(error));
      && m.optimistic.tasks == [Task(1, "A", None, true, "t0")]
      && m.settled.tasks == [Task(1, "A", None, false, "t0")]
  {
  }
}

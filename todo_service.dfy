/** The per-user todo repository (`TodoService`). Every operation is scoped to the signed-in
    user's collection `users/<uid>/todos`. The asynchronous ones answer a `Result`, and
    `subscribeTodos` a channel handle or `null`. Whichever client API generation (modular or
    namespaced) carries an operation out, its effect on the store is the same.

    The pure functions `...Step` give, for a repository state, the new state and the answer of one
    call; the class `TodoService` holds that state in fields and its methods are proved to follow
    the step functions. */
module TodoService {
  import opened Results
  import opened TodoData
  import JsText

  type ListenerId = nat

  /** Everything a call can observe or change. */
  datatype Repo = Repo(
    store: Store,                      // users/<uid>/todos/<id>
    user: Option<Uid>,                 // auth().currentUser?.uid
    clock: Timestamp,                  // the last server time handed out
    nextId: TodoId,                    // where the store's supply of unused document ids starts
    outage: Option<string>,            // the failure the store raises on every request while set
    listeners: map<ListenerId, Uid>,   // open onSnapshot channels and the user collection each watches
    nextListener: ListenerId)

  /** Ids come from the fresh supply, `updatedAt` from the server clock, handles from their supply. */
  predicate Consistent(s: Repo)
  {
    && (forall u, k :: u in s.store && k in s.store[u] ==> k < s.nextId)
    && (forall u, k :: u in s.store && k in s.store[u] ==> s.store[u][k].updatedAt <= s.clock)
    && (forall h :: h in s.listeners ==> h < s.nextListener)
  }

  /** Every `createdAt` of user `u` is a server time already handed out. Only an update whose
      `updates` object carries its own `createdAt` can break this. */
  predicate ServerStamped(s: Repo, u: Uid)
  {
    forall k :: k in TasksOf(s.store, u) ==> TasksOf(s.store, u)[k].createdAt <= s.clock
  }

  /** `getUserTodosRef()`: the signed-in user's collection, or the `User not authenticated` error. */
  function ResolveUser(s: Repo): (r: Result<Uid>)
    ensures r.Success? <==> s.user.Some?
    ensures r.Success? ==> r.data == s.user.value
    ensures r.Failure? ==> r.error == NotAuthenticated
  {
    match s.user
    case Some(u) => Success(u)
    case None => Failure(NotAuthenticated)
  }

  /** `getTodos()`. */
  function ListStep(s: Repo): (r: Result<seq<Todo>>)
    ensures r.Success? <==> s.user.Some? && s.outage.None?
    ensures s.user.None? ==> r == Failure(NotAuthenticated)
    ensures s.user.Some? && s.outage.Some? ==> r == Failure(StoreFailure(s.outage.value))
    ensures r.Success? ==> r.data == Listing(TasksOf(s.store, s.user.value))
  {
    match ResolveUser(s)
    case Failure(e) => Failure(e)
    case Success(u) =>
      if s.outage.Some? then Failure(StoreFailure(s.outage.value))
      else Success(Listing(TasksOf(s.store, u)))
  }

  /** `addTodo(title, description)`: both fields trimmed, not completed, both timestamps the
      server time of the write, and the document id taken from the fresh supply. */
  function AddStep(s: Repo, title: string, description: string): (r: (Repo, Result<Todo>))
    ensures r.1.Success? <==> s.user.Some? && s.outage.None?
    ensures r.1.Failure? ==> r.0 == s
    ensures s.user.None? ==> r.1 == Failure(NotAuthenticated)
    ensures s.user.Some? && s.outage.Some? ==> r.1 == Failure(StoreFailure(s.outage.value))
    ensures r.1.Success? ==>
      var u := s.user.value;
      && r.1.data.id == s.nextId && r.0.nextId == s.nextId + 1 && r.0.clock == s.clock + 1
      && r.1.data == WithId(s.nextId, NewTask(title, description, r.0.clock))
      && s.nextId in TasksOf(r.0.store, u) && TasksOf(r.0.store, u)[s.nextId] == Fields(r.1.data)
      && r.0.user == s.user && r.0.listeners == s.listeners && r.0.nextListener == s.nextListener
  {
    var task := NewTask(title, description, s.clock + 1);
    match ResolveUser(s)
    case Failure(e) => (s, Failure(e))
    case Success(u) =>
      if s.outage.Some? then (s, Failure(StoreFailure(s.outage.value)))
      else
        var coll := TasksOf(s.store, u);
        (s.(store := s.store[u := coll[s.nextId := task]], clock := s.clock + 1, nextId := s.nextId + 1),
         Success(WithId(s.nextId, task)))
  }

  /** The write and the answer of an `addTodo` that goes through. */
  lemma AddStepWrites(s: Repo, title: string, description: string)
    ensures s.user.Some? && s.outage.None? ==>
      var u, task := s.user.value, NewTask(title, description, s.clock + 1);
      AddStep(s, title, description)
        == (s.(store := s.store[u := TasksOf(s.store, u)[s.nextId := task]], clock := s.clock + 1,
               nextId := s.nextId + 1),
            Success(WithId(s.nextId, task)))
  {
  }

  /** The `description = ''` default of `addTodo`: the omitted argument is the empty string. */
  function DescriptionArgument(description: Option<string>): (d: string)
    ensures description.None? ==> d == ""
    ensures description.Some? ==> d == description.value
  {
    match description
    case None => ""
    case Some(text) => text
  }

  /** The document `addTodo` writes: trimmed fields, not completed, both timestamps the server
      time `ts` of the write. */
  function NewTask(title: string, description: string, ts: Timestamp): (t: Task)
    ensures t.title == JsText.Trim(title) && t.description == JsText.Trim(description)
    ensures !t.completed && t.createdAt == ts && t.updatedAt == ts
  {
    Task(JsText.Trim(title), JsText.Trim(description), false, ts, ts)
  }

  /** The store side of `doc(id).update({ ...patch, updatedAt: serverTimestamp() })` on user
      `u`'s collection: refused for a document that does not exist. */
  function PatchStep(s: Repo, u: Uid, id: TodoId, p: Patch): (r: (Repo, Result<()>))
    ensures r.1.Success? <==> s.outage.None? && id in TasksOf(s.store, u)
    ensures r.1.Failure? ==> r.0 == s
    ensures s.outage.None? && id !in TasksOf(s.store, u) ==> r.1 == Failure(NotFound)
    ensures r.1.Success? ==>
      var before, after := TasksOf(s.store, u), TasksOf(r.0.store, u);
      && r.0.clock == s.clock + 1
      && after.Keys == before.Keys
      && after[id] == ApplyPatch(before[id], p, r.0.clock)
      && r.0.user == s.user && r.0.nextId == s.nextId && r.0.listeners == s.listeners
  {
    var coll := TasksOf(s.store, u);
    if s.outage.Some? then (s, Failure(StoreFailure(s.outage.value)))
    else if id !in coll then (s, Failure(NotFound))
    else
      (s.(store := s.store[u := coll[id := ApplyPatch(coll[id], p, s.clock + 1)]], clock := s.clock + 1),
       Success(()))
  }

  /** `updateTodo(id, updates)`. Every branch of the source (modular update, namespaced update, and
      the namespaced retry after a failed modular attempt) resolves the user through
      `getUserTodosRef` and sends the same update, so they collapse to one step. */
  function UpdateStep(s: Repo, id: TodoId, p: Patch): (r: (Repo, Result<()>))
    ensures r.1.Success? <==> s.user.Some? && s.outage.None? && id in TasksOf(s.store, s.user.value)
    ensures r.1.Failure? ==> r.0 == s
    ensures s.user.None? ==> r.1 == Failure(NotAuthenticated)
    ensures s.user.Some? ==> r == PatchStep(s, s.user.value, id, p)
  {
    match ResolveUser(s)
    case Failure(e) => (s, Failure(e))
    case Success(u) => PatchStep(s, u, id, p)
  }

  /** `deleteTodo(id)`: deleting a document that does not exist succeeds and changes nothing. */
  function DeleteStep(s: Repo, id: TodoId): (r: (Repo, Result<()>))
    ensures r.1.Success? <==> s.user.Some? && s.outage.None?
    ensures r.1.Failure? ==> r.0 == s
    ensures s.user.None? ==> r.1 == Failure(NotAuthenticated)
    ensures s.user.Some? && s.outage.Some? ==> r.1 == Failure(StoreFailure(s.outage.value))
    ensures r.1.Success? ==>
      && TasksOf(r.0.store, s.user.value) == TasksOf(s.store, s.user.value) - {id}
      && (id !in TasksOf(s.store, s.user.value) ==> r.0 == s)
      && r.0.user == s.user && r.0.clock == s.clock && r.0.nextId == s.nextId
      && r.0.listeners == s.listeners
  {
    match ResolveUser(s)
    case Failure(e) => (s, Failure(e))
    case Success(u) =>
      var coll := TasksOf(s.store, u);
      if s.outage.Some? then (s, Failure(StoreFailure(s.outage.value)))
      else if id !in coll then (s, Success(()))
      else (s.(store := s.store[u := coll - {id}]), Success(()))
  }

  /** The update `toggleTodoComplete` sends: `completed` only (plus the refreshed `updatedAt`). */
  function TogglePatch(currentStatus: bool): (p: Patch)
    ensures forall t: Task, ts: Timestamp :: ApplyPatch(t, p, ts) == t.(completed := !currentStatus, updatedAt := ts)
  {
    Patch(None, None, Some(!currentStatus), None, None)
  }

  /** `toggleTodoComplete(id, currentStatus)`: writes `!currentStatus` without reading the stored
      value. The modular branch reads `currentUser.uid` itself instead of calling
      `getUserTodosRef`, so with nobody signed in it fails with the runtime's TypeError. */
  function ToggleStep(s: Repo, modular: bool, id: TodoId, currentStatus: bool): (r: (Repo, Result<()>))
    ensures r.1.Success? <==> s.user.Some? && s.outage.None? && id in TasksOf(s.store, s.user.value)
    ensures r.1.Failure? ==> r.0 == s
    ensures s.user.None? ==> r.1 == Failure(if modular then NoCurrentUser else NotAuthenticated)
    ensures s.user.Some? ==> r == PatchStep(s, s.user.value, id, TogglePatch(currentStatus))
  {
    var user := if !modular then ResolveUser(s)
                else if s.user.Some? then Success(s.user.value) else Failure(NoCurrentUser);
    match user
    case Failure(e) => (s, Failure(e))
    case Success(u) => PatchStep(s, u, id, TogglePatch(currentStatus))
  }

  /** `subscribeTodos(callback)`: a new channel on the signed-in user's collection, or `null`. */
  function SubscribeStep(s: Repo): (r: (Repo, Option<ListenerId>))
    ensures r.1.Some? <==> s.user.Some?
    ensures r.1.None? ==> r.0 == s
    ensures r.1.Some? ==>
      && r.0.listeners == s.listeners[r.1.value := s.user.value]
      && (Consistent(s) ==> r.1.value !in s.listeners && Consistent(r.0))
      && r.0.store == s.store && r.0.user == s.user && r.0.outage == s.outage
  {
    match ResolveUser(s)
    case Failure(_) => (s, None)
    case Success(u) =>
      (s.(listeners := s.listeners[s.nextListener := u], nextListener := s.nextListener + 1),
       Some(s.nextListener))
  }

  /** Calling the unsubscribe handle: the channel is closed; closing it again changes nothing. */
  function UnsubscribeStep(s: Repo, h: ListenerId): (r: Repo)
    ensures h !in r.listeners
    ensures forall k :: k in r.listeners <==> k in s.listeners && k != h
    ensures forall k :: k in r.listeners ==> r.listeners[k] == s.listeners[k]
    ensures r == s.(listeners := r.listeners)
  {
    s.(listeners := s.listeners - {h})
  }

  /** One delivery on channel `h`: nothing for a closed channel; otherwise the full current listing
      of the collection the channel was opened on, or, when the store fails, one error delivery
      after which the channel is closed. */
  function DeliverStep(s: Repo, h: ListenerId): (r: (Repo, Option<Result<seq<Todo>>>))
    ensures r.1.None? <==> h !in s.listeners
    ensures h in s.listeners && s.outage.None? ==>
      r == (s, Some(Success(Listing(TasksOf(s.store, s.listeners[h])))))
    ensures h in s.listeners && s.outage.Some? ==>
      && r.1 == Some(Failure(StoreFailure(s.outage.value)))
      && r.0 == UnsubscribeStep(s, h)
    ensures h !in s.listeners ==> r.0 == s
  {
    if h !in s.listeners then (s, None)
    else if s.outage.Some? then (UnsubscribeStep(s, h), Some(Failure(StoreFailure(s.outage.value))))
    else (s, Some(Success(Listing(TasksOf(s.store, s.listeners[h])))))
  }

  // ---------------------------------------------------------------------------------------------
  // Properties of the steps

  /** With nobody signed in, every call fails with `User not authenticated` and changes nothing,
      except the modular toggle, which fails with another message and changes nothing either. */
  lemma SignedOutChangesNothing(s: Repo, title: string, description: string, id: TodoId,
                                p: Patch, status: bool)
    requires s.user.None?
    ensures ListStep(s) == Failure(NotAuthenticated)
    ensures AddStep(s, title, description) == (s, Failure(NotAuthenticated))
    ensures UpdateStep(s, id, p) == (s, Failure(NotAuthenticated))
    ensures DeleteStep(s, id) == (s, Failure(NotAuthenticated))
    ensures ToggleStep(s, false, id, status) == (s, Failure(NotAuthenticated))
    ensures ToggleStep(s, true, id, status) == (s, Failure(NoCurrentUser))
    ensures SubscribeStep(s) == (s, None)
  {
  }

  /** A successful `getTodos` lists exactly the signed-in user's documents, each with its own
      fields, newest first; the documents of other users never appear. */
  lemma ListingIsOwnTodosNewestFirst(s: Repo)
    requires ListStep(s).Success?
    ensures var todos, own := ListStep(s).data, TasksOf(s.store, s.user.value);
            && (forall i :: 0 <= i < |todos| ==> todos[i].id in own && Fields(todos[i]) == own[todos[i].id])
            && (forall k :: k in own ==> exists i :: 0 <= i < |todos| && todos[i].id == k)
            && (forall i, j :: 0 <= i < j < |todos| ==> todos[i].createdAt >= todos[j].createdAt)
  {
    var todos, own := ListStep(s).data, TasksOf(s.store, s.user.value);
    forall i | 0 <= i < |todos| ensures Fields(todos[i]) == own[todos[i].id] {
      FieldsOfWithId(todos[i].id, own[todos[i].id]);
    }
  }

  /** Each step keeps the repository consistent. */
  lemma StepsPreserveConsistency(s: Repo, title: string, description: string, id: TodoId,
                                 p: Patch, modular: bool, status: bool, h: ListenerId)
    requires Consistent(s)
    ensures Consistent(AddStep(s, title, description).0)
    ensures Consistent(UpdateStep(s, id, p).0)
    ensures Consistent(DeleteStep(s, id).0)
    ensures Consistent(ToggleStep(s, modular, id, status).0)
    ensures Consistent(SubscribeStep(s).0)
    ensures Consistent(UnsubscribeStep(s, h))
    ensures Consistent(DeliverStep(s, h).0)
  {
    if s.user.Some? {
      AddKeepsConsistent(s, s.user.value, title, description);
      PatchKeepsConsistent(s, s.user.value, id, p);
      PatchKeepsConsistent(s, s.user.value, id, TogglePatch(status));
      DeleteKeepsConsistent(s, s.user.value, id);
    }
  }

  lemma AddKeepsConsistent(s: Repo, u: Uid, title: string, description: string)
    requires Consistent(s) && s.user == Some(u)
    ensures Consistent(AddStep(s, title, description).0)
  {
    var s' := AddStep(s, title, description).0;
    if s' != s {
      forall v, k | v in s'.store && k in s'.store[v]
        ensures k < s'.nextId && s'.store[v][k].updatedAt <= s'.clock
      {
        if v != u || k != s.nextId {
          assert v in s.store && k in s.store[v] && s'.store[v][k] == s.store[v][k];
        }
      }
    }
  }

  lemma PatchKeepsConsistent(s: Repo, u: Uid, id: TodoId, p: Patch)
    requires Consistent(s)
    ensures Consistent(PatchStep(s, u, id, p).0)
  {
    var s' := PatchStep(s, u, id, p).0;
    if s' != s {
      forall v, k | v in s'.store && k in s'.store[v]
        ensures k < s'.nextId && s'.store[v][k].updatedAt <= s'.clock
      {
        assert v in s.store && k in s.store[v];
        if v != u || k != id {
          assert s'.store[v][k] == s.store[v][k];
        }
      }
    }
  }

  lemma DeleteKeepsConsistent(s: Repo, u: Uid, id: TodoId)
    requires Consistent(s) && s.user == Some(u)
    ensures Consistent(DeleteStep(s, id).0)
  {
    var s' := DeleteStep(s, id).0;
    if s' != s {
      forall v, k | v in s'.store && k in s'.store[v]
        ensures k < s'.nextId && s'.store[v][k].updatedAt <= s'.clock
      {
        assert v in s.store && k in s.store[v] && s'.store[v][k] == s.store[v][k];
      }
    }
  }

  /** A successful add stores the trimmed fields under an id no collection has used, and the next
      listing contains the new todo; with server-stamped documents it comes first, ahead of the
      previous listing unchanged. */
  lemma AddThenList(s: Repo, title: string, description: string)
    requires Consistent(s) && s.user.Some? && s.outage.None?
    ensures var (s', r) := AddStep(s, title, description);
            && r.Success?
            && r.data == Todo(r.data.id, JsText.Trim(title), JsText.Trim(description), false, s'.clock, s'.clock)
            && (forall v :: v in s.store ==> r.data.id !in s.store[v])
            && s'.clock > s.clock
            && ListStep(s').Success?
            && (exists i :: 0 <= i < |ListStep(s').data| && ListStep(s').data[i] == r.data)
            && (ServerStamped(s, s.user.value) ==> ListStep(s').data == [r.data] + ListStep(s).data)
  {
    var u := s.user.value;
    var (s', r) := AddStep(s, title, description);
    var coll, k := TasksOf(s.store, u), s.nextId;
    var task := Task(JsText.Trim(title), JsText.Trim(description), false, s.clock + 1, s.clock + 1);
    assert TasksOf(s'.store, u) == coll[k := task];
    var p := PositionOf(coll[k := task], k);
    if ServerStamped(s, u) {
      forall j | j in coll ensures Newer(k, task, j, coll[j]) {
      }
      AddedComesFirst(coll, k, task);
    }
  }

  /** A successful update writes exactly the keys of the patch, refreshes `updatedAt` to a later
      server time (overriding any `updatedAt` in the patch), keeps the other documents, and, when
      the patch leaves `createdAt` alone, keeps every position of the listing. */
  lemma UpdateThenList(s: Repo, id: TodoId, p: Patch)
    requires Consistent(s) && s.user.Some?
    requires id in TasksOf(s.store, s.user.value) && s.outage.None?
    ensures var (s', r) := UpdateStep(s, id, p);
            var before, after := TasksOf(s.store, s.user.value), TasksOf(s'.store, s.user.value);
            && r.Success?
            && after.Keys == before.Keys
            && after[id] == ApplyPatch(before[id], p, s'.clock)
            && after[id].updatedAt > before[id].updatedAt
            && (p.completed.None? ==> after[id].completed == before[id].completed)
            && (p.createdAt.None? ==> after[id].createdAt == before[id].createdAt)
            && (forall k :: k in before && k != id ==> after[k] == before[k])
            && (p.createdAt.None? ==> Ordered(after) == Ordered(before))
  {
    var u := s.user.value;
    var (s', r) := UpdateStep(s, id, p);
    var before := TasksOf(s.store, u);
    var t := ApplyPatch(before[id], p, s.clock + 1);
    assert s'.clock == s.clock + 1;
    assert TasksOf(s'.store, u) == before[id := t];
    assert before[id].updatedAt <= s.clock;
    if p.createdAt.None? {
      RewriteKeepsOrder(before, id, t);
    }
  }

  /** After a successful delete the document is gone from the next listing, which is the previous
      listing without that one entry. */
  lemma DeleteThenList(s: Repo, id: TodoId)
    requires s.user.Some? && s.outage.None?
    ensures var s' := DeleteStep(s, id).0;
            && DeleteStep(s, id).1.Success?
            && ListStep(s').Success?
            && (forall i :: 0 <= i < |ListStep(s').data| ==> ListStep(s').data[i].id != id)
            && (id in TasksOf(s.store, s.user.value) ==>
                  exists p :: 0 <= p < |ListStep(s).data| && ListStep(s).data[p].id == id &&
                    ListStep(s').data == ListStep(s).data[..p] + ListStep(s).data[p + 1..])
  {
    var u := s.user.value;
    var coll := TasksOf(s.store, u);
    var s' := DeleteStep(s, id).0;
    if id in coll {
      assert TasksOf(s'.store, u) == coll - {id};
      assert ListStep(s').data == Listing(coll - {id});
      var p := PositionOf(coll, id);
      RemovedDropsOut(coll, id, p);
      assert ListStep(s).data[p].id == id;
    } else {
      assert s' == s;
    }
  }

  /** Ids are never reused: the todo added after a delete never gets the deleted id. */
  lemma DeletedIdNotReused(s: Repo, id: TodoId, title: string, description: string)
    requires Consistent(s) && s.user.Some? && s.outage.None?
    requires id in TasksOf(s.store, s.user.value)
    ensures var s' := DeleteStep(s, id).0;
            AddStep(s', title, description).1.Success? && AddStep(s', title, description).1.data.id != id
  {
  }

  /** The toggle is the update of `completed` alone, on both API paths while a user is signed in. */
  lemma ToggleIsCompletedUpdate(s: Repo, modular: bool, id: TodoId, status: bool)
    requires s.user.Some? || !modular
    ensures ToggleStep(s, modular, id, status) == UpdateStep(s, id, TogglePatch(status))
  {
  }

  /** The two API paths of the toggle have the same effect on the store in every state; they differ
      only in the error message when nobody is signed in. */
  lemma TogglePathsAgree(s: Repo, id: TodoId, status: bool)
    ensures ToggleStep(s, true, id, status).0 == ToggleStep(s, false, id, status).0
    ensures ToggleStep(s, true, id, status).1.Success? == ToggleStep(s, false, id, status).1.Success?
    ensures s.user.Some? ==> ToggleStep(s, true, id, status) == ToggleStep(s, false, id, status)
  {
  }

  /** There is no read before the write: `toggle(id, false)` then `toggle(id, true)` leaves the
      todo not completed whatever was stored before, and each call refreshes `updatedAt` to a
      strictly later server time. */
  lemma ToggleTwiceRestores(s: Repo, modular: bool, id: TodoId)
    requires Consistent(s) && s.user.Some? && s.outage.None?
    requires id in TasksOf(s.store, s.user.value)
    ensures var s1 := ToggleStep(s, modular, id, false).0;
            var s2 := ToggleStep(s1, modular, id, true).0;
            var u := s.user.value;
            && TasksOf(s1.store, u)[id].completed
            && !TasksOf(s2.store, u)[id].completed
            && TasksOf(s.store, u)[id].updatedAt < TasksOf(s1.store, u)[id].updatedAt
            && TasksOf(s1.store, u)[id].updatedAt < TasksOf(s2.store, u)[id].updatedAt
            && TasksOf(s2.store, u)[id].createdAt == TasksOf(s.store, u)[id].createdAt
  {
    var u := s.user.value;
    assert TasksOf(s.store, u)[id].updatedAt <= s.clock;
  }

  /** No call touches the collection of a user other than the signed-in one. */
  lemma OtherUsersUntouched(s: Repo, v: Uid, title: string, description: string, id: TodoId,
                            p: Patch, modular: bool, status: bool)
    requires s.user != Some(v)
    ensures TasksOf(AddStep(s, title, description).0.store, v) == TasksOf(s.store, v)
    ensures TasksOf(UpdateStep(s, id, p).0.store, v) == TasksOf(s.store, v)
    ensures TasksOf(DeleteStep(s, id).0.store, v) == TasksOf(s.store, v)
    ensures TasksOf(ToggleStep(s, modular, id, status).0.store, v) == TasksOf(s.store, v)
  {
    if s.user.Some? {
      PatchLeavesOthers(s, s.user.value, id, p, v);
      PatchLeavesOthers(s, s.user.value, id, TogglePatch(status), v);
    }
  }

  lemma PatchLeavesOthers(s: Repo, u: Uid, id: TodoId, p: Patch, v: Uid)
    requires u != v
    ensures TasksOf(PatchStep(s, u, id, p).0.store, v) == TasksOf(s.store, v)
  {
  }

  /** Calling `addTodo` without a description stores the empty string as the description. */
  lemma OmittedDescriptionStoresEmpty(s: Repo, title: string)
    requires s.user.Some? && s.outage.None?
    ensures var (s', r) := AddStep(s, title, DescriptionArgument(None));
            && r.Success? && r.data.description == ""
            && r.data.id in TasksOf(s'.store, s.user.value)
            && TasksOf(s'.store, s.user.value)[r.data.id].description == ""
  {
    assert JsText.Trim("") == "";
  }

  /** A channel opened by the signed-in user delivers what `getTodos` returns, as long as that user
      stays signed in; a closed channel delivers nothing, and closing twice is closing once. */
  lemma DeliveryAgreesWithGetTodos(s: Repo)
    requires Consistent(s) && s.user.Some?
    ensures var (s1, h) := SubscribeStep(s);
            && h.Some?
            && (s1.outage.None? ==> DeliverStep(s1, h.value).1 == Some(ListStep(s1)))
            && (s1.outage.Some? ==> DeliverStep(s1, h.value).1 == Some(ListStep(s1)) &&
                                    DeliverStep(s1, h.value).0.listeners == s.listeners)
            && DeliverStep(UnsubscribeStep(s1, h.value), h.value).1.None?
            && UnsubscribeStep(UnsubscribeStep(s1, h.value), h.value) == UnsubscribeStep(s1, h.value)
  {
    var (s1, h) := SubscribeStep(s);
    assert h.value !in s.listeners;
    assert s1.listeners - {h.value} == s.listeners;
  }

  /** The writes touch documents only: who is signed in, whether the store fails, and which
      channels are open on which collection stay as they were. */
  lemma WritesKeepChannels(s: Repo, title: string, description: string, id: TodoId, p: Patch,
                           modular: bool, status: bool)
    ensures var s1 := AddStep(s, title, description).0;
            s1.user == s.user && s1.outage == s.outage && s1.listeners == s.listeners
    ensures var s1 := UpdateStep(s, id, p).0;
            s1.user == s.user && s1.outage == s.outage && s1.listeners == s.listeners
    ensures var s1 := DeleteStep(s, id).0;
            s1.user == s.user && s1.outage == s.outage && s1.listeners == s.listeners
    ensures var s1 := ToggleStep(s, modular, id, status).0;
            s1.user == s.user && s1.outage == s.outage && s1.listeners == s.listeners
  {
  }

  /** In any state, an open channel of the signed-in user delivers exactly what `getTodos` would
      return, while the store answers. */
  lemma OpenChannelDeliversListing(s: Repo, h: ListenerId)
    requires h in s.listeners && s.user.Some? && s.listeners[h] == s.user.value && s.outage.None?
    ensures DeliverStep(s, h) == (s, Some(ListStep(s)))
  {
  }

  /** After any write, the next delivery on such a channel is the listing of the new state. */
  lemma ChannelFollowsWrites(s: Repo, h: ListenerId, title: string, description: string, id: TodoId,
                             p: Patch, modular: bool, status: bool)
    requires h in s.listeners && s.user.Some? && s.listeners[h] == s.user.value && s.outage.None?
    ensures var s1 := AddStep(s, title, description).0; DeliverStep(s1, h) == (s1, Some(ListStep(s1)))
    ensures var s1 := UpdateStep(s, id, p).0; DeliverStep(s1, h) == (s1, Some(ListStep(s1)))
    ensures var s1 := DeleteStep(s, id).0; DeliverStep(s1, h) == (s1, Some(ListStep(s1)))
    ensures var s1 := ToggleStep(s, modular, id, status).0; DeliverStep(s1, h) == (s1, Some(ListStep(s1)))
  {
    WritesKeepChannels(s, title, description, id, p, modular, status);
    OpenChannelDeliversListing(AddStep(s, title, description).0, h);
    OpenChannelDeliversListing(UpdateStep(s, id, p).0, h);
    OpenChannelDeliversListing(DeleteStep(s, id).0, h);
    OpenChannelDeliversListing(ToggleStep(s, modular, id, status).0, h);
  }

  // ---------------------------------------------------------------------------------------------
  // The repository object

  class TodoService {
    /** Whether the modular client functions were found at start-up; fixed for the process. */
    const modular: bool
    var store: Store
    var user: Option<Uid>
    var clock: Timestamp
    var nextId: TodoId
    var outage: Option<string>
    var listeners: map<ListenerId, Uid>
    var nextListener: ListenerId

    function State(): Repo
      reads this
    {
      Repo(store, user, clock, nextId, outage, listeners, nextListener)
    }

    /** The module-level instance, created over whatever the store already holds: `store` with
        the server clock at `clock` and unused document ids from `nextId` on; nobody signed in
        and no channel open yet. */
    constructor (modular: bool, store: Store, clock: Timestamp, nextId: TodoId)
      requires Consistent(Repo(store, None, clock, nextId, None, map[], 0))
      ensures this.modular == modular
      ensures State() == Repo(store, None, clock, nextId, None, map[], 0)
      ensures Consistent(State())
    {
      this.modular := modular;
      this.store, user, this.clock, this.nextId, outage := store, None, clock, nextId, None;
      listeners, nextListener := map[], 0;
    }

    /** The principal provider signs a user in or out. */
    method SetCurrentUser(u: Option<Uid>)
      modifies this
      ensures State() == old(State()).(user := u)
    {
      user := u;
    }

    /** The store starts or stops refusing requests (network, permission or quota failure). */
    method SetOutage(failure: Option<string>)
      modifies this
      ensures State() == old(State()).(outage := failure)
    {
      outage := failure;
    }

    method GetUserTodosRef() returns (r: Result<Uid>)
      ensures r == ResolveUser(State())
    {
      if user.None? {
        return Failure(NotAuthenticated);
      }
      return Success(user.value);
    }

    /** The `snapshot.forEach(doc => todos.push({ id: doc.id, ...doc.data() }))` loop over the
        documents of a `createdAt` descending query. */
    static method CollectTodos(c: Collection) returns (todos: seq<Todo>)
      ensures todos == Listing(c)
    {
      var snapshot := Ordered(c);
      todos := [];
      var i := 0;
      while i < |snapshot|
        invariant 0 <= i <= |snapshot|
        invariant todos == Listing(c)[..i]
      {
        todos := todos + [WithId(snapshot[i], c[snapshot[i]])];
        i := i + 1;
      }
    }

    method GetTodos() returns (r: Result<seq<Todo>>)
      ensures r == ListStep(State())
    {
      var ref := GetUserTodosRef();
      if ref.Failure? {
        return Failure(ref.error);
      }
      if outage.Some? {
        return Failure(StoreFailure(outage.value));
      }
      var todos := CollectTodos(TasksOf(store, ref.data));
      return Success(todos);
    }

    method SubscribeTodos() returns (h: Option<ListenerId>)
      modifies this
      ensures (State(), h) == SubscribeStep(old(State()))
    {
      var ref := GetUserTodosRef();
      if ref.Failure? {
        return None;
      }
      h := Some(nextListener);
      listeners := listeners[nextListener := ref.data];
      nextListener := nextListener + 1;
    }

    method Unsubscribe(h: ListenerId)
      modifies this
      ensures State() == UnsubscribeStep(old(State()), h)
    {
      listeners := listeners - {h};
    }

    /** The store pushes the current state of the watched collection to channel `h`. */
    method Deliver(h: ListenerId) returns (d: Option<Result<seq<Todo>>>)
      modifies this
      ensures (State(), d) == DeliverStep(old(State()), h)
    {
      if h !in listeners {
        return None;
      }
      if outage.Some? {
        listeners := listeners - {h};
        return Some(Failure(StoreFailure(outage.value)));
      }
      var todos := CollectTodos(TasksOf(store, listeners[h]));
      return Some(Success(todos));
    }

    /** `addTodo(title, description = '')`; `None` is the omitted second argument. */
    method AddTodo(title: string, description: Option<string>) returns (r: Result<Todo>)
      modifies this
      ensures (State(), r) == AddStep(old(State()), title, DescriptionArgument(description))
    {
      var ref := GetUserTodosRef();
      if ref.Failure? {
        return Failure(ref.error);
      }
      if outage.Some? {
        return Failure(StoreFailure(outage.value));
      }
      var ts, id := clock + 1, nextId;
      var task := NewTask(title, DescriptionArgument(description), ts);
      AddStepWrites(State(), title, DescriptionArgument(description));
      store := store[ref.data := TasksOf(store, ref.data)[id := task]];
      clock, nextId := ts, id + 1;
      return Success(WithId(id, task));
    }

    /** `doc(id).update({ ...p, updatedAt: serverTimestamp() })` on user `u`'s collection. */
    method WriteUpdate(u: Uid, id: TodoId, p: Patch) returns (r: Result<()>)
      modifies this
      ensures (State(), r) == PatchStep(old(State()), u, id, p)
    {
      if outage.Some? {
        return Failure(StoreFailure(outage.value));
      }
      var coll := TasksOf(store, u);
      if id !in coll {
        return Failure(NotFound);
      }
      clock := clock + 1;
      var written: Collection := coll[id := ApplyPatch(coll[id], p, clock)];
      store := store[u := written];
      return Success(());
    }

    method UpdateTodo(id: TodoId, p: Patch) returns (r: Result<()>)
      modifies this
      ensures (State(), r) == UpdateStep(old(State()), id, p)
    {
      var ref := GetUserTodosRef();
      if ref.Failure? {
        return Failure(ref.error);
      }
      r := WriteUpdate(ref.data, id, p);
    }

    method DeleteTodo(id: TodoId) returns (r: Result<()>)
      modifies this
      ensures (State(), r) == DeleteStep(old(State()), id)
    {
      var ref := GetUserTodosRef();
      if ref.Failure? {
        return Failure(ref.error);
      }
      if outage.Some? {
        return Failure(StoreFailure(outage.value));
      }
      var coll := TasksOf(store, ref.data);
      if id in coll {
        store := store[ref.data := coll - {id}];
      }
      return Success(());
    }

    method ToggleTodoComplete(id: TodoId, currentStatus: bool) returns (r: Result<()>)
      modifies this
      ensures (State(), r) == ToggleStep(old(State()), modular, id, currentStatus)
    {
      var u: Uid;
      if modular {
        if user.None? {
          return Failure(NoCurrentUser);
        }
        u := user.value;
      } else {
        var ref := GetUserTodosRef();
        if ref.Failure? {
          return Failure(ref.error);
        }
        u := ref.data;
      }
      r := WriteUpdate(u, id, TogglePatch(currentStatus));
    }
  }
}

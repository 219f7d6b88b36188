/** The logic of `HomeScreen`: the live subscription that feeds the todo list, its cleanup, and
    the progress statistics computed from the list on every render. */
module HomeScreen {
  import opened Results
  import opened TodoData
  import opened TodoService

  /** `todos.filter(t => t.completed).length`. */
  function CompletedCount(todos: seq<Todo>): (n: nat)
    ensures n <= |todos|
  {
    if todos == [] then 0
    else (if todos[0].completed then 1 else 0) + CompletedCount(todos[1..])
  }

  /** `todos.filter(t => !t.completed).length`. */
  function PendingCount(todos: seq<Todo>): (n: nat)
    ensures n <= |todos|
  {
    if todos == [] then 0
    else (if todos[0].completed then 0 else 1) + PendingCount(todos[1..])
  }

  lemma {:induction false} CountsPartitionList(todos: seq<Todo>)
    ensures CompletedCount(todos) + PendingCount(todos) == |todos|
  {
    if todos != [] {
      CountsPartitionList(todos[1..]);
    }
  }

  lemma {:induction false} CompletedCountExtremes(todos: seq<Todo>)
    ensures CompletedCount(todos) == |todos| <==> forall i :: 0 <= i < |todos| ==> todos[i].completed
    ensures CompletedCount(todos) == 0 <==> forall i :: 0 <= i < |todos| ==> !todos[i].completed
  {
    if todos != [] {
      CompletedCountExtremes(todos[1..]);
      assert forall i :: 1 <= i < |todos| ==> todos[i] == todos[1..][i - 1];
    }
  }

  /** `Math.round(completed / total * 100)`, or 0 for an empty list, in exact integer arithmetic:
      the percentage rounded half up. */
  function CompletionRate(todos: seq<Todo>): (rate: nat)
    ensures rate <= 100
    ensures todos == [] ==> rate == 0
    ensures todos != [] ==>
      var c, n := CompletedCount(todos), |todos|;
      2 * n * rate <= 200 * c + n < 2 * n * rate + 2 * n
  {
    var c, n := CompletedCount(todos), |todos|;
    if n > 0 then
      RoundedPercent(c, n);
      (200 * c + n) / (2 * n)
    else 0
  }

  lemma RoundedPercent(c: nat, n: nat)
    requires 0 < n && c <= n
    ensures var r := (200 * c + n) / (2 * n);
            0 <= r <= 100 && 2 * n * r <= 200 * c + n < 2 * n * r + 2 * n
  {
    var r := (200 * c + n) / (2 * n);
    var q := 200 * c + n;
    assert q == 2 * n * r + q % (2 * n);
    MonotoneProduct(2 * n, 101, r);
  }

  lemma MonotoneProduct(a: nat, x: int, y: int)
    ensures x <= y ==> a * x <= a * y
  {
    if x <= y {
      assert a * y == a * x + a * (y - x);
    }
  }

  /** The rate is 100 when every todo is completed and 0 when none is. */
  lemma RateExtremes(todos: seq<Todo>)
    requires todos != []
    ensures (forall i :: 0 <= i < |todos| ==> todos[i].completed) ==> CompletionRate(todos) == 100
    ensures (forall i :: 0 <= i < |todos| ==> !todos[i].completed) ==> CompletionRate(todos) == 0
  {
    CompletedCountExtremes(todos);
    var n, rate := |todos|, CompletionRate(todos);
    MonotoneProduct(2 * n, 101, rate);
    MonotoneProduct(2 * n, rate, 99);
    MonotoneProduct(2 * n, 1, rate);
  }

  class HomeScreen {
    var todos: seq<Todo>
    var loading: bool
    var refreshing: bool
    /** The message of the last `Alert.alert('Error', ...)`, if any. */
    var alert: Option<string>
    /** What `subscribeTodos` returned: a channel, or `null`. */
    var unsubscribe: Option<ListenerId>

    /** The initial state of the component: `useState([])`, `useState(true)`, `useState(false)`. */
    constructor ()
      ensures todos == [] && loading && !refreshing && alert.None? && unsubscribe.None?
    {
      todos, loading, refreshing, alert, unsubscribe := [], true, false, None, None;
    }

    /** The effect body: open a channel on the signed-in user's todos and keep the handle. */
    method Subscribe(svc: TodoService)
      modifies this, svc
      ensures (svc.State(), unsubscribe) == SubscribeStep(old(svc.State()))
      ensures todos == old(todos) && loading == old(loading) && refreshing == old(refreshing)
      ensures alert == old(alert)
    {
      unsubscribe := svc.SubscribeTodos();
    }

    /** The subscription callback: a successful snapshot replaces the list wholesale, a failure
        keeps it and raises an alert; both end the loading and refreshing indicators. */
    method OnResult(result: Result<seq<Todo>>)
      modifies this
      ensures todos == (if result.Success? then result.data else old(todos))
      ensures alert == (if result.Success? then old(alert) else Some(Message(result.error)))
      ensures !loading && !refreshing && unsubscribe == old(unsubscribe)
    {
      if result.Success? {
        todos := result.data;
      } else {
        alert := Some(Message(result.error));
      }
      loading := false;
      refreshing := false;
    }

    /** The store pushes a snapshot down this screen's channel, if it has one, and the callback
        runs on what was delivered. */
    method Receive(svc: TodoService)
      modifies this, svc
      ensures var d := if old(unsubscribe).Some? then DeliverStep(old(svc.State()), old(unsubscribe).value)
                       else (old(svc.State()), None);
              && svc.State() == d.0
              && todos == (if d.1.Some? && d.1.value.Success? then d.1.value.data else old(todos))
              && (d.1.Some? ==> !loading && !refreshing)
              && (d.1.None? ==> loading == old(loading) && refreshing == old(refreshing))
              && alert == (if d.1.Some? && d.1.value.Failure? then Some(Message(d.1.value.error)) else old(alert))
      ensures unsubscribe == old(unsubscribe)
    {
      if unsubscribe.Some? {
        var d := svc.Deliver(unsubscribe.value);
        if d.Some? {
          OnResult(d.value);
        }
      }
    }

    /** The effect cleanup: close the channel only if there is one, so the `null` returned when
        nobody was signed in is tolerated. */
    method Cleanup(svc: TodoService)
      modifies svc
      ensures unsubscribe.Some? ==> svc.State() == UnsubscribeStep(old(svc.State()), unsubscribe.value)
      ensures unsubscribe.None? ==> svc.State() == old(svc.State())
    {
      if unsubscribe.Some? {
        svc.Unsubscribe(unsubscribe.value);
      }
    }
  }
}

/** The documents the repository keeps: one collection of task documents per signed-in user
    (`users/<uid>/todos/<id>`), and the order in which the store lists a collection when asked
    for `orderBy('createdAt', 'desc')`. */
module TodoData {
  import opened Results

  /** A signed-in user's id; `getUserTodosRef` treats an empty (falsy) id as no user. */
  type Uid = u: string | u != "" witness "uid"
  type TodoId = nat
  /** A resolved server timestamp: the value the store's clock gives a server-timestamp sentinel. */
  type Timestamp = nat

  /** The fields of one task document. */
  datatype Task = Task(title: string, description: string, completed: bool,
                       createdAt: Timestamp, updatedAt: Timestamp)

  /** A listed task, `{ id: doc.id, ...doc.data() }`. */
  datatype Todo = Todo(id: TodoId, title: string, description: string, completed: bool,
                       createdAt: Timestamp, updatedAt: Timestamp)

  /** One user's todos collection: document id to document fields. */
  type Collection = map<TodoId, Task>

  /** The `users` collection: user id to that user's todos collection. */
  type Store = map<Uid, Collection>

  function WithId(id: TodoId, t: Task): Todo
  {
    Todo(id, t.title, t.description, t.completed, t.createdAt, t.updatedAt)
  }

  /** The fields of a listed todo, without its id. */
  function Fields(t: Todo): Task
  {
    Task(t.title, t.description, t.completed, t.createdAt, t.updatedAt)
  }

  lemma FieldsOfWithId(id: TodoId, t: Task)
    ensures Fields(WithId(id, t)) == t && WithId(id, t).id == id
  {
  }

  /** The collection of user `u`; a user who never wrote a todo has an empty one. */
  function TasksOf(store: Store, u: Uid): Collection
  {
    if u in store then store[u] else map[]
  }

  /** Document `a` comes before document `b` in a `createdAt` descending listing. Equal
      timestamps fall back to the document id, in the same (descending) direction. */
  predicate Newer(a: TodoId, ta: Task, b: TodoId, tb: Task)
  {
    ta.createdAt > tb.createdAt || (ta.createdAt == tb.createdAt && a > b)
  }

  predicate IsNewest(c: Collection, k: TodoId)
  {
    k in c && forall j :: j in c && j != k ==> Newer(k, c[k], j, c[j])
  }

  lemma {:induction false} NewestExists(c: Collection)
    requires c != map[]
    ensures exists k :: IsNewest(c, k)
    decreases c.Keys
  {
    var x :| x in c;
    var rest := c - {x};
    assert forall j :: j in c && j != x ==> j in rest && rest[j] == c[j];
    if rest == map[] {
      assert IsNewest(c, x);
    } else {
      assert rest.Keys < c.Keys;
      NewestExists(rest);
      var y :| IsNewest(rest, y);
      if Newer(x, c[x], y, c[y]) {
        forall j | j in c && j != x ensures Newer(x, c[x], j, c[j]) {
          if j != y {
            assert j in rest && rest[j] == c[j];
          }
        }
        assert IsNewest(c, x);
      } else {
        forall j | j in c && j != y ensures Newer(y, c[y], j, c[j]) {
          if j != x {
            assert j in rest && rest[j] == c[j];
          }
        }
        assert IsNewest(c, y);
      }
    }
  }

  lemma NewestUnique(c: Collection, k: TodoId, k': TodoId)
    requires IsNewest(c, k) && IsNewest(c, k')
    ensures k == k'
  {
  }

  /** `ids` lists every key of `c`, each once, newest first (strict order rules out repeats). */
  predicate Enumerates(c: Collection, ids: seq<TodoId>)
  {
    && (forall i :: 0 <= i < |ids| ==> ids[i] in c)
    && (forall k :: k in c ==> k in ids)
    && (forall i, j :: 0 <= i < j < |ids| ==> Newer(ids[i], c[ids[i]], ids[j], c[ids[j]]))
  }

  /** Putting the newest document in front of an enumeration of the others enumerates all. */
  lemma ConsEnumerates(c: Collection, k: TodoId, s: seq<TodoId>)
    requires IsNewest(c, k) && Enumerates(c - {k}, s)
    ensures Enumerates(c, [k] + s)
  {
    var rest := c - {k};
    var t := [k] + s;
    forall i | 0 <= i < |s| ensures s[i] in c && s[i] != k && rest[s[i]] == c[s[i]] {
      assert s[i] in rest;
    }
    forall j | j in c ensures j in t {
      if j != k { assert j in rest; }
    }
    forall i, j | 0 <= i < j < |t| ensures Newer(t[i], c[t[i]], t[j], c[t[j]]) {
      if i > 0 {
        assert t[i] == s[i - 1] && t[j] == s[j - 1];
        assert Newer(s[i - 1], rest[s[i - 1]], s[j - 1], rest[s[j - 1]]);
      } else {
        assert t[j] == s[j - 1];
      }
    }
  }

  /** The document ids of `c` in the order the store's `createdAt` descending query returns them. */
  function Ordered(c: Collection): (ids: seq<TodoId>)
    ensures Enumerates(c, ids)
    decreases c.Keys
  {
    if c == map[] then []
    else
      NewestExists(c);
      var k :| IsNewest(c, k);
      var rest := c - {k};
      assert rest.Keys < c.Keys;
      var s := Ordered(rest);
      ConsEnumerates(c, k, s);
      [k] + s
  }

  /** A sorted enumeration of a collection is unique: the listing order is fully determined by
      the documents, whichever query path produced it. */
  lemma {:induction false} EnumerationUnique(c: Collection, s: seq<TodoId>, t: seq<TodoId>)
    requires Enumerates(c, s) && Enumerates(c, t)
    ensures s == t
    decreases c.Keys
  {
    if s != [] || t != [] {
      HeadsAgree(c, s, t);
      var rest := c - {s[0]};
      assert rest.Keys < c.Keys;
      TailEnumerates(c, s);
      TailEnumerates(c, t);
      EnumerationUnique(rest, s[1..], t[1..]);
      assert s == [s[0]] + s[1..] && t == [t[0]] + t[1..];
    }
  }

  /** Two enumerations of one collection, one of them non-empty, start with the same document. */
  lemma HeadsAgree(c: Collection, s: seq<TodoId>, t: seq<TodoId>)
    requires Enumerates(c, s) && Enumerates(c, t) && (s != [] || t != [])
    ensures s != [] && t != [] && s[0] == t[0]
  {
    if s != [] { NonEmptyEnumerations(c, s, t); } else { NonEmptyEnumerations(c, t, s); }
    HeadIsNewest(c, s);
    HeadIsNewest(c, t);
    NewestUnique(c, s[0], t[0]);
  }

  /** Two enumerations of one collection are empty together. */
  lemma NonEmptyEnumerations(c: Collection, s: seq<TodoId>, t: seq<TodoId>)
    requires Enumerates(c, s) && Enumerates(c, t) && s != []
    ensures t != []
  {
    assert s[0] in c;
    assert s[0] in t;
  }

  lemma HeadIsNewest(c: Collection, s: seq<TodoId>)
    requires Enumerates(c, s) && |s| > 0
    ensures IsNewest(c, s[0])
  {
    forall j | j in c && j != s[0] ensures Newer(s[0], c[s[0]], j, c[j]) {
      var m :| 0 <= m < |s| && s[m] == j;
    }
  }

  lemma TailEnumerates(c: Collection, s: seq<TodoId>)
    requires Enumerates(c, s) && |s| > 0
    ensures Enumerates(c - {s[0]}, s[1..])
  {
    var rest := c - {s[0]};
    forall i | 0 <= i < |s| - 1 ensures s[1..][i] in rest && rest[s[1..][i]] == c[s[i + 1]] {
      assert Newer(s[0], c[s[0]], s[i + 1], c[s[i + 1]]);
    }
    forall k | k in rest ensures k in s[1..] {
      var m :| 0 <= m < |s| && s[m] == k;
      assert m > 0;
      assert s[1..][m - 1] == k;
    }
  }

  /** The listing order on listed todos. */
  predicate NewerTodo(a: Todo, b: Todo)
  {
    a.createdAt > b.createdAt || (a.createdAt == b.createdAt && a.id > b.id)
  }

  /** A collection's listing, `{ id, ...data }` per document, newest first: every document of
      the collection appears, with its own fields, and nothing else does. */
  function Listing(c: Collection): (todos: seq<Todo>)
    ensures |todos| == |Ordered(c)|
    ensures forall i :: 0 <= i < |todos| ==> todos[i].id == Ordered(c)[i]
    ensures forall i :: 0 <= i < |todos| ==> todos[i].id in c && todos[i] == WithId(todos[i].id, c[todos[i].id])
  {
    ListOf(c, Ordered(c))
  }

  /** `{ id, ...data }` for each of the documents `ids`, in that order. */
  function ListOf(c: Collection, ids: seq<TodoId>): (todos: seq<Todo>)
    requires forall i :: 0 <= i < |ids| ==> ids[i] in c
    ensures |todos| == |ids|
    ensures forall i :: 0 <= i < |ids| ==> todos[i] == WithId(ids[i], c[ids[i]])
  {
    seq(|ids|, i requires 0 <= i < |ids| => WithId(ids[i], c[ids[i]]))
  }

  lemma ListOfCons(c: Collection, k: TodoId, t: Task, ids: seq<TodoId>)
    requires k !in c && forall i :: 0 <= i < |ids| ==> ids[i] in c
    ensures ListOf(c[k := t], [k] + ids) == [WithId(k, t)] + ListOf(c, ids)
  {
    var l, l' := ListOf(c, ids), ListOf(c[k := t], [k] + ids);
    forall i | 0 <= i < |l'| ensures l'[i] == ([WithId(k, t)] + l)[i] {
      if i > 0 {
        assert ([k] + ids)[i] == ids[i - 1];
      }
    }
  }

  lemma ListOfWithout(c: Collection, ids: seq<TodoId>, p: nat)
    requires p < |ids| && forall i :: 0 <= i < |ids| ==> ids[i] in c
    requires forall i :: 0 <= i < |Without(ids, p)| ==> Without(ids, p)[i] != ids[p]
    ensures ListOf(c - {ids[p]}, Without(ids, p)) == ListOf(c, ids)[..p] + ListOf(c, ids)[p + 1..]
  {
    var c', w := c - {ids[p]}, Without(ids, p);
    var l, l' := ListOf(c, ids), ListOf(c', w);
    var m := l[..p] + l[p + 1..];
    forall i | 0 <= i < |l'| ensures l'[i] == m[i] {
      var j := if i < p then i else i + 1;
      assert m[i] == l[j];
    }
  }

  /** Every document of the collection appears in its listing, and the listing is newest first. */
  lemma ListingSorted(c: Collection)
    ensures var todos := Listing(c);
            && (forall k :: k in c ==> exists i :: 0 <= i < |todos| && todos[i].id == k)
            && (forall i, j :: 0 <= i < j < |todos| ==> NewerTodo(todos[i], todos[j]))
  {
    var ids, todos := Ordered(c), Listing(c);
    forall k | k in c ensures exists i :: 0 <= i < |todos| && todos[i].id == k {
      var i :| 0 <= i < |ids| && ids[i] == k;
      assert todos[i].id == k;
    }
    forall i, j | 0 <= i < j < |todos| ensures NewerTodo(todos[i], todos[j]) {
      assert Newer(ids[i], c[ids[i]], ids[j], c[ids[j]]);
    }
  }

  /** A document created after every other one of the collection is listed first, ahead of
      the previous listing unchanged. */
  lemma AddedComesFirst(c: Collection, k: TodoId, t: Task)
    requires k !in c
    requires forall j :: j in c ==> Newer(k, t, j, c[j])
    ensures Ordered(c[k := t]) == [k] + Ordered(c)
    ensures Listing(c[k := t]) == [WithId(k, t)] + Listing(c)
  {
    AddedIsOrderedFirst(c, k, t);
    ListOfCons(c, k, t, Ordered(c));
  }

  lemma AddedIsOrderedFirst(c: Collection, k: TodoId, t: Task)
    requires k !in c
    requires forall j :: j in c ==> Newer(k, t, j, c[j])
    ensures Ordered(c[k := t]) == [k] + Ordered(c)
  {
    var c' := c[k := t];
    assert c' - {k} == c;
    assert IsNewest(c', k);
    ConsEnumerates(c', k, Ordered(c));
    EnumerationUnique(c', [k] + Ordered(c), Ordered(c'));
  }

  /** `s` without its entry at position `p`. */
  function Without(s: seq<TodoId>, p: nat): (r: seq<TodoId>)
    requires p < |s|
    ensures |r| == |s| - 1
    ensures forall i :: 0 <= i < |r| ==> r[i] == (if i < p then s[i] else s[i + 1])
  {
    s[..p] + s[p + 1..]
  }

  /** Leaving one entry out of an enumeration enumerates the collection without that document. */
  lemma DropEnumerates(c: Collection, s: seq<TodoId>, p: nat)
    requires Enumerates(c, s) && p < |s|
    ensures Enumerates(c - {s[p]}, Without(s, p))
  {
    DropKeepsMembers(c, s, p);
    DropCovers(c, s, p);
    DropKeepsOrder(c, s, p);
  }

  lemma DropKeepsMembers(c: Collection, s: seq<TodoId>, p: nat)
    requires Enumerates(c, s) && p < |s|
    ensures forall i :: 0 <= i < |Without(s, p)| ==> Without(s, p)[i] in c && Without(s, p)[i] != s[p]
  {
    var s' := Without(s, p);
    forall i | 0 <= i < |s'| ensures s'[i] in c && s'[i] != s[p] {
      if i < p { assert Newer(s[i], c[s[i]], s[p], c[s[p]]); }
      else { assert Newer(s[p], c[s[p]], s[i + 1], c[s[i + 1]]); }
    }
  }

  lemma DropCovers(c: Collection, s: seq<TodoId>, p: nat)
    requires Enumerates(c, s) && p < |s|
    ensures forall j :: j in c && j != s[p] ==> j in Without(s, p)
  {
    var s' := Without(s, p);
    forall j | j in c && j != s[p] ensures j in s' {
      var m :| 0 <= m < |s| && s[m] == j;
      if m < p { assert s'[m] == j; } else { assert s'[m - 1] == j; }
    }
  }

  lemma DropKeepsOrder(c: Collection, s: seq<TodoId>, p: nat)
    requires Enumerates(c, s) && p < |s|
    ensures forall i, j :: 0 <= i < j < |Without(s, p)| ==>
              Without(s, p)[i] in c && Without(s, p)[j] in c &&
              Newer(Without(s, p)[i], c[Without(s, p)[i]], Without(s, p)[j], c[Without(s, p)[j]])
  {
    var s' := Without(s, p);
    forall i, j | 0 <= i < j < |s'|
      ensures s'[i] in c && s'[j] in c && Newer(s'[i], c[s'[i]], s'[j], c[s'[j]])
    {
      var i', j' := if i < p then i else i + 1, if j < p then j else j + 1;
      assert s'[i] == s[i'] && s'[j] == s[j'];
    }
  }

  /** Removing a document removes exactly its entry from the listing and keeps the rest in order. */
  lemma RemovedDropsOut(c: Collection, k: TodoId, p: nat)
    requires p < |Ordered(c)| && Ordered(c)[p] == k
    ensures Ordered(c - {k}) == Ordered(c)[..p] + Ordered(c)[p + 1..]
    ensures Listing(c - {k}) == Listing(c)[..p] + Listing(c)[p + 1..]
  {
    var ids := Ordered(c);
    DropEnumerates(c, ids, p);
    EnumerationUnique(c - {k}, Without(ids, p), Ordered(c - {k}));
    DropKeepsMembers(c, ids, p);
    ListOfWithout(c, ids, p);
  }

  /** Rewriting a document without changing its `createdAt` keeps every position of the listing. */
  lemma RewriteKeepsOrder(c: Collection, k: TodoId, t: Task)
    requires k in c && t.createdAt == c[k].createdAt
    ensures Ordered(c[k := t]) == Ordered(c)
  {
    var c', ids := c[k := t], Ordered(c);
    assert forall x :: x in c ==> x in c' && c'[x].createdAt == c[x].createdAt;
    forall i, j | 0 <= i < j < |ids| ensures Newer(ids[i], c'[ids[i]], ids[j], c'[ids[j]]) {
      assert Newer(ids[i], c[ids[i]], ids[j], c[ids[j]]);
    }
    EnumerationUnique(c', Ordered(c), Ordered(c'));
  }

  /** The position of a listed document. */
  lemma PositionOf(c: Collection, k: TodoId) returns (p: nat)
    requires k in c
    ensures p < |Ordered(c)| && Ordered(c)[p] == k && Listing(c)[p] == WithId(k, c[k])
  {
    var ids := Ordered(c);
    p :| 0 <= p < |ids| && ids[p] == k;
  }

  /** The keys of an `updates` object: each present field overwrites the stored one. */
  datatype Patch = Patch(title: Option<string>, description: Option<string>,
                         completed: Option<bool>, createdAt: Option<Timestamp>,
                         updatedAt: Option<Timestamp>)

  function Pick<T>(o: Option<T>, current: T): T
  {
    match o
    case Some(v) => v
    case None => current
  }

  /** The document after `update({ ...updates, updatedAt: serverTimestamp() })`: the keys of the
      patch are written, then `updatedAt` is set to the write's server time `ts`, so a
      caller-supplied `updatedAt` never survives. */
  function ApplyPatch(t: Task, p: Patch, ts: Timestamp): (r: Task)
    ensures r.updatedAt == ts
    ensures p.title.Some? ==> r.title == p.title.value
    ensures p.title.None? ==> r.title == t.title
    ensures p.description.Some? ==> r.description == p.description.value
    ensures p.description.None? ==> r.description == t.description
    ensures p.completed.Some? ==> r.completed == p.completed.value
    ensures p.completed.None? ==> r.completed == t.completed
    ensures p.createdAt.Some? ==> r.createdAt == p.createdAt.value
    ensures p.createdAt.None? ==> r.createdAt == t.createdAt
  {
    Task(Pick(p.title, t.title), Pick(p.description, t.description),
         Pick(p.completed, t.completed), Pick(p.createdAt, t.createdAt), ts)
  }
}

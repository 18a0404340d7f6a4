/**
  GET `/api/tasks`: the caller's `client_tasks` rows joined with their task
  (`JOIN tasks t ON ct.task_id = t.id`), ordered by due date and then by
  creation time. It reads the tables and changes nothing, so it is a
  function of them.
 */
module TasksRoute {
  import opened Wrappers
  import opened Calendar
  import opened Http
  import opened Schema
  import ClientsRoute

  const ClientNotFoundMessage := "Client not found"

  /** A row of the listing: the instance's own columns and its task's title, description and business type. */
  datatype TaskView = TaskView(
    id: nat,
    status: string,
    completedAt: Option<int>,
    dueDate: Date,
    createdAt: int,
    updatedAt: int,
    title: string,
    description: string,
    businessType: string)

  function View(ct: ClientTask, t: Task): TaskView {
    TaskView(ct.id, ct.status, ct.completedAt, ct.dueDate, ct.createdAt, ct.updatedAt,
             t.title, t.description, t.businessType)
  }

  /** The joined rows of one instance: one per task whose id is the instance's task id. */
  function JoinOne(ct: ClientTask, tasks: seq<Task>): (r: seq<TaskView>)
    ensures |r| <= |tasks|
    ensures forall v :: v in r ==> v.id == ct.id && v.status == ct.status
  {
    if tasks == [] then []
    else (if tasks[0].id == ct.taskId then [View(ct, tasks[0])] else []) + JoinOne(ct, tasks[1..])
  }

  /** `FROM client_tasks ct JOIN tasks t ON ct.task_id = t.id WHERE ct.client_id = clientId`, before ordering. */
  function Joined(clientTasks: seq<ClientTask>, tasks: seq<Task>, clientId: nat): (r: seq<TaskView>)
    ensures |r| <= |clientTasks| * |tasks|
    ensures clientTasks == [] || tasks == [] ==> r == []
  {
    if clientTasks == [] then []
    else
      var n := |clientTasks|;
      assert (n - 1) * |tasks| + |tasks| == n * |tasks|;
      (if clientTasks[0].clientId == clientId then JoinOne(clientTasks[0], tasks) else [])
        + Joined(clientTasks[1..], tasks, clientId)
  }

  lemma {:induction false} JoinOneMembers(ct: ClientTask, tasks: seq<Task>, v: TaskView)
    ensures v in JoinOne(ct, tasks) <==> exists t :: t in tasks && t.id == ct.taskId && v == View(ct, t)
  {
    if tasks != [] {
      JoinOneMembers(ct, tasks[1..], v);
      if v in JoinOne(ct, tasks[1..]) {
        var t :| t in tasks[1..] && t.id == ct.taskId && v == View(ct, t);
        assert t in tasks;
      }
    }
  }

  /**
    The inner join holds exactly the views of the client's instances paired
    with the tasks they reference; an instance whose task is missing
    contributes nothing.
   */
  lemma {:induction false} JoinedMembers(clientTasks: seq<ClientTask>, tasks: seq<Task>, clientId: nat, v: TaskView)
    ensures v in Joined(clientTasks, tasks, clientId) <==>
              exists ct, t :: ct in clientTasks && t in tasks && ct.clientId == clientId && ct.taskId == t.id
                              && v == View(ct, t)
  {
    if clientTasks != [] {
      var ct0 := clientTasks[0];
      JoinOneMembers(ct0, tasks, v);
      JoinedMembers(clientTasks[1..], tasks, clientId, v);
      if v in Joined(clientTasks[1..], tasks, clientId) {
        var ct, t :| ct in clientTasks[1..] && t in tasks && ct.clientId == clientId && ct.taskId == t.id
                     && v == View(ct, t);
        assert ct in clientTasks;
      }
      if exists ct, t :: ct in clientTasks && t in tasks && ct.clientId == clientId && ct.taskId == t.id
                         && v == View(ct, t) {
        var ct, t :| ct in clientTasks && t in tasks && ct.clientId == clientId && ct.taskId == t.id
                     && v == View(ct, t);
        if ct != ct0 {
          assert ct in clientTasks[1..];
        }
      }
    }
  }

  /** When task ids are unique and the instance's task exists, the join gives that instance exactly one row. */
  lemma {:induction false} JoinOneSingle(ct: ClientTask, tasks: seq<Task>)
    requires DistinctTaskIds(tasks)
    ensures |JoinOne(ct, tasks)| == (if ct.taskId in TaskIds(tasks) then 1 else 0)
  {
    if tasks != [] {
      var rest := tasks[1..];
      assert DistinctTaskIds(rest) by {
        forall i, j | 0 <= i < j < |rest| ensures rest[i].id != rest[j].id {
          assert rest[i] == tasks[i + 1] && rest[j] == tasks[j + 1];
        }
      }
      JoinOneSingle(ct, rest);
      assert TaskIds(tasks) == TaskIds(rest) + {tasks[0].id} by {
        assert tasks == [tasks[0]] + rest;
      }
      forall t | t in rest ensures t.id != tasks[0].id {
        var j :| 0 <= j < |rest| && rest[j] == t;
        assert tasks[j + 1] == t;
      }
    }
  }

  /** The client's own instances, in table order. */
  function OwnRows(clientTasks: seq<ClientTask>, clientId: nat): (r: seq<ClientTask>)
    ensures forall ct :: ct in r <==> ct in clientTasks && ct.clientId == clientId
  {
    if clientTasks == [] then []
    else (if clientTasks[0].clientId == clientId then [clientTasks[0]] else []) + OwnRows(clientTasks[1..], clientId)
  }

  /** With unique task ids and resolving references the join drops nothing: one row per instance of the client. */
  lemma {:induction false} JoinedKeepsEveryRow(clientTasks: seq<ClientTask>, tasks: seq<Task>, clientId: nat)
    requires DistinctTaskIds(tasks)
    requires forall ct :: ct in clientTasks ==> ct.taskId in TaskIds(tasks)
    ensures |Joined(clientTasks, tasks, clientId)| == |OwnRows(clientTasks, clientId)|
  {
    if clientTasks != [] {
      JoinOneSingle(clientTasks[0], tasks);
      assert forall ct :: ct in clientTasks[1..] ==> ct in clientTasks;
      JoinedKeepsEveryRow(clientTasks[1..], tasks, clientId);
    }
  }

  /** Joining a concatenation of instance lists concatenates the joins. */
  lemma {:induction false} JoinedAppend(a: seq<ClientTask>, b: seq<ClientTask>, tasks: seq<Task>, clientId: nat)
    ensures Joined(a + b, tasks, clientId) == Joined(a, tasks, clientId) + Joined(b, tasks, clientId)
  {
    if a != [] {
      var ab := a + b;
      assert ab[0] == a[0] && ab[1..] == a[1..] + b;
      JoinedAppend(a[1..], b, tasks, clientId);
      var head := if a[0].clientId == clientId then JoinOne(a[0], tasks) else [];
      calc {
        Joined(ab, tasks, clientId);
        head + Joined(a[1..] + b, tasks, clientId);
        head + (Joined(a[1..], tasks, clientId) + Joined(b, tasks, clientId));
        (head + Joined(a[1..], tasks, clientId)) + Joined(b, tasks, clientId);
        Joined(a, tasks, clientId) + Joined(b, tasks, clientId);
      }
    } else {
      assert a + b == b;
    }
  }

  /** `ORDER BY ct.due_date ASC, ct.created_at ASC`: `a` may come before `b`. */
  predicate RowLeq(a: TaskView, b: TaskView) {
    DateLess(a.dueDate, b.dueDate) || (a.dueDate == b.dueDate && a.createdAt <= b.createdAt)
  }

  lemma RowLeqTotal(a: TaskView, b: TaskView)
    ensures RowLeq(a, b) || RowLeq(b, a)
  {
  }

  lemma RowLeqTransitive(a: TaskView, b: TaskView, c: TaskView)
    requires RowLeq(a, b) && RowLeq(b, c)
    ensures RowLeq(a, c)
  {
  }

  predicate SortedRows(s: seq<TaskView>) {
    forall i, j :: 0 <= i < j < |s| ==> RowLeq(s[i], s[j])
  }

  function InsertRow(v: TaskView, s: seq<TaskView>): (r: seq<TaskView>)
    ensures multiset(r) == multiset(s) + multiset{v}
  {
    if s == [] then [v]
    else if RowLeq(v, s[0]) then [v] + s
    else
      assert s == [s[0]] + s[1..];
      [s[0]] + InsertRow(v, s[1..])
  }

  lemma {:induction false} InsertRowSorted(v: TaskView, s: seq<TaskView>)
    requires SortedRows(s)
    ensures SortedRows(InsertRow(v, s))
  {
    if s != [] && !RowLeq(v, s[0]) {
      var tail := s[1..];
      assert SortedRows(tail) by {
        forall i, j | 0 <= i < j < |tail| ensures RowLeq(tail[i], tail[j]) {
          assert tail[i] == s[i + 1] && tail[j] == s[j + 1];
        }
      }
      InsertRowSorted(v, tail);
      var rest := InsertRow(v, tail);
      forall x | x in rest ensures RowLeq(s[0], x) {
        assert x in multiset(rest);
        if x == v {
          RowLeqTotal(v, s[0]);
        } else {
          var j :| 0 <= j < |tail| && tail[j] == x;
          assert s[j + 1] == x;
        }
      }
      var r := [s[0]] + rest;
      forall i, j | 0 <= i < j < |r| ensures RowLeq(r[i], r[j]) {
        if i == 0 {
          assert r[j] in rest;
        } else {
          assert r[i] == rest[i - 1] && r[j] == rest[j - 1];
        }
      }
    }
  }

  /** The listing's order: a sort by (due date, creation time) of the joined rows. */
  function OrderRows(s: seq<TaskView>): (r: seq<TaskView>)
    ensures SortedRows(r)
    ensures multiset(r) == multiset(s)
  {
    if s == [] then []
    else
      assert s == [s[0]] + s[1..];
      InsertRowSorted(s[0], OrderRows(s[1..]));
      InsertRow(s[0], OrderRows(s[1..]))
  }

  /** GET /api/tasks over the current tables. */
  function ListTasks(session: Option<UserId>, clients: seq<Client>, tasks: seq<Task>, clientTasks: seq<ClientTask>)
    : (r: Response<seq<TaskView>>)
    ensures Caller(session).None? ==> r == Error(401, "Unauthorized")
    ensures Caller(session).Some? && FindClient(clients, session.value).None? ==> r == Error(404, ClientNotFoundMessage)
    ensures Caller(session).Some? && FindClient(clients, session.value).Some? ==> r.Ok?
    ensures r.Ok? ==>
      && Caller(session).Some? && FindClient(clients, session.value).Some?
      && SortedRows(r.body)
      && multiset(r.body) == multiset(Joined(clientTasks, tasks, FindClient(clients, session.value).value.id))
  {
    match Caller(session)
    case None => Error(401, "Unauthorized")
    case Some(userId) =>
      match FindClient(clients, userId)
      case None => Error(404, ClientNotFoundMessage)
      case Some(client) => Ok(OrderRows(Joined(clientTasks, tasks, client.id)))
  }

  /**
    A successful listing holds exactly the views of the caller's client's
    instances joined with their tasks, each carrying the task's title,
    description and business type beside the instance's own columns.
   */
  lemma ListedRowsExactly(session: Option<UserId>, clients: seq<Client>, tasks: seq<Task>,
                          clientTasks: seq<ClientTask>, v: TaskView)
    requires ListTasks(session, clients, tasks, clientTasks).Ok?
    ensures var client := FindClient(clients, session.value).value;
      v in ListTasks(session, clients, tasks, clientTasks).body <==>
        exists ct, t :: ct in clientTasks && t in tasks && ct.clientId == client.id && ct.taskId == t.id
                        && v == View(ct, t)
  {
    var client := FindClient(clients, session.value).value;
    var body := ListTasks(session, clients, tasks, clientTasks).body;
    assert v in body <==> v in multiset(body);
    JoinedMembers(clientTasks, tasks, client.id, v);
  }

  /** Instances of other clients contribute nothing to a client's join. */
  lemma {:induction false} JoinedOtherClients(clientTasks: seq<ClientTask>, tasks: seq<Task>, clientId: nat)
    requires forall ct :: ct in clientTasks ==> ct.clientId != clientId
    ensures Joined(clientTasks, tasks, clientId) == []
  {
    if clientTasks != [] {
      assert forall ct :: ct in clientTasks[1..] ==> ct in clientTasks;
      JoinedOtherClients(clientTasks[1..], tasks, clientId);
    }
  }

  /** The join of a fresh client's rows: one view per row, carrying the row's status. */
  lemma FreshClientJoin(clientTasks: seq<ClientTask>, tasks: seq<Task>, clientId: nat,
                        newRows: seq<ClientTask>, status: string)
    requires forall ct :: ct in clientTasks ==> ct.clientId != clientId
    requires DistinctTaskIds(tasks)
    requires forall ct :: ct in newRows ==> ct.clientId == clientId && ct.taskId in TaskIds(tasks) && ct.status == status
    ensures |Joined(clientTasks + newRows, tasks, clientId)| == |newRows|
    ensures forall v :: v in Joined(clientTasks + newRows, tasks, clientId) ==> v.status == status
  {
    JoinedAppend(clientTasks, newRows, tasks, clientId);
    JoinedOtherClients(clientTasks, tasks, clientId);
    assert Joined(clientTasks + newRows, tasks, clientId) == Joined(newRows, tasks, clientId);
    OwnRowsAll(newRows, clientId);
    JoinedKeepsEveryRow(newRows, tasks, clientId);
    forall v | v in Joined(newRows, tasks, clientId) ensures v.status == status {
      JoinedMembers(newRows, tasks, clientId, v);
    }
  }

  /**
    Onboarding followed by the listing: once a user who had no client is
    given one together with one row per template, the listing shows exactly
    that many rows, each with the status the rows were created with.
   */
  lemma OnboardingThenListing(userId: UserId, clients: seq<Client>, tasks: seq<Task>, clientTasks: seq<ClientTask>,
                              client: Client, newRows: seq<ClientTask>, status: string)
    requires userId != ""
    requires FindClient(clients, userId).None? && client.userId == userId
    requires client.id !in ClientIds(clients)
    requires ReferencesResolve(clients, tasks, clientTasks)
    requires DistinctTaskIds(tasks)
    requires forall ct :: ct in newRows ==> ct.clientId == client.id && ct.taskId in TaskIds(tasks) && ct.status == status
    ensures var r := ListTasks(Some(userId), clients + [client], tasks, clientTasks + newRows);
      && r.Ok?
      && |r.body| == |newRows|
      && forall v :: v in r.body ==> v.status == status
  {
    AppendNewOwner(clients, client);
    forall ct | ct in clientTasks ensures ct.clientId != client.id {
    }
    FreshClientJoin(clientTasks, tasks, client.id, newRows, status);
    var joined := Joined(clientTasks + newRows, tasks, client.id);
    var r := ListTasks(Some(userId), clients + [client], tasks, clientTasks + newRows);
    assert r == Ok(OrderRows(joined));
    assert |r.body| == |joined| by {
      assert |multiset(r.body)| == |multiset(joined)|;
    }
    forall v | v in r.body ensures v.status == status {
      assert v in multiset(r.body);
    }
  }

  /**
    Onboarding as POST performs it, followed by the listing: the new client's
    listing has one row per template of its business type, each pending (the
    creation status) with no completion time, and each showing that business
    type.
   */
  lemma OnboardingListsOneRowPerTemplate(userId: UserId, clients: seq<Client>, tasks: seq<Task>,
                                         clientTasks: seq<ClientTask>, client: Client, firstId: nat,
                                         year: int, monthIndex: int, status: string, now: int)
    requires userId != ""
    requires FindClient(clients, userId).None? && client.userId == userId
    requires client.id !in ClientIds(clients)
    requires ReferencesResolve(clients, tasks, clientTasks)
    requires DistinctTaskIds(tasks)
    requires forall t :: t in tasks ==> ValidDate(t.dueDate)
    requires 0 <= monthIndex <= 11
    ensures var templates := ClientsRoute.MatchingTemplates(tasks, client.businessType);
      var r := ListTasks(Some(userId), clients + [client], tasks,
                         clientTasks + ClientsRoute.Provisioned(client.id, templates, firstId, year, monthIndex, status, now));
      && r.Ok?
      && |r.body| == |templates|
      && forall v :: v in r.body ==> v.status == status && v.completedAt == None && v.businessType == client.businessType
  {
    var bt := client.businessType;
    var templates := ClientsRoute.MatchingTemplates(tasks, bt);
    var rows := ClientsRoute.Provisioned(client.id, templates, firstId, year, monthIndex, status, now);
    ClientsRoute.RowsPointAtTemplates(tasks, bt, client.id, firstId, year, monthIndex, status, now);
    forall ct | ct in rows ensures ct.clientId == client.id && ct.taskId in TaskIds(tasks) && ct.status == status {
      var t :| t in tasks && ClientsRoute.IsTemplateFor(t, bt) && ct.taskId == t.id;
      assert t.id in TaskIds(tasks);
    }
    OnboardingThenListing(userId, clients, tasks, clientTasks, client, rows, status);
    var r := ListTasks(Some(userId), clients + [client], tasks, clientTasks + rows);
    AppendNewOwner(clients, client);
    forall ct | ct in clientTasks ensures ct.clientId != client.id {
    }
    JoinedAppend(clientTasks, rows, tasks, client.id);
    JoinedOtherClients(clientTasks, tasks, client.id);
    ProvisionedViews(tasks, bt, client.id, firstId, year, monthIndex, status, now);
    forall v | v in r.body ensures v.completedAt == None && v.businessType == bt {
      assert v in multiset(r.body);
    }
  }

  /** The joined views of one onboarding's rows show the template's business type and no completion time. */
  lemma ProvisionedViews(tasks: seq<Task>, businessType: string, clientId: nat, firstId: nat,
                         year: int, monthIndex: int, status: string, now: int)
    requires DistinctTaskIds(tasks)
    requires forall t :: t in tasks ==> ValidDate(t.dueDate)
    requires 0 <= monthIndex <= 11
    ensures forall v :: v in Joined(ClientsRoute.Provisioned(clientId, ClientsRoute.MatchingTemplates(tasks, businessType),
                                                             firstId, year, monthIndex, status, now), tasks, clientId) ==>
      v.completedAt == None && v.businessType == businessType
  {
    var rows := ClientsRoute.Provisioned(clientId, ClientsRoute.MatchingTemplates(tasks, businessType),
                                         firstId, year, monthIndex, status, now);
    ClientsRoute.RowsPointAtTemplates(tasks, businessType, clientId, firstId, year, monthIndex, status, now);
    forall v | v in Joined(rows, tasks, clientId) ensures v.completedAt == None && v.businessType == businessType {
      JoinedMembers(rows, tasks, clientId, v);
      var ct, t :| ct in rows && t in tasks && ct.clientId == clientId && ct.taskId == t.id && v == View(ct, t);
      var t' :| t' in tasks && ClientsRoute.IsTemplateFor(t', businessType) && ct.taskId == t'.id;
      SameIdSameTask(tasks, t, t');
    }
  }

  /** Task ids are the table's primary key: one id, one task. */
  lemma SameIdSameTask(tasks: seq<Task>, t: Task, t': Task)
    requires DistinctTaskIds(tasks) && t in tasks && t' in tasks && t.id == t'.id
    ensures t == t'
  {
    var i :| 0 <= i < |tasks| && tasks[i] == t;
    var j :| 0 <= j < |tasks| && tasks[j] == t';
    assert i == j;
  }

  lemma {:induction false} OwnRowsAll(clientTasks: seq<ClientTask>, clientId: nat)
    requires forall ct :: ct in clientTasks ==> ct.clientId == clientId
    ensures OwnRows(clientTasks, clientId) == clientTasks
  {
    if clientTasks != [] {
      assert forall ct :: ct in clientTasks[1..] ==> ct in clientTasks;
      OwnRowsAll(clientTasks[1..], clientId);
    }
  }
}

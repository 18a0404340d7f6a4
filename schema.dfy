/**
  The three tables the routes use — `clients`, `tasks` (which holds the
  per-business-type templates) and `client_tasks` — as an in-memory
  database. The serial ids of `clients` and `client_tasks` are handed out
  from a counter per table, as the database's INSERT ... RETURNING does;
  `tasks` is seed data and gets no inserts here.
 */
module Schema {
  import opened Wrappers
  import opened Calendar
  import opened Http

  datatype Client = Client(
    id: nat,
    userId: UserId,
    businessType: string,
    businessName: string,
    createdAt: int,
    updatedAt: int)

  /** A row of `tasks`; template rows carry `isTemplate` and a due date whose day of month is the one that matters. */
  datatype Task = Task(
    id: nat,
    title: string,
    description: string,
    businessType: string,
    dueDate: Date,
    isTemplate: bool)

  /** A row of `client_tasks`: one task of one client for one month. */
  datatype ClientTask = ClientTask(
    id: nat,
    clientId: nat,
    taskId: nat,
    status: string,
    dueDate: Date,
    completedAt: Option<int>,
    createdAt: int,
    updatedAt: int)

  /** `SELECT ... FROM clients WHERE user_id = $1 LIMIT 1`: the first row of the user, if any. */
  function FindClient(clients: seq<Client>, userId: UserId): (r: Option<Client>)
    ensures r.Some? ==> r.value in clients && r.value.userId == userId
    ensures r.None? <==> forall c :: c in clients ==> c.userId != userId
  {
    if clients == [] then None
    else if clients[0].userId == userId then Some(clients[0])
    else FindClient(clients[1..], userId)
  }

  /** The invariant the clients route maintains: no user owns two clients. */
  predicate OneClientPerUser(clients: seq<Client>) {
    forall i, j :: 0 <= i < j < |clients| ==> clients[i].userId != clients[j].userId
  }

  /** With one client per user, the lookup finds the user's client, whichever position it has. */
  lemma FindClientFindsTheOwner(clients: seq<Client>, c: Client)
    requires OneClientPerUser(clients) && c in clients
    ensures FindClient(clients, c.userId) == Some(c)
  {
  }

  /** Appending a client for a user who had none: it is the one the lookup now finds, and the invariant survives. */
  lemma AppendNewOwner(clients: seq<Client>, c: Client)
    requires FindClient(clients, c.userId).None?
    ensures FindClient(clients + [c], c.userId) == Some(c)
    ensures OneClientPerUser(clients) ==> OneClientPerUser(clients + [c])
  {
  }

  function ClientIds(clients: seq<Client>): set<nat> {
    set c | c in clients :: c.id
  }

  function TaskIds(tasks: seq<Task>): set<nat> {
    set t | t in tasks :: t.id
  }

  /** Every `client_tasks` row points at an existing client and an existing task. */
  predicate ReferencesResolve(clients: seq<Client>, tasks: seq<Task>, clientTasks: seq<ClientTask>) {
    forall ct :: ct in clientTasks ==> ct.clientId in ClientIds(clients) && ct.taskId in TaskIds(tasks)
  }

  predicate DistinctTaskIds(tasks: seq<Task>) {
    forall i, j :: 0 <= i < j < |tasks| ==> tasks[i].id != tasks[j].id
  }

  class Database {
    var clients: seq<Client>
    var tasks: seq<Task>
    var clientTasks: seq<ClientTask>
    var nextClientId: nat
    var nextClientTaskId: nat

    /** Serial ids are below the counters and unique, and every task date is a calendar date. */
    ghost predicate Valid()
      reads this
    {
      && (forall i :: 0 <= i < |clients| ==> clients[i].id < nextClientId)
      && (forall i, j :: 0 <= i < j < |clients| ==> clients[i].id != clients[j].id)
      && (forall i :: 0 <= i < |clientTasks| ==> clientTasks[i].id < nextClientTaskId)
      && (forall i, j :: 0 <= i < j < |clientTasks| ==> clientTasks[i].id != clientTasks[j].id)
      && (forall t :: t in tasks ==> ValidDate(t.dueDate))
    }

    /** A database seeded with the task templates and no clients yet. */
    constructor (seed: seq<Task>)
      requires forall t :: t in seed ==> ValidDate(t.dueDate)
      ensures Valid()
      ensures clients == [] && tasks == seed && clientTasks == []
    {
      clients := [];
      tasks := seed;
      clientTasks := [];
      nextClientId := 1;
      nextClientTaskId := 1;
    }

    /** `INSERT INTO clients ... RETURNING ...`; `now` stands for the table's timestamp defaults. */
    method InsertClient(userId: UserId, businessType: string, businessName: string, now: int)
      returns (c: Client)
      requires Valid()
      modifies this
      ensures Valid()
      ensures c == Client(old(nextClientId), userId, businessType, businessName, now, now)
      ensures c.id !in ClientIds(old(clients))
      ensures clients == old(clients) + [c]
      ensures nextClientId == old(nextClientId) + 1
      ensures tasks == old(tasks) && clientTasks == old(clientTasks)
      ensures nextClientTaskId == old(nextClientTaskId)
    {
      c := Client(nextClientId, userId, businessType, businessName, now, now);
      clients := clients + [c];
      nextClientId := nextClientId + 1;
    }

    /**
      `INSERT INTO client_tasks (client_id, task_id, due_date)`; the
      columns the statement leaves to the table's defaults (status,
      completed_at, created_at, updated_at) are given as `status`, None
      and `now`.
     */
    method InsertClientTask(clientId: nat, taskId: nat, dueDate: Date, status: string, now: int)
      returns (ct: ClientTask)
      requires Valid()
      modifies this
      ensures Valid()
      ensures ct == ClientTask(old(nextClientTaskId), clientId, taskId, status, dueDate, None, now, now)
      ensures clientTasks == old(clientTasks) + [ct]
      ensures nextClientTaskId == old(nextClientTaskId) + 1
      ensures clients == old(clients) && tasks == old(tasks)
      ensures nextClientId == old(nextClientId)
    {
      ct := ClientTask(nextClientTaskId, clientId, taskId, status, dueDate, None, now, now);
      clientTasks := clientTasks + [ct];
      nextClientTaskId := nextClientTaskId + 1;
    }
  }
}

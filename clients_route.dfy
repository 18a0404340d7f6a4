/**
  `/api/clients`: GET returns the caller's client (or null), POST onboards
  the caller: it validates the two fields, refuses a second client, inserts
  the client and then one `client_tasks` row per template of the business
  type, due on the template's day of month in the current month.
 */
module ClientsRoute {
  import opened Wrappers
  import opened Calendar
  import opened Http
  import opened Schema

  const RequiredFieldsMessage := "business_type and business_name are required"
  const ClientExistsMessage := "Client already exists for this user"

  /** A JSON field is present and truthy: neither missing nor the empty string. */
  predicate Given(field: Option<string>) {
    field.Some? && field.value != ""
  }

  predicate IsTemplateFor(t: Task, businessType: string) {
    t.businessType == businessType && t.isTemplate
  }

  /** `SELECT ... FROM tasks WHERE business_type = $1 AND is_template = true`, in table order. */
  function MatchingTemplates(tasks: seq<Task>, businessType: string): (r: seq<Task>)
    ensures forall t :: t in r <==> t in tasks && IsTemplateFor(t, businessType)
    ensures |r| <= |tasks|
  {
    if tasks == [] then []
    else if IsTemplateFor(tasks[0], businessType) then [tasks[0]] + MatchingTemplates(tasks[1..], businessType)
    else MatchingTemplates(tasks[1..], businessType)
  }

  /** Filtering keeps ids distinct, so no template is selected twice. */
  lemma {:induction false} MatchingTemplatesDistinct(tasks: seq<Task>, businessType: string)
    requires DistinctTaskIds(tasks)
    ensures DistinctTaskIds(MatchingTemplates(tasks, businessType))
  {
    if tasks != [] {
      var rest := tasks[1..];
      assert DistinctTaskIds(rest) by {
        forall i, j | 0 <= i < j < |rest| ensures rest[i].id != rest[j].id {
          assert rest[i] == tasks[i + 1] && rest[j] == tasks[j + 1];
        }
      }
      MatchingTemplatesDistinct(rest, businessType);
      var tail := MatchingTemplates(rest, businessType);
      forall t | t in tail ensures t.id != tasks[0].id {
        var j :| 0 <= j < |rest| && rest[j] == t;
        assert tasks[j + 1] == t;
      }
    }
  }

  /** The due date of a template's row: its day of month placed in the given year and 0-based month. */
  function DueDateFor(template: Task, year: int, monthIndex: int): (d: Date)
    requires 0 <= monthIndex <= 11 && ValidDate(template.dueDate)
    ensures ValidDate(d)
    ensures d == AddDays(Date(year, monthIndex + 1, 1), template.dueDate.day - 1)
  {
    FromPartsCountsFromFirst(year, monthIndex, template.dueDate.day);
    FromParts(year, monthIndex, template.dueDate.day)
  }

  /** The `client_tasks` row the fan-out loop inserts for one template, with serial id `id`. */
  function Instance(clientId: nat, template: Task, id: nat, year: int, monthIndex: int,
                    status: string, now: int): (ct: ClientTask)
    requires 0 <= monthIndex <= 11 && ValidDate(template.dueDate)
  {
    ClientTask(id, clientId, template.id, status, DueDateFor(template, year, monthIndex), None, now, now)
  }

  /** The rows the fan-out loop inserts for `templates`, in order, the k-th with serial id `firstId + k`. */
  function Provisioned(clientId: nat, templates: seq<Task>, firstId: nat, year: int, monthIndex: int,
                       status: string, now: int): (rows: seq<ClientTask>)
    requires 0 <= monthIndex <= 11
    requires forall t :: t in templates ==> ValidDate(t.dueDate)
    ensures |rows| == |templates|
    decreases |templates|
  {
    if templates == [] then []
    else
      var n := |templates| - 1;
      Provisioned(clientId, templates[..n], firstId, year, monthIndex, status, now)
        + [Instance(clientId, templates[n], firstId + n, year, monthIndex, status, now)]
  }

  lemma {:induction false} ProvisionedAt(clientId: nat, templates: seq<Task>, firstId: nat, year: int, monthIndex: int,
                                         status: string, now: int, k: nat)
    requires 0 <= monthIndex <= 11
    requires forall t :: t in templates ==> ValidDate(t.dueDate)
    requires k < |templates|
    ensures Provisioned(clientId, templates, firstId, year, monthIndex, status, now)[k]
            == Instance(clientId, templates[k], firstId + k, year, monthIndex, status, now)
    decreases |templates|
  {
    var n := |templates| - 1;
    if k < n {
      assert templates[..n][k] == templates[k];
      ProvisionedAt(clientId, templates[..n], firstId, year, monthIndex, status, now, k);
    }
  }

  /** `row` is the row of some template of `businessType` in `tasks`. */
  predicate PointsAtTemplate(row: ClientTask, tasks: seq<Task>, businessType: string) {
    exists t :: t in tasks && IsTemplateFor(t, businessType) && row.taskId == t.id
  }

  /** Every row of an onboarding belongs to the new client, has the creation status, and is for a matching template. */
  lemma RowsPointAtTemplates(tasks: seq<Task>, businessType: string, clientId: nat, firstId: nat,
                             year: int, monthIndex: int, status: string, now: int)
    requires 0 <= monthIndex <= 11
    requires forall t :: t in tasks ==> ValidDate(t.dueDate)
    ensures forall ct :: ct in Provisioned(clientId, MatchingTemplates(tasks, businessType), firstId, year, monthIndex, status, now) ==>
      && ct.clientId == clientId
      && ct.status == status && ct.completedAt == None
      && PointsAtTemplate(ct, tasks, businessType)
  {
    var templates := MatchingTemplates(tasks, businessType);
    var rows := Provisioned(clientId, templates, firstId, year, monthIndex, status, now);
    forall ct | ct in rows
      ensures && ct.clientId == clientId
              && ct.status == status && ct.completedAt == None
              && PointsAtTemplate(ct, tasks, businessType)
    {
      var k :| 0 <= k < |rows| && rows[k] == ct;
      ProvisionedAt(clientId, templates, firstId, year, monthIndex, status, now, k);
      assert templates[k] in templates;
    }
  }

  /** No template gets two rows in one onboarding (template ids are the table's primary key). */
  lemma RowsForDistinctTemplates(tasks: seq<Task>, businessType: string, clientId: nat, firstId: nat,
                                 year: int, monthIndex: int, status: string, now: int)
    requires 0 <= monthIndex <= 11
    requires forall t :: t in tasks ==> ValidDate(t.dueDate)
    requires DistinctTaskIds(tasks)
    ensures forall k1, k2 :: 0 <= k1 < k2 < |Provisioned(clientId, MatchingTemplates(tasks, businessType), firstId, year, monthIndex, status, now)| ==>
      Provisioned(clientId, MatchingTemplates(tasks, businessType), firstId, year, monthIndex, status, now)[k1].taskId
      != Provisioned(clientId, MatchingTemplates(tasks, businessType), firstId, year, monthIndex, status, now)[k2].taskId
  {
    var templates := MatchingTemplates(tasks, businessType);
    var rows := Provisioned(clientId, templates, firstId, year, monthIndex, status, now);
    MatchingTemplatesDistinct(tasks, businessType);
    forall k1, k2 | 0 <= k1 < k2 < |rows| ensures rows[k1].taskId != rows[k2].taskId {
      ProvisionedAt(clientId, templates, firstId, year, monthIndex, status, now, k1);
      ProvisionedAt(clientId, templates, firstId, year, monthIndex, status, now, k2);
    }
  }

  /** `rows` holds a row for template `t` due on the template's day of the given month. */
  predicate HasRowFor(rows: seq<ClientTask>, t: Task, year: int, monthIndex: int)
    requires 0 <= monthIndex <= 11 && ValidDate(t.dueDate)
  {
    exists k :: 0 <= k < |rows| && rows[k].taskId == t.id && rows[k].dueDate == FromParts(year, monthIndex, t.dueDate.day)
  }

  /** Every matching template gets its row, due on the template's day of the current month. */
  lemma EveryTemplateGetsARow(tasks: seq<Task>, businessType: string, clientId: nat, firstId: nat,
                              year: int, monthIndex: int, status: string, now: int)
    requires 0 <= monthIndex <= 11
    requires forall t :: t in tasks ==> ValidDate(t.dueDate)
    ensures forall t :: t in tasks && IsTemplateFor(t, businessType) ==>
      HasRowFor(Provisioned(clientId, MatchingTemplates(tasks, businessType), firstId, year, monthIndex, status, now),
                t, year, monthIndex)
  {
    var templates := MatchingTemplates(tasks, businessType);
    var rows := Provisioned(clientId, templates, firstId, year, monthIndex, status, now);
    forall t | t in tasks && IsTemplateFor(t, businessType)
      ensures HasRowFor(rows, t, year, monthIndex)
    {
      var k :| 0 <= k < |templates| && templates[k] == t;
      ProvisionedAt(clientId, templates, firstId, year, monthIndex, status, now, k);
      assert rows[k].taskId == t.id && rows[k].dueDate == FromParts(year, monthIndex, t.dueDate.day);
    }
  }

  /** The rows of one onboarding carry fresh, increasing serial ids starting at `firstId`. */
  lemma ProvisionedIds(clientId: nat, templates: seq<Task>, firstId: nat, year: int, monthIndex: int,
                       status: string, now: int)
    requires 0 <= monthIndex <= 11
    requires forall t :: t in templates ==> ValidDate(t.dueDate)
    ensures forall k :: 0 <= k < |templates| ==>
      Provisioned(clientId, templates, firstId, year, monthIndex, status, now)[k].id == firstId + k
  {
  }

  /** Onboarding keeps every `client_tasks` row pointing at an existing client and task. */
  lemma ProvisioningKeepsReferences(clients: seq<Client>, tasks: seq<Task>, clientTasks: seq<ClientTask>,
                                    client: Client, businessType: string, firstId: nat,
                                    year: int, monthIndex: int, status: string, now: int)
    requires 0 <= monthIndex <= 11
    requires forall t :: t in tasks ==> ValidDate(t.dueDate)
    requires ReferencesResolve(clients, tasks, clientTasks)
    ensures ReferencesResolve(clients + [client], tasks, clientTasks
              + Provisioned(client.id, MatchingTemplates(tasks, businessType), firstId, year, monthIndex, status, now))
  {
    var templates := MatchingTemplates(tasks, businessType);
    var rows := Provisioned(client.id, templates, firstId, year, monthIndex, status, now);
    assert ClientIds(clients + [client]) == ClientIds(clients) + {client.id};
    forall ct | ct in rows ensures ct.clientId == client.id && ct.taskId in TaskIds(tasks) {
      var k :| 0 <= k < |rows| && rows[k] == ct;
      ProvisionedAt(client.id, templates, firstId, year, monthIndex, status, now, k);
      assert templates[k] in tasks;
    }
  }

  /** GET /api/clients: the caller's client, or null; never an error for a signed-in caller. */
  method Get(db: Database, session: Option<UserId>) returns (r: Response<Option<Client>>)
    ensures Caller(session).None? ==> r == Error(401, "Unauthorized")
    ensures Caller(session).Some? ==> r == Ok(FindClient(db.clients, session.value))
  {
    var caller := Caller(session);
    if caller.None? {
      return Error(401, "Unauthorized");
    }
    r := Ok(FindClient(db.clients, caller.value));
  }

  /**
    POST /api/clients. `year` and `monthIndex` are the current date's
    `getFullYear()` and `getMonth()`; `now` and `status` stand for the
    timestamp and status defaults of the tables.
   */
  method Post(db: Database, session: Option<UserId>, businessType: Option<string>, businessName: Option<string>,
              year: int, monthIndex: int, now: int, status: string)
    returns (r: Response<Client>)
    requires db.Valid()
    requires 0 <= monthIndex <= 11
    modifies db
    ensures db.Valid()
    ensures Caller(session).None? ==> r == Error(401, "Unauthorized") && unchanged(db)
    ensures Caller(session).Some? && !(Given(businessType) && Given(businessName)) ==>
              r == Error(400, RequiredFieldsMessage) && unchanged(db)
    ensures Caller(session).Some? && Given(businessType) && Given(businessName)
            && old(FindClient(db.clients, session.value)).Some? ==>
              r == Error(400, ClientExistsMessage) && unchanged(db)
    ensures r.Error? ==> unchanged(db)
    ensures (Caller(session).Some? && Given(businessType) && Given(businessName)
             && old(FindClient(db.clients, session.value)).None?) ==> r.Ok?
    ensures r.Ok? ==>
      && Caller(session).Some? && Given(businessType) && Given(businessName)
      && old(FindClient(db.clients, session.value)).None?
      && r.body == Client(old(db.nextClientId), session.value, businessType.value, businessName.value, now, now)
      && db.clients == old(db.clients) + [r.body]
      && db.tasks == old(db.tasks)
      && db.clientTasks == old(db.clientTasks)
           + Provisioned(r.body.id, MatchingTemplates(old(db.tasks), businessType.value),
                         old(db.nextClientTaskId), year, monthIndex, status, now)
      && FindClient(db.clients, session.value) == Some(r.body)
    ensures OneClientPerUser(old(db.clients)) ==> OneClientPerUser(db.clients)
    ensures ReferencesResolve(old(db.clients), old(db.tasks), old(db.clientTasks)) ==>
              ReferencesResolve(db.clients, db.tasks, db.clientTasks)
  {
    var caller := Caller(session);
    if caller.None? {
      return Error(401, "Unauthorized");
    }
    var userId := caller.value;
    if !(Given(businessType) && Given(businessName)) {
      return Error(400, RequiredFieldsMessage);
    }
    if FindClient(db.clients, userId).Some? {
      return Error(400, ClientExistsMessage);
    }

    AppendNewOwner(db.clients, Client(db.nextClientId, userId, businessType.value, businessName.value, now, now));
    var client := db.InsertClient(userId, businessType.value, businessName.value, now);

    var templates := MatchingTemplates(db.tasks, businessType.value);
    InsertTemplateTasks(db, client.id, templates, year, monthIndex, now, status);

    r := Ok(client);
    if ReferencesResolve(old(db.clients), old(db.tasks), old(db.clientTasks)) {
      ProvisioningKeepsReferences(old(db.clients), db.tasks, old(db.clientTasks), client, businessType.value,
                                  old(db.nextClientTaskId), year, monthIndex, status, now);
    }
  }

  /** The `for` loop of POST: one INSERT into `client_tasks` per template, in order. */
  method InsertTemplateTasks(db: Database, clientId: nat, templates: seq<Task>,
                             year: int, monthIndex: int, now: int, status: string)
    requires db.Valid()
    requires 0 <= monthIndex <= 11
    requires forall t :: t in templates ==> ValidDate(t.dueDate)
    modifies db
    ensures db.Valid()
    ensures db.clientTasks == old(db.clientTasks)
              + Provisioned(clientId, templates, old(db.nextClientTaskId), year, monthIndex, status, now)
    ensures db.nextClientTaskId == old(db.nextClientTaskId) + |templates|
    ensures db.clients == old(db.clients) && db.tasks == old(db.tasks)
    ensures db.nextClientId == old(db.nextClientId)
  {
    var i := 0;
    while i < |templates|
      invariant 0 <= i <= |templates|
      invariant db.Valid()
      invariant db.clients == old(db.clients) && db.tasks == old(db.tasks)
      invariant db.nextClientId == old(db.nextClientId)
      invariant db.nextClientTaskId == old(db.nextClientTaskId) + i
      invariant db.clientTasks == old(db.clientTasks)
                  + Provisioned(clientId, templates[..i], old(db.nextClientTaskId), year, monthIndex, status, now)
    {
      var template := templates[i];
      var due := FromParts(year, monthIndex, template.dueDate.day);
      var row := db.InsertClientTask(clientId, template.id, due, status, now);
      assert templates[..i + 1][..i] == templates[..i];
      i := i + 1;
    }
    assert templates[..i] == templates;
  }
}

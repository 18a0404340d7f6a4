# Business task manager: onboarding, task listing and dashboard helpers

A Dafny model of the core of a small multi-tenant task tracker. A business
owner signs in and picks a business type. The app then creates a client
profile for them and copies that type's template tasks into a monthly
checklist. The dashboard lists the checklist and shows how soon each task is
due.

The model covers three parts of the web app:

- **`/api/clients`** (`ClientsRoute`, over `Schema.Database`). GET returns the
  caller's client, or null. POST onboards the caller in these steps:
  - it checks that `business_type` and `business_name` are given;
  - it refuses a second client for the same user;
  - it inserts the client;
  - a loop inserts one `client_tasks` row per matching template. Each row is
    due on the template's day of month, placed in the current year and month.
    A day past the month's end rolls over the way JavaScript's `Date` rolls it
    (`Calendar`).
  The database is a class. Its three tables are sequence fields. `clients`
  and `client_tasks` each have a serial-id counter; `tasks` is seed data and
  has none. The POST handler changes the database through the two INSERT
  methods.
- **`/api/tasks`** (`TasksRoute`). GET finds the caller's client, inner-joins
  its `client_tasks` rows with `tasks`, and orders them by due date, then by
  creation time. It only reads, so it is a function of the three tables.
- **The dashboard helpers** (`Dashboard`). These are the status a click
  sends, the business-type label, the completed and pending filters, the
  priority colour, and the "days overdue / due today / days remaining" text.
  That text uses a decimal rendering of numbers (`Decimal`).

The session is an input: the user id it carries, if any. The current year and
month are inputs too, and so is the day count until a task is due. The store
is the `Database` object.

Two facts about the code that the model follows:

- POST accepts any non-empty `business_type`. The code never checks it
  against the five supported types.
- A new row's `pending` status comes from the table's default; the INSERT
  statement does not set it. The model takes it as the `status` parameter.

## Model

| member | source | states |
|---|---|---|
| `Http.Caller` | apps/web/src/app/api/clients/route.js:29-32 | a caller exists exactly when the session carries a non-empty user id; otherwise every handler answers 401 |
| `Schema.FindClient` | apps/web/src/app/api/clients/route.js:12-19 | the lookup returns a client of that user from the table, and returns none exactly when the user has no client |
| `Schema.FindClientFindsTheOwner` | apps/web/src/app/api/clients/route.js:12-19 | while each user has at most one client, the lookup returns that user's client, wherever it sits in the table |
| `Schema.AppendNewOwner` | apps/web/src/app/api/clients/route.js:46-62 | inserting a client for a user who had none makes it the one the lookup finds, and keeps "one client per user" |
| `Schema.Database.InsertClient` | apps/web/src/app/api/clients/route.js:58-64 | appends exactly one client with the next serial id and the given user, type and name, returns it, leaves the other tables alone and keeps ids unique |
| `Schema.Database.InsertClientTask` | apps/web/src/app/api/clients/route.js:86-89 | appends exactly one `client_tasks` row with the next serial id, the given client, task and due date, returns it, and changes nothing else |
| `Calendar.FromParts` | apps/web/src/app/api/clients/route.js:80-84 | `new Date(year, month, day)` is always a real calendar date; it keeps the day in the given month exactly when the day fits that month; otherwise it moves the surplus days into the next month |
| `Calendar.FromPartsCountsFromFirst` | apps/web/src/app/api/clients/route.js:80-84 | the normalised date is `day - 1` days after the first of the month, counted one calendar day at a time, so the rollover carries into the next month and from December into the next year |
| `Calendar.FromPartsMonotone` | apps/web/src/app/api/clients/route.js:78-84 | a larger template day gives a strictly later due date in the same month |
| `Calendar.FromPartsOverflowIsSmall` | apps/web/src/app/api/clients/route.js:80-84 | a rolled-over date is at most the 3rd of the next month; from December it is in January of the next year |
| `ClientsRoute.MatchingTemplates` | apps/web/src/app/api/clients/route.js:67-71 | the selected rows are exactly the `tasks` rows of the requested business type that are marked as templates |
| `ClientsRoute.MatchingTemplatesDistinct` | apps/web/src/app/api/clients/route.js:67-71 | when task ids are unique, no template is selected twice |
| `ClientsRoute.DueDateFor` | apps/web/src/app/api/clients/route.js:79-84 | a row's due date is the template's day of month counted from the first of the current month, and it is a real date |
| `ClientsRoute.Provisioned` | apps/web/src/app/api/clients/route.js:78-90 | the loop produces one row per template, no more and no fewer |
| `ClientsRoute.ProvisionedAt` | apps/web/src/app/api/clients/route.js:78-90 | the k-th inserted row is for the k-th template, with serial id `first + k` and that template's due date |
| `ClientsRoute.RowsPointAtTemplates` | apps/web/src/app/api/clients/route.js:78-90 | every inserted row belongs to the new client, has the creation status and no completion time, and points at a template of the requested type |
| `ClientsRoute.RowsForDistinctTemplates` | apps/web/src/app/api/clients/route.js:67-90 | no two inserted rows point at the same template |
| `ClientsRoute.EveryTemplateGetsARow` | apps/web/src/app/api/clients/route.js:78-90 | every matching template gets a row, due on its day of the current month |
| `ClientsRoute.ProvisionedIds` | apps/web/src/app/api/clients/route.js:86-89 | the inserted rows carry consecutive fresh serial ids |
| `ClientsRoute.ProvisioningKeepsReferences` | apps/web/src/app/api/clients/route.js:58-90 | after onboarding, every `client_tasks` row still points at an existing client and an existing task |
| `ClientsRoute.Get` | apps/web/src/app/api/clients/route.js:4-20 | 401 without a caller; otherwise success carrying the caller's client, or null when there is none (never an error) |
| `ClientsRoute.Post` | apps/web/src/app/api/clients/route.js:27-92 | 401 without a caller; 400 "business_type and business_name are required" when a field is missing or empty; 400 "Client already exists for this user" when the caller has a client. Every error leaves the database unchanged. A signed-in caller with both fields and no client always succeeds. On success it adds exactly the new client, with the caller's id, type and name, plus the provisioned rows. It leaves `tasks` alone, returns the new client (which a later GET finds), and keeps "one client per user" and referential integrity |
| `ClientsRoute.InsertTemplateTasks` | apps/web/src/app/api/clients/route.js:78-90 | the loop appends exactly the provisioned rows to `client_tasks`, one per template in order, and changes nothing else |
| `TasksRoute.JoinOne` | apps/web/src/app/api/tasks/route.js:37 | an instance yields at most one row per task, and each row keeps the instance's id and status |
| `TasksRoute.Joined` | apps/web/src/app/api/tasks/route.js:36-38 | the inner join yields at most one row per (instance, task) pair, and nothing when either table is empty; its exact rows are stated by `TasksRoute.JoinedMembers` |
| `TasksRoute.JoinOneMembers` | apps/web/src/app/api/tasks/route.js:37 | an instance joins with exactly the tasks whose id is its task id |
| `TasksRoute.JoinedMembers` | apps/web/src/app/api/tasks/route.js:25-38 | the join holds exactly the views of the client's instances paired with the tasks they reference; an instance with no matching task is dropped |
| `TasksRoute.JoinOneSingle` | apps/web/src/app/api/tasks/route.js:37 | with unique task ids, an instance yields one joined row if its task exists and none otherwise |
| `TasksRoute.OwnRows` | apps/web/src/app/api/tasks/route.js:38 | the `WHERE ct.client_id = ...` filter keeps exactly the client's instances |
| `TasksRoute.JoinedKeepsEveryRow` | apps/web/src/app/api/tasks/route.js:36-38 | with unique task ids and resolving references, the join has one row per instance of the client |
| `TasksRoute.JoinedAppend` | apps/web/src/app/api/tasks/route.js:36-38 | the join of two instance lists placed end to end is the two joins placed end to end |
| `TasksRoute.JoinedOtherClients` | apps/web/src/app/api/tasks/route.js:38 | instances of other clients contribute nothing |
| `TasksRoute.RowLeqTotal` | apps/web/src/app/api/tasks/route.js:39 | any two rows are comparable under (due_date, created_at) |
| `TasksRoute.RowLeqTransitive` | apps/web/src/app/api/tasks/route.js:39 | the (due_date, created_at) order is transitive |
| `TasksRoute.InsertRow` | apps/web/src/app/api/tasks/route.js:39 | placing a row into a list adds that row and nothing else |
| `TasksRoute.InsertRowSorted` | apps/web/src/app/api/tasks/route.js:39 | placing a row into a sorted list keeps it sorted by due date, then creation time |
| `TasksRoute.OrderRows` | apps/web/src/app/api/tasks/route.js:39 | the ordered result is sorted by due date ascending, ties by creation time ascending, and is a permutation of its input |
| `TasksRoute.ListTasks` | apps/web/src/app/api/tasks/route.js:4-43 | 401 without a caller; 404 "Client not found" without a client; a caller with a client always succeeds, with a list sorted by (due_date, created_at) that is a permutation of the client's joined rows. It is a function of the tables, so it changes none of them |
| `TasksRoute.ListedRowsExactly` | apps/web/src/app/api/tasks/route.js:25-38 | a row is listed exactly when it is the view of one of the client's instances with its task. Each listed row carries the task's title, description and business type next to the instance's own id, status, dates and completion time |
| `TasksRoute.FreshClientJoin` | apps/web/src/app/api/tasks/route.js:36-38 | for a new client, the join has exactly one row per new instance, each with that instance's status |
| `TasksRoute.OnboardingThenListing` | apps/web/src/app/api/tasks/route.js:14-42 | right after onboarding, the new owner's listing succeeds and has as many rows as were created, all with the creation status |
| `TasksRoute.OnboardingListsOneRowPerTemplate` | apps/web/src/app/api/clients/route.js:58-90 | after POST, the listing holds one row per template of the chosen business type. Each row has the creation status, no completion time, and that business type |
| `TasksRoute.ProvisionedViews` | apps/web/src/app/api/tasks/route.js:26-35 | every joined view of a provisioned row shows the template's business type and no completion time |
| `TasksRoute.SameIdSameTask` | apps/web/src/app/api/tasks/route.js:37 | with unique task ids, one id names one task |
| `TasksRoute.OwnRowsAll` | apps/web/src/app/api/tasks/route.js:38 | a list holding only the client's instances is kept whole by the filter |
| `Dashboard.ToggledStatus` | apps/web/src/app/dashboard/page.jsx:54-57 | the toggle sends "pending" exactly for a "completed" task, and "completed" for any other status |
| `Dashboard.ToggleTwice` | apps/web/src/app/dashboard/page.jsx:54-57 | on "completed" and "pending" the toggle changes the status, and toggling twice restores it |
| `Dashboard.ToggleTwiceOtherStatus` | apps/web/src/app/dashboard/page.jsx:55 | any other status becomes "completed", and toggling twice yields "pending" rather than the original |
| `Dashboard.BusinessTypeLabel` | apps/web/src/app/dashboard/page.jsx:59-68 | each of the five business types gets its fixed label, and any other input is returned unchanged; the label is empty only for an empty type |
| `Dashboard.WithStatus` | apps/web/src/app/dashboard/page.jsx:132-133 | the filter keeps exactly the tasks with the given status |
| `Dashboard.CountsAddUp` | apps/web/src/app/dashboard/page.jsx:131-133 | completed plus pending never exceeds the total, and equals it when every status is "completed" or "pending" |
| `Dashboard.PriorityColor` | apps/web/src/app/dashboard/page.jsx:87-95 | a completed task is green whatever its due date. Otherwise the task is red exactly when overdue, orange exactly when 0 to 3 days remain, and blue exactly when more remain |
| `Dashboard.DaysTextColor` | apps/web/src/app/dashboard/page.jsx:277-283 | the days text of a pending task is red exactly when overdue, orange exactly when 0 to 3 days remain, and blue exactly when more remain |
| `Dashboard.DaysTextColorAgreesWithCard` | apps/web/src/app/dashboard/page.jsx:275-283 | the colour of a pending task's days text is the colour its card gets from the priority helper |
| `Dashboard.DaysLabel` | apps/web/src/app/dashboard/page.jsx:285-289 | the text reads as `n days overdue` with n = -d exactly when d < 0, is "Due today" exactly when d = 0, and reads as `d days remaining` exactly when d > 0; the number is written in decimal digits with no leading zero |
| `Dashboard.DaysLabelInjective` | apps/web/src/app/dashboard/page.jsx:285-289 | different day counts are shown with different texts |
| `Decimal.NatToString` | apps/web/src/app/dashboard/page.jsx:286-289 | a number is rendered as a non-empty run of decimal digits with no leading zero |
| `Decimal.StringValueOfNatToString` | apps/web/src/app/dashboard/page.jsx:286-289 | reading the rendered digits back gives the number |
| `Decimal.NatToStringInjective` | apps/web/src/app/dashboard/page.jsx:286-289 | different numbers are rendered differently |

## Left out

- The PUT handler of `/api/tasks/[id]`, which stores a status change, is not part of this model. Only the status that the dashboard's click sends is modelled.
- Authentication: `auth()` is replaced by the user id the session carries. A missing session, a missing user and an empty id all give 401.
- The 500 branches are not modelled. The in-memory tables cannot fail, and neither can an unparsable request body, because the body's fields are inputs.
- Request fields that are not strings: each field is modelled as an optional string, "missing" or a text.
- Concurrency is not modelled. Two POSTs of one user can race between the existence check and the insert. The fan-out loop runs without a transaction. The model is sequential, and no INSERT fails midway.
- The template `SELECT` has no `ORDER BY` and the client lookup uses `LIMIT 1`. Both read rows in table order in the model.
- `ClientsRoute.Post`: every inserted row takes its timestamps from the single `now` parameter and its status from `status`. Each INSERT statement in the source gets its own database defaults.
- `ClientsRoute.DueDateFor`: time zones are ignored. The source reads the template's day with `getDate()` in local time. It stores `toISOString()`, which is UTC, so east of UTC the stored date can be one day earlier than the local date the model returns.
- Template rows whose `due_date` is NULL are excluded. The database invariant requires every task to have a calendar date.
- `TasksRoute.OrderRows`: SQL leaves the order of rows with equal (due_date, created_at) unspecified. The model's sort is stable, but only sortedness and permutation are claimed.
- `Dashboard.BusinessTypeLabel`: the source looks the type up in a plain JavaScript object, so names inherited from the object prototype (such as `constructor`) would return a function. The model treats them like any other unknown type.
- `getDaysUntilDue` (floating-point milliseconds and `Math.ceil`) and `formatDate` (locale formatting) are left out. The day count is an input.
- All React state, queries, redirects and rendering are left out, and so are the landing, onboarding and logout pages.

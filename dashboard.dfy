/**
  The small total functions of the dashboard page: the status a click on a
  task sends, the business-type label, the completed/pending filters and
  the colour and text that show how soon a task is due. The number of days
  until the due date is an input here.
 */
module Dashboard {
  import opened Decimal
  import opened TasksRoute

  const Completed := "completed"
  const Pending := "pending"

  /** `handleToggleTask`: the status sent for a task whose status is `current`. */
  function ToggledStatus(current: string): (next: string)
    ensures next == Pending <==> current == Completed
    ensures next == Completed <==> current != Completed
  {
    if current == Completed then Pending else Completed
  }

  /** On the two statuses the toggle is its own inverse. */
  lemma ToggleTwice(status: string)
    requires status == Completed || status == Pending
    ensures ToggledStatus(ToggledStatus(status)) == status
    ensures ToggledStatus(status) != status
  {
  }

  /** Any other status is sent as "completed", so toggling twice does not restore it. */
  lemma ToggleTwiceOtherStatus(status: string)
    requires status != Completed && status != Pending
    ensures ToggledStatus(status) == Completed
    ensures ToggledStatus(ToggledStatus(status)) == Pending
  {
  }

  const BusinessTypeLabels: map<string, string> := map[
    "law_firm" := "Law Firm",
    "web_designer" := "Web Designer",
    "beautician" := "Beautician / Cosmetician",
    "online_sales" := "Online Sales Business",
    "fitness_instructor" := "Fitness Instructor"
  ]

  /** `getBusinessTypeLabel`: the label of a known business type, otherwise the type itself (`labels[t] || t`). */
  function BusinessTypeLabel(businessType: string): (text: string)
    ensures businessType in BusinessTypeLabels ==> text == BusinessTypeLabels[businessType]
    ensures businessType !in BusinessTypeLabels ==> text == businessType
    ensures text == "" <==> businessType == ""
  {
    if businessType in BusinessTypeLabels && BusinessTypeLabels[businessType] != "" then BusinessTypeLabels[businessType]
    else businessType
  }

  /** `tasks.filter((task) => task.status === status)`. */
  function WithStatus(tasks: seq<TaskView>, status: string): (r: seq<TaskView>)
    ensures forall v :: v in r <==> v in tasks && v.status == status
    ensures |r| <= |tasks|
  {
    if tasks == [] then []
    else (if tasks[0].status == status then [tasks[0]] else []) + WithStatus(tasks[1..], status)
  }

  function CompletedTasks(tasks: seq<TaskView>): seq<TaskView> {
    WithStatus(tasks, Completed)
  }

  function PendingTasks(tasks: seq<TaskView>): seq<TaskView> {
    WithStatus(tasks, Pending)
  }

  /** The completed and pending counts never exceed the total, and add up to it when every status is one of the two. */
  lemma {:induction false} CountsAddUp(tasks: seq<TaskView>)
    ensures |CompletedTasks(tasks)| + |PendingTasks(tasks)| <= |tasks|
    ensures (forall v :: v in tasks ==> v.status == Completed || v.status == Pending) ==>
              |CompletedTasks(tasks)| + |PendingTasks(tasks)| == |tasks|
  {
    if tasks != [] {
      assert forall v :: v in tasks[1..] ==> v in tasks;
      CountsAddUp(tasks[1..]);
    }
  }

  const GreenClass := "text-green-600 bg-green-50 border-green-200"
  const RedClass := "text-red-600 bg-red-50 border-red-200"
  const OrangeClass := "text-orange-600 bg-orange-50 border-orange-200"
  const BlueClass := "text-blue-600 bg-blue-50 border-blue-200"

  /**
    `getTaskPriorityColor`: green for a completed task whatever its due date;
    otherwise red when overdue, orange when due within three days, blue
    after that. The three bands partition the integers.
   */
  function PriorityColor(status: string, daysUntil: int): (cls: string)
    ensures status == Completed ==> cls == GreenClass
    ensures status != Completed ==>
      && (cls == RedClass <==> daysUntil < 0)
      && (cls == OrangeClass <==> 0 <= daysUntil <= 3)
      && (cls == BlueClass <==> 3 < daysUntil)
  {
    if status == Completed then GreenClass
    else if daysUntil < 0 then RedClass
    else if daysUntil <= 3 then OrangeClass
    else BlueClass
  }

  /** The colour of the days text of a pending task: red when overdue, orange within three days, blue after. */
  function DaysTextColor(daysUntil: int): (cls: string)
    ensures cls == "text-red-600" <==> daysUntil < 0
    ensures cls == "text-orange-600" <==> 0 <= daysUntil <= 3
    ensures cls == "text-blue-600" <==> 3 < daysUntil
  {
    if daysUntil < 0 then "text-red-600"
    else if daysUntil <= 3 then "text-orange-600"
    else "text-blue-600"
  }

  /** The days text of a pending task is coloured like the task's card: its class opens the card's class. */
  lemma DaysTextColorAgreesWithCard(daysUntil: int)
    ensures DaysTextColor(daysUntil) < PriorityColor(Pending, daysUntil)
  {
  }

  const OverdueSuffix := " days overdue"
  const RemainingSuffix := " days remaining"
  const DueToday := "Due today"

  /** `s` is a decimal number without leading zeros followed by `suffix`, and the number is `value`. */
  predicate ReadsAs(s: string, suffix: string, value: int) {
    && |s| > |suffix|
    && s[|s| - |suffix|..] == suffix
    && AllDigits(s[..|s| - |suffix|])
    && (|s| - |suffix| > 1 ==> s[0] != '0')
    && StringValue(s[..|s| - |suffix|]) == value
  }

  /**
    The days text of a pending task: "|d| days overdue" for a negative day
    count, "Due today" for zero, "d days remaining" for a positive one.
   */
  function DaysLabel(daysUntil: int): (text: string)
    ensures daysUntil < 0 <==> ReadsAs(text, OverdueSuffix, -daysUntil)
    ensures daysUntil == 0 <==> text == DueToday
    ensures daysUntil > 0 <==> ReadsAs(text, RemainingSuffix, daysUntil)
  {
    if daysUntil < 0 then
      var n := NatToString(-daysUntil);
      StringValueOfNatToString(-daysUntil);
      assert (n + OverdueSuffix)[..|n|] == n;
      n + OverdueSuffix
    else if daysUntil == 0 then DueToday
    else
      var n := NatToString(daysUntil);
      StringValueOfNatToString(daysUntil);
      assert (n + RemainingSuffix)[..|n|] == n;
      n + RemainingSuffix
  }

  /** Different day counts are shown with different texts. */
  lemma DaysLabelInjective(d1: int, d2: int)
    requires DaysLabel(d1) == DaysLabel(d2)
    ensures d1 == d2
  {
  }
}

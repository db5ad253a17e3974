/**
 * The delivery partner's dashboard: tasks grouped by status, and the pickup
 * and complete actions each group offers.
 */
module DeliveryDashboard {
  import opened Arrays
  import opened Types

  function HasStatus(status: TaskStatus): DeliveryTask -> bool {
    (t: DeliveryTask) => t.status == status
  }

  function NotDelivered(): DeliveryTask -> bool {
    (t: DeliveryTask) => t.status != TaskDelivered
  }

  function AnyTask(): DeliveryTask -> bool {
    (t: DeliveryTask) => true
  }

  function AssignedTasks(tasks: seq<DeliveryTask>): seq<DeliveryTask> {
    Filter(tasks, HasStatus(TaskAssigned))
  }

  function PickedUpTasks(tasks: seq<DeliveryTask>): seq<DeliveryTask> {
    Filter(tasks, HasStatus(TaskPickedUp))
  }

  function CompletedTasks(tasks: seq<DeliveryTask>): seq<DeliveryTask> {
    Filter(tasks, HasStatus(TaskDelivered))
  }

  /** The buttons of the task cards. */
  datatype TaskAction = Pickup(taskId: string) | Complete(taskId: string)

  function PickupButtons(cards: seq<DeliveryTask>): (actions: seq<TaskAction>)
    ensures |actions| == |cards|
    ensures forall i :: 0 <= i < |actions| ==> actions[i] == Pickup(cards[i].id)
  {
    if |cards| == 0 then [] else [Pickup(cards[0].id)] + PickupButtons(cards[1..])
  }

  function CompleteButtons(cards: seq<DeliveryTask>): (actions: seq<TaskAction>)
    ensures |actions| == |cards|
    ensures forall i :: 0 <= i < |actions| ==> actions[i] == Complete(cards[i].id)
  {
    if |cards| == 0 then [] else [Complete(cards[0].id)] + CompleteButtons(cards[1..])
  }

  /** "Picked Up" on each waiting card, "Mark as Delivered" on each in-progress card; completed cards have none. */
  function OfferedActions(tasks: seq<DeliveryTask>): seq<TaskAction> {
    PickupButtons(AssignedTasks(tasks)) + CompleteButtons(PickedUpTasks(tasks))
  }

  /** Each group holds exactly the tasks with its status. */
  lemma GroupsSpec(tasks: seq<DeliveryTask>, status: TaskStatus, t: DeliveryTask)
    ensures t in Filter(tasks, HasStatus(status)) <==> t in tasks && t.status == status
  {
    var g := Filter(tasks, HasStatus(status));
    if t in g {
      var j :| 0 <= j < |g| && g[j] == t;
    }
    if t in tasks && t.status == status {
      var j :| 0 <= j < |tasks| && tasks[j] == t;
    }
  }

  /** The three groups keep the order of the task list: each distributes over concatenation. */
  lemma GroupsAppend(a: seq<DeliveryTask>, b: seq<DeliveryTask>)
    ensures AssignedTasks(a + b) == AssignedTasks(a) + AssignedTasks(b)
    ensures PickedUpTasks(a + b) == PickedUpTasks(a) + PickedUpTasks(b)
    ensures CompletedTasks(a + b) == CompletedTasks(a) + CompletedTasks(b)
  {
    FilterAppend(a, b, HasStatus(TaskAssigned));
    FilterAppend(a, b, HasStatus(TaskPickedUp));
    FilterAppend(a, b, HasStatus(TaskDelivered));
  }

  lemma OpenSplit(tasks: seq<DeliveryTask>)
    ensures multiset(AssignedTasks(tasks)) + multiset(PickedUpTasks(tasks)) == multiset(Filter(tasks, NotDelivered()))
  {
    FilterUnion(tasks, HasStatus(TaskAssigned), HasStatus(TaskPickedUp), NotDelivered());
  }

  lemma OpenDeliveredSplit(tasks: seq<DeliveryTask>)
    ensures multiset(Filter(tasks, NotDelivered())) + multiset(CompletedTasks(tasks)) == multiset(tasks)
  {
    FilterUnion(tasks, NotDelivered(), HasStatus(TaskDelivered), AnyTask());
    FilterKeepsAll(tasks, AnyTask());
  }

  /**
   * Since a task's status is one of three values, the three groups split the
   * task list between them: no task is lost or counted twice.
   */
  lemma GroupsPartition(tasks: seq<DeliveryTask>)
    ensures multiset(AssignedTasks(tasks)) + multiset(PickedUpTasks(tasks)) + multiset(CompletedTasks(tasks)) ==
            multiset(tasks)
    ensures |AssignedTasks(tasks)| + |PickedUpTasks(tasks)| + |CompletedTasks(tasks)| == |tasks|
  {
    OpenSplit(tasks);
    OpenDeliveredSplit(tasks);
    assert |multiset(AssignedTasks(tasks)) + multiset(PickedUpTasks(tasks)) + multiset(CompletedTasks(tasks))| ==
           |multiset(tasks)|;
  }

  /** A pickup button belongs to an assigned task and a complete button to a picked-up one. */
  lemma ActionsFollowStatus(tasks: seq<DeliveryTask>, a: TaskAction)
    requires a in OfferedActions(tasks)
    ensures a.Pickup? ==> exists t :: t in tasks && t.id == a.taskId && t.status == TaskAssigned
    ensures a.Complete? ==> exists t :: t in tasks && t.id == a.taskId && t.status == TaskPickedUp
  {
    var waiting, picked := AssignedTasks(tasks), PickedUpTasks(tasks);
    var pickups := PickupButtons(waiting);
    var actions := OfferedActions(tasks);
    var i :| 0 <= i < |actions| && actions[i] == a;
    if i < |pickups| {
      GroupsSpec(tasks, TaskAssigned, waiting[i]);
    } else {
      GroupsSpec(tasks, TaskPickedUp, picked[i - |pickups|]);
    }
  }

  /** Every assigned task has its pickup button and every picked-up task its complete button. */
  lemma OpenTasksHaveActions(tasks: seq<DeliveryTask>, t: DeliveryTask)
    requires t in tasks
    ensures t.status == TaskAssigned ==> Pickup(t.id) in OfferedActions(tasks)
    ensures t.status == TaskPickedUp ==> Complete(t.id) in OfferedActions(tasks)
  {
    if t.status == TaskAssigned {
      AssignedTaskOffered(tasks, t);
    } else if t.status == TaskPickedUp {
      PickedUpTaskOffered(tasks, t);
    }
  }

  /** The assigned half of OpenTasksHaveActions. */
  lemma AssignedTaskOffered(tasks: seq<DeliveryTask>, t: DeliveryTask)
    requires t in tasks && t.status == TaskAssigned
    ensures Pickup(t.id) in OfferedActions(tasks)
  {
    var waiting := AssignedTasks(tasks);
    var pickups := PickupButtons(waiting);
    GroupsSpec(tasks, TaskAssigned, t);
    var j :| 0 <= j < |waiting| && waiting[j] == t;
    assert pickups[j] == Pickup(t.id);
    assert OfferedActions(tasks)[j] == pickups[j];
  }

  /** The picked-up half of OpenTasksHaveActions. */
  lemma PickedUpTaskOffered(tasks: seq<DeliveryTask>, t: DeliveryTask)
    requires t in tasks && t.status == TaskPickedUp
    ensures Complete(t.id) in OfferedActions(tasks)
  {
    var picked := PickedUpTasks(tasks);
    var pickups := PickupButtons(AssignedTasks(tasks));
    var completes := CompleteButtons(picked);
    GroupsSpec(tasks, TaskPickedUp, t);
    var j :| 0 <= j < |picked| && picked[j] == t;
    assert completes[j] == Complete(t.id);
    assert OfferedActions(tasks)[|pickups| + j] == completes[j];
  }
}

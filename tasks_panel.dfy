/** The tasks panel of the home page: the caller's tasks fetched from the
    server, toggled and added through it, and the add-task form. */
module TasksPanel {
  import opened Js
  import opened Wrappers
  import opened TaskList

  /** The body of the create request. */
  datatype NewTaskRequest = NewTaskRequest(title: string, description: Option<string>)

  /** What the add form sends for a name and a tag text: nothing when the
      name is blank; otherwise the trimmed name as title and the trimmed
      tag text as description, or no description when that is empty. */
  function AddRequest(name: string, tagText: string): (req: Option<NewTaskRequest>)
    ensures req.None? <==> Blank(name)
    ensures req.Some? ==> Trimmed(req.value.title) && req.value.title == Trim(name)
    ensures req.Some? ==> (req.value.description.None? <==> Blank(tagText))
    ensures req.Some? && req.value.description.Some? ==> req.value.description.value == Trim(tagText)
  {
    if Trim(name) == [] then None
    else
      var tags := Trim(tagText);
      Some(NewTaskRequest(Trim(name), if tags == [] then None else Some(tags)))
  }

  function FromRecords<Id>(records: seq<TaskRecord<Id>>): (tasks: seq<Task<Id>>)
    ensures |tasks| == |records|
    ensures forall i :: 0 <= i < |records| ==> tasks[i] == FromRecord(records[i])
  {
    seq(|records|, i requires 0 <= i < |records| => FromRecord(records[i]))
  }

  class Panel {
    var tasks: seq<Task<string>>
    var showAddTask: bool
    var newTaskName: string
    var newTaskTags: string
    var loading: bool

    constructor ()
      ensures tasks == [] && !showAddTask && newTaskName == "" && newTaskTags == "" && loading
    {
      tasks := [];
      showAddTask := false;
      newTaskName := "";
      newTaskTags := "";
      loading := true;
    }

    /** The fetch effect: without a token or a user nothing is requested;
        a successful response replaces the list by its records, transformed;
        a failed one keeps the list. Loading ends in every case. */
    method LoadTasks(hasToken: bool, hasUser: bool, response: Option<seq<TaskRecord<string>>>)
      modifies this
      ensures !loading
      ensures hasToken && hasUser && response.Some? ==> tasks == FromRecords(response.value)
      ensures !(hasToken && hasUser && response.Some?) ==> tasks == old(tasks)
      ensures showAddTask == old(showAddTask) && newTaskName == old(newTaskName)
      ensures newTaskTags == old(newTaskTags)
    {
      if !hasToken || !hasUser {
        loading := false;
        return;
      }
      if response.Some? {
        tasks := FromRecords(response.value);
      }
      loading := false;
    }

    /** toggleTask: without a token nothing happens; after a successful
        update request the task with that id is flipped; a failed request
        changes nothing. */
    method ToggleTask(id: string, hasToken: bool, requestOk: bool)
      modifies this
      ensures hasToken && requestOk ==> tasks == Toggled(old(tasks), id)
      ensures !(hasToken && requestOk) ==> tasks == old(tasks)
      ensures showAddTask == old(showAddTask) && newTaskName == old(newTaskName)
      ensures newTaskTags == old(newTaskTags) && loading == old(loading)
    {
      if !hasToken {
        return;
      }
      if requestOk {
        tasks := Toggled(tasks, id);
      }
    }

    /** addTask, with the server's reply as a parameter: a blank name or a
        missing token sends nothing; otherwise the request of AddRequest is
        sent, and when the server answers with the created record the new
        task goes in front of the list and the form is reset and hidden. */
    method AddTask(hasToken: bool, reply: Option<TaskRecord<string>>) returns (sent: Option<NewTaskRequest>)
      modifies this
      ensures sent == (if hasToken then AddRequest(old(newTaskName), old(newTaskTags)) else None)
      ensures sent.Some? && reply.Some? ==>
        && tasks == [FromRecord(reply.value)] + old(tasks)
        && newTaskName == "" && newTaskTags == "" && !showAddTask
      ensures !(sent.Some? && reply.Some?) ==>
        && tasks == old(tasks) && newTaskName == old(newTaskName)
        && newTaskTags == old(newTaskTags) && showAddTask == old(showAddTask)
      ensures loading == old(loading)
    {
      var request := AddRequest(newTaskName, newTaskTags);
      if request.None? {
        return None;
      }
      if !hasToken {
        return None;
      }
      sent := request;
      if reply.Some? {
        tasks := [FromRecord(reply.value)] + tasks;
        newTaskName := "";
        newTaskTags := "";
        showAddTask := false;
      }
    }

    /** cancelAddTask: the form is emptied and hidden; the list is kept. */
    method CancelAddTask()
      modifies this
      ensures newTaskName == "" && newTaskTags == "" && !showAddTask
      ensures tasks == old(tasks) && loading == old(loading)
    {
      newTaskName := "";
      newTaskTags := "";
      showAddTask := false;
    }
  }
}

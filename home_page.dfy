/** The home page's demo task list: three fixed tasks whose completion the
    user can toggle. */
module HomePage {
  import opened Wrappers
  import opened TaskList

  /** initialTasks: three tasks with the distinct ids 1, 2 and 3, of which
      only the second starts completed, each with at least one tag and no
      project. */
  function InitialTasks(): (r: seq<Task<int>>)
    ensures |r| == 3
    ensures forall i :: 0 <= i < |r| ==> r[i].id == i + 1 && r[i].tags != [] && r[i].project.None?
    ensures forall i :: 0 <= i < |r| ==> (r[i].completed <==> i == 1)
  {
    [ Task(1, "Write project proposal", false, ["Work", "Docs"], None),
      Task(2, "Read React docs", true, ["Learning"], None),
      Task(3, "Grocery shopping", false, ["Personal"], None) ]
  }

  class Page {
    var tasks: seq<Task<int>>

    constructor ()
      ensures tasks == InitialTasks()
    {
      tasks := InitialTasks();
    }

    /** toggleTask: the list is rebuilt task by task, flipping the
        completion of each task with the given id. */
    method ToggleTask(id: int)
      modifies this
      ensures tasks == Toggled(old(tasks), id)
    {
      var current := tasks;
      var result: seq<Task<int>> := [];
      var i := 0;
      while i < |current|
        invariant 0 <= i <= |current|
        invariant result == Toggled(current, id)[..i]
      {
        var t := current[i];
        result := result + [if t.id == id then t.(completed := !t.completed) else t];
        i := i + 1;
      }
      assert Toggled(current, id)[..i] == Toggled(current, id);
      tasks := result;
    }
  }

  /** Toggling a task of the page and then the same task again: the first
      toggle flips the completion of exactly the tasks with that id, keeping
      every task's id, name, tags and project; the second restores the list. */
  method ToggleAndBack(tasks: seq<Task<int>>, id: int) returns (after: seq<Task<int>>, twice: seq<Task<int>>)
    ensures |after| == |tasks|
    ensures forall i :: 0 <= i < |tasks| ==>
      && after[i].id == tasks[i].id && after[i].name == tasks[i].name && after[i].tags == tasks[i].tags
      && after[i].project == tasks[i].project
      && (after[i].completed != tasks[i].completed <==> tasks[i].id == id)
    ensures twice == tasks
  {
    var page := new Page();
    page.tasks := tasks;
    page.ToggleTask(id);
    after := page.tasks;
    page.ToggleTask(id);
    twice := page.tasks;
    ToggleTwice(tasks, id);
  }
}

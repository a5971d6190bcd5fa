/**
 * The to-do list widget of main.js: every operation loads the whole list
 * from the one storage entry ('tasks'), changes the loaded array, writes the
 * whole array back and re-renders the list element from storage.
 */
module TodoList {
  import opened Wrappers
  import opened JsString
  import opened Tasks

  class TaskList {
    /** The storage entry under the key 'tasks'; None while the key is absent. */
    var stored: Option<seq<Task>>
    /** The current value of the new-task text box. */
    var input: string
    /** The items currently shown in the task list element. */
    var view: seq<ListItem>

    /** The list element shows what storage holds. */
    ghost predicate Shown()
      reads this
    {
      view == Display(GetTasks())
    }

    /** Page load: storage holds whatever an earlier visit left, the text box is empty, and the list is rendered once. */
    constructor (persisted: Option<seq<Task>>)
      ensures stored == persisted && input == [] && Shown()
    {
      stored := persisted;
      input := [];
      view := [];
      new;
      RenderTasks();
    }

    /** getTasks: the stored list, and the empty list while nothing is stored. */
    function GetTasks(): (ts: seq<Task>)
      reads this
      ensures stored.None? ==> ts == []
      ensures stored.Some? ==> ts == stored.value
    {
      match stored
      case None => []
      case Some(saved) => saved
    }

    /** saveTasks: overwrite the entry with the whole list; the next load returns exactly that list. */
    method SaveTasks(tasks: seq<Task>)
      modifies this`stored
      ensures stored == Some(tasks)
      ensures GetTasks() == tasks
    {
      stored := Some(tasks);
    }

    /** The user edits the text box (browser input, not a function of main.js). */
    method SetInput(text: string)
      modifies this`input
      ensures input == text
    {
      input := text;
    }

    /**
     * renderTasks: clear the list element, then append one item per stored
     * task in order.
     */
    method RenderTasks()
      modifies this`view
      ensures Shown()
    {
      var tasks := GetTasks();
      view := [];
      var i := 0;
      while i < |tasks|
        invariant 0 <= i <= |tasks|
        invariant view == Display(tasks[..i])
      {
        var task := tasks[i];
        view := view + [ListItem(task.text, if task.done then LineThrough else NoDecoration, i)];
        assert tasks[..i + 1][..i] == tasks[..i];
        i := i + 1;
      }
      assert tasks[..i] == tasks;
    }

    /**
     * addTask: trim the text box value; if nothing is left, do nothing at all
     * (the text box keeps its value). Otherwise append `{text, done: false}`,
     * save, clear the text box and re-render.
     */
    method AddTask()
      modifies this
      ensures var text := Trim(old(input));
        if text == [] then
          stored == old(stored) && input == old(input) && view == old(view)
        else
          stored == Some(old(GetTasks()) + [Task(text, false)]) && input == [] && Shown()
      ensures old(AllWellFormed(GetTasks())) ==> AllWellFormed(GetTasks())
    {
      var text := Trim(input);
      if text == [] {
        return;
      }
      var task := Task(text, false);
      var tasks := GetTasks();
      if AllWellFormed(tasks) {
        NewTaskWellFormed(input);
        AppendKeepsWellFormed(tasks, task);
      }
      tasks := tasks + [task];
      SaveTasks(tasks);
      input := [];
      RenderTasks();
    }

    /**
     * toggleTask: flip the `done` flag of task `index`, save and re-render.
     * For an index that names no task, reading `.done` of `undefined` throws
     * a TypeError: the handler stops before saving, and nothing changes.
     */
    method ToggleTask(index: int) returns (threw: bool)
      modifies this
      ensures threw <==> !(0 <= index < |old(GetTasks())|)
      ensures threw ==> stored == old(stored) && input == old(input) && view == old(view)
      ensures !threw ==> stored == Some(Toggled(old(GetTasks()), index)) && input == old(input) && Shown()
      ensures old(AllWellFormed(GetTasks())) ==> AllWellFormed(GetTasks())
    {
      var tasks := GetTasks();
      if !(0 <= index < |tasks|) {
        return true;
      }
      ghost var before := tasks;
      tasks := tasks[index := tasks[index].(done := !tasks[index].done)];
      if AllWellFormed(before) {
        ToggledKeepsWellFormed(before, index);
      }
      SaveTasks(tasks);
      RenderTasks();
      return false;
    }

    /**
     * deleteTask: `splice(index, 1)` on the loaded list, save and re-render.
     * The list is saved even when splice removed nothing.
     */
    method DeleteTask(index: int)
      modifies this
      ensures stored == Some(SpliceOne(old(GetTasks()), index))
      ensures input == old(input) && Shown()
      ensures old(AllWellFormed(GetTasks())) ==> AllWellFormed(GetTasks())
    {
      var tasks := GetTasks();
      var k := SpliceStart(|tasks|, index);
      if AllWellFormed(tasks) {
        SpliceKeepsWellFormed(tasks, index);
      }
      if k < |tasks| {
        tasks := tasks[..k] + tasks[k + 1..];
      }
      SaveTasks(tasks);
      RenderTasks();
    }
  }

  /** Adding "A" and then "B" to an empty list stores both, in that order, not done. */
  method AddTwoScenario() returns (list: TaskList)
    ensures fresh(list) && list.GetTasks() == [Task("A", false), Task("B", false)]
  {
    assert Trim("A") == "A" && Trim("B") == "B";
    var a, b := Task("A", false), Task("B", false);
    list := new TaskList(None);
    list.SetInput("A");
    list.AddTask();
    assert list.GetTasks() == [a];
    list.SetInput("B");
    list.AddTask();
    assert list.GetTasks() == [a] + [b] == [a, b];
  }

  /** Then toggling the first task and deleting the second leaves one done task "A", shown struck through. */
  method ToggleDeleteScenario()
  {
    var list := AddTwoScenario();
    var a, b := Task("A", false), Task("B", false);
    var threw := list.ToggleTask(0);
    assert !threw;
    assert list.GetTasks() == [a.(done := true), b];
    list.DeleteTask(1);
    assert list.GetTasks() == [a.(done := true), b][..1] == [Task("A", true)];
    assert |list.view| == 1 && list.view[0].decoration == LineThrough;
  }

  /** White space only is ignored: nothing is stored and the text box keeps its value. */
  method BlankInputScenario()
  {
    var list := new TaskList(None);
    assert Trim("  ") == [] by { TrimEmptyIff("  "); }
    list.SetInput("  ");
    list.AddTask();
    assert list.stored == None && list.input == "  ";
  }
}

/** The scheduled-task list of src/cli/commands/schedule.rs over an
    abstract tasks file. The file is absent, unreadable, holds a text that
    does not decode, or holds a decoded list of tasks. How a save ends is a
    parameter: the directory, serialisation and write steps can each fail
    with the library's error text, and a failed save changes nothing; a
    save that ends well leaves the list it was given. The model does not
    decide whether TOML can encode a bare list at the document root. The
    console output is not modelled. */
module Schedule {
  import opened Wrappers
  import opened Errors
  import opened Decimal

  datatype ScheduledTask = ScheduledTask(name: string, intervalSeconds: u64, enabled: bool)

  datatype TasksFile =
    | Absent
    | Unreadable(reason: string)
    | Unparsable(reason: string)
    | Parsed(tasks: seq<ScheduledTask>)

  /** How `save_tasks` ends: each of its three steps can fail with the
      text of the underlying error. */
  datatype TasksWrite =
    | Saved
    | DirFailed(reason: string)
    | SerializeFailed(reason: string)
    | WriteFailed(reason: string)

  /** The error `save_tasks` returns for a failed step. */
  function SaveError(w: TasksWrite): TorrerError
    requires !w.Saved?
  {
    match w
    case DirFailed(e) => Config("Failed to create tasks directory: " + e)
    case SerializeFailed(e) => Config("Failed to serialize tasks: " + e)
    case WriteFailed(e) => Config("Failed to write tasks file: " + e)
  }

  /** `load_tasks`: a missing file is the empty list. */
  function LoadTasks(file: TasksFile): (r: TorrerResult<seq<ScheduledTask>>)
    ensures file == Absent ==> r == Ok([])
    ensures file.Parsed? ==> r == Ok(file.tasks)
    ensures r.Err? <==> file.Unreadable? || file.Unparsable?
    ensures file.Unreadable? ==> r == Err(Config("Failed to read tasks file: " + file.reason))
    ensures file.Unparsable? ==> r == Err(Config("Failed to parse tasks file: " + file.reason))
  {
    match file
    case Absent => Ok([])
    case Unreadable(e) => Err(Config("Failed to read tasks file: " + e))
    case Unparsable(e) => Err(Config("Failed to parse tasks file: " + e))
    case Parsed(tasks) => Ok(tasks)
  }

  predicate HasTask(tasks: seq<ScheduledTask>, name: string) {
    exists k :: 0 <= k < |tasks| && tasks[k].name == name
  }

  /** No two tasks share a name. */
  predicate UniqueNames(tasks: seq<ScheduledTask>) {
    forall i, j :: 0 <= i < j < |tasks| ==> tasks[i].name != tasks[j].name
  }

  /** `retain(|t| t.name != name)`. */
  function Without(tasks: seq<ScheduledTask>, name: string): (r: seq<ScheduledTask>)
    ensures |r| <= |tasks|
  {
    if tasks == [] then []
    else
      var init := tasks[..|tasks| - 1];
      var last := tasks[|tasks| - 1];
      Without(init, name) + (if last.name != name then [last] else [])
  }

  class TaskStore {
    var file: TasksFile

    constructor (file: TasksFile)
      ensures this.file == file
    {
      this.file := file;
    }

    /** `add_task`: refuse a name already present; otherwise append an
        enabled task and save. */
    method AddTask(name: string, intervalSeconds: u64, w: TasksWrite) returns (r: TorrerResult<Unit>)
      modifies this
      ensures LoadTasks(old(file)).Err? ==> r.Err? && file == old(file)
      ensures LoadTasks(old(file)).Ok? && HasTask(LoadTasks(old(file)).value, name) ==>
        r == Err(Config("Task '" + name + "' already exists")) && file == old(file)
      ensures LoadTasks(old(file)).Ok? && !HasTask(LoadTasks(old(file)).value, name) ==>
        (r.Ok? <==> w.Saved?) && (!w.Saved? ==> r == Err(SaveError(w)))
        && file == if w.Saved? then Parsed(LoadTasks(old(file)).value + [ScheduledTask(name, intervalSeconds, true)]) else old(file)
    {
      var loaded := LoadTasks(file);
      if loaded.Err? {
        return Err(loaded.error);
      }
      var tasks := loaded.value;
      var i := 0;
      while i < |tasks|
        invariant 0 <= i <= |tasks|
        invariant forall k :: 0 <= k < i ==> tasks[k].name != name
      {
        if tasks[i].name == name {
          return Err(Config("Task '" + name + "' already exists"));
        }
        i := i + 1;
      }
      tasks := tasks + [ScheduledTask(name, intervalSeconds, true)];
      r := SaveTasks(tasks, w);
    }

    /** `remove_task`: drop every task with the name; fail without writing
        when none matched. */
    method RemoveTask(name: string, w: TasksWrite) returns (r: TorrerResult<Unit>)
      modifies this
      ensures LoadTasks(old(file)).Err? ==> r.Err? && file == old(file)
      ensures LoadTasks(old(file)).Ok? && !HasTask(LoadTasks(old(file)).value, name) ==>
        r == Err(Config("Task '" + name + "' not found")) && file == old(file)
      ensures LoadTasks(old(file)).Ok? && HasTask(LoadTasks(old(file)).value, name) ==>
        (r.Ok? <==> w.Saved?) && (!w.Saved? ==> r == Err(SaveError(w)))
        && file == if w.Saved? then Parsed(Without(LoadTasks(old(file)).value, name)) else old(file)
    {
      var loaded := LoadTasks(file);
      if loaded.Err? {
        return Err(loaded.error);
      }
      var tasks := loaded.value;
      var kept: seq<ScheduledTask> := [];
      for i := 0 to |tasks|
        invariant kept == Without(tasks[..i], name)
      {
        assert tasks[..i + 1][..i] == tasks[..i];
        if tasks[i].name != name {
          kept := kept + [tasks[i]];
        }
      }
      assert tasks[..|tasks|] == tasks;
      WithoutShrinks(tasks, name);
      if |kept| == |tasks| {
        return Err(Config("Task '" + name + "' not found"));
      }
      r := SaveTasks(kept, w);
    }

    /** `save_tasks`: create the directory, serialise, write; the first
        step that fails gives its own error. */
    method SaveTasks(tasks: seq<ScheduledTask>, w: TasksWrite) returns (r: TorrerResult<Unit>)
      modifies this
      ensures r.Ok? <==> w.Saved?
      ensures w.DirFailed? ==> r == Err(Config("Failed to create tasks directory: " + w.reason))
      ensures w.SerializeFailed? ==> r == Err(Config("Failed to serialize tasks: " + w.reason))
      ensures w.WriteFailed? ==> r == Err(Config("Failed to write tasks file: " + w.reason))
      ensures file == if w.Saved? then Parsed(tasks) else old(file)
    {
      if !w.Saved? {
        return Err(SaveError(w));
      }
      file := Parsed(tasks);
      r := Ok(Unit);
    }
  }

  // ---------------------------------------------------------------- lemmas

  /** `Without` removes exactly the entries with that name. */
  lemma {:induction false} WithoutMembers(tasks: seq<ScheduledTask>, name: string)
    ensures forall t :: t in Without(tasks, name) <==> t in tasks && t.name != name
  {
    if tasks != [] {
      var init := tasks[..|tasks| - 1];
      WithoutMembers(init, name);
      assert tasks == init + [tasks[|tasks| - 1]];
    }
  }

  /** The list shrinks iff some task had the name. */
  lemma {:induction false} WithoutShrinks(tasks: seq<ScheduledTask>, name: string)
    ensures |Without(tasks, name)| == |tasks| <==> !HasTask(tasks, name)
    ensures !HasTask(tasks, name) ==> Without(tasks, name) == tasks
  {
    if tasks != [] {
      var init := tasks[..|tasks| - 1];
      WithoutShrinks(init, name);
      if HasTask(init, name) {
        var k :| 0 <= k < |init| && init[k].name == name;
        assert tasks[k].name == name;
      }
      if !HasTask(tasks, name) {
        assert !HasTask(init, name) by {
          forall k | 0 <= k < |init| ensures init[k].name != name {
            assert tasks[k] == init[k];
          }
        }
      }
      assert tasks == init + [tasks[|tasks| - 1]];
    }
  }

  /** Removing keeps the other tasks in their order: it distributes over
      concatenation. */
  lemma {:induction false} WithoutAppend(a: seq<ScheduledTask>, b: seq<ScheduledTask>, name: string)
    ensures Without(a + b, name) == Without(a, name) + Without(b, name)
    decreases |b|
  {
    if b == [] {
      assert a + b == a;
    } else {
      var binit := b[..|b| - 1];
      assert (a + b)[..|a + b| - 1] == a + binit;
      WithoutAppend(a, binit, name);
    }
  }

  /** Adding a task with a new name keeps the names unique. */
  lemma AddKeepsUnique(tasks: seq<ScheduledTask>, t: ScheduledTask)
    requires UniqueNames(tasks) && !HasTask(tasks, t.name)
    ensures UniqueNames(tasks + [t]) && HasTask(tasks + [t], t.name)
  {
    var s := tasks + [t];
    assert s[|tasks|] == t;
    forall i, j | 0 <= i < j < |s| ensures s[i].name != s[j].name {
      if j == |tasks| {
        assert s[i] == tasks[i];
      }
    }
  }

  /** Removing a task just added under a new name gives the list back. */
  lemma AddThenRemove(tasks: seq<ScheduledTask>, t: ScheduledTask)
    requires !HasTask(tasks, t.name)
    ensures Without(tasks + [t], t.name) == tasks
  {
    WithoutAppend(tasks, [t], t.name);
    WithoutShrinks(tasks, t.name);
    assert [t][..0] == [];
  }

  /** Removing keeps the names unique and leaves the name absent. */
  lemma RemoveKeepsUnique(tasks: seq<ScheduledTask>, name: string)
    requires UniqueNames(tasks)
    ensures !HasTask(Without(tasks, name), name)
    ensures UniqueNames(Without(tasks, name))
  {
    WithoutMembers(tasks, name);
    var r := Without(tasks, name);
    forall k | 0 <= k < |r| ensures r[k].name != name {
      assert r[k] in r;
    }
    WithoutKeepsUnique(tasks, name);
  }

  /** A list with unique names stays so under `Without`. */
  lemma {:induction false} WithoutKeepsUnique(tasks: seq<ScheduledTask>, name: string)
    requires UniqueNames(tasks)
    ensures UniqueNames(Without(tasks, name))
  {
    if tasks != [] {
      var init := tasks[..|tasks| - 1];
      var last := tasks[|tasks| - 1];
      assert UniqueNames(init);
      WithoutKeepsUnique(init, name);
      WithoutMembers(init, name);
      var w := Without(init, name);
      if last.name != name {
        forall i | 0 <= i < |w| ensures w[i].name != last.name {
          assert w[i] in init;
          var k :| 0 <= k < |init| && init[k] == w[i];
        }
        var s := w + [last];
        forall i, j | 0 <= i < j < |s| ensures s[i].name != s[j].name {
          if j == |w| {
            assert s[i] == w[i];
          } else {
            assert s[i] == w[i] && s[j] == w[j];
          }
        }
      }
    }
  }
}

/** The to-do list (app/routes/todo-list.tsx): a task list shown through an
    all/active/completed filter, an input whose trimmed text is posted as a new
    task, and per-task delete and toggle requests guarded on the id. The
    requests are values the handlers return; the network is not modelled. */
module TodoList {

  import opened Js

  datatype Task = Task(id: int, content: string, completed: bool)

  datatype Filter = All | Active | Completed

  /** Whether the filter callback keeps a task. */
  predicate Keeps(f: Filter, t: Task)
  {
    match f
    case All => true
    case Active => !t.completed
    case Completed => t.completed
  }

  /** `tasks.filter(...)` under the current filter. */
  function FilteredTasks(tasks: seq<Task>, f: Filter): (r: seq<Task>)
    ensures |r| <= |tasks|
    ensures forall i :: 0 <= i < |r| ==> Keeps(f, r[i])
  {
    if tasks == [] then []
    else if Keeps(f, tasks[0]) then [tasks[0]] + FilteredTasks(tasks[1..], f)
    else FilteredTasks(tasks[1..], f)
  }

  /** A task is shown exactly when it is in the list and the filter keeps it. */
  lemma {:induction false} FilteredTasksMembers(tasks: seq<Task>, f: Filter)
    ensures forall t :: t in FilteredTasks(tasks, f) <==> t in tasks && Keeps(f, t)
  {
    if tasks != [] {
      FilteredTasksMembers(tasks[1..], f);
      assert tasks == [tasks[0]] + tasks[1..];
    }
  }

  /** "all" shows the list exactly as it is. */
  lemma {:induction false} FilterAllIsIdentity(tasks: seq<Task>)
    ensures FilteredTasks(tasks, All) == tasks
  {
    if tasks != [] {
      FilterAllIsIdentity(tasks[1..]);
    }
  }

  /** Filtering distributes over concatenation, so the kept tasks keep their order. */
  lemma {:induction false} FilterAppend(a: seq<Task>, b: seq<Task>, f: Filter)
    ensures FilteredTasks(a + b, f) == FilteredTasks(a, f) + FilteredTasks(b, f)
  {
    if a == [] {
      assert a + b == b;
    } else {
      var x, rest := a[0], a[1..];
      assert a == [x] + rest;
      assert a + b == [x] + (rest + b);
      FilterAppend(rest, b, f);
      FilterCons(x, rest, f);
      FilterCons(x, rest + b, f);
      var kept, left, right := if Keeps(f, x) then [x] else [], FilteredTasks(rest, f), FilteredTasks(b, f);
      assert FilteredTasks(a + b, f) == kept + (left + right);
      assert FilteredTasks(a, f) == kept + left;
      assert kept + (left + right) == (kept + left) + right;
    }
  }

  /** The filter looks at the first task, then at the rest. */
  lemma FilterCons(x: Task, s: seq<Task>, f: Filter)
    ensures FilteredTasks([x] + s, f) == (if Keeps(f, x) then [x] else []) + FilteredTasks(s, f)
  {
    assert ([x] + s)[1..] == s;
  }

  /** Every task is either active or completed, so the two views split the list. */
  lemma {:induction false} ActiveCompletedPartition(tasks: seq<Task>)
    ensures |FilteredTasks(tasks, Active)| + |FilteredTasks(tasks, Completed)| == |tasks|
    ensures multiset(FilteredTasks(tasks, Active)) + multiset(FilteredTasks(tasks, Completed))
            == multiset(tasks)
  {
    if tasks != [] {
      ActiveCompletedPartition(tasks[1..]);
      assert tasks == [tasks[0]] + tasks[1..];
    }
  }

  /** The action a toggle asks for: the opposite of the task's current state. */
  datatype Mark = MarkActive | MarkComplete

  /** `newState`, the word after `mark_` in the toggle endpoint. */
  function NewState(completed: bool): (s: string)
    ensures s == "active" <==> completed
    ensures s == "complete" <==> !completed
  {
    if completed then "active" else "complete"
  }

  /** The requests the page sends, without host and key. */
  datatype Request =
    | FetchTasks
    | PostTask(content: string)
    | DeleteTask(id: int)
    | PutMark(id: int, mark: Mark)

  /** The path segment a mark request ends with. */
  function MarkPath(m: Mark): (p: string)
    ensures |p| > 5 && p[..5] == "mark_"
  {
    match m
    case MarkActive => "mark_" + NewState(true)
    case MarkComplete => "mark_" + NewState(false)
  }

  /** `deleteTask`: nothing for the falsy id 0. */
  function DeleteRequest(id: int): (r: Option<Request>)
    ensures r.None? <==> id == 0
    ensures r.Some? ==> r.value == DeleteTask(id)
  {
    if id == 0 then None else Some(DeleteTask(id))
  }

  /** `toggleComplete`: nothing for the falsy id 0, else a request for the
      opposite state. */
  function ToggleRequest(id: int, completed: bool): (r: Option<Request>)
    ensures r.None? <==> id == 0
    ensures r.Some? ==> r.value.PutMark? && r.value.id == id
    ensures r.Some? ==> (r.value.mark == MarkActive <==> completed)
    ensures r.Some? ==> MarkPath(r.value.mark) == "mark_" + NewState(completed)
  {
    if id == 0 then None
    else Some(PutMark(id, if completed then MarkActive else MarkComplete))
  }

  /** The completion a toggle asks for is the negation of the current one. */
  lemma ToggleNegates(t: Task)
    requires t.id != 0
    ensures ToggleRequest(t.id, t.completed).value.mark == (if t.completed then MarkActive else MarkComplete)
    ensures (ToggleRequest(t.id, t.completed).value.mark == MarkComplete) == !t.completed
  {
  }

  /** The characters `String.prototype.trim` removes: the ECMAScript WhiteSpace
      and LineTerminator code points. */
  predicate IsSpace(c: char)
  {
    || c == '\t' || c == '\n' || c == '\U{000B}' || c == '\U{000C}' || c == '\r' || c == ' '
    || c == '\U{00A0}' || c == '\U{1680}' || ('\U{2000}' <= c <= '\U{200A}')
    || c == '\U{2028}' || c == '\U{2029}' || c == '\U{202F}' || c == '\U{205F}'
    || c == '\U{3000}' || c == '\U{FEFF}'
  }

  predicate AllSpace(s: string)
  {
    forall i :: 0 <= i < |s| ==> IsSpace(s[i])
  }

  /** Leading white space removed. */
  function TrimStart(s: string): (r: string)
    ensures |r| <= |s| && r == s[|s| - |r|..]
    ensures AllSpace(s[..|s| - |r|])
    ensures r == [] || !IsSpace(r[0])
  {
    if s == [] || !IsSpace(s[0]) then s
    else
      var r := TrimStart(s[1..]);
      LeadingSpace(s, r);
      r
  }

  /** Cutting a leading space and then a suffix `r` of the rest cuts a suffix of
      the whole, with spaces only in front of it. */
  lemma LeadingSpace(s: string, r: string)
    requires s != [] && IsSpace(s[0])
    requires |r| <= |s| - 1 && r == s[1..][|s| - 1 - |r|..] && AllSpace(s[1..][..|s| - 1 - |r|])
    ensures r == s[|s| - |r|..] && AllSpace(s[..|s| - |r|])
  {
    var k := |s| - |r|;
    assert s[1..][k - 1..] == s[k..];
    assert forall i :: 1 <= i < k ==> s[..k][i] == s[1..][..k - 1][i - 1];
  }

  /** Trailing white space removed. */
  function TrimEnd(s: string): (r: string)
    ensures |r| <= |s| && r == s[..|r|]
    ensures AllSpace(s[|r|..])
    ensures r == [] || !IsSpace(r[|r| - 1])
  {
    if s == [] || !IsSpace(s[|s| - 1]) then s
    else
      var r := TrimEnd(s[..|s| - 1]);
      TrailingSpace(s, r);
      r
  }

  /** Cutting a trailing space and then a prefix `r` of the rest cuts a prefix of
      the whole, with spaces only after it. */
  lemma TrailingSpace(s: string, r: string)
    requires s != [] && IsSpace(s[|s| - 1])
    requires |r| <= |s| - 1 && r == s[..|s| - 1][..|r|] && AllSpace(s[..|s| - 1][|r|..])
    ensures r == s[..|r|] && AllSpace(s[|r|..])
  {
    assert s[..|s| - 1][|r|..] == s[|r|..|s| - 1];
  }

  /** `s.trim()`: the input with its white space cut off at both ends. */
  function Trim(s: string): (r: string)
    ensures exists i, j :: 0 <= i <= j <= |s| && r == s[i..j] && AllSpace(s[..i]) && AllSpace(s[j..])
    ensures r == [] || (!IsSpace(r[0]) && !IsSpace(r[|r| - 1]))
  {
    var t := TrimStart(s);
    var r := TrimEnd(t);
    MiddleOf(s, t, r);
    r
  }

  /** What is left after cutting white space off the front, then off the back,
      is a middle part of the input with only white space around it, and starts
      and ends with a non-space. */
  lemma MiddleOf(s: string, t: string, r: string)
    requires |t| <= |s| && t == s[|s| - |t|..] && AllSpace(s[..|s| - |t|])
    requires t == [] || !IsSpace(t[0])
    requires |r| <= |t| && r == t[..|r|] && AllSpace(t[|r|..])
    requires r == [] || !IsSpace(r[|r| - 1])
    ensures exists i, j :: 0 <= i <= j <= |s| && r == s[i..j] && AllSpace(s[..i]) && AllSpace(s[j..])
    ensures r == [] || (!IsSpace(r[0]) && !IsSpace(r[|r| - 1]))
  {
    var i := |s| - |t|;
    var j := i + |r|;
    assert s[j..] == t[|r|..];
    assert r == s[i..j];
    assert r != [] ==> r[0] == t[0];
  }

  /** The trimmed text is empty exactly when the input is white space only. */
  lemma TrimEmptyIffAllSpace(s: string)
    ensures Trim(s) == [] <==> AllSpace(s)
  {
    var t := TrimStart(s);
    if Trim(s) == [] {
      assert t[0..] == t;
      assert t == [];
      assert s[..|s|] == s;
    }
  }

  /** Trimming twice is trimming once. */
  lemma TrimIdempotent(s: string)
    ensures Trim(Trim(s)) == Trim(s)
  {
    var r := Trim(s);
    if r != [] {
      assert TrimStart(r) == r;
      assert TrimEnd(r) == r;
    }
  }

  /** The page's state. */
  class Board {
    var newTask: string
    var tasks: seq<Task>
    var filter: Filter
    var error: string
    var isSubmitting: bool

    constructor ()
      ensures newTask == "" && tasks == [] && filter == All && error == "" && !isSubmitting
    {
      newTask, tasks, filter, error, isSubmitting := "", [], All, "", false;
    }

    /** The tasks on screen. */
    function Shown(): (r: seq<Task>)
      reads this
      ensures forall t :: t in r <==> t in tasks && Keeps(filter, t)
    {
      FilteredTasksMembers(tasks, filter);
      FilteredTasks(tasks, filter)
    }

    /** The input's text changed. */
    method HandleChange(text: string)
      modifies this`newTask
      ensures newTask == text
    {
      newTask := text;
    }

    /** One of the three filter buttons. */
    method ToggleFilter(f: Filter)
      modifies this`filter
      ensures filter == f
    {
      filter := f;
    }

    /** The form was submitted: blank input does nothing, anything else marks the
        form busy and posts the trimmed text. The submit button is disabled while
        the form is busy, so a submit never arrives then. */
    method HandleSubmit() returns (post: Option<Request>)
      requires !isSubmitting
      modifies this`isSubmitting
      ensures AllSpace(newTask) <==> post.None?
      ensures post.None? ==> !isSubmitting
      ensures post.Some? ==> post.value == PostTask(Trim(newTask)) && isSubmitting
      ensures post.Some? ==> Trim(newTask) != []
    {
      var taskContent := Trim(newTask);
      TrimEmptyIffAllSpace(newTask);
      if taskContent == [] {
        return None;
      }
      isSubmitting := true;
      post := Some(PostTask(taskContent));
    }

    /** The post succeeded: the input is cleared, the list is fetched again and
        the form is free. */
    method SubmitSucceeded() returns (next: Request)
      modifies this`newTask, this`isSubmitting
      ensures newTask == "" && !isSubmitting && next == FetchTasks
    {
      newTask := "";
      isSubmitting := false;
      next := FetchTasks;
    }

    /** A request failed: its message is shown and the form is free again. */
    method SubmitFailed(message: string)
      modifies this`error, this`isSubmitting
      ensures error == message && !isSubmitting
    {
      error := message;
      isSubmitting := false;
    }

    /** The list arrived from the server. */
    method ReceiveTasks(received: seq<Task>)
      modifies this`tasks
      ensures tasks == received
    {
      tasks := received;
    }

    /** A fetch, delete or toggle failed. */
    method RequestFailed(message: string)
      modifies this`error
      ensures error == message
    {
      error := message;
    }
  }
}

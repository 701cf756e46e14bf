/**
 * The browser todo list: a module-level array of items that the page's
 * actions prepend to, filter and edit in place, and the view and counter
 * derived from it.  Rendering, storage and identifier generation are not
 * modelled; identifiers are passed in.
 */
module Todos {
  import opened Wrappers
  import opened Strings

  datatype Todo = Todo(id: string, text: string, completed: bool)

  // ---------------------------------------------------------------------
  // String.prototype.trim
  // ---------------------------------------------------------------------

  /** ECMAScript white space and line terminators: what `trim` removes. */
  predicate IsWhite(c: char)
  {
    c == '\t' || c == '\n' || c == '\U{000B}' || c == '\U{000C}' || c == '\r' || c == ' '
    || c == '\U{00A0}' || c == '\U{1680}' || ('\U{2000}' <= c <= '\U{200A}')
    || c == '\U{2028}' || c == '\U{2029}' || c == '\U{202F}' || c == '\U{205F}'
    || c == '\U{3000}' || c == '\U{FEFF}'
  }

  predicate Blank(s: string)
  {
    forall i :: 0 <= i < |s| ==> IsWhite(s[i])
  }

  /** The index of the first character at or after `i` that is not white space. */
  function SkipWhite(s: string, i: nat): (j: nat)
    requires i <= |s|
    ensures i <= j <= |s|
    ensures forall k :: i <= k < j ==> IsWhite(s[k])
    ensures j < |s| ==> !IsWhite(s[j])
    decreases |s| - i
  {
    if i < |s| && IsWhite(s[i]) then SkipWhite(s, i + 1) else i
  }

  /** The index just past the last character at or after `lo`, and before `j`, that is not white space. */
  function SkipWhiteBack(s: string, lo: nat, j: nat): (k: nat)
    requires lo <= j <= |s|
    ensures lo <= k <= j
    ensures forall m :: k <= m < j ==> IsWhite(s[m])
    ensures k > lo ==> !IsWhite(s[k - 1])
    decreases j
  {
    if j > lo && IsWhite(s[j - 1]) then SkipWhiteBack(s, lo, j - 1) else j
  }

  /** `s.trim()`: the text between the leading and the trailing white space. */
  function Trim(s: string): (r: string)
    ensures |r| <= |s|
    ensures r == "" || (!IsWhite(r[0]) && !IsWhite(r[|r| - 1]))
  {
    var i := SkipWhite(s, 0);
    s[i..SkipWhiteBack(s, i, |s|)]
  }

  /** The input is the trimmed text with a blank run on either side. */
  lemma TrimSplit(s: string) returns (lead: string, trail: string)
    ensures s == lead + Trim(s) + trail
    ensures Blank(lead) && Blank(trail)
  {
    var i := SkipWhite(s, 0);
    var j := SkipWhiteBack(s, i, |s|);
    lead, trail := s[..i], s[j..];
    assert s == s[..i] + s[i..j] + s[j..];
  }

  /** Only blank text trims to the empty string. */
  lemma TrimEmpty(s: string)
    ensures Trim(s) == "" <==> Blank(s)
  {
    var i := SkipWhite(s, 0);
    var j := SkipWhiteBack(s, i, |s|);
    if i < |s| {
      assert !IsWhite(s[i]);
    }
  }

  /** Trimming twice is trimming once. */
  lemma TrimIdempotent(s: string)
    ensures Trim(Trim(s)) == Trim(s)
  {
  }

  // ---------------------------------------------------------------------
  // The list operations as functions of the list
  // ---------------------------------------------------------------------

  /** `addTodo(text)`: the trimmed text is prepended as an open item, unless it is blank. */
  function Added(todos: seq<Todo>, id: string, text: string): (r: seq<Todo>)
    ensures r == todos || (|r| == |todos| + 1 && r[1..] == todos && r[0].id == id && !r[0].completed)
  {
    if Trim(text) == "" then todos else [Todo(id, Trim(text), false)] + todos
  }

  /** `todos.filter(t => t.id !== id)` */
  function Removed(todos: seq<Todo>, id: string): (r: seq<Todo>)
    ensures |r| <= |todos|
    ensures forall i :: 0 <= i < |r| ==> r[i].id != id
  {
    if todos == [] then []
    else (if todos[0].id == id then [] else [todos[0]]) + Removed(todos[1..], id)
  }

  /** `todos.filter(t => !t.completed)` */
  function Active(todos: seq<Todo>): (r: seq<Todo>)
    ensures |r| <= |todos|
    ensures forall i :: 0 <= i < |r| ==> !r[i].completed
  {
    if todos == [] then []
    else (if todos[0].completed then [] else [todos[0]]) + Active(todos[1..])
  }

  /** `todos.filter(t => t.completed)` */
  function Completed(todos: seq<Todo>): (r: seq<Todo>)
    ensures |r| <= |todos|
    ensures forall i :: 0 <= i < |r| ==> r[i].completed
  {
    if todos == [] then []
    else (if todos[0].completed then [todos[0]] else []) + Completed(todos[1..])
  }

  /** `todos.findIndex(t => t.id === id)`, with `None` for -1. */
  function FindIndex(todos: seq<Todo>, id: string): (r: Option<nat>)
    ensures r.Some? ==> r.value < |todos| && todos[r.value].id == id
    ensures r.Some? ==> forall j :: 0 <= j < r.value ==> todos[j].id != id
    ensures r.None? ==> forall j :: 0 <= j < |todos| ==> todos[j].id != id
  {
    if todos == [] then None
    else if todos[0].id == id then Some(0)
    else match FindIndex(todos[1..], id)
      case None => None
      case Some(k) => Some(k + 1)
  }

  /** `toggleComplete(id)`: the first item with the id changes state. */
  function Toggled(todos: seq<Todo>, id: string): (r: seq<Todo>)
    ensures |r| == |todos|
    ensures forall i :: 0 <= i < |r| ==> r[i].id == todos[i].id && r[i].text == todos[i].text
    ensures FindIndex(todos, id).None? ==> r == todos
    ensures FindIndex(todos, id).Some? ==> var k := FindIndex(todos, id).value;
      && r[k].completed == !todos[k].completed
      && forall i :: 0 <= i < |r| && i != k ==> r[i] == todos[i]
  {
    match FindIndex(todos, id)
    case None => todos
    case Some(k) => todos[k := todos[k].(completed := !todos[k].completed)]
  }

  /** `clearCompleted()` */
  function Cleared(todos: seq<Todo>): (r: seq<Todo>)
    ensures forall i :: 0 <= i < |r| ==> !r[i].completed
    ensures |r| + |Completed(todos)| == |todos|
  {
    ViewsPartition(todos);
    Active(todos)
  }

  /** `commit()` of an edit: a blank text removes the item, otherwise it replaces the first match's text. */
  function Committed(todos: seq<Todo>, id: string, text: string): (r: seq<Todo>)
    ensures |r| <= |todos|
    ensures Trim(text) != "" ==>
              |r| == |todos| &&
              forall i :: 0 <= i < |r| ==> r[i].id == todos[i].id && r[i].completed == todos[i].completed
  {
    if Trim(text) == "" then Removed(todos, id)
    else match FindIndex(todos, id)
      case None => todos
      case Some(k) => todos[k := todos[k].(text := Trim(text))]
  }

  /** The filter in `render`: `active` and `completed` select, any other name shows all. */
  function Visible(todos: seq<Todo>, filter: string): (r: seq<Todo>)
    ensures forall i :: 0 <= i < |r| ==> r[i] in todos
  {
    ActiveFrom(todos);
    CompletedFrom(todos);
    if filter == "active" then Active(todos)
    else if filter == "completed" then Completed(todos)
    else todos
  }


  /** `updateCount`: the number of open items and its label. */
  function Remaining(todos: seq<Todo>): (n: nat)
    ensures n + |Completed(todos)| == |todos|
  {
    ViewsPartition(todos);
    |Active(todos)|
  }

  /** The label `updateCount` writes: the number, then `item` or `items`, then `left`. */
  function CountText(remaining: nat): (r: string)
    ensures |NatString(remaining)| < |r| && r[..|NatString(remaining)|] == NatString(remaining)
  {
    NatString(remaining) + " item" + (if remaining != 1 then "s" else "") + " left"
  }

  // ---------------------------------------------------------------------
  // Properties of the operations
  // ---------------------------------------------------------------------

  /** A blank text leaves the list as it is; any other text adds one open item in front. */
  lemma AddedShape(todos: seq<Todo>, id: string, text: string)
    ensures Blank(text) ==> Added(todos, id, text) == todos
    ensures !Blank(text) ==>
      && |Added(todos, id, text)| == |todos| + 1
      && Added(todos, id, text)[0] == Todo(id, Trim(text), false)
      && Added(todos, id, text)[1..] == todos
      && Trim(Added(todos, id, text)[0].text) == Added(todos, id, text)[0].text
  {
    TrimEmpty(text);
    TrimIdempotent(text);
  }

  /** Removing a fresh id right after adding it restores the list. */
  lemma RemoveUndoesAdd(todos: seq<Todo>, id: string, text: string)
    requires forall i :: 0 <= i < |todos| ==> todos[i].id != id
    ensures Removed(Added(todos, id, text), id) == todos
  {
    TrimEmpty(text);
    RemovedAbsent(todos, id);
    if !Blank(text) {
      var a := Added(todos, id, text);
      assert a == [a[0]] + todos;
      RemovedCons(a[0], todos, id);
    }
  }

  /** Filtering by id distributes over concatenation: the kept items keep their order. */
  lemma {:induction false} RemovedAppend(a: seq<Todo>, b: seq<Todo>, id: string)
    ensures Removed(a + b, id) == Removed(a, id) + Removed(b, id)
  {
    if a == [] {
      assert a + b == b;
    } else {
      RemovedAppend(a[1..], b, id);
      assert a == [a[0]] + a[1..];
      RemovedAppendStep(a[0], a[1..], b, id);
    }
  }

  lemma RemovedAppendStep(t: Todo, rest: seq<Todo>, b: seq<Todo>, id: string)
    requires Removed(rest + b, id) == Removed(rest, id) + Removed(b, id)
    ensures Removed([t] + rest + b, id) == Removed([t] + rest, id) + Removed(b, id)
  {
    assert [t] + rest + b == [t] + (rest + b);
    RemovedCons(t, rest, id);
    RemovedCons(t, rest + b, id);
    Assoc(if t.id == id then [] else [t], Removed(rest, id), Removed(b, id));
  }

  /** One step of `Removed`. */
  lemma RemovedCons(t: Todo, rest: seq<Todo>, id: string)
    ensures Removed([t] + rest, id) == (if t.id == id then [] else [t]) + Removed(rest, id)
  {
    assert ([t] + rest)[0] == t && ([t] + rest)[1..] == rest;
  }

  /** One step of `Active`. */
  lemma ActiveCons(t: Todo, rest: seq<Todo>)
    ensures Active([t] + rest) == (if t.completed then [] else [t]) + Active(rest)
  {
    assert ([t] + rest)[0] == t && ([t] + rest)[1..] == rest;
  }

  /** One step of `Completed`. */
  lemma CompletedCons(t: Todo, rest: seq<Todo>)
    ensures Completed([t] + rest) == (if t.completed then [t] else []) + Completed(rest)
  {
    assert ([t] + rest)[0] == t && ([t] + rest)[1..] == rest;
  }

  /** What removal keeps comes from the list. */
  lemma {:induction false} RemovedFrom(todos: seq<Todo>, id: string)
    ensures forall t :: t in Removed(todos, id) ==> t in todos
  {
    if todos != [] {
      var t, rest := todos[0], todos[1..];
      assert todos == [t] + rest;
      RemovedFrom(rest, id);
      RemovedCons(t, rest, id);
    }
  }

  /** A list without the id is kept whole. */
  lemma {:induction false} RemovedAbsent(todos: seq<Todo>, id: string)
    requires forall i :: 0 <= i < |todos| ==> todos[i].id != id
    ensures Removed(todos, id) == todos
  {
    if todos != [] {
      var t, rest := todos[0], todos[1..];
      assert todos == [t] + rest;
      assert forall i :: 0 <= i < |rest| ==> rest[i].id != id by {
        forall i | 0 <= i < |rest| ensures rest[i].id != id {
          assert rest[i] == todos[i + 1];
        }
      }
      RemovedAbsent(rest, id);
      RemovedCons(t, rest, id);
    }
  }

  /** The open-items view takes its items from the list. */
  lemma {:induction false} ActiveFrom(todos: seq<Todo>)
    ensures forall t :: t in Active(todos) ==> t in todos
  {
    if todos != [] {
      var t, rest := todos[0], todos[1..];
      assert todos == [t] + rest;
      ActiveFrom(rest);
      ActiveCons(t, rest);
    }
  }

  /** The done-items view takes its items from the list. */
  lemma {:induction false} CompletedFrom(todos: seq<Todo>)
    ensures forall t :: t in Completed(todos) ==> t in todos
  {
    if todos != [] {
      var t, rest := todos[0], todos[1..];
      assert todos == [t] + rest;
      CompletedFrom(rest);
      CompletedCons(t, rest);
    }
  }

  lemma Assoc(x: seq<Todo>, y: seq<Todo>, z: seq<Todo>)
    ensures x + (y + z) == (x + y) + z
  {
  }

  /** An item survives removal exactly when its id differs. */
  lemma RemovedSingle(t: Todo, id: string)
    ensures Removed([t], id) == if t.id == id then [] else [t]
  {
    assert [t][1..] == [];
  }

  lemma {:induction false} ActiveAppend(a: seq<Todo>, b: seq<Todo>)
    ensures Active(a + b) == Active(a) + Active(b)
  {
    if a == [] {
      assert a + b == b;
    } else {
      ActiveAppend(a[1..], b);
      assert a == [a[0]] + a[1..];
      ActiveAppendStep(a[0], a[1..], b);
    }
  }

  lemma ActiveAppendStep(t: Todo, rest: seq<Todo>, b: seq<Todo>)
    requires Active(rest + b) == Active(rest) + Active(b)
    ensures Active([t] + rest + b) == Active([t] + rest) + Active(b)
  {
    assert [t] + rest + b == [t] + (rest + b);
    ActiveCons(t, rest);
    ActiveCons(t, rest + b);
    Assoc(if t.completed then [] else [t], Active(rest), Active(b));
  }

  /** Every item is either open or done: the two views split the list. */
  lemma {:induction false} ViewsPartition(todos: seq<Todo>)
    ensures |Active(todos)| + |Completed(todos)| == |todos|
    ensures multiset(Active(todos)) + multiset(Completed(todos)) == multiset(todos)
  {
    if todos != [] {
      var t, rest := todos[0], todos[1..];
      ViewsPartition(rest);
      assert todos == [t] + rest;
      ActiveCons(t, rest);
      CompletedCons(t, rest);
      PartitionStep(t, Active(rest), Completed(rest), rest);
    }
  }

  /** Adding one item in front of a split list adds it to exactly one side. */
  lemma PartitionStep(t: Todo, open: seq<Todo>, done: seq<Todo>, rest: seq<Todo>)
    requires |open| + |done| == |rest| && multiset(open) + multiset(done) == multiset(rest)
    ensures var o := (if t.completed then [] else [t]) + open;
            var d := (if t.completed then [t] else []) + done;
            |o| + |d| == |[t] + rest| && multiset(o) + multiset(d) == multiset([t] + rest)
  {
    assert multiset([t] + rest) == multiset{t} + multiset(rest);
    if t.completed {
      assert multiset([t] + done) == multiset{t} + multiset(done);
    } else {
      assert multiset([t] + open) == multiset{t} + multiset(open);
    }
  }

  /** An item that is still open is kept by `clearCompleted`, and nothing done is kept. */
  lemma {:induction false} ClearedKeepsOpen(todos: seq<Todo>, t: Todo)
    requires t in todos
    ensures t in Cleared(todos) <==> !t.completed
  {
    if todos[0] != t {
      ClearedKeepsOpen(todos[1..], t);
    }
  }

  /** Clearing twice is clearing once, and it leaves the count unchanged. */
  lemma {:induction false} ClearedIdempotent(todos: seq<Todo>)
    ensures Cleared(Cleared(todos)) == Cleared(todos)
    ensures Remaining(Cleared(todos)) == Remaining(todos)
  {
    if todos != [] {
      var t, rest := todos[0], todos[1..];
      ClearedIdempotent(rest);
      if t.completed {
        assert Active(todos) == Active(rest);
      } else {
        var a := [t] + Active(rest);
        assert Active(todos) == a;
        assert a[0] == t && a[1..] == Active(rest);
      }
    }
  }

  /** Toggling the same id twice restores the list. */
  lemma ToggleTwice(todos: seq<Todo>, id: string)
    ensures Toggled(Toggled(todos, id), id) == todos
  {
    var once := Toggled(todos, id);
    match FindIndex(todos, id)
    case None =>
    case Some(k) =>
      assert forall j :: 0 <= j < |once| ==> once[j].id == todos[j].id;
      assert FindIndex(once, id) == Some(k) by {
        FindIndexSameIds(todos, once, id);
      }
  }

  /** The first position of an id depends only on the ids of the items. */
  lemma {:induction false} FindIndexSameIds(a: seq<Todo>, b: seq<Todo>, id: string)
    requires |a| == |b| && forall j :: 0 <= j < |a| ==> a[j].id == b[j].id
    ensures FindIndex(a, id) == FindIndex(b, id)
  {
    if a != [] && a[0].id != id {
      FindIndexSameIds(a[1..], b[1..], id);
    }
  }

  /** Toggling changes the count by exactly one when the id is present. */
  lemma {:induction false} ToggleCount(todos: seq<Todo>, id: string)
    ensures FindIndex(todos, id).Some? ==>
      var k := FindIndex(todos, id).value;
      Remaining(Toggled(todos, id)) == if todos[k].completed then Remaining(todos) + 1 else Remaining(todos) - 1
    ensures FindIndex(todos, id).None? ==> Remaining(Toggled(todos, id)) == Remaining(todos)
  {
    if FindIndex(todos, id).Some? {
      var k := FindIndex(todos, id).value;
      var r := Toggled(todos, id);
      assert todos == todos[..k] + [todos[k]] + todos[k + 1..];
      assert r == todos[..k] + [r[k]] + todos[k + 1..];
      ActiveAppend(todos[..k] + [todos[k]], todos[k + 1..]);
      ActiveAppend(todos[..k], [todos[k]]);
      ActiveAppend(todos[..k] + [r[k]], todos[k + 1..]);
      ActiveAppend(todos[..k], [r[k]]);
      assert [todos[k]][1..] == [] && [r[k]][1..] == [];
    }
  }

  /** An edit with text keeps every item and changes only the text of the first match. */
  lemma CommittedEdit(todos: seq<Todo>, id: string, text: string)
    requires !Blank(text)
    ensures |Committed(todos, id, text)| == |todos|
    ensures FindIndex(todos, id).None? ==> Committed(todos, id, text) == todos
    ensures FindIndex(todos, id).Some? ==> var k := FindIndex(todos, id).value;
      && Committed(todos, id, text)[k] == todos[k].(text := Trim(text))
      && forall i :: 0 <= i < |todos| && i != k ==> Committed(todos, id, text)[i] == todos[i]
  {
    TrimEmpty(text);
  }

  /** An edit to blank text removes every item with the id. */
  lemma CommittedBlank(todos: seq<Todo>, id: string, text: string)
    requires Blank(text)
    ensures Committed(todos, id, text) == Removed(todos, id)
  {
    TrimEmpty(text);
  }

  /** The three filters show the open items, the done items, and everything. */
  lemma VisibleViews(todos: seq<Todo>, filter: string)
    ensures filter == "active" ==> Visible(todos, filter) == Active(todos)
    ensures filter == "completed" ==> Visible(todos, filter) == Completed(todos)
    ensures filter != "active" && filter != "completed" ==> Visible(todos, filter) == todos
    ensures filter == "active" ==> |Visible(todos, filter)| == Remaining(todos)
  {
  }

  /** The label is singular exactly for one remaining item. */
  lemma CountTextPlural(remaining: nat, digits: string)
    requires digits == NatString(remaining)
    ensures remaining == 1 <==> CountText(remaining) == digits + " item left"
    ensures remaining != 1 <==> CountText(remaining) == digits + " items left"
  {
    var s := CountText(remaining);
    if remaining != 1 {
      assert s[|digits| + 5] == 's';
      assert (digits + " item left")[|digits| + 5] == ' ';
    }
  }

  // ---------------------------------------------------------------------
  // The page state
  // ---------------------------------------------------------------------

  /** The module-level `todos` array and `filter` name of the page. */
  class TodoList {
    var todos: seq<Todo>
    var filter: string

    /** The state after `init` with empty storage. */
    constructor()
      ensures todos == [] && filter == "all"
    {
      todos := [];
      filter := "all";
    }

    /** `addTodo(text)` with the identifier `uid()` would give. */
    method AddTodo(id: string, text: string)
      modifies this
      ensures todos == Added(old(todos), id, text) && filter == old(filter)
    {
      var trimmed := Trim(text);
      if trimmed == "" {
        return;
      }
      todos := [Todo(id, trimmed, false)] + todos;
    }

    /** `removeTodo(id)` */
    method RemoveTodo(id: string)
      modifies this
      ensures todos == Removed(old(todos), id) && filter == old(filter)
    {
      todos := Removed(todos, id);
    }

    /** `toggleComplete(id)`: the first match is flipped in place. */
    method ToggleComplete(id: string)
      modifies this
      ensures todos == Toggled(old(todos), id) && filter == old(filter)
    {
      var idx := FindIndex(todos, id);
      if idx.None? {
        return;
      }
      var k := idx.value;
      todos := todos[k := todos[k].(completed := !todos[k].completed)];
    }

    /** `clearCompleted()` */
    method ClearCompleted()
      modifies this
      ensures todos == Cleared(old(todos)) && filter == old(filter)
      ensures forall i :: 0 <= i < |todos| ==> !todos[i].completed
    {
      todos := Active(todos);
    }

    /** `commit()` of an edit of the item with this id. */
    method CommitEdit(id: string, text: string)
      modifies this
      ensures todos == Committed(old(todos), id, text) && filter == old(filter)
    {
      var txt := Trim(text);
      if txt == "" {
        RemoveTodo(id);
      } else {
        var idx := FindIndex(todos, id);
        if idx.Some? {
          var k := idx.value;
          todos := todos[k := todos[k].(text := txt)];
        }
      }
    }

    /** A click on a filter button sets the filter to the button's name. */
    method SetFilter(name: string)
      modifies this
      ensures filter == name && todos == old(todos)
    {
      filter := name;
    }

    /** The items `render` shows. */
    function Shown(): (r: seq<Todo>)
      reads this
      ensures forall i :: 0 <= i < |r| ==> r[i] in todos
    {
      Visible(todos, filter)
    }

    /** The text `updateCount` writes. */
    function CountLabel(): (r: string)
      reads this
      ensures Remaining(todos) == 1 <==> r == NatString(Remaining(todos)) + " item left"
    {
      CountTextPlural(Remaining(todos), NatString(Remaining(todos)));
      CountText(Remaining(todos))
    }
  }
}

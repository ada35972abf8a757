/** The separate index-based to-do list: tasks kept newest first under the
    `tasks` key, and a list title under the `listTitle` key. Each handler loads
    the stored list, changes it and saves it back. */
module Todo {
  import opened Outcomes
  import opened Text
  import Seqs

  datatype TodoItem = TodoItem(text: string, completed: bool)

  const DEFAULT_TITLE := "To-do List"

  /** The title shown for an edited value: the trimmed value, or the default
      when nothing but white space is left. */
  function NormalizeTitle(value: string): (r: string)
    ensures r != []
    ensures Trim(value) != [] ==> r == Trim(value)
    ensures Trim(value) == [] ==> r == DEFAULT_TITLE
  {
    var v := Trim(value);
    if v == [] then DEFAULT_TITLE else v
  }

  /** A normalised title is its own normal form. */
  lemma NormalizeTitleIdempotent(value: string)
    ensures NormalizeTitle(NormalizeTitle(value)) == NormalizeTitle(value)
  {
    var v := Trim(value);
    if v == [] {
      assert !IsSpace(DEFAULT_TITLE[0]) && !IsSpace(DEFAULT_TITLE[|DEFAULT_TITLE| - 1]);
      assert LeadingSpace(DEFAULT_TITLE) == 0;
      assert TrailingSpace(DEFAULT_TITLE) == 0;
    } else {
      TrimIdempotent(value);
    }
  }

  /** `items` with the task at `index` marked done if it was open and open if
      it was done. */
  function Flipped(items: seq<TodoItem>, index: nat): (r: seq<TodoItem>)
    requires index < |items|
    ensures |r| == |items|
    ensures r[index].text == items[index].text && r[index].completed == !items[index].completed
    ensures forall j :: 0 <= j < |items| && j != index ==> r[j] == items[j]
  {
    items[index := items[index].(completed := !items[index].completed)]
  }

  /** Flipping the same task twice gives back the list. */
  lemma FlipTwice(items: seq<TodoItem>, index: nat)
    requires index < |items|
    ensures Flipped(Flipped(items, index), index) == items
  {
    var twice := Flipped(Flipped(items, index), index);
    assert twice[index] == items[index];
  }

  /** Where `splice(index, 1)` starts on a list of `len` elements: a negative
      index counts from the end. */
  function SpliceStart(len: nat, index: int): (start: nat)
    ensures start <= len
    ensures index >= 0 ==> start == if index < len then index else len
    ensures index < 0 ==> start == if len + index > 0 then len + index else 0
  {
    if index < 0 then (if len + index > 0 then len + index else 0)
    else if index < len then index
    else len
  }

  /** `items` after `splice(index, 1)`: the element at the start position is
      removed and the others keep their order; past the end nothing changes. */
  function Spliced(items: seq<TodoItem>, index: int): (r: seq<TodoItem>)
    ensures var start := SpliceStart(|items|, index);
            && (start == |items| ==> r == items)
            && (start < |items| ==>
                  && |r| == |items| - 1
                  && (forall j :: 0 <= j < start ==> r[j] == items[j])
                  && (forall j :: start <= j < |r| ==> r[j] == items[j + 1])
                  && multiset(r) + multiset{items[start]} == multiset(items))
  {
    var start := SpliceStart(|items|, index);
    if start < |items| then
      var r := items[..start] + items[start + 1..];
      assert items == items[..start] + [items[start]] + items[start + 1..];
      r
    else items
  }

  /** Deleting the first task right after adding one gives back the list. */
  lemma DeleteFirstAfterAdd(items: seq<TodoItem>, item: TodoItem)
    ensures Spliced([item] + items, 0) == items
  {
    assert ([item] + items)[1..] == items;
  }

  function IsOpen(t: TodoItem): bool {
    !t.completed
  }

  /** The tasks clearing completed ones leaves. */
  function PendingOnly(items: seq<TodoItem>): (r: seq<TodoItem>)
    ensures forall t :: t in r ==> t in items && !t.completed
  {
    Seqs.Filter(IsOpen, items)
  }

  /** Clearing keeps every open task, as often as it occurs and in its order,
      and nothing else. */
  lemma PendingOnlyIsExact(items: seq<TodoItem>)
    ensures Seqs.IsSubsequence(PendingOnly(items), items)
    ensures forall t: TodoItem :: multiset(PendingOnly(items))[t] == if t.completed then 0 else multiset(items)[t]
    ensures (forall i :: 0 <= i < |items| ==> !items[i].completed) ==> PendingOnly(items) == items
  {
    Seqs.FilterIsSubsequence(IsOpen, items);
    forall t: TodoItem
      ensures multiset(PendingOnly(items))[t] == if t.completed then 0 else multiset(items)[t]
    {
      Seqs.FilterCount(IsOpen, items, t);
    }
    if forall i :: 0 <= i < |items| ==> !items[i].completed {
      Seqs.FilterAll(IsOpen, items);
    }
  }

  /** Clearing twice is clearing once. */
  lemma PendingOnlyIdempotent(items: seq<TodoItem>)
    ensures PendingOnly(PendingOnly(items)) == PendingOnly(items)
  {
    Seqs.FilterIdempotent(IsOpen, items);
  }

  /** The two storage keys of the list; `None` is a key never written. */
  class TodoStore {
    var tasks: Option<seq<TodoItem>>
    var listTitle: Option<string>

    constructor (tasks: Option<seq<TodoItem>>, listTitle: Option<string>)
      ensures this.tasks == tasks && this.listTitle == listTitle
    {
      this.tasks := tasks;
      this.listTitle := listTitle;
    }

    /** The stored list, or an empty one when none was saved. */
    function LoadTasks(): (r: seq<TodoItem>)
      reads this
      ensures tasks.None? ==> r == []
      ensures tasks.Some? ==> r == tasks.value
    {
      tasks.GetOr([])
    }

    /** The stored title, or the default when none, or an empty one, was saved. */
    function LoadTitle(): (r: string)
      reads this
      ensures r != []
      ensures listTitle.Some? && listTitle.value != [] ==> r == listTitle.value
      ensures listTitle.None? || listTitle.value == [] ==> r == DEFAULT_TITLE
    {
      if listTitle.None? || listTitle.value == [] then DEFAULT_TITLE else listTitle.value
    }

    /** Puts a new open task first; the others move one place down. */
    method AddTask(text: string)
      modifies this
      ensures tasks == Some([TodoItem(text, false)] + old(LoadTasks()))
      ensures listTitle == old(listTitle)
    {
      var items := LoadTasks();
      items := [TodoItem(text, false)] + items;
      tasks := Some(items);
    }

    /** The add form: the input is trimmed, and nothing is added when it is
        empty. */
    method SubmitForm(input: string)
      modifies this
      ensures Trim(input) == [] ==> tasks == old(tasks)
      ensures Trim(input) != [] ==> tasks == Some([TodoItem(Trim(input), false)] + old(LoadTasks()))
      ensures listTitle == old(listTitle)
    {
      var text := Trim(input);
      if text == [] {
        return;
      }
      AddTask(text);
    }

    /** With no task at `index` nothing is changed or saved; otherwise only
        that task's `completed` flips. */
    method ToggleTask(index: int)
      modifies this
      ensures 0 <= index < |old(LoadTasks())| ==> tasks == Some(Flipped(old(LoadTasks()), index))
      ensures !(0 <= index < |old(LoadTasks())|) ==> tasks == old(tasks)
      ensures listTitle == old(listTitle)
    {
      var items := LoadTasks();
      if !(0 <= index < |items|) {
        return;
      }
      items := items[index := items[index].(completed := !items[index].completed)];
      tasks := Some(items);
    }

    /** `splice(index, 1)` on the stored list, which is saved in every case. */
    method DeleteTask(index: int)
      modifies this
      ensures tasks == Some(Spliced(old(LoadTasks()), index))
      ensures listTitle == old(listTitle)
    {
      var items := LoadTasks();
      var start := SpliceStart(|items|, index);
      if start < |items| {
        items := items[..start] + items[start + 1..];
      }
      tasks := Some(items);
    }

    /** The clear-completed button: only the open tasks are saved back. */
    method ClearCompleted()
      modifies this
      ensures tasks == Some(PendingOnly(old(LoadTasks())))
      ensures listTitle == old(listTitle)
    {
      var items := LoadTasks();
      tasks := Some(Seqs.Filter(IsOpen, items));
    }

    /** Leaving the title field: the normalised value is shown and saved. */
    method BlurTitle(value: string) returns (shown: string)
      modifies this
      ensures shown == NormalizeTitle(value)
      ensures listTitle == Some(shown) && tasks == old(tasks)
      ensures LoadTitle() == shown
    {
      shown := NormalizeTitle(value);
      listTitle := Some(shown);
    }
  }
}

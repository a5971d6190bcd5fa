/**
 * The to-do list's records and the list operations that main.js performs on
 * the array it loads from storage: flipping one task's `done` flag, removing
 * one element with `splice(index, 1)`, and building one display entry per
 * task when the list is re-rendered.
 */
module Tasks {
  import opened JsString

  /** One stored to-do record `{text, done}`. */
  datatype Task = Task(text: string, done: bool)

  /** A task as addTask creates it: non-empty text with nothing left to trim. */
  predicate WellFormed(t: Task) {
    t.text != [] && Trim(t.text) == t.text
  }

  predicate AllWellFormed(ts: seq<Task>) {
    forall t :: t in ts ==> WellFormed(t)
  }

  /** The task addTask appends for a text box holding `input`, when its trimmed value is non-empty. */
  lemma NewTaskWellFormed(input: string)
    requires Trim(input) != []
    ensures WellFormed(Task(Trim(input), false))
  {
    TrimIdempotent(input);
  }

  /** Appending a well-formed task keeps a well-formed list well-formed. */
  lemma AppendKeepsWellFormed(ts: seq<Task>, t: Task)
    requires AllWellFormed(ts) && WellFormed(t)
    ensures AllWellFormed(ts + [t])
  {
    forall u | u in ts + [t] ensures WellFormed(u) {
      assert u in ts || u == t;
    }
  }

  // ---------------------------------------------------------------------------
  // toggleTask: `tasks[index].done = !tasks[index].done`

  /** The list after flipping the `done` flag of task `i`. */
  function Toggled(ts: seq<Task>, i: nat): (r: seq<Task>)
    requires i < |ts|
    ensures |r| == |ts|
    ensures r[i].text == ts[i].text && r[i].done == !ts[i].done
    ensures forall j :: 0 <= j < |ts| && j != i ==> r[j] == ts[j]
  {
    ts[i := ts[i].(done := !ts[i].done)]
  }

  /** Toggling the same task twice restores the list. */
  lemma ToggledTwice(ts: seq<Task>, i: nat)
    requires i < |ts|
    ensures Toggled(Toggled(ts, i), i) == ts
  {
    var r := Toggled(Toggled(ts, i), i);
    assert r[i] == ts[i];
    assert forall j :: 0 <= j < |ts| ==> r[j] == ts[j];
  }

  /** Toggling keeps every text, so it keeps a well-formed list well-formed. */
  lemma ToggledKeepsWellFormed(ts: seq<Task>, i: nat)
    requires i < |ts| && AllWellFormed(ts)
    ensures AllWellFormed(Toggled(ts, i))
  {
    var r := Toggled(ts, i);
    forall t | t in r ensures WellFormed(t) {
      var j :| 0 <= j < |r| && r[j] == t;
      if j == i {
        assert WellFormed(ts[i]);
      } else {
        assert t == ts[j];
      }
    }
  }

  // ---------------------------------------------------------------------------
  // deleteTask: `tasks.splice(index, 1)`, with the start position that
  // Array.prototype.splice computes (ECMAScript section 23.1.3.31): a negative
  // start counts back from the end and is clamped at 0; a start past the end is
  // clamped to the length, where nothing is left to delete.

  /** The position splice starts deleting at, for an array of length `len`. */
  function SpliceStart(len: nat, start: int): (k: nat)
    ensures k <= len
    ensures 0 <= start <= len ==> k == start
    ensures start > len ==> k == len
    ensures start < 0 <= len + start ==> k == len + start
    ensures len + start < 0 ==> k == 0
  {
    if start < 0 then
      (if len + start < 0 then 0 else len + start)
    else if start < len then start else len
  }

  /** The array left behind by `splice(start, 1)`. */
  function SpliceOne<T>(s: seq<T>, start: int): (r: seq<T>)
    ensures var k := SpliceStart(|s|, start);
      k < |s| ==> (
        |r| == |s| - 1
        && (forall j :: 0 <= j < k ==> r[j] == s[j])
        && (forall j :: k <= j < |r| ==> r[j] == s[j + 1]))
    ensures SpliceStart(|s|, start) == |s| ==> r == s
  {
    var k := SpliceStart(|s|, start);
    if k < |s| then s[..k] + s[k + 1..] else s
  }

  /** A valid index removes exactly that element: one shorter, order kept. */
  lemma SpliceAtIndex<T>(s: seq<T>, i: int)
    requires 0 <= i < |s|
    ensures SpliceOne(s, i) == s[..i] + s[i + 1..]
    ensures |SpliceOne(s, i)| == |s| - 1
    ensures forall j :: 0 <= j < i ==> SpliceOne(s, i)[j] == s[j]
    ensures forall j :: i <= j < |s| - 1 ==> SpliceOne(s, i)[j] == s[j + 1]
  {
  }

  /** An index at or past the end removes nothing. */
  lemma SplicePastEnd<T>(s: seq<T>, i: int)
    requires i >= |s|
    ensures SpliceOne(s, i) == s
  {
  }

  /** A negative index `-n` with `n <= |s|` removes the n-th element from the end. */
  lemma SpliceFromEnd<T>(s: seq<T>, i: int)
    requires i < 0 <= |s| + i
    ensures SpliceOne(s, i) == s[..|s| + i] + s[|s| + i + 1..]
  {
  }

  /** A negative index reaching before the start removes the first element, if any. */
  lemma SpliceBeforeStart<T>(s: seq<T>, i: int)
    requires i < -|s|
    ensures SpliceOne(s, i) == if s == [] then [] else s[1..]
  {
    if s != [] {
      assert s[..0] + s[1..] == s[1..];
    }
  }

  /** Splice only removes: every element left was in the array before. */
  lemma SpliceKeepsWellFormed(ts: seq<Task>, i: int)
    requires AllWellFormed(ts)
    ensures AllWellFormed(SpliceOne(ts, i))
  {
    var k := SpliceStart(|ts|, i);
    if k < |ts| {
      forall t | t in SpliceOne(ts, i) ensures t in ts {
        assert t in ts[..k] || t in ts[k + 1..];
      }
    }
  }

  // ---------------------------------------------------------------------------
  // renderTasks: one list item per task

  /** `textDecoration` of a list item: 'line-through' or 'none'. */
  datatype Decoration = LineThrough | NoDecoration

  /**
   * What renderTasks shows for one task: its text, its decoration, and the
   * index that the item's click handler passes to toggleTask and its delete
   * button's handler passes to deleteTask.
   */
  datatype ListItem = ListItem(text: string, decoration: Decoration, index: nat)

  /**
   * The list renderTasks builds for `ts`: one item per task in stored order,
   * showing the task's text, struck through exactly when the task is done.
   */
  function Display(ts: seq<Task>): (items: seq<ListItem>)
    ensures |items| == |ts|
    ensures forall i :: 0 <= i < |ts| ==>
      items[i].text == ts[i].text && items[i].index == i
      && (items[i].decoration == LineThrough <==> ts[i].done)
    decreases |ts|
  {
    if ts == [] then []
    else
      var n := |ts| - 1;
      Display(ts[..n]) + [ListItem(ts[n].text, if ts[n].done then LineThrough else NoDecoration, n)]
  }

  /** The rendered list determines the stored list: two lists that differ never render alike. */
  lemma DisplayInjective(a: seq<Task>, b: seq<Task>)
    requires Display(a) == Display(b)
    ensures a == b
  {
    assert |a| == |b|;
    forall i | 0 <= i < |a| ensures a[i] == b[i] {
      assert Display(a)[i] == Display(b)[i];
    }
  }
}

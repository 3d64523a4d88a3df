/**
 * `ListExample`: a task list kept as an array state cell, an input cell for the
 * next task, and the id and text of the task being edited. Every handler replaces
 * the list with a new one built by `map`, `filter` or a spread append; the
 * statistics shown above the list are derived from it.
 */
module ListExample {
  import opened Wrappers
  import JsText

  /** One task. */
  datatype Item = Item(id: int, text: string, completed: bool)

  /** The three tasks the list starts with. */
  const InitialItems: seq<Item> := [
    Item(1, "Learn React", false),
    Item(2, "Build a project", true),
    Item(3, "Deploy to production", false)
  ]

  // ---------------------------------------------------------------------------
  // the list transformations

  /** `items.map(item => item.id === id ? {...item, completed: !item.completed} : item)`. */
  function Toggled(items: seq<Item>, id: int): (r: seq<Item>)
    ensures |r| == |items|
    ensures forall k :: 0 <= k < |items| && items[k].id == id ==>
      r[k] == items[k].(completed := !items[k].completed)
    ensures forall k :: 0 <= k < |items| && items[k].id != id ==> r[k] == items[k]
  {
    seq(|items|, k requires 0 <= k < |items| =>
      if items[k].id == id then items[k].(completed := !items[k].completed) else items[k])
  }

  /** `items.map(item => item.id === id ? {...item, text} : item)`. */
  function Renamed(items: seq<Item>, id: int, text: string): (r: seq<Item>)
    ensures |r| == |items|
    ensures forall k :: 0 <= k < |items| && items[k].id == id ==> r[k] == items[k].(text := text)
    ensures forall k :: 0 <= k < |items| && items[k].id != id ==> r[k] == items[k]
  {
    seq(|items|, k requires 0 <= k < |items| =>
      if items[k].id == id then items[k].(text := text) else items[k])
  }

  /** `items.filter(item => item.id !== id)`. */
  function Without(items: seq<Item>, id: int): (r: seq<Item>)
    ensures |r| <= |items|
    ensures forall k :: 0 <= k < |r| ==> r[k].id != id
  {
    if items == [] then []
    else if items[0].id == id then Without(items[1..], id)
    else [items[0]] + Without(items[1..], id)
  }

  /** `items.filter(item => item.completed).length`. */
  function CompletedCount(items: seq<Item>): (n: nat)
    ensures n <= |items|
  {
    if items == [] then 0
    else (if items[0].completed then 1 else 0) + CompletedCount(items[1..])
  }

  /**
   * `Math.round(completedCount / totalCount * 100)`, or 0 for an empty list, over
   * exact rationals: `Math.round(x)` is `floor(x + 1/2)`, and with
   * `x = 100c/t` that is `floor((200c + t) / 2t)`.
   */
  function Progress(items: seq<Item>): (p: nat)
    ensures p <= 100
    ensures items == [] ==> p == 0
  {
    if |items| > 0 then
      RoundedPercentBounds(CompletedCount(items), |items|);
      RoundedPercent(CompletedCount(items), |items|)
    else 0
  }

  /**
   * `Math.round(c / t * 100)` over exact rationals: the integer nearest to `100c/t`,
   * a half rounded up, that is `r - 1/2 <= 100c/t < r + 1/2`.
   */
  function RoundedPercent(c: nat, t: nat): (r: nat)
    requires t > 0
    ensures 2 * t * r - t <= 200 * c < 2 * t * r + t
  {
    var r := (200 * c + t) / (2 * t);
    assert 2 * t * r + (200 * c + t) % (2 * t) == 200 * c + t;
    r
  }

  // ---------------------------------------------------------------------------
  // properties of the transformations

  /** Toggling the same id twice gives back the list. */
  lemma ToggleTwiceRestores(items: seq<Item>, id: int)
    ensures Toggled(Toggled(items, id), id) == items
  {
    var r := Toggled(Toggled(items, id), id);
    assert forall k :: 0 <= k < |items| ==> r[k] == items[k];
  }

  /** The filter distributes over concatenation, so it keeps the relative order of what it keeps. */
  lemma {:induction false} WithoutAppend(a: seq<Item>, b: seq<Item>, id: int)
    ensures Without(a + b, id) == Without(a, id) + Without(b, id)
  {
    if a == [] {
      assert a + b == b;
    } else {
      assert (a + b)[1..] == a[1..] + b;
      WithoutAppend(a[1..], b, id);
    }
  }

  /** Delete removes exactly the items with that id: every other item stays, and a list without the id is unchanged. */
  lemma {:induction false} WithoutKeepsTheRest(items: seq<Item>, id: int)
    ensures forall it :: it in items && it.id != id ==> it in Without(items, id)
    ensures forall it :: it in Without(items, id) ==> it in items
    ensures (forall k :: 0 <= k < |items| ==> items[k].id != id) ==> Without(items, id) == items
  {
    if items != [] {
      var tail := items[1..];
      WithoutKeepsTheRest(tail, id);
      assert items == [items[0]] + tail;
      if forall k :: 0 <= k < |items| ==> items[k].id != id {
        assert forall k :: 0 <= k < |tail| ==> tail[k] == items[k + 1];
      }
    }
  }

  /** Toggling changes only `completed` on the matching items, so the ids and texts stay in place. */
  lemma ToggleKeepsIdsAndTexts(items: seq<Item>, id: int)
    ensures forall k :: 0 <= k < |items| ==>
      Toggled(items, id)[k].id == items[k].id && Toggled(items, id)[k].text == items[k].text
  {
  }

  lemma {:induction false} WithoutToggled(items: seq<Item>, id: int)
    ensures Without(Toggled(items, id), id) == Without(items, id)
  {
    if items != [] {
      assert Toggled(items, id)[1..] == Toggled(items[1..], id);
      WithoutToggled(items[1..], id);
    }
  }

  /** The count is 0 exactly when no task is done, and the length exactly when every task is. */
  lemma {:induction false} CompletedCountFlags(items: seq<Item>)
    ensures CompletedCount(items) == 0 <==> forall k :: 0 <= k < |items| ==> !items[k].completed
    ensures CompletedCount(items) == |items| <==> forall k :: 0 <= k < |items| ==> items[k].completed
  {
    if items != [] {
      var tail := items[1..];
      CompletedCountFlags(tail);
      assert forall k :: 1 <= k < |items| ==> items[k] == tail[k - 1];
      if forall k :: 0 <= k < |tail| ==> !tail[k].completed {
        assert forall k :: 1 <= k < |items| ==> !items[k].completed;
      }
      if forall k :: 0 <= k < |tail| ==> tail[k].completed {
        assert forall k :: 1 <= k < |items| ==> items[k].completed;
      }
    }
  }

  /**
   * The statistics: pending is never negative, progress is a percentage, it is 0 on
   * an empty list or when no task is done, and 100 when every task is done.
   */
  lemma ProgressIsPercentage(items: seq<Item>)
    ensures 0 <= |items| - CompletedCount(items) <= |items|
    ensures Progress(items) <= 100
    ensures (forall k :: 0 <= k < |items| ==> !items[k].completed) ==> Progress(items) == 0
    ensures items != [] && (forall k :: 0 <= k < |items| ==> items[k].completed) ==> Progress(items) == 100
  {
    CompletedCountFlags(items);
    if items != [] {
      RoundedPercentBounds(CompletedCount(items), |items|);
    }
  }

  lemma RoundedPercentBounds(c: nat, t: nat)
    requires 0 < t && c <= t
    ensures RoundedPercent(c, t) <= 100
    ensures c == 0 ==> RoundedPercent(c, t) == 0
    ensures c == t ==> RoundedPercent(c, t) == 100
  {
    assert 200 * c + t < 2 * t * 101 by {
      MulMono(200, c, t);
    }
    DivBelow(200 * c + t, 2 * t, 101);
    if c == 0 {
      DivBelow(t, 2 * t, 1);
    }
    if c == t {
      assert 200 * c + t == 2 * t * 100 + t;
      var q := (200 * c + t) / (2 * t);
      if q < 100 {
        MulMono(2 * t, q + 1, 100);
      }
    }
  }

  lemma MulMono(d: nat, a: nat, b: nat)
    requires a <= b
    ensures d * a <= d * b
  {
    assert d * b == d * a + d * (b - a);
  }

  /** `x / d < q` whenever `x < d * q`. */
  lemma DivBelow(x: nat, d: nat, q: nat)
    requires d > 0 && x < d * q
    ensures x / d < q
  {
    var r := x / d;
    assert d * r <= x;
    if r >= q {
      MulMono(d, q, r);
    }
  }

  /** The starting list: 3 tasks, 1 done, 2 pending, 33%. */
  lemma InitialStatistics()
    ensures |InitialItems| == 3 && CompletedCount(InitialItems) == 1
    ensures |InitialItems| - CompletedCount(InitialItems) == 2
    ensures Progress(InitialItems) == 33
  {
    assert InitialItems[1..][1..][1..] == [];
  }

  // ---------------------------------------------------------------------------
  // the component

  /** The component instance: its four state cells and their handlers. */
  class TaskList {
    var items: seq<Item>
    var newItemText: string
    var editingId: Option<int>
    var editText: string

    constructor()
      ensures items == InitialItems && newItemText == "" && editingId == None && editText == ""
    {
      items := InitialItems;
      newItemText := "";
      editingId := None;
      editText := "";
    }

    /** The input's `onChange`. */
    method SetNewItemText(value: string)
      modifies this
      ensures newItemText == value
      ensures items == old(items) && editingId == old(editingId) && editText == old(editText)
    {
      newItemText := value;
    }

    /**
     * `addItem`: with a non-blank input, one new open task with the trimmed text is
     * appended and the input is cleared; with a blank input nothing changes.
     * `freshId` stands for `Date.now()`.
     */
    method AddItem(freshId: int)
      modifies this
      ensures !JsText.IsBlank(old(newItemText)) ==>
        items == old(items) + [Item(freshId, JsText.Trim(old(newItemText)), false)] && newItemText == ""
      ensures JsText.IsBlank(old(newItemText)) ==> items == old(items) && newItemText == old(newItemText)
      ensures editingId == old(editingId) && editText == old(editText)
    {
      var text := JsText.Trim(newItemText);
      JsText.BlankIffTrimEmpty(newItemText);
      if text != "" {
        items := items + [Item(freshId, text, false)];
        newItemText := "";
      }
    }

    method ToggleItem(id: int)
      modifies this
      ensures items == Toggled(old(items), id)
      ensures newItemText == old(newItemText) && editingId == old(editingId) && editText == old(editText)
    {
      items := Toggled(items, id);
    }

    method DeleteItem(id: int)
      modifies this
      ensures items == Without(old(items), id)
      ensures newItemText == old(newItemText) && editingId == old(editingId) && editText == old(editText)
    {
      items := Without(items, id);
    }

    method StartEdit(id: int, text: string)
      modifies this
      ensures editingId == Some(id) && editText == text
      ensures items == old(items) && newItemText == old(newItemText)
    {
      editingId := Some(id);
      editText := text;
    }

    /** The edit box's `onChange`. */
    method SetEditText(value: string)
      modifies this
      ensures editText == value
      ensures items == old(items) && newItemText == old(newItemText) && editingId == old(editingId)
    {
      editText := value;
    }

    /**
     * `saveEdit`: with a non-blank edit text the matching tasks take the trimmed text
     * and editing ends; with a blank one nothing changes and editing goes on.
     */
    method SaveEdit(id: int)
      modifies this
      ensures !JsText.IsBlank(old(editText)) ==>
        items == Renamed(old(items), id, JsText.Trim(old(editText))) && editingId == None && editText == ""
      ensures JsText.IsBlank(old(editText)) ==>
        items == old(items) && editingId == old(editingId) && editText == old(editText)
      ensures newItemText == old(newItemText)
    {
      var text := JsText.Trim(editText);
      JsText.BlankIffTrimEmpty(editText);
      if text != "" {
        items := Renamed(items, id, text);
        editingId := None;
        editText := "";
      }
    }

    method CancelEdit()
      modifies this
      ensures editingId == None && editText == ""
      ensures items == old(items) && newItemText == old(newItemText)
    {
      editingId := None;
      editText := "";
    }

    method ClearAll()
      modifies this
      ensures items == [] && Progress(items) == 0
      ensures newItemText == old(newItemText) && editingId == old(editingId) && editText == old(editText)
    {
      items := [];
    }
  }
}

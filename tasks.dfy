/**
 * Tasks as the app stores and shows them: task ids and the "local_" marker, the rendered
 * list (one item per <li>, in document order), the browser-stored task list used when no
 * one is signed in, the statistics line and the age-based cleanup of that list.
 */
module Tasks {
  import opened Wrappers
  import opened JsText
  import opened Seqs

  /** The marker of an id generated in the browser, for a task the remote store has not confirmed. */
  const LocalPrefix: string := "local_"

  /** An id is local when it begins with the marker. */
  predicate IsLocalId(id: string): (b: bool)
    ensures b <==> LocalPrefix <= id
  {
    StartsWith(id, LocalPrefix)
  }

  /** 'local_' + Date.now() */
  function LocalId(now: nat): (id: string)
    ensures IsLocalId(id)
  {
    LocalPrefix + DecimalString(now)
  }

  /** parseInt(taskId.replace('local_', '')): the prefix is known to be at the start here. */
  function LocalIdStamp(id: string): (stamp: Option<int>)
    requires IsLocalId(id)
    ensures |id| > |LocalPrefix| && (forall i | |LocalPrefix| <= i < |id| :: IsDecimalDigit(id[i])) ==>
      stamp == Some(DigitsValue(id[|LocalPrefix|..], 10))
  {
    ParseInt(id[|LocalPrefix|..])
  }

  /** The clock reading a local id was made from is read back from the id. */
  lemma LocalIdStampRoundTrip(now: nat)
    ensures LocalIdStamp(LocalId(now)) == Some(now)
  {
    assert LocalId(now)[|LocalPrefix|..] == DecimalString(now);
    ParseIntDecimalString(now);
  }

  /** Two clock readings give the same local id exactly when they are equal. */
  lemma LocalIdInjective(a: nat, b: nat)
    ensures LocalId(a) == LocalId(b) <==> a == b
  {
    if LocalId(a) == LocalId(b) {
      LocalIdStampRoundTrip(a);
      LocalIdStampRoundTrip(b);
    }
  }

  /** A rendered task item: its data-id and whether it carries the 'completed' class. */
  datatype Item = Item(id: string, completed: bool)

  /** A task of the browser-stored list; "" as id stands for a missing id; createdAt in milliseconds. */
  datatype LocalTask = LocalTask(id: string, text: string, completed: bool, createdAt: int)

  function ItemIds(items: seq<Item>): (ids: seq<string>)
    ensures |ids| == |items| && forall i | 0 <= i < |items| :: ids[i] == items[i].id
  {
    seq(|items|, i requires 0 <= i < |items| => items[i].id)
  }

  function TaskIds(tasks: seq<LocalTask>): (ids: seq<string>)
    ensures |ids| == |tasks| && forall i | 0 <= i < |tasks| :: ids[i] == tasks[i].id
  {
    seq(|tasks|, i requires 0 <= i < |tasks| => tasks[i].id)
  }

  /** The index of the first occurrence of id, or -1: what querySelector and findIndex locate. */
  function FirstIndex(ids: seq<string>, id: string): (k: int)
    ensures -1 <= k < |ids|
    ensures k == -1 <==> id !in ids
    ensures 0 <= k ==> ids[k] == id && forall j | 0 <= j < k :: ids[j] != id
  {
    if ids == [] then -1
    else if ids[0] == id then 0
    else
      var k := FirstIndex(ids[1..], id);
      assert forall j | 1 <= j < |ids| :: ids[j] == ids[1..][j - 1];
      if k == -1 then -1 else k + 1
  }

  /** Array.prototype.findIndex with an id test. */
  method FindIndex(ids: seq<string>, id: string) returns (k: int)
    ensures k == FirstIndex(ids, id)
  {
    k := 0;
    while k < |ids| && ids[k] != id
      invariant 0 <= k <= |ids|
      invariant forall j | 0 <= j < k :: ids[j] != id
    {
      k := k + 1;
    }
    if k == |ids| {
      k := -1;
    }
  }

  /** The rendered list after the first item with id 'from' has its data-id set to 'to'. */
  function Rebind(items: seq<Item>, from: string, to: string): (r: seq<Item>)
    ensures |r| == |items| && forall i | 0 <= i < |items| :: r[i].completed == items[i].completed
    ensures forall i | 0 <= i < |items| && r[i] != items[i] :: items[i].id == from && r[i].id == to
  {
    if items == [] then []
    else if items[0].id == from then [Item(to, items[0].completed)] + items[1..]
    else [items[0]] + Rebind(items[1..], from, to)
  }

  /** Rebinding changes the id of the first matching item only; nothing else in the list moves or changes. */
  lemma {:induction false} RebindFirstMatch(items: seq<Item>, from: string, to: string)
    ensures var k := FirstIndex(ItemIds(items), from);
      Rebind(items, from, to) == if k < 0 then items else items[k := Item(to, items[k].completed)]
  {
    if items == [] {
    } else if items[0].id == from {
      assert FirstIndex(ItemIds(items), from) == 0;
      UpdateHead(items, Item(to, items[0].completed));
    } else {
      RebindFirstMatch(items[1..], from, to);
      assert RebindsFirst(items[1..], from, to);
      RebindPastHead(items, from, to);
      assert RebindsFirst(items, from, to);
    }
  }

  /** Rebind(items, from, to) changes exactly the first item with id 'from', if there is one. */
  predicate RebindsFirst(items: seq<Item>, from: string, to: string)
  {
    var k := FirstIndex(ItemIds(items), from);
    Rebind(items, from, to) == if k < 0 then items else items[k := Item(to, items[k].completed)]
  }

  /** The inductive step of RebindFirstMatch: past a non-matching head, it carries over from the tail. */
  lemma RebindPastHead(items: seq<Item>, from: string, to: string)
    requires items != [] && items[0].id != from
    requires RebindsFirst(items[1..], from, to)
    ensures RebindsFirst(items, from, to)
  {
    var tail := items[1..];
    FirstIndexPastHead(ItemIds(items), from);
    assert ItemIds(items)[1..] == ItemIds(tail);
    var k := FirstIndex(ItemIds(tail), from);
    assert Rebind(items, from, to) == [items[0]] + Rebind(tail, from, to);
    assert items == [items[0]] + tail;
    if k >= 0 {
      UpdatePastHead(items[0], tail, k, Item(to, tail[k].completed));
    }
  }

  /** Updating the head of a list replaces its first element. */
  lemma UpdateHead<T>(s: seq<T>, x: T)
    requires s != []
    ensures [x] + s[1..] == s[0 := x]
  {
  }

  /** Past a non-matching head, the first index is the tail's, shifted by one. */
  lemma FirstIndexPastHead(ids: seq<string>, id: string)
    requires ids != [] && ids[0] != id
    ensures var k := FirstIndex(ids[1..], id); FirstIndex(ids, id) == if k < 0 then -1 else k + 1
  {
  }

  /** Updating past the head of a list updates its tail. */
  lemma UpdatePastHead<T>(head: T, tail: seq<T>, k: nat, x: T)
    requires k < |tail|
    ensures ([head] + tail)[k + 1 := x] == [head] + tail[k := x]
  {
    var updated, rebuilt := ([head] + tail)[k + 1 := x], [head] + tail[k := x];
    assert forall j | 0 <= j < |updated| :: updated[j] == rebuilt[j];
  }

  /** The item addTaskToUI renders for a stored task: a missing id is replaced by a fresh local id. */
  function ShownItem(t: LocalTask, now: nat): (it: Item)
    ensures it.completed == t.completed
    ensures t.id != "" ==> it.id == t.id
    ensures t.id == "" ==> IsLocalId(it.id) && LocalIdStamp(it.id) == Some(now)
  {
    LocalIdStampRoundTrip(now);
    Item(if t.id == "" then LocalId(now) else t.id, t.completed)
  }

  /** The rendered list loadLocalTasks builds, with one clock reading per task. */
  function LocalItems(tasks: seq<LocalTask>, clock: seq<nat>): (items: seq<Item>)
    requires |clock| == |tasks|
    ensures |items| == |tasks|
  {
    if tasks == [] then [] else [ShownItem(tasks[0], clock[0])] + LocalItems(tasks[1..], clock[1..])
  }

  /** The three numbers of the statistics line; remaining is total minus completed. */
  datatype Stats = Stats(total: nat, completed: nat, remaining: int)

  predicate IsCompleted(it: Item)
  {
    it.completed
  }

  /** updateTaskStats: it counts the items and the completed items of the rendered list. */
  function TaskStats(items: seq<Item>): (st: Stats)
    ensures st.total == |items|
    ensures st.completed == Count(IsCompleted, items)
    ensures 0 <= st.remaining == st.total - st.completed
    ensures st.remaining == 0 <==> forall i | 0 <= i < |items| :: items[i].completed
  {
    CountAll(IsCompleted, items);
    var done := Count(IsCompleted, items);
    Stats(|items|, done, |items| - done)
  }

  /** The count shown in the document title, present only while some item is not completed. */
  function TitleCount(items: seq<Item>): (n: Option<nat>)
    ensures n.Some? <==> exists i | 0 <= i < |items| :: !items[i].completed
    ensures n.Some? ==> n.value == TaskStats(items).remaining && n.value > 0
  {
    var remaining := TaskStats(items).remaining;
    if remaining > 0 then Some(remaining) else None
  }

  lemma {:induction false} CountAppend(p: Item -> bool, a: seq<Item>, b: seq<Item>)
    ensures Count(p, a + b) == Count(p, a) + Count(p, b)
  {
    if a != [] {
      CountAppend(p, a[1..], b);
      assert (a + b)[1..] == a[1..] + b;
    } else {
      assert a + b == b;
    }
  }

  /** Appending an item raises the total by one and the completed count by one exactly when it is completed. */
  lemma StatsAfterAppend(items: seq<Item>, it: Item)
    ensures TaskStats(items + [it]).total == TaskStats(items).total + 1
    ensures TaskStats(items + [it]).completed == TaskStats(items).completed + (if it.completed then 1 else 0)
  {
    CountAppend(IsCompleted, items, [it]);
    assert [it][1..] == [];
  }

  /** Rebinding an id leaves the statistics as they were. */
  lemma {:induction false} StatsAfterRebind(items: seq<Item>, from: string, to: string)
    ensures TaskStats(Rebind(items, from, to)) == TaskStats(items)
  {
    if items != [] {
      if items[0].id == from {
        assert (([Item(to, items[0].completed)] + items[1..])[1..]) == items[1..];
      } else {
        StatsAfterRebind(items[1..], from, to);
        assert ([items[0]] + Rebind(items[1..], from, to))[1..] == Rebind(items[1..], from, to);
      }
    }
  }

  /** After loadLocalTasks the statistics count the stored tasks and the completed stored tasks. */
  lemma {:induction false} StatsOfLocalItems(tasks: seq<LocalTask>, clock: seq<nat>)
    requires |clock| == |tasks|
    ensures |LocalItems(tasks, clock)| == |tasks|
    ensures TaskStats(LocalItems(tasks, clock)).completed == Count((t: LocalTask) => t.completed, tasks)
  {
    if tasks != [] {
      StatsOfLocalItems(tasks[1..], clock[1..]);
      var rest := LocalItems(tasks[1..], clock[1..]);
      assert ([ShownItem(tasks[0], clock[0])] + rest)[1..] == rest;
    }
  }

  /** Stored tasks keep their own ids when rendered; only a missing id is made up. */
  lemma {:induction false} LocalItemsKeepIds(tasks: seq<LocalTask>, clock: seq<nat>, i: nat)
    requires |clock| == |tasks| && i < |tasks|
    ensures |LocalItems(tasks, clock)| == |tasks|
    ensures LocalItems(tasks, clock)[i] == ShownItem(tasks[i], clock[i])
  {
    StatsOfLocalItems(tasks, clock);
    if i > 0 {
      LocalItemsKeepIds(tasks[1..], clock[1..], i - 1);
    }
  }

  /** tasks.filter(task => task.id !== taskId): every task with that id goes, the others stay in order. */
  function WithoutId(tasks: seq<LocalTask>, id: string): (r: seq<LocalTask>)
    ensures IsSubsequence(r, tasks)
    ensures forall t :: t in r <==> t in tasks && t.id != id
    ensures |r| == |tasks| - Count((t: LocalTask) => t.id == id, tasks)
  {
    var keep := (t: LocalTask) => t.id != id;
    FilterSpec(keep, tasks);
    OppositeCounts(keep, (t: LocalTask) => t.id == id, tasks);
    Filter(keep, tasks)
  }

  lemma {:induction false} OppositeCounts(p: LocalTask -> bool, q: LocalTask -> bool, s: seq<LocalTask>)
    requires forall t :: p(t) <==> !q(t)
    ensures Count(p, s) + Count(q, s) == |s|
  {
    if s != [] {
      OppositeCounts(p, q, s[1..]);
    }
  }

  /** The cleanup keeps a task that is not completed or was created after the cutoff. */
  predicate SurvivesCleanup(t: LocalTask, cutoff: int)
  {
    !t.completed || t.createdAt > cutoff
  }

  /**
   * The local branch of cleanupOldTasks: it keeps every incomplete task and every completed
   * task created after the cutoff, in order, and shortens the list exactly when some
   * completed task is that old.
   */
  function Cleanup(tasks: seq<LocalTask>, cutoff: int): (r: seq<LocalTask>)
    ensures IsSubsequence(r, tasks)
    ensures forall t :: t in r <==> t in tasks && (!t.completed || t.createdAt > cutoff)
    ensures |r| == Count((t: LocalTask) => SurvivesCleanup(t, cutoff), tasks)
    ensures |r| < |tasks| <==> exists i | 0 <= i < |tasks| :: tasks[i].completed && tasks[i].createdAt <= cutoff
    ensures |r| <= |tasks| && (|r| == |tasks| ==> r == tasks)
  {
    var keep := (t: LocalTask) => SurvivesCleanup(t, cutoff);
    FilterSpec(keep, tasks);
    CountAll(keep, tasks);
    FilterAllKept(keep, tasks);
    Filter(keep, tasks)
  }

  /** A second cleanup with the same cutoff removes nothing. */
  lemma CleanupIdempotent(tasks: seq<LocalTask>, cutoff: int)
    ensures Cleanup(Cleanup(tasks, cutoff), cutoff) == Cleanup(tasks, cutoff)
  {
    FilterIdempotent((t: LocalTask) => SurvivesCleanup(t, cutoff), tasks);
  }
}

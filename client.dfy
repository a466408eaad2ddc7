/**
 * The browser side of the app as one object: the signed-in user and connectivity (set by the
 * authentication service and the browser), the task input box, the two stored lists and the
 * rendered list. Each method is one handler; the outcome of a remote request it makes is
 * passed in as a Reply, and every Date.now() reading it takes is a separate clock argument.
 */
module App {
  import opened Wrappers
  import opened JsText
  import opened Tasks
  import opened Queue

  class Client {
    /** auth.currentUser's uid; None when signed out or when the remote services are not set up. */
    var user: Option<string>
    /** navigator.onLine */
    var online: bool
    /** taskInput.value */
    var input: string
    /** The stored 'dailyTasks' list. */
    var tasks: seq<LocalTask>
    /** The stored 'pendingChanges' list. */
    var queue: seq<Change>
    /** The items of the task list, in document order. */
    var rendered: seq<Item>

    constructor (user: Option<string>, online: bool, storedTasks: seq<LocalTask>, storedQueue: seq<Change>)
      ensures this.user == user && this.online == online && input == ""
      ensures tasks == storedTasks && queue == storedQueue && rendered == []
    {
      this.user := user;
      this.online := online;
      input := "";
      tasks := storedTasks;
      queue := storedQueue;
      rendered := [];
    }

    /** addTaskToUI: the new item goes at the end of the list. */
    method AddTaskToUI(id: string, completed: bool)
      modifies this`rendered
      ensures rendered == old(rendered) + [Item(id, completed)]
    {
      rendered := rendered + [Item(id, completed)];
    }

    /**
     * addNewTask. Blank input does nothing. Signed in, the task is created remotely and shown
     * under its remote id; if the create fails while offline it is shown under a local id and
     * queued, and if it fails while online it is dropped. Signed out, it is stored and shown.
     * clockId is the reading the local id is made from, clockLater the next reading.
     */
    method AddNewTask(reply: Reply, clockId: nat, clockLater: nat) returns (call: Option<RemoteCall>)
      modifies this`input, this`tasks, this`queue, this`rendered
      ensures Trim(old(input)) == "" ==>
        call == None && input == old(input) && tasks == old(tasks) && queue == old(queue) && rendered == old(rendered)
      ensures Trim(old(input)) != "" ==> AddedTask(Trim(old(input)), reply, clockId, clockLater, call)
    {
      var text := Trim(input);
      if text == "" {
        return None;
      }
      call := AddTrimmedTask(text, reply, clockId, clockLater);
    }

    /** What addNewTask does with a non-blank trimmed text: the state change, relative to the old state. */
    twostate predicate AddedTask(text: string, reply: Reply, clockId: nat, clockLater: nat, new call: Option<RemoteCall>)
      reads this
    {
      && (user.Some? ==>
        var task := NewTask(text, user.value);
        && call == Some(Create(user.value, task))
        && tasks == old(tasks)
        && (reply.Ok? ==>
              rendered == old(rendered) + [Item(reply.docId, false)] && queue == old(queue) && input == "")
        && (reply.Failed? && !online ==>
              rendered == old(rendered) + [Item(LocalId(clockId), false)]
              && queue == old(queue) + [Add(task, clockLater)] && input == "")
        && (reply.Failed? && online ==>
              rendered == old(rendered) && queue == old(queue) && input == old(input)))
      && (user.None? ==>
        && call == None
        && tasks == old(tasks) + [LocalTask(LocalId(clockId), text, false, clockLater)]
        && rendered == old(rendered) + [Item(LocalId(clockId), false)]
        && queue == old(queue) && input == "")
    }

    /** The part of addNewTask after the blank check, given the trimmed text. */
    method AddTrimmedTask(text: string, reply: Reply, clockId: nat, clockLater: nat) returns (call: Option<RemoteCall>)
      modifies this`input, this`tasks, this`queue, this`rendered
      ensures AddedTask(text, reply, clockId, clockLater, call)
    {
      match user {
        case Some(uid) =>
          var task := NewTask(text, uid);
          call := Some(Create(uid, task));
          if reply.Ok? {
            AddTaskToUI(reply.docId, false);
            input := "";
          } else if !online {
            AddTaskToUI(LocalId(clockId), false);
            queue := queue + [Add(task, clockLater)];
            input := "";
          }
        case None =>
          call := None;
          var taskId := LocalId(clockId);
          tasks := tasks + [LocalTask(taskId, text, false, clockLater)];
          AddTaskToUI(taskId, false);
          input := "";
      }
    }

    /** loadLocalTasks: the list is cleared and rebuilt from the stored tasks, in stored order. */
    method LoadLocalTasks(clock: seq<nat>)
      requires |clock| == |tasks|
      modifies this`rendered
      ensures rendered == LocalItems(tasks, clock)
    {
      var stored := tasks;
      rendered := [];
      var i := 0;
      while i < |stored|
        invariant 0 <= i <= |stored| && stored == tasks
        invariant |rendered| == i && forall k | 0 <= k < i :: rendered[k] == ShownItem(stored[k], clock[k])
      {
        var item := ShownItem(stored[i], clock[i]);
        AddTaskToUI(item.id, item.completed);
        i := i + 1;
      }
      StatsOfLocalItems(stored, clock);
      forall k | 0 <= k < |stored|
        ensures LocalItems(stored, clock)[k] == rendered[k]
      {
        LocalItemsKeepIds(stored, clock, k);
      }
    }

    /**
     * toggleTaskComplete. Nothing happens when no item has the id. Otherwise the first such item
     * takes the new state; signed in, a local id is queued and a remote id is updated remotely
     * and queued only if that fails; signed out, the first stored task with the id is changed.
     */
    method ToggleTaskComplete(taskId: string, completed: bool, reply: Reply, clock: nat)
      returns (call: Option<RemoteCall>)
      modifies this`rendered, this`queue, this`tasks
      ensures FirstIndex(ItemIds(old(rendered)), taskId) < 0 ==>
        call == None && rendered == old(rendered) && queue == old(queue) && tasks == old(tasks)
      ensures var k := FirstIndex(ItemIds(old(rendered)), taskId);
        k >= 0 ==> rendered == old(rendered)[k := Item(taskId, completed)]
      ensures FirstIndex(ItemIds(old(rendered)), taskId) >= 0 && user.Some? ==>
        && tasks == old(tasks)
        && (IsLocalId(taskId) ==> call == None && queue == old(queue) + [Update(taskId, completed, clock)])
        && (!IsLocalId(taskId) ==>
              call == Some(SetCompleted(user.value, taskId, completed))
              && queue == old(queue) + (if reply.Failed? then [Update(taskId, completed, clock)] else []))
      ensures FirstIndex(ItemIds(old(rendered)), taskId) >= 0 && user.None? ==>
        var j := FirstIndex(TaskIds(old(tasks)), taskId);
        && call == None && queue == old(queue)
        && tasks == if j < 0 then old(tasks) else old(tasks)[j := old(tasks)[j].(completed := completed)]
    {
      call := None;
      var k := FindIndex(ItemIds(rendered), taskId);
      if k < 0 {
        return;
      }
      rendered := rendered[k := Item(taskId, completed)];
      match user {
        case Some(uid) =>
          if IsLocalId(taskId) {
            queue := queue + [Update(taskId, completed, clock)];
          } else {
            call := Some(SetCompleted(uid, taskId, completed));
            if reply.Failed? {
              queue := queue + [Update(taskId, completed, clock)];
            }
          }
        case None =>
          var j := FindIndex(TaskIds(tasks), taskId);
          if j != -1 {
            tasks := tasks[j := tasks[j].(completed := completed)];
          }
      }
    }

    /**
     * deleteTask. Nothing happens when no item has the id. Otherwise the first such item is
     * removed; signed in, a local id purges its queued add and a remote id is deleted remotely
     * and queued only if that fails; signed out, every stored task with the id is removed.
     */
    method DeleteTask(taskId: string, reply: Reply, clock: nat) returns (call: Option<RemoteCall>)
      modifies this`rendered, this`queue, this`tasks
      ensures FirstIndex(ItemIds(old(rendered)), taskId) < 0 ==>
        call == None && rendered == old(rendered) && queue == old(queue) && tasks == old(tasks)
      ensures var k := FirstIndex(ItemIds(old(rendered)), taskId);
        k >= 0 ==> rendered == old(rendered)[..k] + old(rendered)[k + 1..]
      ensures FirstIndex(ItemIds(old(rendered)), taskId) >= 0 && user.Some? ==>
        && tasks == old(tasks)
        && (IsLocalId(taskId) ==> call == None && queue == Purge(old(queue), taskId))
        && (!IsLocalId(taskId) ==>
              call == Some(Remove(user.value, taskId))
              && queue == old(queue) + (if reply.Failed? then [Delete(taskId, clock)] else []))
      ensures FirstIndex(ItemIds(old(rendered)), taskId) >= 0 && user.None? ==>
        call == None && queue == old(queue) && tasks == WithoutId(old(tasks), taskId)
    {
      call := None;
      var k := FindIndex(ItemIds(rendered), taskId);
      if k < 0 {
        return;
      }
      rendered := rendered[..k] + rendered[k + 1..];
      match user {
        case Some(uid) =>
          if IsLocalId(taskId) {
            queue := Purge(queue, taskId);
          } else {
            call := Some(Remove(uid, taskId));
            if reply.Failed? {
              queue := queue + [Delete(taskId, clock)];
            }
          }
        case None =>
          tasks := WithoutId(tasks, taskId);
      }
    }

    /**
     * The local branch of cleanupOldTasks; cutoff is the instant thirty days before now. While
     * signed in the stored list is left alone. The list is written only if the filter removed a task.
     */
    method CleanupOldTasks(cutoff: int) returns (wrote: bool)
      modifies this`tasks
      ensures user.Some? ==> tasks == old(tasks) && !wrote
      ensures user.None? ==> tasks == Cleanup(old(tasks), cutoff) && (wrote <==> |tasks| < |old(tasks)|)
    {
      wrote := false;
      if user.None? {
        var filtered := Cleanup(tasks, cutoff);
        if |filtered| < |tasks| {
          tasks := filtered;
          wrote := true;
        }
      }
    }

    /** The first item whose data-id is 'from' gets data-id 'to'. */
    method RebindRendered(from: string, to: string)
      modifies this`rendered
      ensures rendered == Rebind(old(rendered), from, to)
    {
      RebindFirstMatch(rendered, from, to);
      var k := FindIndex(ItemIds(rendered), from);
      if k >= 0 {
        rendered := rendered[k := Item(to, rendered[k].completed)];
      }
    }

    /**
     * The first half of syncPendingChanges: with a user, a connection and a non-empty queue it
     * takes a snapshot of the queue, issues one remote request per replayable entry, rebinds the
     * item of every created add, and returns the settled result of every entry.
     */
    method BeginSync(replies: seq<Reply>)
      returns (started: bool, snapshot: seq<Change>, results: seq<Settled>, calls: seq<RemoteCall>)
      requires |replies| == |queue|
      modifies this`rendered
      ensures started <==> user.Some? && online && queue != []
      ensures !started ==> snapshot == [] && results == [] && calls == [] && rendered == old(rendered)
      ensures started ==>
        && snapshot == queue
        && results == SettleAll(queue, replies)
        && calls == CallsOf(queue, user.value)
        && rendered == RebindAll(old(rendered), queue, replies)
    {
      if user.None? || !online || queue == [] {
        return false, [], [], [];
      }
      started := true;
      var uid := user.value;
      snapshot := queue;
      ghost var initial := rendered;
      results, calls := [], [];
      var i := 0;
      while i < |snapshot|
        invariant 0 <= i <= |snapshot| && |replies| == |snapshot|
        invariant |results| == i && forall j | 0 <= j < i :: results[j] == Dispatch(snapshot[j], replies[j])
        invariant calls == CallsOf(snapshot[..i], uid)
        invariant RebindAll(rendered, snapshot[i..], replies[i..]) == RebindAll(initial, snapshot, replies)
      {
        CallsAndRebindStep(rendered, snapshot, replies, uid, i);
        var result, call := ReplayEntry(snapshot[i], replies[i], uid);
        results := results + [result];
        if call.Some? {
          calls := calls + [call.value];
        }
        i := i + 1;
      }
      assert snapshot[i..] == [] && snapshot[..i] == snapshot;
    }

    /**
     * One step of the map over the snapshot: the entry's request, if it has one, and its settled
     * result; a created add rebinds the item of its local id.
     */
    method ReplayEntry(change: Change, reply: Reply, uid: string) returns (result: Settled, call: Option<RemoteCall>)
      modifies this`rendered
      ensures result == Dispatch(change, reply) && call == CallOf(change, uid)
      ensures rendered == RebindStep(old(rendered), change, reply)
    {
      result := Dispatch(change, reply);
      call := CallOf(change, uid);
      if change.Add? && reply.Ok? {
        RebindRendered(LocalId(change.timestamp), reply.docId);
      }
    }

    /**
     * The second half: the queue becomes the retained snapshot entries, in snapshot order, and
     * replaces whatever the queue holds by then; if that is shorter than the snapshot the task
     * list is reloaded.
     */
    method FinishSync(snapshot: seq<Change>, results: seq<Settled>) returns (refresh: bool)
      requires |results| == |snapshot|
      modifies this`queue, this`rendered
      ensures queue == Survivors(snapshot, results)
      ensures refresh <==> |queue| < |snapshot|
      ensures rendered == if refresh then [] else old(rendered)
    {
      var remaining := [];
      var i := 0;
      while i < |results|
        invariant 0 <= i <= |results|
        invariant remaining + Survivors(snapshot[i..], results[i..]) == Survivors(snapshot, results)
      {
        assert snapshot[i..][1..] == snapshot[i + 1..] && results[i..][1..] == results[i + 1..];
        if Retained(results[i]) {
          remaining := remaining + [snapshot[i]];
        }
        i := i + 1;
      }
      queue := remaining;
      refresh := |remaining| < |snapshot|;
      if refresh {
        LoadUserTasks();
      }
    }

    /**
     * syncPendingChanges with both halves run back to back. Without a user, a connection or
     * queued entries it changes nothing and issues no request.
     */
    method SyncPendingChanges(replies: seq<Reply>) returns (calls: seq<RemoteCall>, refresh: bool)
      requires |replies| == |queue|
      modifies this`queue, this`rendered
      ensures !(user.Some? && online && old(queue) != []) ==>
        queue == old(queue) && rendered == old(rendered) && calls == [] && !refresh
      ensures user.Some? && online && old(queue) != [] ==>
        && queue == Survivors(old(queue), SettleAll(old(queue), replies))
        && calls == CallsOf(old(queue), user.value)
        && (refresh <==> |queue| < |old(queue)|)
        && rendered == if refresh then [] else old(rendered)
    {
      var started, snapshot, results;
      started, snapshot, results, calls := BeginSync(replies);
      refresh := false;
      if started {
        refresh := FinishSync(snapshot, results);
        if !refresh {
          forall i | 0 <= i < |snapshot|
            ensures !(snapshot[i].Add? && replies[i].Ok?)
          {
            assert Retained(results[i]);
          }
          RebindAllWithoutCreatedAdd(old(rendered), snapshot, replies);
        }
      }
    }

    /** How one loop step of BeginSync advances the requests and the rebinding. */
    static lemma CallsAndRebindStep(items: seq<Item>, s: seq<Change>, replies: seq<Reply>, uid: string, i: nat)
      requires |replies| == |s| && i < |s|
      ensures CallsOf(s[..i + 1], uid) == CallsOf(s[..i], uid) + CallList(s[i], uid)
      ensures RebindAll(items, s[i..], replies[i..]) == RebindAll(RebindStep(items, s[i], replies[i]), s[i + 1..], replies[i + 1..])
    {
      assert s[i..][1..] == s[i + 1..] && replies[i..][1..] == replies[i + 1..];
      assert s[..i + 1] == s[..i] + [s[i]];
      CallsOfAppend(s[..i], [s[i]], uid);
      assert [s[i]][1..] == [];
    }

    /** The synchronous part of loadUserTasks: the list is cleared while the query runs. */
    method LoadUserTasks()
      modifies this`rendered
      ensures rendered == []
    {
      rendered := [];
    }

    /**
     * The query of loadUserTasks has ended: on success each returned document is appended in
     * the order the query returns them; on failure the list stays as it is.
     */
    method UserTasksLoaded(docs: Option<seq<Item>>)
      modifies this`rendered
      ensures rendered == if docs.Some? then old(rendered) + docs.value else old(rendered)
    {
      if docs.Some? {
        var i := 0;
        while i < |docs.value|
          invariant 0 <= i <= |docs.value|
          invariant rendered == old(rendered) + docs.value[..i]
        {
          assert docs.value[..i + 1] == docs.value[..i] + [docs.value[i]];
          AddTaskToUI(docs.value[i].id, docs.value[i].completed);
          i := i + 1;
        }
        assert docs.value[..|docs.value|] == docs.value;
      }
    }

    /**
     * The session listener of app.js: a sign-in starts loading the user's tasks, a sign-out
     * renders the stored local tasks again.
     */
    method AppAuthStateChanged(clock: seq<nat>)
      requires |clock| == |tasks|
      modifies this`rendered
      ensures user.Some? ==> rendered == []
      ensures user.None? ==> rendered == LocalItems(tasks, clock)
    {
      if user.Some? {
        LoadUserTasks();
      } else {
        LoadLocalTasks(clock);
      }
    }
  }
}

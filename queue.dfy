/**
 * The pending-change queue (the browser-stored 'pendingChanges' list) and the pure parts of
 * its drain: how each entry is dispatched, which entries the drain keeps, the remote calls it
 * issues, and the filter that drops the queued add of a local task deleted while signed in.
 */
module Queue {
  import opened Wrappers
  import opened Seqs
  import opened Tasks

  /**
   * The document an add sends: its text and owner. Its completed field is always false, and its
   * createdAt field is not modelled (a server timestamp when first sent, and whatever the stored
   * JSON copy of it turns into when a queued add is replayed).
   */
  datatype NewTask = NewTask(text: string, userId: string)

  /** One stored pending change; Unknown is a stored record whose type is none of the three. */
  datatype Change =
    | Add(task: NewTask, timestamp: nat)
    | Update(taskId: string, completed: bool, timestamp: nat)
    | Delete(taskId: string, timestamp: nat)
    | Unknown

  /** A request to the remote task collection of user uid. */
  datatype RemoteCall =
    | Create(uid: string, task: NewTask)
    | SetCompleted(uid: string, taskId: string, completed: bool)
    | Remove(uid: string, taskId: string)

  /** How a remote request ends: fulfilled (with the new document id for a create) or rejected. */
  datatype Reply = Ok(docId: string) | Failed

  /** An entry of the array Promise.allSettled delivers: a fulfilled { success, reason } value, or a rejection. */
  datatype Settled = Fulfilled(success: bool, reason: string) | Rejected

  const LocalTaskReason: string := "local_task"
  const UnknownTypeReason: string := "unknown_type"

  /** An update or delete of a task that has only a local id. */
  predicate IsLocalEdit(c: Change)
  {
    (c.Update? || c.Delete?) && IsLocalId(c.taskId)
  }

  /** An entry the drain sends to the remote store. */
  predicate Replayable(c: Change)
  {
    c.Add? || ((c.Update? || c.Delete?) && !IsLocalId(c.taskId))
  }

  predicate IsUnknown(c: Change)
  {
    c.Unknown?
  }

  /** The remote request the drain issues for one entry, if any. */
  function CallOf(c: Change, uid: string): (call: Option<RemoteCall>)
    ensures call.Some? <==> Replayable(c)
    ensures c.Add? ==> call == Some(Create(uid, c.task))
    ensures c.Update? && !IsLocalId(c.taskId) ==> call == Some(SetCompleted(uid, c.taskId, c.completed))
    ensures c.Delete? && !IsLocalId(c.taskId) ==> call == Some(Remove(uid, c.taskId))
  {
    match c
    case Add(task, _) => Some(Create(uid, task))
    case Update(id, completed, _) => if IsLocalId(id) then None else Some(SetCompleted(uid, id, completed))
    case Delete(id, _) => if IsLocalId(id) then None else Some(Remove(uid, id))
    case Unknown => None
  }

  /** The settled promise of one entry of the drain, given how its remote request ended. */
  function Dispatch(c: Change, reply: Reply): (r: Settled)
    ensures r.Fulfilled? && r.success <==> Replayable(c) && reply.Ok?
    ensures r.Fulfilled? && r.success ==> r == Fulfilled(true, "")
    ensures IsLocalEdit(c) ==> r == Fulfilled(false, LocalTaskReason)
    ensures c.Unknown? ==> r == Fulfilled(false, UnknownTypeReason)
    ensures Retained(r) <==> c.Unknown? || (Replayable(c) && reply.Failed?)
  {
    match c
    case Add(_, _) => if reply.Ok? then Fulfilled(true, "") else Rejected
    case Update(id, _, _) =>
      if IsLocalId(id) then Fulfilled(false, LocalTaskReason)
      else if reply.Ok? then Fulfilled(true, "") else Rejected
    case Delete(id, _) =>
      if IsLocalId(id) then Fulfilled(false, LocalTaskReason)
      else if reply.Ok? then Fulfilled(true, "") else Rejected
    case Unknown => Fulfilled(false, UnknownTypeReason)
  }

  /** The test of the commit loop: rejected or unsuccessful, and not skipped as a local task. */
  predicate Retained(r: Settled): (b: bool)
    ensures b <==> r == Rejected || (r.Fulfilled? && !r.success && r.reason != LocalTaskReason)
  {
    (r.Rejected? || !r.success) && !(r.Fulfilled? && r.reason == LocalTaskReason)
  }

  /** The settled results of a whole snapshot, index by index. */
  function SettleAll(s: seq<Change>, replies: seq<Reply>): (rs: seq<Settled>)
    requires |replies| == |s|
    ensures |rs| == |s| && forall i | 0 <= i < |s| :: rs[i] == Dispatch(s[i], replies[i])
  {
    seq(|s|, i requires 0 <= i < |s| => Dispatch(s[i], replies[i]))
  }

  lemma SettleAllTail(s: seq<Change>, replies: seq<Reply>)
    requires |replies| == |s| && s != []
    ensures SettleAll(s, replies)[1..] == SettleAll(s[1..], replies[1..])
  {
  }

  /**
   * The queue the drain commits: the snapshot entries whose result is retained, in snapshot
   * order. It holds one entry per retained result, and the entry at a retained index i sits at
   * the position given by the number of retained results before i.
   */
  function Survivors(s: seq<Change>, rs: seq<Settled>): (r: seq<Change>)
    requires |rs| == |s|
    ensures IsSubsequence(r, s)
    ensures |r| == Count(Retained, rs)
    ensures forall i | 0 <= i < |s| && Retained(rs[i]) ::
      Count(Retained, rs[..i]) < |r| && r[Count(Retained, rs[..i])] == s[i]
    ensures |r| <= |s|
    ensures |r| == |s| <==> forall i | 0 <= i < |s| :: Retained(rs[i])
  {
    if s == [] then []
    else
      var rest := Survivors(s[1..], rs[1..]);
      assert forall i | 1 <= i < |s| :: rs[i] == rs[1..][i - 1] && s[i] == s[1..][i - 1];
      CountAll(Retained, rs);
      CountPrefixes(Retained, rs);
      if Retained(rs[0]) then
        assert ([s[0]] + rest)[1..] == rest;
        [s[0]] + rest
      else rest
  }

  /** Exactly the retained entries survive: each retained one is there, and each survivor was retained. */
  lemma {:induction false} SurvivorsMembers(s: seq<Change>, rs: seq<Settled>)
    requires |rs| == |s|
    ensures forall i | 0 <= i < |s| && Retained(rs[i]) :: s[i] in Survivors(s, rs)
    ensures forall c | c in Survivors(s, rs) :: exists i | 0 <= i < |s| :: s[i] == c && Retained(rs[i])
  {
    if s != [] {
      SurvivorsMembers(s[1..], rs[1..]);
      assert forall i | 1 <= i < |s| :: s[i] == s[1..][i - 1] && rs[i] == rs[1..][i - 1];
    }
  }

  /** The request of one entry, as a list of zero or one requests. */
  function CallList(c: Change, uid: string): seq<RemoteCall>
  {
    match CallOf(c, uid) case Some(call) => [call] case None => []
  }

  /**
   * The remote requests the drain issues, in the order it issues them (not the order they
   * complete): the i-th is the request of the i-th replayable entry.
   */
  function CallsOf(s: seq<Change>, uid: string): (calls: seq<RemoteCall>)
    ensures |calls| == Count(Replayable, s) == |Filter(Replayable, s)|
    ensures forall i | 0 <= i < |calls| :: CallOf(Filter(Replayable, s)[i], uid) == Some(calls[i])
    ensures forall call | call in calls :: call.uid == uid && (call.Create? || !IsLocalId(call.taskId))
  {
    if s == [] then []
    else
      var rest := CallsOf(s[1..], uid);
      FilterSpec(Replayable, s);
      var r := CallList(s[0], uid) + rest;
      assert Replayable(s[0]) ==> Filter(Replayable, s) == [s[0]] + Filter(Replayable, s[1..]);
      assert !Replayable(s[0]) ==> Filter(Replayable, s) == Filter(Replayable, s[1..]);
      assert Replayable(s[0]) ==> forall i | 1 <= i < |r| :: r[i] == rest[i - 1];
      r
  }

  /** The requests of two stretches of the queue are those of the first, then those of the second. */
  lemma {:induction false} CallsOfAppend(a: seq<Change>, b: seq<Change>, uid: string)
    ensures CallsOf(a + b, uid) == CallsOf(a, uid) + CallsOf(b, uid)
  {
    if a == [] {
      assert a + b == b;
    } else {
      var ab := a + b;
      assert ab[0] == a[0];
      assert ab[1..] == a[1..] + b;
      CallsOfAppend(a[1..], b, uid);
      var head := CallList(a[0], uid);
      calc {
        CallsOf(ab, uid);
        head + CallsOf(a[1..] + b, uid);
        head + (CallsOf(a[1..], uid) + CallsOf(b, uid));
        { AppendAssoc(head, CallsOf(a[1..], uid), CallsOf(b, uid)); }
        (head + CallsOf(a[1..], uid)) + CallsOf(b, uid);
      }
    }
  }

  /** The rendered list after one entry's fulfilment: a created add rebinds 'local_' + timestamp. */
  function RebindStep(items: seq<Item>, c: Change, reply: Reply): (r: seq<Item>)
    ensures |r| == |items| && forall i | 0 <= i < |items| :: r[i].completed == items[i].completed
    ensures forall i | 0 <= i < |items| && r[i] != items[i] ::
      c.Add? && reply.Ok? && items[i].id == LocalId(c.timestamp) && r[i].id == reply.docId
  {
    if c.Add? && reply.Ok? then Rebind(items, LocalId(c.timestamp), reply.docId) else items
  }

  /** The rendered list after every fulfilment of a drain, taken in snapshot order. */
  function RebindAll(items: seq<Item>, s: seq<Change>, replies: seq<Reply>): (r: seq<Item>)
    requires |replies| == |s|
    ensures |r| == |items| && forall i | 0 <= i < |items| :: r[i].completed == items[i].completed
    decreases |s|
  {
    if s == [] then items else RebindAll(RebindStep(items, s[0], replies[0]), s[1..], replies[1..])
  }

  /** With no created add there is nothing to rebind. */
  lemma {:induction false} RebindAllWithoutCreatedAdd(items: seq<Item>, s: seq<Change>, replies: seq<Reply>)
    requires |replies| == |s|
    requires forall i | 0 <= i < |s| :: !(s[i].Add? && replies[i].Ok?)
    ensures RebindAll(items, s, replies) == items
    decreases |s|
  {
    if s != [] {
      assert forall i | 1 <= i < |s| :: s[i] == s[1..][i - 1] && replies[i] == replies[1..][i - 1];
      RebindAllWithoutCreatedAdd(items, s[1..], replies[1..]);
    }
  }

  /** Rebinding never changes the statistics of the rendered list. */
  lemma {:induction false} RebindAllKeepsStats(items: seq<Item>, s: seq<Change>, replies: seq<Reply>)
    requires |replies| == |s|
    ensures TaskStats(RebindAll(items, s, replies)) == TaskStats(items)
    decreases |s|
  {
    if s != [] {
      var next := RebindStep(items, s[0], replies[0]);
      if s[0].Add? && replies[0].Ok? {
        StatsAfterRebind(items, LocalId(s[0].timestamp), replies[0].docId);
      }
      RebindAllKeepsStats(next, s[1..], replies[1..]);
    }
  }

  /** A drain removes every update or delete of a local task: none survives. */
  lemma {:induction false} DrainDropsLocalEdits(s: seq<Change>, replies: seq<Reply>)
    requires |replies| == |s|
    ensures forall c | c in Survivors(s, SettleAll(s, replies)) :: !IsLocalEdit(c)
  {
    SurvivorsMembers(s, SettleAll(s, replies));
  }

  /** A drain never removes an entry of unknown type. */
  lemma {:induction false} DrainKeepsUnknown(s: seq<Change>, replies: seq<Reply>)
    requires |replies| == |s|
    ensures Count(IsUnknown, Survivors(s, SettleAll(s, replies))) == Count(IsUnknown, s)
  {
    if s != [] {
      SettleAllTail(s, replies);
      DrainKeepsUnknown(s[1..], replies[1..]);
      var rest := Survivors(s[1..], SettleAll(s[1..], replies[1..]));
      if Retained(Dispatch(s[0], replies[0])) {
        assert ([s[0]] + rest)[1..] == rest;
      }
    }
  }

  /**
   * The committed queue is shorter than the snapshot, and the task list is reloaded, exactly
   * when some entry was sent and accepted or was an update or delete of a local task.
   */
  lemma DrainShrinksIff(s: seq<Change>, replies: seq<Reply>)
    requires |replies| == |s|
    ensures |Survivors(s, SettleAll(s, replies))| < |s|
        <==> exists i | 0 <= i < |s| :: IsLocalEdit(s[i]) || (Replayable(s[i]) && replies[i].Ok?)
  {
    var rs := SettleAll(s, replies);
    assert forall i | 0 <= i < |s| :: !Retained(rs[i]) <==> IsLocalEdit(s[i]) || (Replayable(s[i]) && replies[i].Ok?);
  }

  /** Entries that are all sent again and all fail stay where they are. */
  lemma FailedRetryKeepsQueue(q: seq<Change>)
    requires forall c | c in q :: !IsLocalEdit(c)
    ensures Survivors(q, SettleAll(q, seq(|q|, _ => Failed))) == q
  {
    var fails := seq(|q|, _ => Failed);
    var rs := SettleAll(q, fails);
    forall i | 0 <= i < |q|
      ensures Retained(rs[i])
    {
      assert q[i] in q && fails[i] == Failed;
      FailureIsRetained(q[i]);
    }
    AllRetainedSurvive(q, rs);
  }

  /** A failed request of an entry that is not a local edit leaves the entry in the queue. */
  lemma FailureIsRetained(c: Change)
    requires !IsLocalEdit(c)
    ensures Retained(Dispatch(c, Failed))
  {
  }

  /** When every result is retained, the commit is the snapshot itself. */
  lemma AllRetainedSurvive(s: seq<Change>, rs: seq<Settled>)
    requires |rs| == |s| && forall i | 0 <= i < |s| :: Retained(rs[i])
    ensures Survivors(s, rs) == s
  {
    var r := Survivors(s, rs);
    forall i | 0 <= i < |s|
      ensures r[i] == s[i]
    {
      CountAll(Retained, rs[..i]);
    }
  }

  /** After one drain, a second drain whose requests all fail commits the same queue again. */
  lemma DrainThenFailedRetry(s: seq<Change>, replies: seq<Reply>)
    requires |replies| == |s|
    ensures var q := Survivors(s, SettleAll(s, replies));
      Survivors(q, SettleAll(q, seq(|q|, _ => Failed))) == q
  {
    DrainDropsLocalEdits(s, replies);
    FailedRetryKeepsQueue(Survivors(s, SettleAll(s, replies)));
  }

  /**
   * The filter deleteTask applies to the queue for a local id: it drops exactly the adds whose
   * timestamp equals the number after the prefix, and keeps every other entry in order, one
   * for one.
   */
  function Purge(queue: seq<Change>, id: string): (r: seq<Change>)
    requires IsLocalId(id)
    ensures IsSubsequence(r, queue)
    ensures forall c :: c in r <==> c in queue && !(c.Add? && LocalIdStamp(id) == Some(c.timestamp as int))
    ensures |r| == Count((c: Change) => !(c.Add? && LocalIdStamp(id) == Some(c.timestamp as int)), queue)
  {
    var stamp := LocalIdStamp(id);
    var keep := (c: Change) => !(c.Add? && stamp == Some(c.timestamp as int));
    FilterSpec(keep, queue);
    Filter(keep, queue)
  }

  /**
   * For the add queued by an offline add whose rendered id came from clock reading t1 and
   * whose timestamp from reading t2, deleting that task while signed in drops the add exactly
   * when the two readings are equal; the rest of the queue is filtered as before.
   */
  lemma PurgeOfflineAdd(q: seq<Change>, task: NewTask, t1: nat, t2: nat)
    ensures Purge(q + [Add(task, t2)], LocalId(t1))
        == Purge(q, LocalId(t1)) + (if t1 == t2 then [] else [Add(task, t2)])
  {
    var stamp := LocalIdStamp(LocalId(t1));
    LocalIdStampRoundTrip(t1);
    var keep := (c: Change) => !(c.Add? && stamp == Some(c.timestamp as int));
    FilterAppend(keep, q, [Add(task, t2)]);
    assert [Add(task, t2)][1..] == [];
  }

  /**
   * The offline scenario: one add queued with the clock reading of its rendered id; a drain in
   * which the create succeeds empties the queue and rebinds the item to the remote id.
   */
  lemma OfflineAddThenDrain(task: NewTask, now: nat, docId: string, before: seq<Item>)
    requires LocalId(now) !in ItemIds(before)
    ensures var s := [Add(task, now)];
      Survivors(s, SettleAll(s, [Ok(docId)])) == []
      && RebindAll(before + [Item(LocalId(now), false)], s, [Ok(docId)]) == before + [Item(docId, false)]
  {
    var items := before + [Item(LocalId(now), false)];
    assert ItemIds(items) == ItemIds(before) + [LocalId(now)];
    var k := FirstIndex(ItemIds(items), LocalId(now));
    assert k == |before|;
    RebindFirstMatch(items, LocalId(now), docId);
    assert items[k := Item(docId, false)] == before + [Item(docId, false)];
  }

  /**
   * The same scenario when the id's reading t1 and the queued timestamp t2 differ: the create
   * still succeeds and leaves the queue, but no item is rebound, so the item keeps its local id.
   */
  lemma OfflineAddThenDrainMismatched(task: NewTask, t1: nat, t2: nat, docId: string, before: seq<Item>)
    requires t1 != t2 && LocalId(t2) !in ItemIds(before)
    ensures var s := [Add(task, t2)];
      var items := before + [Item(LocalId(t1), false)];
      Survivors(s, SettleAll(s, [Ok(docId)])) == [] && RebindAll(items, s, [Ok(docId)]) == items
  {
    var items := before + [Item(LocalId(t1), false)];
    LocalIdInjective(t1, t2);
    assert ItemIds(items) == ItemIds(before) + [LocalId(t1)];
    assert LocalId(t2) !in ItemIds(items);
    RebindFirstMatch(items, LocalId(t2), docId);
  }
}

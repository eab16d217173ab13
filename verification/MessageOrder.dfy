/**
 Message timestamps. Every writer transaction takes its room's advisory lock, then, in a
 separate statement, reads the room's latest message and the clock, and keeps the lock until
 it commits or aborts. Event cursors come from one shared sequence that never steps back.

 Writers interleave freely, abort at will, and the clock may show anything at any time.
 */
module MessageOrder {
  import opened Common

  type Room = nat
  type TxId = nat
  type Time = int

  /** Hashing may map several rooms to one advisory lock. */
  type LockKey = int

  datatype Message = Message(room: Room, createdAt: Time, cursor: nat)

  /**
   `pending` is an allocated timestamp not yet used, `draft` an inserted message whose event is
   not yet recorded, `written` the messages complete with their events, in insertion order.
   */
  datatype Tx = Tx(
    locks: set<LockKey>, pending: Option<(Room, Time)>, draft: Option<(Room, Time)>, written: seq<Message>)

  /** `log` holds the committed messages in commit order. */
  datatype State = State(log: seq<Message>, txs: map<TxId, Tx>, nextCursor: nat)

  datatype Step =
    | Begin(tx: TxId)
    | Lock(tx: TxId, room: Room)
    | Allocate(tx: TxId, room: Room, clock: Time)
    | Skip(tx: TxId)
    | Insert(tx: TxId)
    | RecordEvent(tx: TxId)
    | Commit(tx: TxId)
    | Abort(tx: TxId)

  // ---------------------------------------------------------------------------------------
  // The allocation statement
  // ---------------------------------------------------------------------------------------

  function Max(a: Time, b: Time): Time {
    if a >= b then a else b
  }

  /** The largest `createdAt` among the room's messages. */
  function Latest(visible: seq<Message>, room: Room): (r: Option<Time>)
    ensures r.Some? ==> exists i :: 0 <= i < |visible| && visible[i].room == room && visible[i].createdAt == r.value
    ensures forall i :: 0 <= i < |visible| && visible[i].room == room ==> r.Some? && visible[i].createdAt <= r.value
  {
    if visible == [] then None
    else
      var init, last := visible[..|visible| - 1], visible[|visible| - 1];
      var before := Latest(init, room);
      if last.room != room then before
      else if before.None? then Some(last.createdAt)
      else Some(Max(before.value, last.createdAt))
  }

  /** `GREATEST(clock, latest + 1)`, where a missing latest row is ignored. */
  function NextTimestamp(visible: seq<Message>, room: Room, clock: Time): (ts: Time)
    ensures ts >= clock
    ensures forall i :: 0 <= i < |visible| && visible[i].room == room ==> visible[i].createdAt < ts
    ensures ts == clock || exists i :: 0 <= i < |visible| && visible[i].room == room && ts == visible[i].createdAt + 1
  {
    match Latest(visible, room)
    case None => clock
    case Some(latest) => Max(clock, latest + 1)
  }

  // ---------------------------------------------------------------------------------------
  // Interleaved writers
  // ---------------------------------------------------------------------------------------

  predicate Enabled(key: Room -> LockKey, s: State, step: Step) {
    if step.Begin? then step.tx !in s.txs
    else
      step.tx in s.txs &&
      var tx := s.txs[step.tx];
      match step
      case Lock(t, room) => forall u :: u in s.txs && u != t ==> key(room) !in s.txs[u].locks
      case Allocate(_, room, _) => key(room) in tx.locks && tx.pending.None? && tx.draft.None?
      case Skip(_) => tx.pending.Some?
      case Insert(_) => tx.pending.Some? && tx.draft.None?
      case RecordEvent(_) => tx.draft.Some?
      case Commit(_) => tx.draft.None?
      case _ => true
  }

  function Apply(key: Room -> LockKey, s: State, step: Step): State
    requires Enabled(key, s, step)
  {
    if step.Begin? then s.(txs := s.txs[step.tx := Tx({}, None, None, [])])
    else
      var tx := s.txs[step.tx];
      match step
      case Lock(t, room) => s.(txs := s.txs[t := tx.(locks := tx.locks + {key(room)})])
      case Allocate(t, room, clock) =>
        // a fresh READ COMMITTED snapshot: everything committed by now, and the own writes
        s.(txs := s.txs[t := tx.(pending := Some((room, NextTimestamp(s.log + tx.written, room, clock))))])
      case Skip(t) => s.(txs := s.txs[t := tx.(pending := None)])
      case Insert(t) => s.(txs := s.txs[t := tx.(pending := None, draft := tx.pending)])
      case RecordEvent(t) =>
        var message := Message(tx.draft.value.0, tx.draft.value.1, s.nextCursor);
        s.(txs := s.txs[t := tx.(draft := None, written := tx.written + [message])], nextCursor := s.nextCursor + 1)
      case Commit(t) => s.(log := s.log + tx.written, txs := s.txs - {t})
      case Abort(t) => s.(txs := s.txs - {t})
  }

  ghost predicate Runs(key: Room -> LockKey, s: State, steps: seq<Step>, t: State)
    decreases |steps|
  {
    if steps == [] then s == t
    else Enabled(key, s, steps[0]) && Runs(key, Apply(key, s, steps[0]), steps[1..], t)
  }

  /** Messages of one room are strictly ordered, by time and by event cursor alike. */
  predicate Before(a: Message, b: Message) {
    a.room == b.room ==> a.createdAt < b.createdAt && a.cursor < b.cursor
  }

  ghost predicate Ordered(s: seq<Message>) {
    forall i, j :: 0 <= i < j < |s| ==> Before(s[i], s[j])
  }

  ghost predicate Initial(s: State) {
    s.txs == map[] && Ordered(s.log) && forall i :: 0 <= i < |s.log| ==> s.log[i].cursor < s.nextCursor
  }

  // ---------------------------------------------------------------------------------------
  // What every step keeps
  // ---------------------------------------------------------------------------------------

  /** A timestamp in hand is later than everything its room can show. */
  ghost predicate SlotOk(key: Room -> LockKey, locks: set<LockKey>, seen: seq<Message>, slot: Option<(Room, Time)>) {
    slot.Some? ==>
      && key(slot.value.0) in locks
      && forall i :: 0 <= i < |seen| && seen[i].room == slot.value.0 ==> seen[i].createdAt < slot.value.1
  }

  ghost predicate TxOk(key: Room -> LockKey, log: seq<Message>, nextCursor: nat, tx: Tx) {
    && Ordered(log + tx.written)
    && (forall i :: 0 <= i < |tx.written| ==> key(tx.written[i].room) in tx.locks && tx.written[i].cursor < nextCursor)
    && SlotOk(key, tx.locks, log + tx.written, tx.pending)
    && SlotOk(key, tx.locks, log + tx.written, tx.draft)
    && (tx.pending.None? || tx.draft.None?)
  }

  ghost predicate Inv(key: Room -> LockKey, s: State) {
    && Ordered(s.log)
    && (forall i :: 0 <= i < |s.log| ==> s.log[i].cursor < s.nextCursor)
    && (forall t, u :: t in s.txs && u in s.txs && t != u ==> s.txs[t].locks !! s.txs[u].locks)
    && (forall t :: t in s.txs ==> TxOk(key, s.log, s.nextCursor, s.txs[t]))
  }

  lemma OrderedAppend(s: seq<Message>, m: Message)
    requires Ordered(s) && forall i :: 0 <= i < |s| ==> Before(s[i], m)
    ensures Ordered(s + [m])
  {
  }

  lemma RecordEventKeepsTx(key: Room -> LockKey, log: seq<Message>, nextCursor: nat, tx: Tx)
    requires TxOk(key, log, nextCursor, tx) && tx.draft.Some?
    requires forall i :: 0 <= i < |log| ==> log[i].cursor < nextCursor
    ensures var m := Message(tx.draft.value.0, tx.draft.value.1, nextCursor);
      TxOk(key, log, nextCursor + 1, tx.(draft := None, written := tx.written + [m]))
  {
    var m := Message(tx.draft.value.0, tx.draft.value.1, nextCursor);
    var seen := log + tx.written;
    forall i | 0 <= i < |seen| ensures Before(seen[i], m) {
      assert seen[i].cursor < nextCursor by {
        assert i >= |log| ==> seen[i] == tx.written[i - |log|];
      }
    }
    OrderedAppend(seen, m);
    assert log + (tx.written + [m]) == seen + [m];
  }

  /** Another writer's commit cannot disturb a transaction: they hold different locks. */
  lemma CommitKeepsOthers(key: Room -> LockKey, log: seq<Message>, nextCursor: nat, tx: Tx, other: Tx)
    requires TxOk(key, log, nextCursor, tx) && TxOk(key, log, nextCursor, other) && tx.locks !! other.locks
    ensures TxOk(key, log + tx.written, nextCursor, other)
  {
    var l, w, o := |log|, tx.written, other.written;
    var all := log + w + o;
    forall i, j | 0 <= i < j < |all| ensures Before(all[i], all[j]) {
      if j < l + |w| {
        assert all[i] == (log + w)[i] && all[j] == (log + w)[j];
      } else if i < l {
        assert all[i] == (log + o)[i] && all[j] == (log + o)[j - |w|];
      } else if i < l + |w| {
        assert all[i] == w[i - l] && all[j] == o[j - l - |w|];
      } else {
        assert all[i] == (log + o)[i - |w|] && all[j] == (log + o)[j - |w|];
      }
    }
    SlotSurvivesCommit(key, log, tx, other, other.pending);
    SlotSurvivesCommit(key, log, tx, other, other.draft);
  }

  lemma SlotSurvivesCommit(key: Room -> LockKey, log: seq<Message>, tx: Tx, other: Tx, slot: Option<(Room, Time)>)
    requires SlotOk(key, other.locks, log + other.written, slot) && tx.locks !! other.locks
    requires forall i :: 0 <= i < |tx.written| ==> key(tx.written[i].room) in tx.locks
    ensures SlotOk(key, other.locks, log + tx.written + other.written, slot)
  {
    if slot.Some? {
      var before, after := log + other.written, log + tx.written + other.written;
      forall i | 0 <= i < |after|
        ensures after[i].room == slot.value.0 ==> after[i].createdAt < slot.value.1
      {
        if |log| <= i < |log| + |tx.written| {
          assert after[i] == tx.written[i - |log|];
        } else {
          assert after[i] == before[if i < |log| then i else i - |tx.written|];
        }
      }
    }
  }

  lemma StepKeepsInv(key: Room -> LockKey, s: State, step: Step)
    requires Inv(key, s) && Enabled(key, s, step)
    ensures Inv(key, Apply(key, s, step))
  {
    var after := Apply(key, s, step);
    if step.RecordEvent? {
      RecordEventKeepsTx(key, s.log, s.nextCursor, s.txs[step.tx]);
    } else if step.Begin? {
      assert s.log + [] == s.log;
    }
    forall t | t in after.txs ensures TxOk(key, after.log, after.nextCursor, after.txs[t]) {
      if t != step.tx {
        assert TxOk(key, s.log, s.nextCursor, s.txs[t]);
        if step.Commit? {
          CommitKeepsOthers(key, s.log, s.nextCursor, s.txs[step.tx], s.txs[t]);
        }
      }
    }
    if step.Commit? {
      var w := s.txs[step.tx].written;
      forall i | 0 <= i < |after.log| ensures after.log[i].cursor < after.nextCursor {
        assert i >= |s.log| ==> after.log[i] == w[i - |s.log|];
      }
    }
  }

  lemma {:induction false} RunKeepsInv(key: Room -> LockKey, s: State, steps: seq<Step>, t: State)
    requires Inv(key, s) && Runs(key, s, steps, t)
    ensures Inv(key, t)
    decreases |steps|
  {
    if steps != [] {
      StepKeepsInv(key, s, steps[0]);
      RunKeepsInv(key, Apply(key, s, steps[0]), steps[1..], t);
    }
  }

  /**
   In every interleaving, with every clock, the committed messages of a room have strictly
   increasing `createdAt` and strictly increasing event cursors in commit order, so the
   (created_at, id) history has no ties and is the commit order.
   */
  lemma CommittedHistoryIsOrdered(key: Room -> LockKey, s: State, steps: seq<Step>, t: State)
    requires Initial(s) && Runs(key, s, steps, t)
    ensures Ordered(t.log)
  {
    RunKeepsInv(key, s, steps, t);
  }

  lemma {:induction false} LogOnlyGrows(key: Room -> LockKey, s: State, steps: seq<Step>, t: State)
    requires Runs(key, s, steps, t)
    ensures s.log <= t.log
    decreases |steps|
  {
    if steps != [] {
      LogOnlyGrows(key, Apply(key, s, steps[0]), steps[1..], t);
    }
  }

  /** What a reader has seen of a room stays put, and whatever is committed later comes after it. */
  lemma NothingAppearsBehindAReader(
      key: Room -> LockKey, i: State, before: seq<Step>, s: State, steps: seq<Step>, t: State, m: nat, n: nat)
    requires Initial(i) && Runs(key, i, before, s) && Runs(key, s, steps, t)
    requires m < |s.log| <= n < |t.log| && s.log[m].room == t.log[n].room
    ensures t.log[m] == s.log[m]
    ensures s.log[m].createdAt < t.log[n].createdAt && s.log[m].cursor < t.log[n].cursor
  {
    RunKeepsInv(key, i, before, s);
    RunKeepsInv(key, s, steps, t);
    LogOnlyGrows(key, s, steps, t);
    assert Before(t.log[m], t.log[n]);
  }
}

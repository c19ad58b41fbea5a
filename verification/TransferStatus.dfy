/**
 * The transfer status manager: bytes are counted with an atomic outside the mutex, the status they
 * belong to and the notification state are guarded by it.
 *
 * A locked region touches each of the two atomics at most once, and counting and noting progress
 * outside of it commute, so it is one step; counting, noting progress, and queueing a notification
 * after the mutex was released, are steps of their own.
 */
module TransferStatuses {
  /** A status is empty when its start is negative. */
  datatype Status = Status(total: int, start: int, offset: int, list: bool, madeProgress: bool)
  {
    predicate Empty() { start < 0 }
  }

  /** 0: nothing to report; 1: the last change was read; 2: there is something to read. */
  type SendState = x: int | 0 <= x <= 2

  /**
   * `pending` is the atomic counter, `progressed` the atomic flag, `arriving` the number of updates
   * that found the counter zero and have yet to get the mutex, `outbox` the notifications not queued
   * yet. For the history, `updates` adds up what was counted since the last `Init`, and `awake` says
   * that a notification was queued since the owner last read a status without a change.
   */
  datatype State = State(
    status: Status, pending: int, progressed: bool, sendState: SendState, arriving: nat, outbox: nat,
    updates: int, awake: bool)

  datatype Action =
    | Init(total: int, start: int, list: bool)
    | SetMadeProgress
    | Count(bytes: int)
    | Arrive
    | Queue
    | Get
    | Reset

  const INITIAL := State(Status(-1, -1, -1, false, false), 0, false, 0, 0, 0, 0, false)

  predicate Enabled(s: State, a: Action) {
    match a
    case Arrive => s.arriving > 0
    case Queue => s.outbox > 0
    case _ => true
  }

  function Collected(s: State): State {
    s.(status := s.status.(offset := s.status.offset + s.pending, madeProgress := s.progressed), pending := 0)
  }

  function Arrived(s: State): State
    requires s.arriving > 0
  {
    var t := s.(arriving := s.arriving - 1);
    if s.status.Empty() then t
    else if s.sendState == 0 then Collected(t).(sendState := 2, outbox := s.outbox + 1)
    else t.(sendState := 2)
  }

  function Next(s: State, a: Action): State
    requires Enabled(s, a)
  {
    match a
    case Init(total, start, list) =>
      var from := if start < 0 then 0 else start;
      s.(status := Status(total, from, from, list, false), pending := 0, progressed := false, updates := 0)
    case SetMadeProgress => s.(progressed := true)
    case Count(bytes) =>
      var t := s.(pending := s.pending + bytes, updates := s.updates + bytes);
      if s.pending == 0 then t.(arriving := s.arriving + 1) else t
    case Arrive => Arrived(s)
    case Queue => s.(outbox := s.outbox - 1, awake := true)
    case Get =>
      if s.status.Empty() then s.(sendState := 0, awake := false)
      else if s.sendState == 2 then Collected(s).(sendState := 1)
      else Collected(s).(sendState := 0, awake := false)
    case Reset => s.(status := s.status.(start := -1), sendState := 0, outbox := s.outbox + 1)
  }

  ghost predicate Inv(s: State) {
    && (!s.status.Empty() ==> s.status.offset + s.pending == s.status.start + s.updates)
    && (!s.status.Empty() && s.pending != 0 && s.sendState != 2 ==> s.arriving > 0)
    && (s.sendState != 0 ==> s.awake || s.outbox > 0)
  }

  lemma StepKeeps(s: State, a: Action)
    requires Inv(s) && Enabled(s, a)
    ensures Inv(Next(s, a))
  {
    if a.Arrive? {
      assert Inv(Arrived(s));
    }
  }

  predicate Possible(s: State, run: seq<Action>)
    decreases |run|
  {
    run != [] ==> Enabled(s, run[0]) && Possible(Next(s, run[0]), run[1..])
  }

  function Run(s: State, run: seq<Action>): State
    requires Possible(s, run)
    decreases |run|
  {
    if run == [] then s else Run(Next(s, run[0]), run[1..])
  }

  lemma {:induction false} RunKeeps(s: State, run: seq<Action>)
    requires Inv(s) && Possible(s, run)
    ensures Inv(Run(s, run))
    decreases |run|
  {
    if run != [] {
      StepKeeps(s, run[0]);
      RunKeeps(Next(s, run[0]), run[1..]);
    }
  }

  /** In every interleaving, whoever reads the status sees all bytes counted since `Init`, and
      whether progress was noted since then. */
  lemma EveryByteIsReported(run: seq<Action>)
    requires Possible(INITIAL, run)
    ensures var s := Run(INITIAL, run);
            !s.status.Empty() ==>
              && Next(s, Get).status.offset == s.status.start + Counted(run)
              && Next(s, Get).status.madeProgress == Progressed(run)
              && Next(s, Get).pending == 0
  {
    RunKeeps(INITIAL, run);
    UpdatesAreCounted(run);
  }

  /** In every interleaving, while there is progress to report somebody is on the way to report it:
      an update that has yet to arrive, a notification not queued yet, or the owner, who has been
      notified and has not yet read a status without a change. */
  lemma ProgressIsAnnounced(run: seq<Action>)
    requires Possible(INITIAL, run)
    ensures var s := Run(INITIAL, run);
            !s.status.Empty() && s.pending != 0 ==> s.arriving > 0 || s.outbox > 0 || s.awake
  {
    RunKeeps(INITIAL, run);
  }

  /** The updates counted since the last `Init`, read off the run itself. */
  function Counted(run: seq<Action>): int {
    if run == [] then 0
    else
      var last := run[|run| - 1];
      if last.Init? then 0 else Counted(run[..|run| - 1]) + if last.Count? then last.bytes else 0
  }

  /** Whether progress was noted since the last `Init`. */
  predicate Progressed(run: seq<Action>) {
    run != [] &&
    var last := run[|run| - 1];
    !last.Init? && (last.SetMadeProgress? || Progressed(run[..|run| - 1]))
  }

  lemma {:induction false} RunLast(s: State, run: seq<Action>, a: Action)
    requires Possible(s, run + [a])
    ensures Possible(s, run) && Enabled(Run(s, run), a) && Run(s, run + [a]) == Next(Run(s, run), a)
    decreases |run|
  {
    if run == [] {
      assert [] + [a] == [a] && [a][1..] == [];
    } else {
      assert (run + [a])[1..] == run[1..] + [a];
      RunLast(Next(s, run[0]), run[1..], a);
    }
  }

  lemma {:induction false} UpdatesAreCounted(run: seq<Action>)
    requires Possible(INITIAL, run)
    ensures Run(INITIAL, run).updates == Counted(run) && Run(INITIAL, run).progressed == Progressed(run)
    decreases |run|
  {
    if run != [] {
      var front, last := run[..|run| - 1], run[|run| - 1];
      assert run == front + [last];
      RunLast(INITIAL, front, last);
      UpdatesAreCounted(front);
      if last.Arrive? { assert Run(INITIAL, run) == Arrived(Run(INITIAL, front)); }
    }
  }

  /** One thread's view of the manager: each method is its steps without another thread's. */
  class TransferStatusManager {
    var status: Status
    var currentOffset: int
    var madeProgress: bool
    var sendState: SendState
    var notifications: nat

    ghost predicate Shows(s: State)
      reads this
    {
      && s.status == status && s.pending == currentOffset && s.progressed == madeProgress
      && s.sendState == sendState
    }

    constructor ()
      ensures Shows(INITIAL) && notifications == 0
    {
      status := Status(-1, -1, -1, false, false);
      currentOffset, madeProgress, sendState, notifications := 0, false, 0, 0;
    }

    method Init(total: int, start: int, list: bool, ghost s: State)
      requires Shows(s)
      modifies `status, `currentOffset, `madeProgress
      ensures Shows(Next(s, Action.Init(total, start, list)))
    {
      var from := start;
      if from < 0 {
        from := 0;
      }
      status := Status(total, from, from, list, false);
      currentOffset := 0;
      madeProgress := false;
    }

    method SetMadeProgress(ghost s: State)
      requires Shows(s)
      modifies `madeProgress
      ensures Shows(Next(s, Action.SetMadeProgress))
    {
      madeProgress := true;
    }

    method Update(bytes: int, ghost s: State)
      requires Shows(s)
      modifies this
      ensures var counted := Next(s, Count(bytes));
              var arrived := if counted.arriving > s.arriving then Next(counted, Arrive) else counted;
              Shows(arrived) && notifications == old(notifications) + arrived.outbox - s.outbox
    {
      var oldOffset := currentOffset;
      currentOffset := currentOffset + bytes;
      if oldOffset == 0 {
        if status.Empty() {
          return;
        }
        var notify := false;
        if sendState == 0 {
          status := status.(offset := status.offset + currentOffset, madeProgress := madeProgress);
          currentOffset := 0;
          notify := true;
        }
        sendState := 2;
        if notify {
          notifications := notifications + 1;
        }
      }
    }

    method Get(ghost s: State) returns (read: Status, changed: bool)
      requires Shows(s)
      modifies `status, `currentOffset, `sendState
      ensures Shows(Next(s, Action.Get)) && read == status
      ensures changed == (!old(status).Empty() && old(sendState) == 2)
    {
      if status.Empty() {
        changed := false;
        sendState := 0;
      } else {
        status := status.(offset := status.offset + currentOffset, madeProgress := madeProgress);
        currentOffset := 0;
        if sendState == 2 {
          changed := true;
          sendState := 1;
        } else {
          changed := false;
          sendState := 0;
        }
      }
      read := status;
    }

    method Reset(ghost s: State)
      requires Shows(s)
      modifies `status, `sendState, `notifications
      ensures Shows(Next(s, Action.Reset)) && notifications == old(notifications) + 1
    {
      status := status.(start := -1);
      sendState := 0;
      notifications := notifications + 1;
    }
  }
}

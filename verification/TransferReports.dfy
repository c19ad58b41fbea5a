/**
 * What the owner of the transfer status manager is told, read off the run itself: when there is a
 * status, which one, when a read reports a change, and which notifications are sent.
 */
module TransferReports {
  import opened TransferStatuses

  function Front(run: seq<Action>): seq<Action>
    requires run != []
  {
    run[..|run| - 1]
  }

  /** There is a status: `Init` was called since the last `Reset`. */
  predicate Active(run: seq<Action>) {
    run != [] && var last := run[|run| - 1]; last.Init? || (!last.Reset? && Active(Front(run)))
  }

  /** An update of a status arrived that was neither read since, nor reset. */
  predicate Unread(run: seq<Action>) {
    run != [] &&
    match run[|run| - 1]
    case Arrive => Active(Front(run)) || Unread(Front(run))
    case Get => false
    case Reset => false
    case _ => Unread(Front(run))
  }

  /** Since the last arrival of an update the owner read a status without a change, or reset it. */
  predicate Calm(run: seq<Action>) {
    run == [] ||
    match run[|run| - 1]
    case Arrive => !Active(Front(run)) && Calm(Front(run))
    case Get => !Unread(Front(run))
    case Reset => true
    case _ => Calm(Front(run))
  }

  /** What the last `Init` was given. */
  function Begun(run: seq<Action>): (int, int, bool) {
    if run == [] then (-1, -1, false)
    else
      match run[|run| - 1]
      case Init(total, start, list) => (total, if start < 0 then 0 else start, list)
      case _ => Begun(Front(run))
  }

  /** Each reset makes a notification, and so does the first arrival of an update in a calm. */
  function Announcements(run: seq<Action>): nat {
    if run == [] then 0
    else
      Announcements(Front(run)) +
      match run[|run| - 1]
      case Arrive => if Active(Front(run)) && Calm(Front(run)) then 1 else 0
      case Reset => 1
      case _ => 0
  }

  function Queued(run: seq<Action>): nat {
    if run == [] then 0 else Queued(Front(run)) + if run[|run| - 1].Queue? then 1 else 0
  }

  lemma {:induction false} ActiveMeans(run: seq<Action>)
    requires Possible(INITIAL, run)
    ensures !Run(INITIAL, run).status.Empty() <==> Active(run)
    ensures Active(run) ==>
              var status := Run(INITIAL, run).status; (status.total, status.start, status.list) == Begun(run)
    decreases |run|
  {
    if run != [] {
      var front, last := Front(run), run[|run| - 1];
      assert run == front + [last];
      RunLast(INITIAL, front, last);
      ActiveMeans(front);
    }
  }

  lemma {:induction false} InactiveIsRead(run: seq<Action>)
    ensures Unread(run) ==> Active(run) && !Calm(run)
    decreases |run|
  {
    if run != [] {
      InactiveIsRead(Front(run));
    }
  }

  /** A read reports a change exactly if one is unread, and the manager is idle exactly in a calm. */
  lemma {:induction false} ReportsMean(run: seq<Action>)
    requires Possible(INITIAL, run)
    ensures var s := Run(INITIAL, run);
            (s.sendState == 2 <==> Unread(run)) && (s.sendState == 0 <==> Calm(run))
    decreases |run|
  {
    if run != [] {
      var front, last := Front(run), run[|run| - 1];
      assert run == front + [last];
      RunLast(INITIAL, front, last);
      ReportsMean(front);
      ActiveMeans(front);
      InactiveIsRead(front);
    }
  }

  /** In every interleaving: the status is the one begun last, and a read reports a change exactly if
      one is unread. Just as many notifications were sent, or are about to be, as there were resets and
      first arrivals in a calm. */
  lemma {:induction false} OwnerIsToldExactly(run: seq<Action>)
    requires Possible(INITIAL, run)
    ensures var s := Run(INITIAL, run);
            && (s.status.start >= 0 <==> Active(run))
            && (Active(run) ==> (s.status.total, s.status.start, s.status.list) == Begun(run))
            && (s.sendState == 2 <==> Unread(run))
            && s.outbox + Queued(run) == Announcements(run)
    decreases |run|
  {
    ActiveMeans(run);
    ReportsMean(run);
    if run != [] {
      var front, last := Front(run), run[|run| - 1];
      assert run == front + [last];
      RunLast(INITIAL, front, last);
      OwnerIsToldExactly(front);
      ActiveMeans(front);
      ReportsMean(front);
    }
  }

  /** What is announced in a calm was collected before: the counter starts anew. */
  lemma AnnouncedIsCollected(run: seq<Action>)
    requires Possible(INITIAL, run) && Active(run) && Calm(run) && Run(INITIAL, run).arriving > 0
    ensures var t := Next(Run(INITIAL, run), Arrive);
            t.pending == 0 && t.status.offset == t.status.start + Counted(run)
  {
    RunKeeps(INITIAL, run);
    UpdatesAreCounted(run);
    ActiveMeans(run);
    ReportsMean(run);
  }
}

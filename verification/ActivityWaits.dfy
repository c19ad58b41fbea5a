/** When the activity logger waits and what its notifier is told, read off the run itself. */
module ActivityWaits {
  import opened ActivityLogging

  /** The two amounts that are about to be returned are both zero. */
  predicate NothingExtracted(s: State) {
    Held(s.holder, Sending) == 0 && Held(s.holder, Receiving) == 0
  }

  /** With this step the logger begins to wait: nothing was extracted, or a notifier was set. */
  predicate BeginsToWait(s: State, a: Action) {
    (a.ExtractUnlock? && NothingExtracted(s)) || a.NotifierUnlock?
  }

  /** It began to wait, and no call of `record` that found a zero came through since. */
  predicate Waits(run: seq<Action>)
    requires Possible(INITIAL, run)
  {
    run != [] &&
    var front, last := run[..|run| - 1], run[|run| - 1];
    assert run == front + [last];
    RunLast(INITIAL, front, last);
    BeginsToWait(Run(INITIAL, front), last) || (!last.Arrive? && Waits(front))
  }

  /** The notifier set last is one. */
  predicate HasNotifier(run: seq<Action>) {
    run != [] &&
    match run[|run| - 1]
    case NotifierLock(present) => present
    case _ => HasNotifier(run[..|run| - 1])
  }

  /** A call of `record` came through while the logger waited with a notifier, and no wait began since. */
  predicate Called(run: seq<Action>)
    requires Possible(INITIAL, run)
  {
    run != [] &&
    var front, last := run[..|run| - 1], run[|run| - 1];
    assert run == front + [last];
    RunLast(INITIAL, front, last);
    && !BeginsToWait(Run(INITIAL, front), last)
    && (Called(front) || (last.Arrive? && Waits(front) && HasNotifier(front)))
  }

  /** In every interleaving: the logger waits exactly from when nothing could be extracted, or a notifier
      was set, until something was recorded again; that calls the notifier set last, if it is one. */
  lemma {:induction false} WaitingMeans(run: seq<Action>)
    requires Possible(INITIAL, run)
    ensures var s := Run(INITIAL, run);
            && (s.waiting <==> Waits(run)) && (s.notifier <==> HasNotifier(run)) && (s.rung <==> Called(run))
    decreases |run|
  {
    if run != [] {
      var front, last := run[..|run| - 1], run[|run| - 1];
      assert run == front + [last];
      RunLast(INITIAL, front, last);
      WaitingMeans(front);
    }
  }
}

/**
 * The activity logger: two atomic counters, and a mutex around everything else.
 *
 * Counting happens outside the mutex, so each atomic operation is a step of its own and the steps
 * of any number of threads interleave freely.
 */
module ActivityLogging {
  const MODULUS: int := 0x1_0000_0000_0000_0000

  datatype Direction = Sending | Receiving

  /** What the holder of the mutex has done so far. */
  datatype Holder =
    | Free
    | Extracting
    | ExtractedFirst(first: nat)
    | ExtractedBoth(first: nat, second: nat)
    | Installing
    | ClearedFirst
    | ClearedBoth

  /** `arriving` counts the calls of `record` that found a zero and have yet to get the mutex;
      `rung` says that the notifier was called since the logger last began to wait. */
  datatype State = State(
    sent: nat, received: nat, waiting: bool, notifier: bool, holder: Holder, arriving: nat, rung: bool)

  datatype Action =
    | Record(direction: Direction, amount: nat)
    | Arrive
    | ExtractLock
    | ExtractFirst
    | ExtractSecond
    | ExtractUnlock
    | NotifierLock(present: bool)
    | ClearFirst
    | ClearSecond
    | NotifierUnlock

  const INITIAL := State(0, 0, false, false, Free, 0, false)

  predicate Enabled(s: State, a: Action) {
    match a
    case Record(_, amount) => amount < MODULUS
    case Arrive => s.arriving > 0 && s.holder == Free
    case ExtractLock => s.holder == Free
    case ExtractFirst => s.holder == Extracting
    case ExtractSecond => s.holder.ExtractedFirst?
    case ExtractUnlock => s.holder.ExtractedBoth?
    case NotifierLock(_) => s.holder == Free
    case ClearFirst => s.holder == Installing
    case ClearSecond => s.holder == ClearedFirst
    case NotifierUnlock => s.holder == ClearedBoth
  }

  /** The counter of a direction. */
  function Amount(s: State, d: Direction): nat {
    if d.Sending? then s.sent else s.received
  }

  function Recorded(s: State, d: Direction, amount: nat): State {
    var sum := (Amount(s, d) + amount) % MODULUS;
    var next := if d.Sending? then s.(sent := sum) else s.(received := sum);
    if Amount(s, d) == 0 then next.(arriving := s.arriving + 1) else next
  }

  function Next(s: State, a: Action): State
    requires Enabled(s, a)
  {
    match a
    case Record(d, amount) => Recorded(s, d, amount)
    case Arrive =>
      var next := s.(arriving := s.arriving - 1);
      if s.waiting then next.(waiting := false, rung := s.rung || s.notifier) else next
    case ExtractLock => s.(holder := Extracting)
    case ExtractFirst => s.(sent := 0, holder := ExtractedFirst(s.sent))
    case ExtractSecond => s.(received := 0, holder := ExtractedBoth(s.holder.first, s.received))
    case ExtractUnlock =>
      if s.holder.first == 0 && s.holder.second == 0 then s.(holder := Free, waiting := true, rung := false)
      else s.(holder := Free)
    case NotifierLock(present) => s.(holder := if present then Installing else Free, notifier := present)
    case ClearFirst => s.(sent := 0, holder := ClearedFirst)
    case ClearSecond => s.(received := 0, holder := ClearedBoth)
    case NotifierUnlock => s.(holder := Free, waiting := true, rung := false)
  }

  /** The holder of the mutex has set the counter to zero and may be about to wait. */
  predicate Emptied(h: Holder, d: Direction) {
    match d
    case Sending => h.ExtractedFirst? || h.ExtractedBoth? || h.ClearedFirst? || h.ClearedBoth?
    case Receiving => h.ExtractedBoth? || h.ClearedBoth?
  }

  ghost predicate Announced(s: State, d: Direction) {
    (s.waiting || Emptied(s.holder, d)) && Amount(s, d) != 0 ==> s.arriving > 0
  }

  ghost predicate Inv(s: State) {
    && s.sent < MODULUS && s.received < MODULUS
    && Announced(s, Sending) && Announced(s, Receiving)
    && (s.notifier && !s.waiting && !Installs(s.holder) ==> s.rung)
  }

  predicate Installs(h: Holder) {
    h == Installing || h == ClearedFirst || h == ClearedBoth
  }

  lemma Wraps(before: nat, n: nat)
    requires before < MODULUS && n < MODULUS
    ensures (before + n) % MODULUS == if before + n < MODULUS then before + n else before + n - MODULUS
  {
    assert (before + n) / MODULUS == (if before + n < MODULUS then 0 else 1);
  }

  lemma StepKeeps(s: State, a: Action)
    requires Inv(s) && Enabled(s, a)
    ensures Inv(Next(s, a))
  {
    if a.Record? { Wraps(Amount(s, a.direction), a.amount); }
  }

  predicate Possible(s: State, run: seq<Action>)
    decreases |run|
  {
    run != [] ==> Enabled(s, run[0]) && Possible(Next(s, run[0]), run[1..])
  }

  function Run(s: State, run: seq<Action>): State
    requires Possible(s, run)
    decreases |run|
  {
    if run == [] then s else Run(Next(s, run[0]), run[1..])
  }

  lemma {:induction false} RunKeeps(s: State, run: seq<Action>)
    requires Inv(s) && Possible(s, run)
    ensures Inv(Run(s, run))
    decreases |run|
  {
    if run != [] {
      StepKeeps(s, run[0]);
      RunKeeps(Next(s, run[0]), run[1..]);
    }
  }

  /** In every interleaving: a waiting logger with something counted is about to be told, and one
      with a notifier that is not waiting has called it since it last began to wait. */
  lemma NothingGoesUnnoticed(run: seq<Action>)
    requires Possible(INITIAL, run)
    ensures var s := Run(INITIAL, run);
            && (s.waiting && (s.sent != 0 || s.received != 0) ==> s.arriving > 0)
            && (s.notifier && s.holder == Free && !s.rung && s.arriving == 0 ==>
                  s.waiting && s.sent == 0 && s.received == 0)
  {
    RunKeeps(INITIAL, run);
  }

  // ---------- what was recorded and what was returned ----------

  /** What the holder of the mutex took from a counter and has yet to return. */
  function Held(h: Holder, d: Direction): nat {
    match h
    case ExtractedFirst(first) => if d.Sending? then first else 0
    case ExtractedBoth(first, second) => if d.Sending? then first else second
    case _ => 0
  }

  /** The step of `set_notifier` that sets this counter to zero. */
  predicate Clears(a: Action, d: Direction) {
    if d.Sending? then a.ClearFirst? else a.ClearSecond?
  }

  function RecordedBy(a: Action, d: Direction): nat {
    if a.Record? && a.direction == d then a.amount else 0
  }

  /** The pair that `extract_amounts` returns is the one its thread holds when it lets the mutex go. */
  function ReturnedBy(s: State, a: Action, d: Direction): nat {
    if a.ExtractUnlock? then Held(s.holder, d) else 0
  }

  function OverflowsBy(s: State, a: Action, d: Direction): nat {
    if Amount(s, d) + RecordedBy(a, d) >= MODULUS then 1 else 0
  }

  lemma RecordBalances(s: State, a: Action, d: Direction)
    requires a.Record? && a.amount < MODULUS && Amount(s, a.direction) < MODULUS && Amount(s, d) < MODULUS
    ensures var t := Recorded(s, a.direction, a.amount);
            && Amount(s, d) + RecordedBy(a, d) == Amount(t, d) + OverflowsBy(s, a, d) * MODULUS
            && t.holder == s.holder
  {
    Wraps(Amount(s, a.direction), a.amount);
  }

  /** What each step adds to the sums it takes from the counter, or from what is held. */
  lemma StepBalances(s: State, a: Action, d: Direction)
    requires Inv(s) && Enabled(s, a)
    ensures Clears(a, d) ==> Amount(Next(s, a), d) + Held(Next(s, a).holder, d) == 0
    ensures !Clears(a, d) ==>
              Amount(s, d) + Held(s.holder, d) + RecordedBy(a, d)
              == Amount(Next(s, a), d) + Held(Next(s, a).holder, d) + ReturnedBy(s, a, d)
                  + OverflowsBy(s, a, d) * MODULUS
  {
    if a.Record? { RecordBalances(s, a, d); }
  }

  lemma {:induction false} RunLast(s: State, run: seq<Action>, a: Action)
    requires Possible(s, run + [a])
    ensures Possible(s, run) && Enabled(Run(s, run), a) && Run(s, run + [a]) == Next(Run(s, run), a)
    decreases |run|
  {
    if run == [] {
      assert [] + [a] == [a] && [a][1..] == [];
    } else {
      assert (run + [a])[1..] == run[1..] + [a];
      RunLast(Next(s, run[0]), run[1..], a);
    }
  }

  /** Read off a run for one direction, since `set_notifier` last cleared its counter: the sum of
      the amounts given to `record`, the sum of those returned by `extract_amounts`, and how often
      the counter overflowed. */
  datatype Tally = Tally(recorded: nat, returned: nat, overflows: nat)

  function Tallied(run: seq<Action>, d: Direction): Tally
    requires Possible(INITIAL, run)
    decreases |run|
  {
    if run == [] then Tally(0, 0, 0)
    else
      var front, last := run[..|run| - 1], run[|run| - 1];
      assert run == front + [last];
      RunLast(INITIAL, front, last);
      var s, t := Run(INITIAL, front), Tallied(front, d);
      if Clears(last, d) then Tally(0, 0, 0)
      else Tally(t.recorded + RecordedBy(last, d), t.returned + ReturnedBy(s, last, d),
                 t.overflows + OverflowsBy(s, last, d))
  }

  /** In every interleaving, what was recorded is what was returned, is about to be returned or is
      still counted, short of a full counter for each overflow. */
  lemma {:induction false} NothingIsLost(run: seq<Action>, d: Direction)
    requires Possible(INITIAL, run)
    ensures var s, t := Run(INITIAL, run), Tallied(run, d);
            t.recorded == t.returned + Held(s.holder, d) + Amount(s, d) + t.overflows * MODULUS
    decreases |run|
  {
    if run != [] {
      var front, last := run[..|run| - 1], run[|run| - 1];
      assert run == front + [last];
      RunLast(INITIAL, front, last);
      RunKeeps(INITIAL, front);
      StepBalances(Run(INITIAL, front), last, d);
      NothingIsLost(front, d);
    }
  }

  /** Bytes are lost exactly by an overflow, and none occurs before a full counter is recorded. */
  lemma LostExactlyByOverflow(run: seq<Action>, d: Direction)
    requires Possible(INITIAL, run)
    ensures var s, t := Run(INITIAL, run), Tallied(run, d);
            && (t.recorded == t.returned + Held(s.holder, d) + Amount(s, d) <==> t.overflows == 0)
            && (t.recorded < MODULUS ==> t.overflows == 0)
  {
    NothingIsLost(run, d);
  }

  /** Whoever holds the mutex can always go on, and so can a pending announcement once it is free. */
  lemma NeverStuck(s: State)
    requires Inv(s) && (s.holder != Free || s.arriving > 0)
    ensures exists a: Action :: !a.Record? && Enabled(s, a)
  {
    match s.holder
    case Free => assert Enabled(s, Arrive);
    case Extracting => assert Enabled(s, ExtractFirst);
    case ExtractedFirst(_) => assert Enabled(s, ExtractSecond);
    case ExtractedBoth(_, _) => assert Enabled(s, ExtractUnlock);
    case Installing => assert Enabled(s, ClearFirst);
    case ClearedFirst => assert Enabled(s, ClearSecond);
    case ClearedBoth => assert Enabled(s, NotifierUnlock);
  }

  /** A single thread's view of the logger: each method is its steps without another thread's. */
  class ActivityLogger {
    var sending: nat
    var receiving: nat
    var waiting: bool
    var hasNotifier: bool
    var calls: nat

    ghost predicate Shows(s: State)
      reads this
    {
      && s.sent == sending && s.received == receiving
      && s.waiting == waiting && s.notifier == hasNotifier
    }

    constructor ()
      ensures Shows(INITIAL) && calls == 0
    {
      sending, receiving, waiting, hasNotifier, calls := 0, 0, false, false, 0;
    }

    method FetchAdd(direction: Direction, amount: nat) returns (before: nat)
      modifies `sending, `receiving
      ensures before == old(if direction.Sending? then sending else receiving)
      ensures sending == if direction.Sending? then (before + amount) % MODULUS else old(sending)
      ensures receiving == if direction.Sending? then old(receiving) else (before + amount) % MODULUS
    {
      match direction
      case Sending =>
        before := sending;
        sending := (sending + amount) % MODULUS;
      case Receiving =>
        before := receiving;
        receiving := (receiving + amount) % MODULUS;
    }

    method Record(direction: Direction, amount: nat, ghost s: State)
      requires Shows(s) && Inv(s) && s.holder == Free && amount < MODULUS
      modifies this
      ensures var first := Next(s, Action.Record(direction, amount));
              Shows(if first.arriving > s.arriving then Next(first, Arrive) else first)
      ensures calls == old(calls) + if old(waiting && hasNotifier) && !waiting then 1 else 0
    {
      var before := FetchAdd(direction, amount);
      if before == 0 {
        if waiting {
          waiting := false;
          if hasNotifier {
            calls := calls + 1;
          }
        }
      }
    }

    method ExtractAmounts(ghost s: State) returns (first: nat, second: nat)
      requires Shows(s) && Inv(s) && s.holder == Free
      modifies `sending, `receiving, `waiting
      ensures Possible(s, [ExtractLock, ExtractFirst, ExtractSecond, ExtractUnlock])
      ensures Shows(Run(s, [ExtractLock, ExtractFirst, ExtractSecond, ExtractUnlock]))
      ensures first == old(sending) && second == old(receiving)
    {
      ghost var s1 := Next(s, ExtractLock);
      ghost var s2 := Next(s1, ExtractFirst);
      ghost var s3 := Next(s2, ExtractSecond);
      first := sending;
      sending := 0;
      second := receiving;
      receiving := 0;
      if first == 0 && second == 0 {
        waiting := true;
      }
      FourSteps(s, ExtractLock, ExtractFirst, ExtractSecond, ExtractUnlock);
    }

    method SetNotifier(present: bool, ghost s: State)
      requires Shows(s) && Inv(s) && s.holder == Free
      modifies `sending, `receiving, `waiting, `hasNotifier
      ensures present ==> Possible(s, [NotifierLock(true), ClearFirst, ClearSecond, NotifierUnlock])
      ensures present ==> Shows(Run(s, [NotifierLock(true), ClearFirst, ClearSecond, NotifierUnlock]))
      ensures !present ==> Shows(Next(s, NotifierLock(false)))
    {
      hasNotifier := present;
      if present {
        sending := 0;
        receiving := 0;
        waiting := true;
        FourSteps(s, NotifierLock(true), ClearFirst, ClearSecond, NotifierUnlock);
      }
    }
  }

  lemma Prepend(s: State, a: Action, run: seq<Action>)
    requires Enabled(s, a) && Possible(Next(s, a), run)
    ensures Possible(s, [a] + run)
    ensures Run(s, [a] + run) == Run(Next(s, a), run)
  {
    assert ([a] + run)[1..] == run;
  }

  lemma FourSteps(s: State, a: Action, b: Action, c: Action, d: Action)
    requires Enabled(s, a) && Enabled(Next(s, a), b) && Enabled(Next(Next(s, a), b), c)
    requires Enabled(Next(Next(Next(s, a), b), c), d)
    ensures Possible(s, [a, b, c, d])
    ensures Run(s, [a, b, c, d]) == Next(Next(Next(Next(s, a), b), c), d)
  {
    var s1 := Next(s, a);
    var s2 := Next(s1, b);
    var s3 := Next(s2, c);
    Prepend(s3, d, []);
    Prepend(s2, c, [d] + []);
    Prepend(s1, b, [c] + ([d] + []));
    Prepend(s, a, [b] + ([c] + ([d] + [])));
    assert [a, b, c, d] == [a] + ([b] + ([c] + ([d] + [])));
  }
}

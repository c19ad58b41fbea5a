/** How large the next part of a multi-part upload is to be, and why the parts always fit their quota. */
module ChunkSizes {
  /** Division and remainder of the source language: the quotient is rounded towards zero. */
  function Quotient(a: int, b: int): int
    requires b != 0
  {
    if a >= 0 then a / b else -(-a / b)
  }

  function Remainder(a: int, b: int): int
    requires b != 0
  {
    a - Quotient(a, b) * b
  }

  /** The limits of a whole upload; 0 for the last three means that there is no such limit. */
  datatype Limits = Limits(minChunk: int, multiple: int, maxParts: int, maxChunk: int)

  /** What is known about the previous chunk: its size, and how many milliseconds it took. */
  datatype Report = Report(size: int, milliseconds: int)

  function Max(a: int, b: int): int { if a > b then a else b }

  function Min(a: int, b: int): int { if a < b then a else b }

  /** A chunk that would take thirty seconds at the speed of the last one. */
  function Wanted(last: Report, l: Limits): int {
    if last.milliseconds != 0 && last.size != 0 then
      Max(l.minChunk, Quotient(last.size * 30000, last.milliseconds))
    else l.minChunk
  }

  /** Enough for the parts that are left to hold the rest. */
  function Spread(chunk: int, remaining: int, part: int, l: Limits): int {
    var left := l.maxParts - part;
    if l.maxParts != 0 && chunk * left < remaining then
      if left <= 1 then remaining else Quotient(remaining, left - 1)
    else chunk
  }

  function RoundedUp(chunk: int, multiple: int): int {
    if multiple != 0 && Remainder(chunk, multiple) != 0 then chunk + (multiple - Remainder(chunk, multiple))
    else chunk
  }

  function NextChunk(remaining: int, last: Report, part: int, l: Limits): int {
    if remaining <= 0 then 0
    else
      var chunk := RoundedUp(Spread(Wanted(last, l), remaining, part, l), l.multiple);
      Min(if l.maxChunk != 0 then Min(chunk, l.maxChunk) else chunk, remaining)
  }

  method CalculateNextChunkSize(remaining: int, last: Report, part: int, l: Limits) returns (newChunkSize: int)
    ensures newChunkSize == NextChunk(remaining, last, part, l)
  {
    if remaining <= 0 {
      return 0;
    }
    newChunkSize := l.minChunk;
    if last.milliseconds != 0 && last.size != 0 {
      var size := Quotient(last.size * 30000, last.milliseconds);
      if size > newChunkSize {
        newChunkSize := size;
      }
    }
    assert newChunkSize == Wanted(last, l);
    if l.maxParts != 0 {
      if newChunkSize * (l.maxParts - part) < remaining {
        if l.maxParts - part <= 1 {
          newChunkSize := remaining;
        } else {
          newChunkSize := Quotient(remaining, l.maxParts - part - 1);
        }
      }
    }
    assert newChunkSize == Spread(Wanted(last, l), remaining, part, l);
    if l.multiple != 0 {
      var modulus := Remainder(newChunkSize, l.multiple);
      if modulus != 0 {
        newChunkSize := newChunkSize + (l.multiple - modulus);
      }
    }
    if l.maxChunk != 0 && newChunkSize > l.maxChunk {
      newChunkSize := l.maxChunk;
    }
    if newChunkSize > remaining {
      newChunkSize := remaining;
    }
  }

  // ---------------------------------------------------------------------------------------------
  // One chunk

  predicate Sensible(l: Limits) {
    l.minChunk >= 1 && l.multiple >= 0 && l.maxParts >= 0 && l.maxChunk >= 0
  }

  lemma RoundingUp(chunk: int, multiple: int)
    requires chunk >= 0 && multiple >= 0
    ensures chunk <= RoundedUp(chunk, multiple)
    ensures multiple > 0 ==> RoundedUp(chunk, multiple) % multiple == 0 && RoundedUp(chunk, multiple) < chunk + multiple
  {
    if multiple > 0 {
      var q, m := chunk / multiple, chunk % multiple;
      assert chunk == q * multiple + m;
      assert Quotient(chunk, multiple) == q && Remainder(chunk, multiple) == m;
      if m != 0 {
        assert chunk + (multiple - m) == (q + 1) * multiple;
        MultipleOf(q + 1, multiple);
      } else {
        MultipleOf(q, multiple);
      }
    }
  }

  lemma MultipleOf(q: int, m: int)
    requires m > 0
    ensures (q * m) % m == 0
  {
    var x := q * m;
    var d := q - x / m;
    assert x == m * (x / m) + x % m;
    assert d * m == x % m;
    if d >= 1 {
      Product(1, d, m);
    } else if d <= -1 {
      Product(d, -1, m);
    }
  }

  /** Spreading never makes a chunk smaller, and what it leaves fits into the parts that are left. */
  lemma Spreading(chunk: int, remaining: int, part: int, l: Limits)
    requires chunk >= 1 && remaining >= 1 && l.maxParts > part >= 0
    ensures var s := Spread(chunk, remaining, part, l);
            var left := l.maxParts - part;
            && s >= chunk
            && (remaining <= s * left || (left > 1 && remaining < (s + 1) * (left - 1)))
  {
    var left := l.maxParts - part;
    if chunk * left < remaining && left > 1 {
      var s := remaining / (left - 1);
      assert Spread(chunk, remaining, part, l) == s;
      DivideBetween(remaining, left - 1, s);
      assert chunk * (left - 1) <= chunk * left;
      if s < chunk {
        Product(s + 1, chunk, left - 1);
      }
    }
  }

  lemma DivideBetween(a: int, b: int, q: int)
    requires a >= 0 && b > 0 && q == a / b
    ensures q * b <= a < (q + 1) * b
  {
    assert a == b * q + a % b;
  }

  lemma Product(a: int, b: int, c: int)
    requires a <= b && c >= 0
    ensures a * c <= b * c
  {
  }

  lemma SpreadAtLeast(chunk: int, remaining: int, part: int, l: Limits)
    requires chunk >= 1 && remaining >= 1 && Sensible(l) && part >= 0
    requires l.maxParts != 0 ==> part < l.maxParts
    ensures Spread(chunk, remaining, part, l) >= chunk
  {
    if l.maxParts != 0 {
      Spreading(chunk, remaining, part, l);
    }
  }

  /** Every chunk but the last one keeps to the minimum, the multiple and the maximum. */
  lemma ChunkKeepsLimits(remaining: int, last: Report, part: int, l: Limits)
    requires Sensible(l) && remaining >= 1 && part >= 0 && (l.maxParts != 0 ==> part < l.maxParts)
    ensures var c := NextChunk(remaining, last, part, l);
            && 1 <= c <= remaining
            && (l.maxChunk != 0 ==> c <= l.maxChunk)
            && (c < remaining ==> c >= if l.maxChunk != 0 then Min(l.minChunk, l.maxChunk) else l.minChunk)
            && (c < remaining && l.multiple != 0 && l.maxChunk % l.multiple == 0 ==> c % l.multiple == 0)
  {
    var wanted := Wanted(last, l);
    SpreadAtLeast(wanted, remaining, part, l);
    RoundingUp(Spread(wanted, remaining, part, l), l.multiple);
  }

  /** What is left after a chunk c, of at least the size s that the rest was spread into. */
  lemma LeftoverFits(remaining: int, left: int, s: int, c: int, cap: int)
    requires left >= 1 && 0 <= s <= c && c + 1 <= cap
    requires remaining <= s * left || remaining < (s + 1) * (left - 1)
    ensures remaining - c <= (left - 1) * cap
  {
    if remaining <= s * left {
      Distribute(s, left);
      Product(s, cap, left - 1);
    } else {
      Product(s + 1, cap, left - 1);
    }
    Commute(cap, left - 1);
  }

  lemma Distribute(s: int, left: int)
    ensures s * left == s * (left - 1) + s
  {
  }

  lemma Commute(a: int, b: int)
    ensures a * b == b * a
  {
  }

  /** The size a chunk has unless the maximum or the rest of the data cut it. */
  function Uncut(remaining: int, last: Report, part: int, l: Limits): int {
    RoundedUp(Spread(Wanted(last, l), remaining, part, l), l.multiple)
  }

  lemma ChunkIsUncut(remaining: int, last: Report, part: int, l: Limits)
    requires remaining >= 1 && l.maxChunk > 0
    ensures var c := NextChunk(remaining, last, part, l);
            c == remaining || c == l.maxChunk || (c == Uncut(remaining, last, part, l) && c < l.maxChunk)
  {
  }

  lemma UncutLeftover(remaining: int, last: Report, part: int, l: Limits)
    requires Sensible(l) && remaining >= 1 && 0 <= part < l.maxParts
    requires Uncut(remaining, last, part, l) < l.maxChunk
    ensures remaining - Uncut(remaining, last, part, l) <= (l.maxParts - part - 1) * l.maxChunk
  {
    var s := Spread(Wanted(last, l), remaining, part, l);
    Spreading(Wanted(last, l), remaining, part, l);
    RoundingUp(s, l.multiple);
    LeftoverFits(remaining, l.maxParts - part, s, Uncut(remaining, last, part, l), l.maxChunk);
  }

  /** What a chunk leaves fits into the parts that are left if the rest fitted before. */
  lemma QuotaKept(remaining: int, last: Report, part: int, l: Limits)
    requires Sensible(l) && remaining >= 1 && 0 <= part < l.maxParts && l.maxChunk > 0
    requires remaining <= (l.maxParts - part) * l.maxChunk
    ensures remaining - NextChunk(remaining, last, part, l) <= (l.maxParts - part - 1) * l.maxChunk
  {
    var left, cap := l.maxParts - part, l.maxChunk;
    ChunkIsUncut(remaining, last, part, l);
    Distribute(cap, left);
    Commute(cap, left);
    Commute(cap, left - 1);
    Product(0, left - 1, cap);
    if Uncut(remaining, last, part, l) < cap {
      UncutLeftover(remaining, last, part, l);
    }
  }

  /** The last part takes all that remains, unless the maximum forbids it. */
  lemma LastPart(remaining: int, last: Report, l: Limits)
    requires Sensible(l) && remaining >= 1 && l.maxParts >= 1
    requires l.maxChunk == 0 || remaining <= l.maxChunk
    ensures NextChunk(remaining, last, l.maxParts - 1, l) == remaining
  {
    var s := Spread(Wanted(last, l), remaining, l.maxParts - 1, l);
    Spreading(Wanted(last, l), remaining, l.maxParts - 1, l);
    RoundingUp(s, l.multiple);
  }

  // ---------------------------------------------------------------------------------------------
  // A whole upload

  /** The chunks of an upload: one call for each report, until nothing remains. */
  function Chunks(remaining: int, part: int, reports: seq<Report>, l: Limits): (r: seq<int>)
    ensures |r| <= |reports|
    decreases |reports|
  {
    if remaining <= 0 || reports == [] then []
    else
      var c := NextChunk(remaining, reports[0], part, l);
      [c] + Chunks(remaining - c, part + 1, reports[1..], l)
  }

  function Sum(s: seq<int>): int {
    if s == [] then 0 else s[0] + Sum(s[1..])
  }

  lemma {:induction false} ChunksBounded(remaining: int, part: int, reports: seq<Report>, l: Limits)
    requires Sensible(l) && remaining >= 0 && part >= 0
    requires l.maxParts != 0 ==> part + |reports| <= l.maxParts
    ensures 0 <= Sum(Chunks(remaining, part, reports, l)) <= remaining
    ensures l.maxChunk != 0 ==> Sum(Chunks(remaining, part, reports, l)) <= |reports| * l.maxChunk
    decreases |reports|
  {
    if remaining > 0 && reports != [] {
      var c := NextChunk(remaining, reports[0], part, l);
      ChunkKeepsLimits(remaining, reports[0], part, l);
      ChunksBounded(remaining - c, part + 1, reports[1..], l);
      assert |reports| * l.maxChunk == |reports[1..]| * l.maxChunk + l.maxChunk;
    } else {
      Product(0, |reports|, l.maxChunk);
    }
  }

  lemma {:induction false} QuotaSuffices(remaining: int, part: int, reports: seq<Report>, l: Limits)
    requires Sensible(l) && remaining >= 0 && part >= 0 && l.maxParts != 0 && part + |reports| == l.maxParts
    requires l.maxChunk == 0 || remaining <= |reports| * l.maxChunk
    requires reports == [] ==> remaining == 0
    ensures Sum(Chunks(remaining, part, reports, l)) == remaining
    decreases |reports|
  {
    if remaining > 0 {
      var c := NextChunk(remaining, reports[0], part, l);
      ChunkKeepsLimits(remaining, reports[0], part, l);
      if |reports| == 1 {
        LastPart(remaining, reports[0], l);
      } else if l.maxChunk != 0 {
        QuotaKept(remaining, reports[0], part, l);
      }
      QuotaSuffices(remaining - c, part + 1, reports[1..], l);
    }
  }

  /**
   * Whatever sizes and durations are reported, an upload gets done within its number of parts exactly
   * if there is no maximum size for a part, or the parts can hold the total at that size.
   */
  lemma PartsSufficeExactly(total: int, reports: seq<Report>, l: Limits)
    requires Sensible(l) && total >= 0 && l.maxParts > 0 && |reports| == l.maxParts
    ensures Sum(Chunks(total, 0, reports, l)) == total <==> l.maxChunk == 0 || total <= l.maxParts * l.maxChunk
  {
    ChunksBounded(total, 0, reports, l);
    if l.maxChunk == 0 || total <= l.maxParts * l.maxChunk {
      QuotaSuffices(total, 0, reports, l);
    }
  }

  /** Without a limit to their number the parts end too, each being at least one byte. */
  lemma {:induction false} UnlimitedPartsSuffice(total: int, part: int, reports: seq<Report>, l: Limits)
    requires Sensible(l) && 0 <= total <= |reports| && part >= 0 && l.maxParts == 0
    ensures Sum(Chunks(total, part, reports, l)) == total
    decreases |reports|
  {
    if total > 0 {
      var c := NextChunk(total, reports[0], part, l);
      ChunkKeepsLimits(total, reports[0], part, l);
      UnlimitedPartsSuffice(total - c, part + 1, reports[1..], l);
    }
  }

  // ---------------------------------------------------------------------------------------------
  // The size that the speed, the quota and the multiple ask for

  /** n is the largest size that takes no more than thirty seconds at the speed reported. */
  predicate InThirtySeconds(n: int, last: Report) {
    n * last.milliseconds <= last.size * 30000 < (n + 1) * last.milliseconds
  }

  /** What the report asks for: the larger of the minimum and of what takes thirty seconds. */
  predicate Paced(size: int, last: Report, l: Limits) {
    if last.size > 0 && last.milliseconds > 0 then
      && size >= l.minChunk && last.size * 30000 < (size + 1) * last.milliseconds
      && (size == l.minChunk || InThirtySeconds(size, last))
    else size == l.minChunk
  }

  /** What the quota of parts asks for: as much, unless that size in all parts left does not hold the
      rest; then a share of it among all of these but one, or all of it in the last part. */
  predicate Shared(share: int, size: int, remaining: int, part: int, l: Limits) {
    var left := l.maxParts - part;
    if l.maxParts == 0 || size * left >= remaining then share == size
    else if left == 1 then share == remaining
    else share * (left - 1) <= remaining < (share + 1) * (left - 1)
  }

  /** The next multiple, if there is to be one. */
  predicate Rounded(chunk: int, share: int, multiple: int) {
    if multiple == 0 then chunk == share else chunk % multiple == 0 && share <= chunk < share + multiple
  }

  /** What is asked for before the maximum and the rest cut it off. */
  ghost predicate AskedFor(chunk: int, remaining: int, last: Report, part: int, l: Limits) {
    exists size, share ::
      Paced(size, last, l) && Shared(share, size, remaining, part, l) && Rounded(chunk, share, l.multiple)
  }

  predicate Reported(last: Report) { last.size >= 0 && last.milliseconds >= 0 }

  lemma WantedIsPaced(last: Report, l: Limits)
    requires Sensible(l) && Reported(last)
    ensures Paced(Wanted(last, l), last, l) && Wanted(last, l) >= 1
  {
    if last.size > 0 && last.milliseconds > 0 {
      var n := last.size * 30000 / last.milliseconds;
      DivideBetween(last.size * 30000, last.milliseconds, n);
      Product(n + 1, Max(l.minChunk, n) + 1, last.milliseconds);
    }
  }

  lemma SpreadIsShared(size: int, remaining: int, part: int, l: Limits)
    requires Sensible(l) && size >= 1 && remaining >= 1 && part >= 0 && (l.maxParts != 0 ==> part < l.maxParts)
    ensures Shared(Spread(size, remaining, part, l), size, remaining, part, l)
  {
    var left := l.maxParts - part;
    if l.maxParts != 0 && size * left < remaining && left > 1 {
      DivideBetween(remaining, left - 1, remaining / (left - 1));
    }
  }

  /** c is the smallest of what is asked for, the maximum and the rest. */
  predicate CutOff(c: int, chunk: int, remaining: int, l: Limits) {
    && c <= chunk && c <= remaining && (l.maxChunk != 0 ==> c <= l.maxChunk)
    && (c == chunk || c == remaining || (l.maxChunk != 0 && c == l.maxChunk))
  }

  /** The next chunk is what is asked for, cut off at the maximum and the rest. */
  lemma ChunkIsAskedFor(remaining: int, last: Report, part: int, l: Limits) returns (chunk: int)
    requires Sensible(l) && Reported(last) && remaining >= 1 && part >= 0 && (l.maxParts != 0 ==> part < l.maxParts)
    ensures AskedFor(chunk, remaining, last, part, l)
    ensures CutOff(NextChunk(remaining, last, part, l), chunk, remaining, l)
  {
    var size := Wanted(last, l);
    var share := Spread(size, remaining, part, l);
    chunk := RoundedUp(share, l.multiple);
    WantedIsPaced(last, l);
    SpreadIsShared(size, remaining, part, l);
    SpreadAtLeast(size, remaining, part, l);
    RoundingUp(share, l.multiple);
  }

  /** No two sizes are asked for: the inequalities leave no choice. */
  lemma AskedForOnce(a: int, b: int, remaining: int, last: Report, part: int, l: Limits)
    requires Sensible(l) && Reported(last) && remaining >= 1 && part >= 0 && (l.maxParts != 0 ==> part < l.maxParts)
    requires AskedFor(a, remaining, last, part, l) && AskedFor(b, remaining, last, part, l)
    ensures a == b
  {
    var c, d :| Paced(c, last, l) && Shared(d, c, remaining, part, l) && Rounded(a, d, l.multiple);
    var e, f :| Paced(e, last, l) && Shared(f, e, remaining, part, l) && Rounded(b, f, l.multiple);
    PacedOnce(c, e, last, l);
    SharedOnce(d, f, c, remaining, part, l);
    RoundedOnce(a, b, d, l.multiple);
  }

  lemma Between(a: int, b: int, m: int, x: int)
    requires m > 0 && a * m <= x < (b + 1) * m
    ensures a <= b
  {
    if a > b { Product(b + 1, a, m); }
  }

  lemma PacedOnce(a: int, b: int, last: Report, l: Limits)
    requires Paced(a, last, l) && Paced(b, last, l)
    ensures a == b
  {
    if last.size > 0 && last.milliseconds > 0 {
      if a != l.minChunk { Between(a, b, last.milliseconds, last.size * 30000); }
      if b != l.minChunk { Between(b, a, last.milliseconds, last.size * 30000); }
    }
  }

  lemma SharedOnce(a: int, b: int, size: int, remaining: int, part: int, l: Limits)
    requires Sensible(l) && part >= 0 && (l.maxParts != 0 ==> part < l.maxParts)
    requires Shared(a, size, remaining, part, l) && Shared(b, size, remaining, part, l)
    ensures a == b
  {
    var left := l.maxParts - part;
    if l.maxParts != 0 && size * left < remaining && left > 1 {
      Between(a, b, left - 1, remaining);
      Between(b, a, left - 1, remaining);
    }
  }

  lemma RoundedOnce(a: int, b: int, share: int, multiple: int)
    requires multiple >= 0 && Rounded(a, share, multiple) && Rounded(b, share, multiple)
    ensures a == b
  {
    if multiple > 0 {
      var p, q := a / multiple, b / multiple;
      assert a == multiple * p + a % multiple && b == multiple * q + b % multiple;
      if p < q { Product(p + 1, q, multiple); }
      if q < p { Product(q + 1, p, multiple); }
    }
  }

  // ---------------------------------------------------------------------------------------------
  // What this says of a chunk that nothing cuts off

  predicate Whole(c: int, remaining: int, l: Limits) {
    c < remaining && (l.maxChunk != 0 ==> c < l.maxChunk)
  }

  /** With nothing but a speed to go by, the chunk takes thirty seconds, or is the minimum. */
  lemma SpeedDecides(remaining: int, last: Report, part: int, l: Limits)
    requires Sensible(l) && last.size > 0 && last.milliseconds > 0 && remaining >= 1 && part >= 0
    requires l.maxParts == 0 && l.multiple == 0 && Whole(NextChunk(remaining, last, part, l), remaining, l)
    ensures var c := NextChunk(remaining, last, part, l);
            && c >= l.minChunk && last.size * 30000 < (c + 1) * last.milliseconds
            && (c > l.minChunk ==> c * last.milliseconds <= last.size * 30000)
  {
    var chunk := ChunkIsAskedFor(remaining, last, part, l);
  }

  /** Without a usable report it is the minimum. */
  lemma NoReportMeansMinimum(remaining: int, last: Report, part: int, l: Limits)
    requires Sensible(l) && Reported(last) && (last.size == 0 || last.milliseconds == 0) && remaining >= 1 && part >= 0
    requires l.maxParts == 0 && l.multiple == 0 && Whole(NextChunk(remaining, last, part, l), remaining, l)
    ensures NextChunk(remaining, last, part, l) == l.minChunk
  {
    var chunk := ChunkIsAskedFor(remaining, last, part, l);
  }
}

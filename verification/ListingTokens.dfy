/** The token layer of the directory listing parser: words found on demand, and numbers. */
module ListingTokens {
  import opened Text

  const MAX_INT64: int := 0x7fff_ffff_ffff_ffff

  predicate IsBlank(c: char) {
    c == ' ' || c == '\t'
  }

  predicate NoBlank(s: string) {
    forall i :: 0 <= i < |s| ==> !IsBlank(s[i])
  }

  function WordLength(s: string): (n: nat)
    ensures n <= |s|
  {
    if s == "" || IsBlank(s[0]) then 0 else 1 + WordLength(s[1..])
  }

  /** All words of a line: the stretches without blanks. */
  function Words(s: string): (r: seq<string>)
    ensures forall i :: 0 <= i < |r| ==> r[i] != "" && NoBlank(r[i])
    decreases |s|
  {
    if s == "" then []
    else if IsBlank(s[0]) then Words(s[1..])
    else
      WordLengthShape(s);
      [s[..WordLength(s)]] + Words(s[WordLength(s)..])
  }

  lemma {:induction false} WordLengthShape(s: string)
    ensures NoBlank(s[..WordLength(s)])
    ensures WordLength(s) < |s| ==> IsBlank(s[WordLength(s)])
    ensures s != "" && !IsBlank(s[0]) ==> WordLength(s) > 0
  {
    if s != "" && !IsBlank(s[0]) {
      WordLengthShape(s[1..]);
      assert s[..WordLength(s)] == [s[0]] + s[1..][..WordLength(s[1..])];
    }
  }

  lemma {:induction false} WordLengthIs(s: string, n: nat)
    requires n <= |s| && NoBlank(s[..n]) && (n < |s| ==> IsBlank(s[n]))
    ensures WordLength(s) == n
  {
    if n > 0 {
      assert s[..n][0] == s[0];
      assert s[1..][..n - 1] == s[..n][1..];
      WordLengthIs(s[1..], n - 1);
    }
  }

  lemma WordEndsAt(s: string, start: nat, end: nat)
    requires start < end <= |s| && NoBlank(s[start..end]) && (end < |s| ==> IsBlank(s[end]))
    ensures Words(s[start..]) == [s[start..end]] + Words(s[end..])
  {
    assert s[start..][..end - start] == s[start..end];
    assert s[start..][end - start..] == s[end..];
    assert s[start..][0] == s[start..end][0];
    WordLengthIs(s[start..], end - start);
  }

  lemma WordsBehindBlank(s: string, at: nat)
    requires at < |s| && IsBlank(s[at])
    ensures Words(s[at..]) == Words(s[at + 1..])
  {
    assert s[at..][1..] == s[at + 1..];
  }

  function Squeezed(s: string): string {
    if s == "" then "" else (if IsBlank(s[0]) then "" else [s[0]]) + Squeezed(s[1..])
  }

  function Glued(words: seq<string>): string {
    if words == [] then "" else words[0] + Glued(words[1..])
  }

  /** The words hold every character that is not a blank, in order. */
  lemma {:induction false} WordsLoseOnlyBlanks(s: string)
    ensures Glued(Words(s)) == Squeezed(s)
    decreases |s|
  {
    if s != "" && IsBlank(s[0]) {
      WordsLoseOnlyBlanks(s[1..]);
    } else if s != "" {
      var n := WordLength(s);
      WordLengthShape(s);
      WordsLoseOnlyBlanks(s[n..]);
      SqueezedWord(s, n);
    }
  }

  lemma {:induction false} SqueezedWord(s: string, n: nat)
    requires n <= |s| && NoBlank(s[..n])
    ensures Squeezed(s) == s[..n] + Squeezed(s[n..])
  {
    if n == 0 {
      assert s[..0] == "" && s[0..] == s;
    } else {
      assert s[..n][0] == s[0];
      assert s[1..][..n - 1] == s[..n][1..];
      SqueezedWord(s[1..], n - 1);
      assert s[1..][n - 1..] == s[n..];
      assert [s[0]] + s[1..][..n - 1] == s[..n];
    }
  }

  /** The n-th word of a line; the empty token where there is none. */
  function Word(line: string, n: nat): string {
    if n < |Words(line)| then Words(line)[n] else ""
  }

  class Line {
    const text: string
    var pos: nat
    var tokens: seq<string>

    ghost predicate Valid()
      reads this
    {
      // At the end of a line with trailing blanks one empty token may have been added.
      || (pos <= |text| && tokens + Words(text[pos..]) == Words(text) && (pos < |text| ==> !IsBlank(text[pos])))
      || (pos > |text| && (tokens == Words(text) || tokens == Words(text) + [""]))
    }

    constructor (text: string)
      ensures Valid() && this.text == text && tokens == []
    {
      this.text, pos, tokens := text, 0, [];
      new;
      Skip();
      assert text[0..] == text;
    }

    method Skip()
      requires pos <= |text|
      modifies `pos
      ensures old(pos) <= pos <= |text|
      ensures pos < |text| ==> !IsBlank(text[pos])
      ensures Words(text[pos..]) == Words(text[old(pos)..])
    {
      while pos < |text| && IsBlank(text[pos])
        invariant old(pos) <= pos <= |text|
        invariant Words(text[pos..]) == Words(text[old(pos)..])
      {
        assert text[pos..][1..] == text[pos + 1..];
        pos := pos + 1;
      }
    }

    /** Between two calls of `EndWord`: the word that starts at `start` reaches up to `pos` at least. */
    ghost predicate InWord(start: nat)
      reads this
    {
      && start <= pos <= |text|
      && NoBlank(text[start..pos])
      && tokens + Words(text[start..]) == Words(text)
      && (start < |text| ==> !IsBlank(text[start]))
    }

    method EndWord(start: nat)
      requires InWord(start) && pos < |text| && IsBlank(text[pos])
      modifies `pos, `tokens
      ensures InWord(pos) && Valid() && pos > old(pos)
      ensures tokens == old(tokens) + [text[start..old(pos)]]
    {
      WordEndsAt(text, start, pos);
      ghost var before, word := tokens, text[start..pos];
      Regroup(before, [word], Words(text[pos..]));
      tokens := tokens + [text[start..pos]];
      WordsBehindBlank(text, pos);
      pos := pos + 1;
      Skip();
      assert text[pos..pos] == "";
    }

    method EndLine(start: nat)
      requires InWord(start) && pos == |text|
      modifies `tokens
      ensures Valid() && old(tokens) <= tokens && |tokens| <= |old(tokens)| + 1
      ensures tokens == Words(text)
    {
      assert text[|text|..] == "";
      if pos != start {
        WordEndsAt(text, start, pos);
        assert text[start..pos] == text[start..];
        tokens := tokens + [text[start..]];
      }
    }

    /** The words are found only as far as they are asked for, yet every call, in any order, returns
        the word it is asked for. */
    method GetToken(n: nat) returns (token: string)
      requires Valid()
      modifies `pos, `tokens
      ensures Valid()
      ensures token == Word(text, n)
      ensures old(tokens) <= tokens
    {
      if |tokens| > n {
        return tokens[n];
      }
      var start := pos;
      assert pos <= |text| ==> text[start..pos] == "";
      assert text[|text|..] == "";
      while pos < |text|
        invariant old(tokens) <= tokens && |tokens| <= n
        invariant Scanning(start)
        decreases |text| + 1 - pos
      {
        if IsBlank(text[pos]) {
          EndWord(start);
          if |tokens| > n {
            return tokens[n];
          }
          start := pos;
        }
        Advance(start);
      }
      EndScan(start);
      if |tokens| > n {
        return tokens[n];
      }
      return "";
    }

    /** At the head of the scan: inside a word, or one past the end of the line. */
    ghost predicate Scanning(start: nat)
      reads this
    {
      || InWord(start)
      || (start == |text| && pos == |text| + 1 && tokens == Words(text))
      || (start == pos > |text| && Valid())
    }

    method Advance(start: nat)
      requires InWord(start) && if pos < |text| then !IsBlank(text[pos]) else start == pos
      modifies `pos
      ensures pos == old(pos) + 1 && Scanning(start)
    {
      assert pos < |text| ==> text[start..pos + 1] == text[start..pos] + [text[pos]];
      assert text[|text|..] == "";
      pos := pos + 1;
    }

    method EndScan(start: nat)
      requires Scanning(start) && pos >= |text|
      modifies `tokens
      ensures Valid() && old(tokens) <= tokens
      ensures Words(text) <= tokens
    {
      assert text[|text|..] == "";
      if pos == |text| {
        EndLine(start);
      } else if pos != start {
        // The line ended in blanks: an empty token is added.
        tokens := tokens + [""];
      }
    }
  }

  // ---------------------------------------------------------------------------------------------
  // Numbers

  datatype Base = Decimal | Hex

  function Radix(base: Base): int {
    if base.Hex? then 16 else 10
  }

  /** The value of a digit, or -1 for a character that is none. */
  function Digit(c: char, base: Base): (d: int)
    ensures -1 <= d < Radix(base)
  {
    if '0' <= c <= '9' then c as int - '0' as int
    else if base.Hex? && 'a' <= c <= 'f' then c as int - 'a' as int + 10
    else if base.Hex? && 'A' <= c <= 'F' then c as int - 'A' as int + 10
    else -1
  }

  /** How many digits the text starts with. */
  function Digits(s: string, base: Base): (n: nat)
    ensures n <= |s|
    ensures forall i :: 0 <= i < n ==> Digit(s[i], base) >= 0
    ensures n < |s| ==> Digit(s[n], base) < 0
  {
    if s == "" || Digit(s[0], base) < 0 then 0 else 1 + Digits(s[1..], base)
  }

  /** The number that `s` is written as, without any limit. */
  function Value(s: string, base: Base): int {
    if s == "" then 0 else Value(s[..|s| - 1], base) * Radix(base) + Digit(s[|s| - 1], base)
  }

  lemma {:induction false} ValueGrows(s: string, n: nat, base: Base)
    requires n <= |s| && forall i :: 0 <= i < |s| ==> Digit(s[i], base) >= 0
    ensures 0 <= Value(s[..n], base) <= Value(s, base)
    decreases |s|
  {
    if n == |s| {
      assert s[..n] == s;
      if n > 0 {
        ValueGrows(s[..n - 1], n - 1, base);
        assert s[..n - 1][..n - 1] == s[..n - 1];
      }
    } else {
      var t := s[..|s| - 1];
      ValueGrows(t, n, base);
      assert t[..n] == s[..n];
    }
  }

  /** The value of the first digits and one more, which still is a lower bound of the number. */
  lemma OneMoreDigit(s: string, i: nat, n: nat, base: Base)
    requires i < n <= |s| && forall k :: 0 <= k < n ==> Digit(s[k], base) >= 0
    ensures Value(s[..i + 1], base) == Value(s[..i], base) * Radix(base) + Digit(s[i], base)
    ensures 0 <= Value(s[..i], base) && Value(s[..i + 1], base) <= Value(s[..n], base)
  {
    assert s[..i + 1][..i] == s[..i] && s[..n][..i + 1] == s[..i + 1] && s[..n][..i] == s[..i];
    ValueGrows(s[..n], i + 1, base);
    ValueGrows(s[..n], i, base);
  }

  /** Appends a digit unless the result exceeds 64 bits; nothing on the way exceeds them either. */
  method PushDigit(v: int, digit: int, radix: int) returns (ok: bool, r: int)
    requires 0 <= v <= MAX_INT64 && (radix == 10 || radix == 16) && 0 <= digit < radix
    ensures ok == (v * radix + digit <= MAX_INT64) && (ok ==> r == v * radix + digit)
  {
    if v > MAX_INT64 / radix {
      return false, v;
    }
    r := v * radix;
    if MAX_INT64 - digit < r {
      return false, v;
    }
    r := r + digit;
    ok := true;
  }

  /** The number at the start of a token: -1 if there is none, if something follows where nothing may,
      or if it does not fit into 64 bits. */
  method GetNumber(s: string, base: Base, trailingDataIsError: bool) returns (v: int)
    ensures var n := Digits(s, base);
            v == if n == 0 || (n < |s| && trailingDataIsError) || Value(s[..n], base) > MAX_INT64 then -1
                 else Value(s[..n], base)
  {
    if s == "" {
      return -1;
    }
    ghost var n := Digits(s, base);
    v := 0;
    var i := 0;
    while i < |s|
      invariant 0 <= i <= n <= |s|
      invariant v == Value(s[..i], base)
      invariant 0 <= v <= MAX_INT64
    {
      var digit := Digit(s[i], base);
      if digit < 0 {
        if i == 0 || trailingDataIsError {
          return -1;
        }
        break;
      }
      OneMoreDigit(s, i, n, base);
      var ok: bool;
      ok, v := PushDigit(v, digit, Radix(base));
      if !ok {
        return -1;
      }
      i := i + 1;
    }
  }

  // ---------------------------------------------------------------------------------------------
  // What is printed is read

  const LOWER := "0123456789abcdef"
  const UPPER := "0123456789ABCDEF"

  /** n in decimal or hexadecimal, with these digits. */
  function Printed(n: nat, base: Base, digits: string): (s: string)
    requires |digits| == 16
    ensures s != ""
  {
    var radix := if base == Hex then 16 else 10;
    if n < radix then [digits[n]] else Printed(n / radix, base, digits) + [digits[n % radix]]
  }

  lemma DigitOf(d: nat, base: Base, digits: string)
    requires d < (if base == Hex then 16 else 10) && (digits == LOWER || digits == UPPER)
    ensures Digit(digits[d], base) == d
  {
    if d < 8 {
      assert d == 0 || d == 1 || d == 2 || d == 3 || d == 4 || d == 5 || d == 6 || d == 7;
    } else {
      assert d == 8 || d == 9 || d == 10 || d == 11 || d == 12 || d == 13 || d == 14 || d == 15;
    }
  }

  lemma {:induction false} PrintedIsRead(n: nat, base: Base, digits: string)
    requires digits == LOWER || digits == UPPER
    ensures var s := Printed(n, base, digits);
            Value(s, base) == n && forall i :: 0 <= i < |s| ==> Digit(s[i], base) >= 0
  {
    var radix := if base == Hex then 16 else 10;
    if n < radix {
      DigitOf(n, base, digits);
      assert [digits[n]][..0] == "";
    } else {
      PrintedIsRead(n / radix, base, digits);
      DigitOf(n % radix, base, digits);
      var s, t := Printed(n, base, digits), Printed(n / radix, base, digits);
      assert s[..|s| - 1] == t;
      assert n == n / radix * radix + n % radix;
    }
  }

  lemma {:induction false} DigitsAre(s: string, rest: string, base: Base)
    requires forall i :: 0 <= i < |s| ==> Digit(s[i], base) >= 0
    requires rest == "" || Digit(rest[0], base) < 0
    ensures Digits(s + rest, base) == |s|
    decreases |s|
  {
    if s == "" {
      assert s + rest == rest;
    } else {
      assert (s + rest)[1..] == s[1..] + rest;
      DigitsAre(s[1..], rest, base);
    }
  }

  /** A number that was printed, in decimal or in hexadecimal of either case, is read as that number, if
      it fits into 64 bits and nothing follows that may not. */
  method ReadPrinted(n: nat, base: Base, digits: string, rest: string, trailingDataIsError: bool) returns (v: int)
    requires (digits == LOWER || digits == UPPER) && (rest == "" || Digit(rest[0], base) < 0)
    ensures v == if n <= 0x7fff_ffff_ffff_ffff && (rest == "" || !trailingDataIsError) then n else -1
  {
    var s := Printed(n, base, digits);
    PrintedIsRead(n, base, digits);
    DigitsAre(s, rest, base);
    assert (s + rest)[..|s|] == s;
    v := GetNumber(s + rest, base, trailingDataIsError);
  }

  // ---------------------------------------------------------------------------------------------
  // What words a line has

  /** Blanks and tabs. */
  predicate IsGap(s: string) {
    forall i :: 0 <= i < |s| ==> s[i] == ' ' || s[i] == '\t'
  }

  /** Each word followed by its gap. */
  function Spaced(words: seq<string>, gaps: seq<string>): string
    requires |words| == |gaps|
  {
    if words == [] then "" else words[0] + (gaps[0] + Spaced(words[1..], gaps[1..]))
  }

  lemma {:induction false} GapSkipped(gap: string, rest: string)
    requires IsGap(gap)
    ensures Words(gap + rest) == Words(rest)
    decreases |gap|
  {
    if gap == "" {
      assert gap + rest == rest;
    } else {
      assert (gap + rest)[1..] == gap[1..] + rest;
      GapSkipped(gap[1..], rest);
    }
  }

  lemma {:induction false} SpacedWords(words: seq<string>, gaps: seq<string>)
    requires |words| == |gaps|
    requires forall i :: 0 <= i < |words| ==> words[i] != "" && ' ' !in words[i] && '\t' !in words[i] && IsGap(gaps[i])
    requires forall i :: 0 <= i < |words| - 1 ==> gaps[i] != ""
    ensures Words(Spaced(words, gaps)) == words
    decreases |words|
  {
    if words != [] {
      var more := Spaced(words[1..], gaps[1..]);
      var s := words[0] + (gaps[0] + more);
      SpacedWords(words[1..], gaps[1..]);
      assert gaps[0] == "" ==> more == "" && gaps[0] + more == "";
      assert gaps[0] != "" ==> (gaps[0] + more)[0] == gaps[0][0];
      assert s[..|words[0]|] == words[0] && s[0..] == s && s[|words[0]|..] == gaps[0] + more;
      WordEndsAt(s, 0, |words[0]|);
      GapSkipped(gaps[0], more);
      assert [words[0]] + words[1..] == words;
    }
  }

  /** The tokens of a line are the words that its gaps, whatever they are made of, leave apart, counted
      from the left; behind the last one there is none. */
  lemma TokensMean(start: string, words: seq<string>, gaps: seq<string>, n: nat)
    requires |words| == |gaps| && IsGap(start)
    requires forall i :: 0 <= i < |words| ==> words[i] != "" && ' ' !in words[i] && '\t' !in words[i] && IsGap(gaps[i])
    requires forall i :: 0 <= i < |words| - 1 ==> gaps[i] != ""
    ensures Word(start + Spaced(words, gaps), n) == if n < |words| then words[n] else ""
  {
    SpacedWords(words, gaps);
    GapSkipped(start, Spaced(words, gaps));
  }
}

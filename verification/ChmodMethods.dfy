/** The parser and the printer of permission changes in the form in which they run. */
module ChmodMethods {
  import opened Text
  import opened Chmods
  import opened ChmodTexts

  function With(value: Option<Permissions>, low: Permissions): Option<Permissions> {
    match value
    case None => None
    case Some(high) => Some(high + low)
  }

  /** The bits with those of one more digit; `ok` if the digit may stand at its place. */
  method AddDigit(c: char, place: nat, low: Permissions) returns (ok: bool, perms: Permissions)
    ensures ok == (IsOctal(c) && (place >= 4 ==> c == '0'))
    ensures perms == if ok && place < 4 then DigitBits(c, place) + low else low
  {
    perms := low;
    if !IsOctal(c) {
      return false, low;
    }
    if place >= 4 {
      if c != '0' {
        return false, low;
      }
    } else {
      perms := DigitBits(c, place) + perms;
    }
    ok := true;
  }

  lemma OctalStep(text: string, i: nat, low: Permissions)
    requires i < |text|
    ensures var c, place := text[i], |text| - i - 1;
            With(OctalValue(text[..i + 1], place), low)
            == if !IsOctal(c) || (place >= 4 && c != '0') then None
               else With(OctalValue(text[..i], place + 1), if place < 4 then DigitBits(c, place) + low else low)
  {
    var c, place := text[i], |text| - i - 1;
    assert text[..i + 1][..i] == text[..i];
    if IsOctal(c) && (place < 4 || c == '0') && OctalValue(text[..i], place + 1).Some? {
      var v := OctalValue(text[..i], place + 1).value;
      var d := if place < 4 then DigitBits(c, place) else {};
      assert v + (d + low) == v + d + low;
      assert v + {} == v;
    }
  }

  lemma WithNothing(value: Option<Permissions>)
    ensures With(value, {}) == value
  {
    if value.Some? {
      assert value.value + {} == value.value;
    }
  }

  method OctalBits(text: string) returns (ok: bool, perms: Permissions, shift: nat)
    ensures OctalValue(text, 0) == if ok then Some(perms) else None
    ensures ok ==> (shift > 12 <==> |text| > 4)
  {
    perms := {};
    var i := |text|;
    ok, shift := true, 0;
    ghost var all := OctalValue(text, 0);
    assert text[..|text|] == text;
    WithNothing(all);
    while i > 0
      invariant 0 <= i <= |text|
      invariant shift == if |text| - i < 5 then 3 * (|text| - i) else 15
      invariant all == With(OctalValue(text[..i], |text| - i), perms)
    {
      i := i - 1;
      OctalStep(text, i, perms);
      var place := if shift < 12 then shift / 3 else |text| - i - 1;
      assert place == |text| - i - 1;
      ok, perms := AddDigit(text[i], place, perms);
      if !ok {
        return;
      }
      if shift < 15 {
        shift := shift + 3;
      }
    }
    ok := true;
    NothingLeft(text[..i], |text|, perms);
  }

  lemma NothingLeft(s: string, place: nat, low: Permissions)
    requires s == ""
    ensures With(OctalValue(s, place), low) == Some(low)
  {
    assert {} + low == low;
  }

  method ParseOctal(text: string) returns (ret: Chmod)
    ensures ret == Octal(text)
  {
    var ok, perms, shift := OctalBits(text);
    if !ok {
      return UNCHANGED;
    }
    ret := Masked(perms, shift > 12);
  }

  method Masked(perms: Permissions, all: bool) returns (ret: Chmod)
    ensures ret == Chmod(perms, if all || perms * SPECIAL != {} then MASK else UGO_MASK)
  {
    if all {
      ret := Chmod(perms, MASK);
    } else {
      ret := Chmod(perms, if perms * SPECIAL != {} then MASK else UGO_MASK);
    }
  }

  method ParseLetters(segment: string, start: nat) returns (i: nat, perms: Permissions)
    requires start <= |segment|
    ensures i == start + LettersLength(segment[start..])
    ensures perms == Letters(segment[start..i])
  {
    i := start;
    perms := {};
    assert segment[start..start] == "";
    while i < |segment| && IsLetter(segment[i])
      invariant start <= i <= |segment|
      invariant perms == Letters(segment[start..i])
      invariant forall k :: start <= k < i ==> IsLetter(segment[k])
    {
      assert segment[start..i + 1][..|segment[start..i + 1]| - 1] == segment[start..i];
      perms := perms + PermsOf(segment[i]);
      i := i + 1;
    }
    LettersEnd(segment, start, i);
  }

  method Execute(mode: char, who: Permissions, perms: Permissions, r: Chmod) returns (ok: bool, ret: Chmod)
    ensures ok == IsOperator(mode)
    ensures ok ==> ret == Compiled(r, Change(mode, who, perms))
  {
    ret := r;
    if mode == '+' {
      ret := Chmod(ret.perms + perms * who, ret.mask + perms * who);
    } else if mode == '-' {
      ret := Chmod(ret.perms - perms * who, ret.mask + perms * who);
    } else if mode == '=' {
      ret := Chmod((ret.perms - who) + perms * who, ret.mask + who);
    } else {
      return false, r;
    }
    ok := true;
  }

  lemma {:induction false} LettersEnd(s: string, from: nat, to: nat)
    requires from <= to <= |s|
    requires forall k :: from <= k < to ==> IsLetter(s[k])
    requires to < |s| ==> !IsLetter(s[to])
    ensures LettersLength(s[from..]) == to - from
    decreases |s| - from
  {
    if from < to {
      LettersEnd(s, from + 1, to);
      assert s[from..][1..] == s[from + 1..];
    }
  }

  function ActionEnd(segment: string, start: nat): (n: nat)
    requires start < |segment|
    ensures start < n <= |segment|
  {
    start + 1 + LettersLength(segment[start + 1..])
  }

  function ActionAt(segment: string, who: Permissions, start: nat): Change
    requires start < |segment|
  {
    Change(segment[start], who, Letters(segment[start + 1..ActionEnd(segment, start)]))
  }

  predicate ActionGood(segment: string, start: nat)
    requires start < |segment|
  {
    var n := ActionEnd(segment, start);
    IsOperator(segment[start]) && (n < |segment| ==> IsOperator(segment[n]))
  }

  lemma ActionsUnfold(segment: string, who: Permissions, start: nat)
    requires start < |segment|
    ensures var n := ActionEnd(segment, start);
            Actions(who, segment[start..])
            == if !ActionGood(segment, start) then None
               else if n == |segment| then Some([ActionAt(segment, who, start)])
               else match Actions(who, segment[n..])
                    case None => None
                    case Some(more) => Some([ActionAt(segment, who, start)] + more)
  {
    var s := segment[start..];
    var n := 1 + LettersLength(segment[start + 1..]);
    Slices(segment, start, n);
  }

  lemma Slices(segment: string, start: nat, n: nat)
    requires start < |segment| && 1 <= n && start + n <= |segment|
    ensures var s := segment[start..];
            s[1..] == segment[start + 1..] && s[1..n] == segment[start + 1..start + n] && s[n..] == segment[start + n..]
  {
  }

  lemma OutcomeStep(segment: string, who: Permissions, start: nat, r: Chmod)
    requires start < |segment|
    ensures var n, next := ActionEnd(segment, start), Compiled(r, ActionAt(segment, who, start));
            Outcome(r, Actions(who, segment[start..]))
            == if !ActionGood(segment, start) then None
               else if n == |segment| then Some(next)
               else Outcome(next, Actions(who, segment[n..]))
  {
    var n := ActionEnd(segment, start);
    ActionsUnfold(segment, who, start);
    CompiledOne(r, ActionAt(segment, who, start));
    if Actions(who, segment[n..]).Some? {
      CompiledAppend(r, [ActionAt(segment, who, start)], Actions(who, segment[n..]).value);
    }
  }

  /** One operator with its letters. */
  method ParseAction(segment: string, who: Permissions, start: nat, r: Chmod) returns (ok: bool, i: nat, ret: Chmod)
    requires start < |segment|
    ensures ok == ActionGood(segment, start) && i == ActionEnd(segment, start)
    ensures ok ==> ret == Compiled(r, ActionAt(segment, who, start))
  {
    var mode := segment[start];
    var perms: Permissions;
    i, perms := ParseLetters(segment, start + 1);
    if i < |segment| && !IsOperator(segment[i]) {
      return false, i, r;
    }
    ok, ret := Execute(mode, who, perms, r);
  }

  /** The text after the who-list of a clause; `ok` says whether it is well-formed. */
  method ParseActions(segment: string, who: Permissions, start: nat, r: Chmod) returns (ok: bool, ret: Chmod)
    requires start <= |segment|
    ensures Outcome(r, Actions(who, segment[start..])) == if ok then Some(ret) else None
  {
    ghost var all := Outcome(r, Actions(who, segment[start..]));
    var i := start;
    ret := r;
    if i >= |segment| {
      return false, r;
    }
    while true
      invariant start <= i < |segment|
      invariant all == Outcome(ret, Actions(who, segment[i..]))
      decreases |segment| - i
    {
      OutcomeStep(segment, who, i, ret);
      ok, i, ret := ParseAction(segment, who, i, ret);
      if !ok || i == |segment| {
        return;
      }
    }
  }

  method ParseClause(segment: string, r: Chmod) returns (ok: bool, ret: Chmod)
    ensures Outcome(r, Clause(segment)) == if ok then Some(ret) else None
  {
    var mask: Permissions := {};
    var i := 0;
    while i < |segment| && IsWho(segment[i])
      invariant 0 <= i <= |segment|
      invariant mask == Who(segment[..i])
      invariant forall k :: 0 <= k < i ==> IsWho(segment[k])
      invariant i > 0 ==> mask != {}
    {
      assert segment[..i + 1] == segment[..i] + [segment[i]];
      WhoNotEmpty(segment[i]);
      mask := mask + WhoOf(segment[i]);
      i := i + 1;
    }
    WhoEnd(segment, 0, i);
    assert segment[0..] == segment;
    if mask == {} {
      mask := MASK;
    }
    ok, ret := ParseActions(segment, mask, i, r);
  }

  lemma WhoNotEmpty(c: char)
    requires IsWho(c)
    ensures WhoOf(c) != {}
  {
    assert Bit(User, Read) in Component(User);
    assert Bit(Group, Read) in Component(Group);
    assert Bit(Other, Read) in Component(Other);
    AllInMask({Bit(User, Read)});
  }

  lemma {:induction false} WhoEnd(s: string, from: nat, to: nat)
    requires from <= to <= |s|
    requires forall k :: from <= k < to ==> IsWho(s[k])
    requires to < |s| ==> !IsWho(s[to])
    ensures WhoLength(s[from..]) == to - from
    decreases |s| - from
  {
    if from < to {
      WhoEnd(s, from + 1, to);
      assert s[from..][1..] == s[from + 1..];
    }
  }

  method ParseSymbolic(segments: seq<string>) returns (ret: Chmod)
    ensures ret == Symbolic(segments)
  {
    ret := UNCHANGED;
    var k := 0;
    ghost var all := Outcome(UNCHANGED, Clauses(segments));
    assert segments[0..] == segments;
    while k < |segments|
      invariant 0 <= k <= |segments|
      invariant all == Outcome(ret, Clauses(segments[k..]))
    {
      OutcomeStepClause(segments, k, ret);
      var ok: bool;
      ok, ret := ParseClause(segments[k], ret);
      if !ok {
        return UNCHANGED;
      }
      k := k + 1;
    }
    NoClauses(segments[k..], ret);
  }

  lemma NoClauses(segments: seq<string>, r: Chmod)
    requires segments == []
    ensures Outcome(r, Clauses(segments)) == Some(r)
  {
  }

  /** One pass over the text; anything malformed, however late, undoes everything before it. */
  method ParseChmod(text: string) returns (ret: Chmod)
    ensures ret == Parsed(text)
  {
    if text != "" && IsOctal(text[0]) {
      ret := ParseOctal(text);
    } else {
      ret := ParseSymbolic(Split(text));
    }
  }

  lemma OutcomeStepClause(segments: seq<string>, k: nat, r: Chmod)
    requires k < |segments|
    ensures Outcome(r, Clauses(segments[k..]))
         == if Clause(segments[k]).None? then None
            else Outcome(Outcome(r, Clause(segments[k])).value, Clauses(segments[k + 1..]))
  {
    assert segments[k..][1..] == segments[k + 1..];
    ClausesStep(segments[k..]);
    OutcomeBoth(r, Clause(segments[k]), Clauses(segments[k + 1..]));
  }

  method AppendLetter(ret: string, c: char, present: bool) returns (r: string)
    ensures r == ret + Letter(c, present)
  {
    r := ret;
    if present {
      r := r + [c];
    }
  }

  method PrintLetters(p: Permissions) returns (ret: string)
    ensures ret == LettersOf(FlagsOf(p))
  {
    ghost var f := FlagsOf(p);
    ret := AppendLetter("", 'r', p * ALL_READ != {});
    ret := AppendLetter(ret, 'w', p * ALL_WRITE != {});
    ret := AppendLetter(ret, 'x', p * ALL_EXECUTE != {});
    ret := AppendLetter(ret, 's', p * ALL_SETID != {});
    ret := AppendLetter(ret, 't', p * STICKY != {});
    assert "" + Letter('r', f.r) == Letter('r', f.r);
  }

  method PrintComponent(perms: Permissions, mask: Permissions, component: Permissions) returns (ret: string)
    ensures ret == ComponentText(perms, mask, component)
  {
    var m := mask * component;
    var p := perms * m;
    ret := "";
    if m == component {
      var letters := PrintLetters(p);
      ret := ret + "=" + letters;
    } else {
      var toAdd := PrintLetters(p);
      var toRemove := PrintLetters(m - p);
      ret := AppendSigned(ret, '+', toAdd);
      ret := AppendSigned(ret, '-', toRemove);
    }
  }

  method AppendSigned(ret: string, sign: char, letters: string) returns (r: string)
    ensures r == ret + if letters == "" then "" else [sign] + letters
  {
    r := ret;
    if letters != "" {
      r := r + [sign] + letters;
    }
  }

  method Append(ret: string, v: string, t: char) returns (r: string)
    ensures r == Joined(ret, v, t)
  {
    r := ret;
    if v == "" {
      return;
    }
    if r != "" {
      r := r + ",";
    }
    r := r + [t] + v;
  }

  /** What is printed can be parsed again with the same effect on every file. */
  method PrintChmod(c: Chmod) returns (ret: string)
    ensures ret == ToString(c)
  {
    if c.mask == MASK {
      return ToOctal(c.perms);
    }
    var user := PrintComponent(c.perms, c.mask, Component(User));
    var group := PrintComponent(c.perms, c.mask, Component(Group));
    var other := PrintComponent(c.perms, c.mask, Component(Other));
    if user == group && group == other {
      ret := user;
    } else {
      ret := PrintSeparately(user, group, other);
    }
  }

  method PrintSeparately(user: string, group: string, other: string) returns (ret: string)
    ensures ret == Joined(Joined(Joined("", user, 'u'), group, 'g'), other, 'o')
  {
    ret := Append("", user, 'u');
    ret := Append(ret, group, 'g');
    ret := Append(ret, other, 'o');
  }
}

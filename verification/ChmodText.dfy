/** Printing a change of permissions, and parsing what was printed. */
module ChmodTexts {
  import opened Text
  import opened Chmods

  function Letter(c: char, present: bool): string {
    if present then [c] else ""
  }

  /** Which letters there are to print. */
  datatype Flags = Flags(r: bool, w: bool, x: bool, s: bool, t: bool)
  {
    predicate None() { !r && !w && !x && !s && !t }
  }

  function FlagsOf(p: Permissions): Flags {
    Flags(p * ALL_READ != {}, p * ALL_WRITE != {}, p * ALL_EXECUTE != {}, p * ALL_SETID != {}, p * STICKY != {})
  }

  function LettersOf(f: Flags): string {
    Letter('r', f.r) + Letter('w', f.w) + Letter('x', f.x) + Letter('s', f.s) + Letter('t', f.t)
  }

  /** What a change does to one component: sets all of it, or adds to it and takes from it. */
  function ComponentText(perms: Permissions, mask: Permissions, component: Permissions): string {
    var m := mask * component;
    var p := perms * m;
    if m == component then "=" + LettersOf(FlagsOf(p))
    else Signed('+', FlagsOf(p)) + Signed('-', FlagsOf(m - p))
  }

  function Signed(sign: char, f: Flags): string {
    if LettersOf(f) == "" then "" else [sign] + LettersOf(f)
  }

  function Joined(ret: string, v: string, t: char): string {
    if v == "" then ret
    else ret + (if ret == "" then "" else ",") + [t] + v
  }

  function DigitChar(p: Permissions, place: nat): char {
    var high, middle, low := DigitBit(place, 0) in p, DigitBit(place, 1) in p, DigitBit(place, 2) in p;
    if high then
      if middle then if low then '7' else '6'
      else if low then '5' else '4'
    else
      if middle then if low then '3' else '2'
      else if low then '1' else '0'
  }

  lemma DigitCharOctal(p: Permissions, place: nat)
    ensures IsOctal(DigitChar(p, place))
  {
  }

  function ToOctal(p: Permissions): string {
    "0" + [DigitChar(p, 3)] + [DigitChar(p, 2)] + [DigitChar(p, 1)] + [DigitChar(p, 0)]
  }

  function ToString(c: Chmod): string {
    if c.mask == MASK then ToOctal(c.perms)
    else
      if Unanimous(c) then ComponentText(c.perms, c.mask, Component(User)) else Separate(c)
  }

  predicate Unanimous(c: Chmod) {
    var group := ComponentText(c.perms, c.mask, Component(Group));
    && ComponentText(c.perms, c.mask, Component(User)) == group
    && group == ComponentText(c.perms, c.mask, Component(Other))
  }

  function ClassLetter(k: Class): char {
    match k
    case User => 'u'
    case Group => 'g'
    case Other => 'o'
  }

  /** `ret` with the text of one more component. */
  function Stage(ret: string, c: Chmod, k: Class): string {
    Joined(ret, ComponentText(c.perms, c.mask, Component(k)), ClassLetter(k))
  }

  function Separate(c: Chmod): string {
    Stage(Stage(Stage("", c, User), c, Group), c, Other)
  }

  // ---------------------------------------------------------------------------------------------
  // Letters

  function LetterBits(c: char, present: bool): Permissions {
    if present then PermsOf(c) else {}
  }

  /** What the letters stand for without a restriction to a component. */
  function Widened(f: Flags): Permissions {
    LetterBits('r', f.r) + LetterBits('w', f.w) + LetterBits('x', f.x) + LetterBits('s', f.s) + LetterBits('t', f.t)
  }

  lemma {:induction false} LettersAppend(a: string, b: string)
    ensures Letters(a + b) == Letters(a) + Letters(b)
    decreases |b|
  {
    if b == "" {
      assert a + b == a;
    } else {
      assert (a + b)[..|a + b| - 1] == a + b[..|b| - 1];
      LettersAppend(a, b[..|b| - 1]);
    }
  }

  lemma LettersMean(f: Flags)
    ensures Letters(LettersOf(f)) == Widened(f)
  {
    var r, w, x, s, t := Letter('r', f.r), Letter('w', f.w), Letter('x', f.x), Letter('s', f.s), Letter('t', f.t);
    LettersAppend(r, w);
    LettersAppend(r + w, x);
    LettersAppend(r + w + x, s);
    LettersAppend(r + w + x + s, t);
    OneLetter('r', f.r);
    OneLetter('w', f.w);
    OneLetter('x', f.x);
    OneLetter('s', f.s);
    OneLetter('t', f.t);
  }

  lemma LettersShape(f: Flags)
    ensures AllLetters(LettersOf(f))
    ensures LettersOf(f) == "" <==> f.None()
  {
  }

  predicate AllLetters(s: string) {
    forall i :: 0 <= i < |s| ==> IsLetter(s[i])
  }

  lemma OneLetter(c: char, present: bool)
    ensures Letters(Letter(c, present)) == LetterBits(c, present)
  {
    assert [c][..0] == "";
  }

  /** Restricted to their component again, the letters say exactly what was printed. */
  lemma WidenedRestricts(p: Permissions, who: Class)
    requires p <= Component(who)
    ensures Widened(FlagsOf(p)) * Component(who) == p
    ensures FlagsOf(p).None() <==> p == {}
  {
    var f := FlagsOf(p);
    OneBit(p, ALL_READ, who, Read);
    OneBit(p, ALL_WRITE, who, Write);
    OneBit(p, ALL_EXECUTE, who, Execute);
    SpecialBit(p, who);
    forall b: Bit ensures b in Widened(f) * Component(who) <==> b in p {
      WidenedBit(f, b);
    }
  }

  lemma WidenedBit(f: Flags, b: Bit)
    ensures b in Widened(f) <==>
            match b.kind
            case Read => f.r
            case Write => f.w
            case Execute => f.x
            case Special => if b.who == Other then f.t else f.s
  {
    match b.who {
      case User =>
      case Group =>
      case Other =>
    }
  }

  lemma SpecialBit(p: Permissions, who: Class)
    requires p <= Component(who)
    ensures Bit(who, Special) in p <==> if who == Other then FlagsOf(p).t else FlagsOf(p).s
    ensures if who == Other then !FlagsOf(p).s else !FlagsOf(p).t
  {
    if Bit(who, Special) in p {
      assert Bit(who, Special) in p * if who == Other then STICKY else ALL_SETID;
    }
  }

  lemma OneBit(p: Permissions, all: Permissions, who: Class, kind: Kind)
    requires p <= Component(who)
    requires all == {Bit(User, kind), Bit(Group, kind), Bit(Other, kind)}
    ensures Bit(who, kind) in p <==> p * all != {}
  {
    if Bit(who, kind) in p {
      assert Bit(who, kind) in p * all;
    }
  }

  // ---------------------------------------------------------------------------------------------
  // One component

  lemma {:induction false} LettersLengthIs(t: string, rest: string)
    requires AllLetters(t)
    requires rest == "" || IsOperator(rest[0])
    ensures LettersLength(t + rest) == |t|
  {
    if t == "" {
      assert t + rest == rest;
    } else {
      assert (t + rest)[1..] == t[1..] + rest;
      LettersLengthIs(t[1..], rest);
    }
  }

  lemma ActionsStep(who: Permissions, sign: char, f: Flags, rest: string)
    requires IsOperator(sign) && (rest == "" || IsOperator(rest[0]))
    ensures Actions(who, [sign] + LettersOf(f) + rest)
         == if rest == "" then Some([Change(sign, who, Widened(f))])
            else match Actions(who, rest)
                 case None => None
                 case Some(more) => Some([Change(sign, who, Widened(f))] + more)
  {
    var t := LettersOf(f);
    LettersShape(f);
    LettersMean(f);
    ActionsOfText(who, sign, t, rest);
  }

  lemma ActionsOfText(who: Permissions, sign: char, t: string, rest: string)
    requires IsOperator(sign) && (rest == "" || IsOperator(rest[0])) && AllLetters(t)
    ensures Actions(who, [sign] + t + rest)
         == if rest == "" then Some([Change(sign, who, Letters(t))])
            else match Actions(who, rest)
                 case None => None
                 case Some(more) => Some([Change(sign, who, Letters(t))] + more)
  {
    var s := [sign] + t + rest;
    assert s[1..] == t + rest;
    LettersLengthIs(t, rest);
    assert s[1..1 + |t|] == t;
    assert s[1 + |t|..] == rest;
  }

  function SignedChange(sign: char, who: Permissions, f: Flags): seq<Change> {
    if LettersOf(f) == "" then [] else [Change(sign, who, Widened(f))]
  }

  /** The operators that the text of a component consists of. */
  function ComponentChanges(perms: Permissions, mask: Permissions, component: Permissions, who: Permissions)
    : seq<Change>
  {
    var m := mask * component;
    var p := perms * m;
    if m == component then [Change('=', who, Widened(FlagsOf(p)))]
    else SignedChange('+', who, FlagsOf(p)) + SignedChange('-', who, FlagsOf(m - p))
  }

  /** An operator, alone or in front of others. */
  lemma SignedStep(who: Permissions, sign: char, f: Flags, rest: string)
    requires IsOperator(sign) && (rest == "" || IsOperator(rest[0]))
    ensures Actions(who, Signed(sign, f) + rest)
         == if LettersOf(f) == "" then Actions(who, rest)
            else if rest == "" then Some(SignedChange(sign, who, f))
            else match Actions(who, rest)
                 case None => None
                 case Some(more) => Some(SignedChange(sign, who, f) + more)
  {
    if LettersOf(f) == "" { assert "" + rest == rest; } else { ActionsStep(who, sign, f, rest); }
  }

  lemma SignedParses(who: Permissions, add: Flags, remove: Flags)
    requires LettersOf(add) != "" || LettersOf(remove) != ""
    ensures var text := Signed('+', add) + Signed('-', remove);
            && Actions(who, text) == Some(SignedChange('+', who, add) + SignedChange('-', who, remove))
            && IsOperator(text[0])
  {
    var minus := Signed('-', remove);
    SignedStep(who, '+', add, minus);
    SignedStep(who, '-', remove, "");
    assert minus + "" == minus;
    assert [] + SignedChange('-', who, remove) == SignedChange('-', who, remove);
    assert SignedChange('+', who, add) + [] == SignedChange('+', who, add);
  }

  lemma ComponentParses(perms: Permissions, mask: Permissions, component: Permissions, who: Permissions)
    requires ComponentText(perms, mask, component) != ""
    ensures Actions(who, ComponentText(perms, mask, component))
         == Some(ComponentChanges(perms, mask, component, who))
    ensures IsOperator(ComponentText(perms, mask, component)[0])
  {
    var m := mask * component;
    var p := perms * m;
    if m == component {
      ActionsStep(who, '=', FlagsOf(p), "");
      assert ['='] + LettersOf(FlagsOf(p)) + "" == "=" + LettersOf(FlagsOf(p));
    } else {
      SignedParses(who, FlagsOf(p), FlagsOf(m - p));
    }
  }

  lemma SignedCompiles(r: Chmod, sign: char, k: Class, p: Permissions)
    requires p <= Component(k) && (sign == '+' || sign == '-')
    ensures CompiledAll(r, SignedChange(sign, Component(k), FlagsOf(p)))
         == Chmod(if sign == '+' then r.perms + p else r.perms - p, r.mask + p)
  {
    WidenedRestricts(p, k);
    LettersShape(FlagsOf(p));
    CompiledOne(r, Change(sign, Component(k), Widened(FlagsOf(p))));
  }

  lemma ComponentCompiles(r: Chmod, perms: Permissions, mask: Permissions, k: Class)
    ensures var m := mask * Component(k);
            CompiledAll(r, ComponentChanges(perms, mask, Component(k), Component(k)))
            == Chmod((r.perms - m) + perms * m, r.mask + m)
  {
    var w := Component(k);
    var m := mask * w;
    var p := perms * m;
    if m == w {
      WidenedRestricts(p, k);
      CompiledOne(r, Change('=', w, Widened(FlagsOf(p))));
    } else {
      SignedCompiles(r, '+', k, p);
      var q := Chmod(r.perms + p, r.mask + p);
      SignedCompiles(q, '-', k, m - p);
      CompiledAppend(r, SignedChange('+', w, FlagsOf(p)), SignedChange('-', w, FlagsOf(m - p)));
      assert (r.perms + p) - (m - p) == (r.perms - m) + p;
      assert (r.mask + p) + (m - p) == r.mask + m;
    }
  }

  lemma CompiledOne(r: Chmod, c: Change)
    ensures CompiledAll(r, [c]) == Compiled(r, c)
  {
    assert [c][1..] == [];
  }

  // ---------------------------------------------------------------------------------------------
  // The same change for everybody

  function Named(changes: seq<Change>, operator: char): Permissions {
    if changes == [] then {}
    else (if changes[0].operator == operator then changes[0].perms else {}) + Named(changes[1..], operator)
  }

  lemma {:induction false} NamedAppend(a: seq<Change>, b: seq<Change>, operator: char)
    ensures Named(a + b, operator) == Named(a, operator) + Named(b, operator)
  {
    if a == [] {
      assert a + b == b;
    } else {
      assert (a + b)[1..] == a[1..] + b;
      NamedAppend(a[1..], b, operator);
    }
  }

  lemma SignedNamesOne(sign: char, who: Permissions, f: Flags, operator: char)
    ensures Named(SignedChange(sign, who, f), operator) == if sign == operator then Widened(f) else {}
  {
    LettersShape(f);
    assert [Change(sign, who, Widened(f))][1..] == [];
    assert f.None() ==> Widened(f) == {};
  }

  lemma SignedNames(who: Permissions, add: Flags, remove: Flags)
    ensures var changes := SignedChange('+', who, add) + SignedChange('-', who, remove);
            Named(changes, '+') == Widened(add) && Named(changes, '-') == Widened(remove)
  {
    NamedAppend(SignedChange('+', who, add), SignedChange('-', who, remove), '+');
    NamedAppend(SignedChange('+', who, add), SignedChange('-', who, remove), '-');
    SignedNamesOne('+', who, add, '+');
    SignedNamesOne('+', who, add, '-');
    SignedNamesOne('-', who, remove, '+');
    SignedNamesOne('-', who, remove, '-');
  }

  lemma SignedCompilesForAll(add: Flags, remove: Flags)
    requires Widened(add) * Widened(remove) == {}
    ensures CompiledAll(UNCHANGED, SignedChange('+', MASK, add) + SignedChange('-', MASK, remove))
         == Chmod(Widened(add), Widened(add) + Widened(remove))
  {
    var plus, minus := Change('+', MASK, Widened(add)), Change('-', MASK, Widened(remove));
    LettersShape(add);
    LettersShape(remove);
    AllInMask(Widened(add));
    AllInMask(Widened(remove));
    CompiledAppend(UNCHANGED, SignedChange('+', MASK, add), SignedChange('-', MASK, remove));
    CompiledOne(UNCHANGED, plus);
    CompiledOne(Chmod(Widened(add), Widened(add)), minus);
  }

  lemma AllInMask(p: Permissions)
    ensures p * MASK == p
  {
    forall b: Bit ensures b in MASK {
      EachBitInMask(b);
    }
  }

  lemma EachBitInMask(b: Bit)
    ensures b in MASK
  {
    assert b.who == User || b.who == Group || b.who == Other;
    match b.kind {
      case Read => assert b in ALL_READ;
      case Write => assert b in ALL_WRITE;
      case Execute => assert b in ALL_EXECUTE;
      case Special => assert b in SPECIAL;
    }
  }

  lemma FullStartsWithSet(perms: Permissions, mask: Permissions, component: Permissions)
    requires ComponentText(perms, mask, component) != ""
    ensures ComponentText(perms, mask, component)[0] == '=' <==> mask * component == component
  {
  }

  /** Components with the same text name the same permissions. */
  lemma SameTextSameBits(perms: Permissions, mask: Permissions, a: Class, b: Class)
    requires mask * Component(a) != Component(a) && mask * Component(b) != Component(b)
    requires ComponentText(perms, mask, Component(a)) == ComponentText(perms, mask, Component(b)) != ""
    ensures Added(perms, mask, a) == Added(perms, mask, b) && Removed(perms, mask, a) == Removed(perms, mask, b)
  {
    ComponentParses(perms, mask, Component(a), MASK);
    ComponentParses(perms, mask, Component(b), MASK);
    SignedNames(MASK, AddedFlags(perms, mask, a), RemovedFlags(perms, mask, a));
    SignedNames(MASK, AddedFlags(perms, mask, b), RemovedFlags(perms, mask, b));
  }

  function AddedFlags(perms: Permissions, mask: Permissions, k: Class): Flags {
    FlagsOf(perms * (mask * Component(k)))
  }

  function RemovedFlags(perms: Permissions, mask: Permissions, k: Class): Flags {
    var m := mask * Component(k);
    FlagsOf(m - perms * m)
  }

  function Added(perms: Permissions, mask: Permissions, k: Class): Permissions {
    Widened(AddedFlags(perms, mask, k))
  }

  function Removed(perms: Permissions, mask: Permissions, k: Class): Permissions {
    Widened(RemovedFlags(perms, mask, k))
  }

  lemma RestrictedBack(perms: Permissions, mask: Permissions, k: Class)
    ensures Added(perms, mask, k) * Component(k) == perms * mask * Component(k)
    ensures Removed(perms, mask, k) * Component(k) == (mask - perms) * Component(k)
  {
    var m := mask * Component(k);
    WidenedRestricts(perms * m, k);
    WidenedRestricts(m - perms * m, k);
  }

  lemma ByComponents(x: Permissions, y: Permissions)
    requires forall k: Class :: x * Component(k) == y * Component(k)
    ensures x == y
  {
    forall b: Bit ensures b in x <==> b in y {
      assert b in Component(b.who) by {
        match b.kind {
          case Read =>
          case Write =>
          case Execute =>
          case Special =>
        }
      }
      assert b in x <==> b in x * Component(b.who);
      assert b in y <==> b in y * Component(b.who);
    }
  }

  lemma UnanimousText(c: Chmod, k: Class)
    requires Unanimous(c)
    ensures ComponentText(c.perms, c.mask, Component(k)) == ComponentText(c.perms, c.mask, Component(User))
  {
  }

  lemma UnanimousBits(c: Chmod)
    requires c.mask != MASK && Unanimous(c) && ComponentText(c.perms, c.mask, Component(User)) != ""
    ensures c.mask * Component(User) != Component(User)
    ensures Added(c.perms, c.mask, User) == c.perms * c.mask
    ensures Removed(c.perms, c.mask, User) == c.mask - c.perms
  {
    var text := ComponentText(c.perms, c.mask, Component(User));
    forall k: Class ensures c.mask * Component(k) == Component(k) <==> text[0] == '=' {
      UnanimousText(c, k);
      FullStartsWithSet(c.perms, c.mask, Component(k));
    }
    if text[0] == '=' {
      forall k: Class ensures c.mask * Component(k) == MASK * Component(k) {
        AllInMask(Component(k));
      }
      ByComponents(c.mask, MASK);
    }
    forall k: Class
      ensures Added(c.perms, c.mask, User) * Component(k) == c.perms * c.mask * Component(k)
      ensures Removed(c.perms, c.mask, User) * Component(k) == (c.mask - c.perms) * Component(k)
    {
      UnanimousText(c, k);
      SameTextSameBits(c.perms, c.mask, User, k);
      RestrictedBack(c.perms, c.mask, k);
    }
    ByComponents(Added(c.perms, c.mask, User), c.perms * c.mask);
    ByComponents(Removed(c.perms, c.mask, User), c.mask - c.perms);
  }

  lemma UnanimousParses(c: Chmod)
    requires c.mask != MASK && Unanimous(c) && ComponentText(c.perms, c.mask, Component(User)) != ""
    ensures Parsed(ComponentText(c.perms, c.mask, Component(User))) == Chmod(c.perms * c.mask, c.mask)
  {
    var text := ComponentText(c.perms, c.mask, Component(User));
    ComponentParses(c.perms, c.mask, Component(User), MASK);
    ComponentHasNoComma(c.perms, c.mask, Component(User));
    ForAllParses(text, ComponentChanges(c.perms, c.mask, Component(User), MASK));
    UnanimousCompiles(c);
  }

  lemma ForAllParses(text: string, changes: seq<Change>)
    requires text != "" && IsOperator(text[0]) && NoComma(text) && Actions(MASK, text) == Some(changes)
    ensures Parsed(text) == CompiledAll(UNCHANGED, changes)
  {
    NoCommaNoSplit(text);
    assert WhoLength(text) == 0;
    assert text[0..] == text;
    ClausesOne(text);
  }

  lemma UnanimousCompiles(c: Chmod)
    requires c.mask != MASK && Unanimous(c) && ComponentText(c.perms, c.mask, Component(User)) != ""
    ensures CompiledAll(UNCHANGED, ComponentChanges(c.perms, c.mask, Component(User), MASK))
         == Chmod(c.perms * c.mask, c.mask)
  {
    UnanimousBits(c);
    SignedCompilesForAll(AddedFlags(c.perms, c.mask, User), RemovedFlags(c.perms, c.mask, User));
    assert c.perms * c.mask + (c.mask - c.perms) == c.mask;
  }

  lemma ClausesOne(s: string)
    ensures Clauses([s]) == Clause(s)
  {
    assert [s][1..] == [];
    BothNothing(Clause(s));
  }

  lemma BothNothing(a: Option<seq<Change>>)
    ensures Both(a, Some([])) == a && Both(Some([]), a) == a
  {
    if a.Some? {
      assert a.value + [] == a.value && [] + a.value == a.value;
    }
  }

  lemma BothAssociates(a: Option<seq<Change>>, b: Option<seq<Change>>, c: Option<seq<Change>>)
    ensures Both(a, Both(b, c)) == Both(Both(a, b), c)
  {
    if a.Some? && b.Some? && c.Some? {
      assert a.value + (b.value + c.value) == a.value + b.value + c.value;
    }
  }

  predicate NoComma(s: string) {
    forall i :: 0 <= i < |s| ==> s[i] != ','
  }

  lemma ComponentHasNoComma(perms: Permissions, mask: Permissions, component: Permissions)
    ensures NoComma(ComponentText(perms, mask, component))
  {
    var m := mask * component;
    var p := perms * m;
    LettersShape(FlagsOf(p));
    LettersShape(FlagsOf(m - p));
  }

  lemma {:induction false} NoCommaNoSplit(s: string)
    requires NoComma(s)
    ensures Split(s) == [s]
  {
    if s != "" {
      NoCommaNoSplit(s[1..]);
      assert [s[0]] + s[1..] == s;
    }
  }

  // ---------------------------------------------------------------------------------------------
  // One clause for each component

  /** A comma separates what is before it from what is behind it. */
  lemma {:induction false} SplitAtComma(a: string, b: string)
    ensures Split(a + [','] + b) == Split(a) + Split(b)
  {
    var s := a + [','] + b;
    if a == "" {
      assert s == [','] + b && s[1..] == b;
    } else {
      assert s[1..] == a[1..] + [','] + b;
      SplitAtComma(a[1..], b);
    }
  }

  lemma SplitLast(ret: string, x: string)
    requires NoComma(x)
    ensures Split(ret + "," + x) == Split(ret) + [x]
  {
    SplitAtComma(ret, x);
    NoCommaNoSplit(x);
  }

  lemma ClausesStep(segments: seq<string>)
    requires segments != []
    ensures Clauses(segments) == Both(Clause(segments[0]), Clauses(segments[1..]))
  {
  }

  lemma {:induction false} ClausesLast(segments: seq<string>, x: string)
    ensures Clauses(segments + [x]) == Both(Clauses(segments), Clause(x))
    decreases |segments|
  {
    if segments == [] {
      assert [] + [x] == [x];
      ClausesOne(x);
      BothNothing(Clause(x));
    } else {
      assert (segments + [x])[0] == segments[0] && (segments + [x])[1..] == segments[1..] + [x];
      ClausesLast(segments[1..], x);
      ClausesStep(segments + [x]);
      ClausesStep(segments);
      BothAssociates(Clause(segments[0]), Clauses(segments[1..]), Clause(x));
    }
  }

  /** The text so far stands for the change so far. */
  ghost predicate Describes(ret: string, r: Chmod) {
    if ret == "" then r == UNCHANGED
    else IsWho(ret[0]) && Outcome(UNCHANGED, Clauses(Split(ret))) == Some(r)
  }

  lemma ClauseForOne(c: char, v: string)
    requires IsWho(c) && v != "" && IsOperator(v[0])
    ensures Clause([c] + v) == Actions(WhoOf(c), v)
  {
    var x := [c] + v;
    WhoLengthOne(c, v);
    assert x[1..] == v && x[..1] == [c];
    WhoOne(c);
  }

  lemma WhoLengthOne(c: char, v: string)
    requires IsWho(c) && v != "" && IsOperator(v[0])
    ensures WhoLength([c] + v) == 1
  {
    assert ([c] + v)[1..] == v;
    assert WhoLength(v) == 0;
  }

  lemma WhoOne(c: char)
    ensures Who([c]) == WhoOf(c)
  {
    assert [c][..0] == "";
  }

  lemma ComponentClause(perms: Permissions, mask: Permissions, k: Class)
    requires ComponentText(perms, mask, Component(k)) != ""
    ensures Clause([ClassLetter(k)] + ComponentText(perms, mask, Component(k)))
         == Some(ComponentChanges(perms, mask, Component(k), Component(k)))
  {
    ComponentParses(perms, mask, Component(k), Component(k));
    ClauseForOne(ClassLetter(k), ComponentText(perms, mask, Component(k)));
    LetterOfClass(k);
  }

  lemma LetterOfClass(k: Class)
    ensures IsWho(ClassLetter(k)) && WhoOf(ClassLetter(k)) == Component(k)
  {
  }

  /** A component without a text changes nothing. */
  lemma NoTextNoChange(perms: Permissions, mask: Permissions, k: Class)
    requires ComponentText(perms, mask, Component(k)) == ""
    ensures mask * Component(k) == {}
  {
    var m := mask * Component(k);
    var p := perms * m;
    WidenedRestricts(p, k);
    WidenedRestricts(m - p, k);
    LettersShape(FlagsOf(p));
    LettersShape(FlagsOf(m - p));
    assert m == p + (m - p);
  }

  /** `r` with what `c` says about one component. */
  function Overlaid(r: Chmod, c: Chmod, k: Class): Chmod {
    var m := c.mask * Component(k);
    Chmod((r.perms - m) + c.perms * m, r.mask + m)
  }

  lemma StageDescribes(ret: string, r: Chmod, c: Chmod, k: Class)
    requires Describes(ret, r)
    ensures Describes(Stage(ret, c, k), Overlaid(r, c, k))
  {
    var v := ComponentText(c.perms, c.mask, Component(k));
    if v == "" {
      NoTextNoChange(c.perms, c.mask, k);
      OverlaidNothing(r, c, k);
    } else {
      ComponentJoins(c, k, r);
      ClauseJoins(ret, r, [ClassLetter(k)] + v, Overlaid(r, c, k));
      JoinedText(ret, v, ClassLetter(k));
    }
  }

  lemma OverlaidNothing(r: Chmod, c: Chmod, k: Class)
    requires c.mask * Component(k) == {}
    ensures Overlaid(r, c, k) == r
  {
  }

  lemma JoinedText(ret: string, v: string, t: char)
    requires v != ""
    ensures Joined(ret, v, t) == if ret == "" then ret + ([t] + v) else ret + "," + ([t] + v)
  {
  }

  lemma ComponentJoins(c: Chmod, k: Class, r: Chmod)
    requires ComponentText(c.perms, c.mask, Component(k)) != ""
    ensures var x := [ClassLetter(k)] + ComponentText(c.perms, c.mask, Component(k));
            NoComma(x) && IsWho(x[0]) && Outcome(r, Clause(x)) == Some(Overlaid(r, c, k))
  {
    ComponentClause(c.perms, c.mask, k);
    ComponentCompiles(r, c.perms, c.mask, k);
    ComponentHasNoComma(c.perms, c.mask, Component(k));
    LetterOfClass(k);
  }

  lemma ClauseJoins(ret: string, r: Chmod, x: string, next: Chmod)
    requires Describes(ret, r) && NoComma(x) && x != "" && IsWho(x[0]) && Outcome(r, Clause(x)) == Some(next)
    ensures Describes(if ret == "" then ret + x else ret + "," + x, next)
  {
    if ret == "" {
      assert ret + x == x;
      NoCommaNoSplit(x);
      ClausesOne(x);
    } else {
      SplitLast(ret, x);
      ClausesLast(Split(ret), x);
      OutcomeBoth(UNCHANGED, Clauses(Split(ret)), Clause(x));
    }
  }

  lemma OverlaidAll(c: Chmod)
    ensures Overlaid(Overlaid(Overlaid(UNCHANGED, c, User), c, Group), c, Other) == Chmod(c.perms * c.mask, c.mask)
  {
    var r := Overlaid(Overlaid(Overlaid(UNCHANGED, c, User), c, Group), c, Other);
    OverlaidOne(UNCHANGED, c, User);
    OverlaidOne(Overlaid(UNCHANGED, c, User), c, Group);
    OverlaidOne(Overlaid(Overlaid(UNCHANGED, c, User), c, Group), c, Other);
    forall k: Class
      ensures r.perms * Component(k) == c.perms * c.mask * Component(k)
      ensures r.mask * Component(k) == c.mask * Component(k)
    {
      assert k == User || k == Group || k == Other;
    }
    ByComponents(r.perms, c.perms * c.mask);
    ByComponents(r.mask, c.mask);
  }

  lemma OverlaidOne(r: Chmod, c: Chmod, k: Class)
    requires r.perms * Component(k) == {} && r.mask * Component(k) == {}
    ensures Overlaid(r, c, k).perms * Component(k) == c.perms * c.mask * Component(k)
    ensures Overlaid(r, c, k).mask * Component(k) == c.mask * Component(k)
    ensures forall other: Class :: other != k ==>
              && Overlaid(r, c, k).perms * Component(other) == r.perms * Component(other)
              && Overlaid(r, c, k).mask * Component(other) == r.mask * Component(other)
  {
    forall other: Class | other != k
      ensures Overlaid(r, c, k).perms * Component(other) == r.perms * Component(other)
      ensures Overlaid(r, c, k).mask * Component(other) == r.mask * Component(other)
    {
      Disjoint(k, other);
    }
  }

  lemma Disjoint(k: Class, other: Class)
    requires k != other
    ensures Component(k) * Component(other) == {}
  {
  }

  lemma SeparateParses(c: Chmod)
    ensures Describes(Separate(c), Chmod(c.perms * c.mask, c.mask))
  {
    var r1 := Overlaid(UNCHANGED, c, User);
    var r2 := Overlaid(r1, c, Group);
    StageDescribes("", UNCHANGED, c, User);
    StageDescribes(Stage("", c, User), r1, c, Group);
    StageDescribes(Stage(Stage("", c, User), c, Group), r2, c, Other);
    OverlaidAll(c);
  }

  // ---------------------------------------------------------------------------------------------
  // Octal modes

  lemma OctalLast(s: string, c: char, place: nat)
    requires IsOctal(c) && (place < 4 || c == '0')
    ensures OctalValue(s + [c], place)
         == match OctalValue(s, place + 1)
            case None => None
            case Some(v) => Some(v + if place < 4 then DigitBits(c, place) else {})
  {
    assert (s + [c])[..|s + [c]| - 1] == s;
  }

  lemma DigitRoundTrip(p: Permissions, place: nat)
    ensures forall b: Bit :: b in DigitBits(DigitChar(p, place), place) <==>
                             b in p && exists i: nat :: i < 3 && b == DigitBit(place, i)
  {
    forall b: Bit | b in p && exists i: nat :: i < 3 && b == DigitBit(place, i)
      ensures b in DigitBits(DigitChar(p, place), place)
    {
      assert b == DigitBit(place, 0) || b == DigitBit(place, 1) || b == DigitBit(place, 2);
    }
  }

  /** The place and the index of the digit that holds a bit. */
  function PlaceOf(b: Bit): nat {
    if b.kind == Special then 3 else if b.who == Other then 0 else if b.who == Group then 1 else 2
  }

  function IndexOf(b: Bit): nat {
    if b.kind == Special then if b.who == User then 0 else if b.who == Group then 1 else 2
    else if b.kind == Read then 0 else if b.kind == Write then 1 else 2
  }

  lemma BitHasPlace(b: Bit)
    ensures PlaceOf(b) <= 3 && IndexOf(b) <= 2 && DigitBit(PlaceOf(b), IndexOf(b)) == b
  {
    assert b.who == User || b.who == Group || b.who == Other;
    assert b.kind == Read || b.kind == Write || b.kind == Execute || b.kind == Special;
  }

  lemma OctalSum(p: Permissions)
    ensures {} + {} + DigitBits(DigitChar(p, 3), 3) + DigitBits(DigitChar(p, 2), 2) + DigitBits(DigitChar(p, 1), 1)
              + DigitBits(DigitChar(p, 0), 0) == p
  {
    DigitRoundTrip(p, 3);
    DigitRoundTrip(p, 2);
    DigitRoundTrip(p, 1);
    DigitRoundTrip(p, 0);
    var sum := {} + {} + DigitBits(DigitChar(p, 3), 3) + DigitBits(DigitChar(p, 2), 2) + DigitBits(DigitChar(p, 1), 1)
               + DigitBits(DigitChar(p, 0), 0);
    forall b: Bit | b in p ensures b in sum {
      BitInDigit(p, b);
    }
  }

  predicate InDigit(p: Permissions, b: Bit) {
    || b in DigitBits(DigitChar(p, 3), 3) || b in DigitBits(DigitChar(p, 2), 2)
    || b in DigitBits(DigitChar(p, 1), 1) || b in DigitBits(DigitChar(p, 0), 0)
  }

  lemma BitInDigit(p: Permissions, b: Bit)
    requires b in p
    ensures InDigit(p, b)
  {
    BitHasPlace(b);
    DigitRoundTrip(p, PlaceOf(b));
  }

  lemma OctalFive(d3: char, d2: char, d1: char, d0: char)
    requires IsOctal(d3) && IsOctal(d2) && IsOctal(d1) && IsOctal(d0)
    ensures OctalValue("0" + [d3] + [d2] + [d1] + [d0], 0)
         == Some({} + {} + DigitBits(d3, 3) + DigitBits(d2, 2) + DigitBits(d1, 1) + DigitBits(d0, 0))
  {
    assert "" + ['0'] == "0";
    OctalLast("", '0', 4);
    OctalLast("0", d3, 3);
    OctalLast("0" + [d3], d2, 2);
    OctalLast("0" + [d3] + [d2], d1, 1);
    OctalLast("0" + [d3] + [d2] + [d1], d0, 0);
  }

  lemma OctalParses(p: Permissions)
    ensures Parsed(ToOctal(p)) == Chmod(p, MASK)
  {
    var d3, d2, d1, d0 := DigitChar(p, 3), DigitChar(p, 2), DigitChar(p, 1), DigitChar(p, 0);
    DigitCharOctal(p, 3);
    DigitCharOctal(p, 2);
    DigitCharOctal(p, 1);
    DigitCharOctal(p, 0);
    OctalFive(d3, d2, d1, d0);
    OctalSum(p);
    FiveDigits(d3, d2, d1, d0, p);
  }

  lemma FiveDigits(d3: char, d2: char, d1: char, d0: char, p: Permissions)
    requires OctalValue("0" + [d3] + [d2] + [d1] + [d0], 0) == Some(p)
    ensures Parsed("0" + [d3] + [d2] + [d1] + [d0]) == Chmod(p, MASK)
  {
  }

  lemma DescribedParses(ret: string, r: Chmod)
    requires Describes(ret, r)
    ensures Parsed(ret) == r
  {
    if ret == "" {
      assert Split("") == [""];
      assert Clause("") == None;
    }
  }

  /** Parsing what is printed for a change gives the change back, but for bits that it does not touch. */
  lemma PrintedChangeParses(c: Chmod)
    ensures Parsed(ToString(c)) == Chmod(c.perms * c.mask, c.mask)
  {
    if c.mask == MASK {
      OctalParses(c.perms);
      AllInMask(c.perms);
    } else {
      SeparateParses(c);
      DescribedParses(Separate(c), Chmod(c.perms * c.mask, c.mask));
      if Unanimous(c) {
        if ComponentText(c.perms, c.mask, Component(User)) != "" {
          UnanimousParses(c);
        } else {
          assert Separate(c) == "";
        }
      }
    }
  }

  /** So the printed text has the same effect on every file. */
  lemma PrintedChangeMeansTheSame(c: Chmod, orig: Permissions)
    ensures Apply(orig, Parsed(ToString(c))) == Apply(orig, c)
  {
    PrintedChangeParses(c);
  }

  // ---------------------------------------------------------------------------------------------
  // What is printed if all three classes change alike

  /** These of the permissions to read, to write and to execute, for everyone. */
  function ForAll(r: bool, w: bool, x: bool): Permissions {
    (if r then ALL_READ else {}) + (if w then ALL_WRITE else {}) + (if x then ALL_EXECUTE else {})
  }

  function SignedLetters(sign: char, r: bool, w: bool, x: bool): string {
    if !r && !w && !x then ""
    else [sign] + ((if r then "r" else "") + (if w then "w" else "") + (if x then "x" else ""))
  }

  lemma ForAllHas(r: bool, w: bool, x: bool, who: Class, kind: Kind)
    ensures Bit(who, kind) in ForAll(r, w, x) <==> (kind == Read && r) || (kind == Write && w) || (kind == Execute && x)
  {
    match who case User => case Group => case Other =>
  }

  lemma PartFlags(p: Permissions, who: Class, r: bool, w: bool, x: bool)
    requires forall b :: b in p <==> b in Component(who) && b in ForAll(r, w, x)
    ensures FlagsOf(p) == Flags(r, w, x, false, false)
    ensures p != Component(who)
  {
    ForAllHas(r, w, x, who, Read);
    ForAllHas(r, w, x, who, Write);
    ForAllHas(r, w, x, who, Execute);
    ForAllHas(r, w, x, who, Special);
    OneBit(p, ALL_READ, who, Read);
    OneBit(p, ALL_WRITE, who, Write);
    OneBit(p, ALL_EXECUTE, who, Execute);
    SpecialBit(p, who);
  }

  lemma SignedLettersAre(sign: char, r: bool, w: bool, x: bool)
    ensures Signed(sign, Flags(r, w, x, false, false)) == SignedLetters(sign, r, w, x)
  {
  }

  lemma AlikeComponent(a: (bool, bool, bool), t: (bool, bool, bool), who: Class)
    requires !(a.0 && t.0) && !(a.1 && t.1) && !(a.2 && t.2)
    ensures var add, take := ForAll(a.0, a.1, a.2), ForAll(t.0, t.1, t.2);
            ComponentText(add, add + take, Component(who))
            == SignedLetters('+', a.0, a.1, a.2) + SignedLetters('-', t.0, t.1, t.2)
  {
    var add, take, w := ForAll(a.0, a.1, a.2), ForAll(t.0, t.1, t.2), Component(who);
    var m := (add + take) * w;
    var p := add * m;
    forall b: Bit ensures b in m - p <==> b in w && b in take {
      ForAllHas(a.0, a.1, a.2, b.who, b.kind);
      ForAllHas(t.0, t.1, t.2, b.who, b.kind);
    }
    ForAllHas(a.0, a.1, a.2, who, Special);
    ForAllHas(t.0, t.1, t.2, who, Special);
    assert Bit(who, Special) in w && Bit(who, Special) !in m;
    PartFlags(p, who, a.0, a.1, a.2);
    PartFlags(m - p, who, t.0, t.1, t.2);
    SignedLettersAre('+', a.0, a.1, a.2);
    SignedLettersAre('-', t.0, t.1, t.2);
  }

  /** A change that is the same for the three classes is printed once and without naming any. */
  lemma AlikeIsPrintedOnce(a: (bool, bool, bool), t: (bool, bool, bool))
    requires !(a.0 && t.0) && !(a.1 && t.1) && !(a.2 && t.2)
    ensures var add, take := ForAll(a.0, a.1, a.2), ForAll(t.0, t.1, t.2);
            ToString(Chmod(add, add + take))
            == SignedLetters('+', a.0, a.1, a.2) + SignedLetters('-', t.0, t.1, t.2)
  {
    AlikeComponent(a, t, User);
    AlikeComponent(a, t, Group);
    AlikeComponent(a, t, Other);
    ForAllHas(a.0, a.1, a.2, User, Special);
    ForAllHas(t.0, t.1, t.2, User, Special);
    assert Bit(User, Special) in MASK;
  }
}

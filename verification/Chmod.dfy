/**
 * Changes of file permissions: a text in the style of the chmod utility (octal or symbolic mode) is
 * compiled to one pair of permissions and mask, and such a pair can be printed again.
 */
module Chmods {
  import opened Text

  datatype Class = User | Group | Other

  /** Special is setuid for the user, setgid for the group and the sticky bit for the others. */
  datatype Kind = Read | Write | Execute | Special

  datatype Bit = Bit(who: Class, kind: Kind)

  /** A bit mask, as the set of its bits. */
  type Permissions = set<Bit>

  const ALL_READ: Permissions := {Bit(User, Read), Bit(Group, Read), Bit(Other, Read)}
  const ALL_WRITE: Permissions := {Bit(User, Write), Bit(Group, Write), Bit(Other, Write)}
  const ALL_EXECUTE: Permissions := {Bit(User, Execute), Bit(Group, Execute), Bit(Other, Execute)}
  const ALL_SETID: Permissions := {Bit(User, Special), Bit(Group, Special)}
  const STICKY: Permissions := {Bit(Other, Special)}
  const SPECIAL: Permissions := ALL_SETID + STICKY
  const UGO_MASK: Permissions := ALL_READ + ALL_WRITE + ALL_EXECUTE
  const MASK: Permissions := UGO_MASK + SPECIAL

  /** The bits that a clause for the user, the group or the others may change. */
  function Component(who: Class): Permissions {
    {Bit(who, Read), Bit(who, Write), Bit(who, Execute), Bit(who, Special)}
  }

  datatype Chmod = Chmod(perms: Permissions, mask: Permissions)

  const UNCHANGED := Chmod({}, {})

  function Apply(orig: Permissions, change: Chmod): Permissions {
    (orig - change.mask) + (change.perms * change.mask)
  }

  // ---------------------------------------------------------------------------------------------
  // The symbolic grammar, and what each operator does

  /** One operator of a clause: `+`, `-` or `=`, for whom, and which permissions. */
  datatype Change = Change(operator: char, who: Permissions, perms: Permissions)

  predicate IsOperator(c: char) {
    c == '+' || c == '-' || c == '='
  }

  /** What a single operator means for the permissions of a file. */
  function Effect(c: Change, orig: Permissions): Permissions {
    var named := c.perms * c.who;
    if c.operator == '+' then orig + named
    else if c.operator == '-' then orig - named
    else (orig - c.who) + named
  }

  function Meaning(changes: seq<Change>, orig: Permissions): Permissions {
    if changes == [] then orig else Meaning(changes[1..], Effect(changes[0], orig))
  }

  function WhoOf(c: char): Permissions {
    if c == 'u' then Component(User) else if c == 'g' then Component(Group) else if c == 'o' then Component(Other)
    else if c == 'a' then MASK else {}
  }

  predicate IsWho(c: char) {
    c == 'u' || c == 'g' || c == 'o' || c == 'a'
  }

  function PermsOf(c: char): Permissions {
    if c == 'r' then ALL_READ else if c == 'w' then ALL_WRITE else if c == 'x' then ALL_EXECUTE
    else if c == 's' then ALL_SETID else if c == 't' then STICKY else {}
  }

  predicate IsLetter(c: char) {
    c == 'r' || c == 'w' || c == 'x' || c == 's' || c == 't'
  }

  function WhoLength(s: string): (n: nat)
    ensures n <= |s|
    ensures forall i :: 0 <= i < n ==> IsWho(s[i])
    ensures n < |s| ==> !IsWho(s[n])
  {
    if s != "" && IsWho(s[0]) then 1 + WhoLength(s[1..]) else 0
  }

  function LettersLength(s: string): (n: nat)
    ensures n <= |s|
    ensures forall i :: 0 <= i < n ==> IsLetter(s[i])
    ensures n < |s| ==> !IsLetter(s[n])
  {
    if s != "" && IsLetter(s[0]) then 1 + LettersLength(s[1..]) else 0
  }

  function Who(s: string): Permissions {
    if s == "" then {} else Who(s[..|s| - 1]) + WhoOf(s[|s| - 1])
  }

  function Letters(s: string): Permissions {
    if s == "" then {} else Letters(s[..|s| - 1]) + PermsOf(s[|s| - 1])
  }

  /** The operators of one clause, each followed by its letters. */
  function Actions(who: Permissions, s: string): Option<seq<Change>>
    decreases |s|
  {
    if s == "" then None
    else
      var n := 1 + LettersLength(s[1..]);
      if n < |s| && !IsOperator(s[n]) then None
      else if !IsOperator(s[0]) then None
      else
        var first := Change(s[0], who, Letters(s[1..n]));
        if n == |s| then Some([first])
        else
          match Actions(who, s[n..])
          case None => None
          case Some(more) => Some([first] + more)
  }

  function Clause(s: string): Option<seq<Change>> {
    var n := WhoLength(s);
    Actions(if n == 0 then MASK else Who(s[..n]), s[n..])
  }

  /** The one after the other, if both are well-formed. */
  function Both(a: Option<seq<Change>>, b: Option<seq<Change>>): Option<seq<Change>> {
    if a.Some? && b.Some? then Some(a.value + b.value) else None
  }

  function Clauses(segments: seq<string>): Option<seq<Change>> {
    if segments == [] then Some([]) else Both(Clause(segments[0]), Clauses(segments[1..]))
  }

  /** What lies between the commas; always at least one text. */
  function Split(s: string): (r: seq<string>)
    ensures r != []
  {
    if s == "" then [""]
    else if s[0] == ',' then [""] + Split(s[1..])
    else
      var rest := Split(s[1..]);
      [[s[0]] + rest[0]] + rest[1..]
  }

  // ---------------------------------------------------------------------------------------------
  // Compilation

  function Compiled(r: Chmod, c: Change): Chmod {
    var named := c.perms * c.who;
    if c.operator == '+' then Chmod(r.perms + named, r.mask + named)
    else if c.operator == '-' then Chmod(r.perms - named, r.mask + named)
    else Chmod((r.perms - c.who) + named, r.mask + c.who)
  }

  function CompiledAll(r: Chmod, changes: seq<Change>): Chmod
    decreases |changes|
  {
    if changes == [] then r else CompiledAll(Compiled(r, changes[0]), changes[1..])
  }

  lemma CompiledMeans(r: Chmod, c: Change, orig: Permissions)
    ensures Apply(orig, Compiled(r, c)) == Effect(c, Apply(orig, r))
  {
  }

  /** One pair stands for any number of operators, applied one after the other. */
  lemma {:induction false} CompiledAllMeans(r: Chmod, changes: seq<Change>, orig: Permissions)
    ensures Apply(orig, CompiledAll(r, changes)) == Meaning(changes, Apply(orig, r))
    decreases |changes|
  {
    if changes != [] {
      CompiledMeans(r, changes[0], orig);
      CompiledAllMeans(Compiled(r, changes[0]), changes[1..], orig);
    }
  }

  lemma {:induction false} CompiledAppend(r: Chmod, a: seq<Change>, b: seq<Change>)
    ensures CompiledAll(r, a + b) == CompiledAll(CompiledAll(r, a), b)
    decreases |a|
  {
    if a == [] {
      assert a + b == b;
    } else {
      assert (a + b)[1..] == a[1..] + b;
      CompiledAppend(Compiled(r, a[0]), a[1..], b);
    }
  }

  /** What becomes of `r` by operators that may be malformed. */
  function Outcome(r: Chmod, changes: Option<seq<Change>>): Option<Chmod> {
    match changes
    case None => None
    case Some(c) => Some(CompiledAll(r, c))
  }

  lemma OutcomeBoth(r: Chmod, a: Option<seq<Change>>, b: Option<seq<Change>>)
    ensures Outcome(r, Both(a, b)) == if a.None? then None else Outcome(Outcome(r, a).value, b)
  {
    if a.Some? && b.Some? {
      CompiledAppend(r, a.value, b.value);
    }
  }

  function Symbolic(segments: seq<string>): Chmod {
    match Outcome(UNCHANGED, Clauses(segments))
    case None => UNCHANGED
    case Some(c) => c
  }

  // ---------------------------------------------------------------------------------------------
  // Octal modes

  predicate IsOctal(c: char) {
    '0' <= c <= '7'
  }

  /** A digit's bits, shifted to its place: others, group, user, or the special bits. */
  function DigitBits(c: char, place: nat): Permissions {
    var high, middle, low := DigitBit(place, 0), DigitBit(place, 1), DigitBit(place, 2);
    (if '4' <= c <= '7' then {high} else {})
    + (if c == '2' || c == '3' || c == '6' || c == '7' then {middle} else {})
    + (if c == '1' || c == '3' || c == '5' || c == '7' then {low} else {})
  }

  function ClassAt(place: nat): Class {
    if place == 0 then Other else if place == 1 then Group else User
  }

  function DigitBit(place: nat, index: nat): Bit {
    if place >= 3 then Bit(if index == 0 then User else if index == 1 then Group else Other, Special)
    else Bit(ClassAt(place), if index == 0 then Read else if index == 1 then Write else Execute)
  }

  /** The value of octal digits of which the last one stands at the given place; any digit beyond the
      fourth place must be zero. */
  function OctalValue(s: string, place: nat): Option<Permissions> {
    if s == "" then Some({})
    else
      var c := s[|s| - 1];
      if !IsOctal(c) || (place >= 4 && c != '0') then None
      else
        match OctalValue(s[..|s| - 1], place + 1)
        case None => None
        case Some(v) => Some(v + if place < 4 then DigitBits(c, place) else {})
  }

  /** Five digits or a special bit set them all; else the special bits are left alone. */
  function Octal(s: string): Chmod {
    match OctalValue(s, 0)
    case None => UNCHANGED
    case Some(perms) => Chmod(perms, if |s| > 4 || perms * SPECIAL != {} then MASK else UGO_MASK)
  }

  function Parsed(s: string): Chmod {
    if s != "" && IsOctal(s[0]) then Octal(s) else Symbolic(Split(s))
  }

  /** A symbolic mode does to any file what its operators do in order, or nothing at all if any part
      of it is malformed. */
  lemma SymbolicModeMeans(s: string, orig: Permissions)
    requires s == "" || !IsOctal(s[0])
    ensures Apply(orig, Parsed(s))
         == match Clauses(Split(s)) case None => orig case Some(changes) => Meaning(changes, orig)
  {
    match Clauses(Split(s)) {
      case None =>
      case Some(changes) =>
        CompiledAllMeans(UNCHANGED, changes, orig);
        assert Apply(orig, UNCHANGED) == orig;
    }
  }

  // ---------------------------------------------------------------------------------------------
  // What the letters and the digits stand for

  lemma WhoOne(c: char)
    ensures Who([c]) == WhoOf(c)
  {
    assert [c][..0] == "" && {} + WhoOf(c) == WhoOf(c);
  }

  lemma WhoThree(a: char, b: char, c: char)
    ensures Who([a, b, c]) == WhoOf(a) + WhoOf(b) + WhoOf(c)
  {
    WhoOne(a);
    assert [a, b, c][..2] == [a, b] && [a, b][..1] == [a];
  }

  lemma {:induction false} WhoLengthOf(front: string, rest: string)
    requires (forall i :: 0 <= i < |front| ==> IsWho(front[i])) && (rest == "" || !IsWho(rest[0]))
    ensures WhoLength(front + rest) == |front|
  {
    if front == "" {
      assert front + rest == rest;
    } else {
      assert (front + rest)[1..] == front[1..] + rest;
      WhoLengthOf(front[1..], rest);
    }
  }

  lemma ClauseOfThree(a: char, b: char, c: char, rest: string)
    requires IsWho(a) && IsWho(b) && IsWho(c) && (rest == "" || !IsWho(rest[0]))
    ensures Clause([a, b, c] + rest) == Actions(WhoOf(a) + WhoOf(b) + WhoOf(c), rest)
  {
    WhoThree(a, b, c);
    WhoLengthOf([a, b, c], rest);
    var s := [a, b, c] + rest;
    assert s[3..] == rest && s[..3] == [a, b, c];
  }

  lemma ClauseOfOne(a: char, rest: string)
    requires IsWho(a) && (rest == "" || !IsWho(rest[0]))
    ensures Clause([a] + rest) == Actions(WhoOf(a), rest)
  {
    WhoOne(a);
    assert ([a] + rest)[1..] == rest && ([a] + rest)[..1] == [a];
  }

  /** A clause for all is one for the user, the group and the others, in any order, and one without who. */
  lemma AllMeansEveryone(a: char, b: char, c: char, rest: string)
    requires {a, b, c} == {'u', 'g', 'o'} && (rest == "" || !IsWho(rest[0]))
    ensures Clause(['a'] + rest) == Clause([a, b, c] + rest) == Clause(rest)
  {
    EveryoneIsMask(a, b, c);
    assert a in {a, b, c} && b in {a, b, c} && c in {a, b, c};
    ClauseOfThree(a, b, c, rest);
    ClauseOfOne('a', rest);
    assert rest[0..] == rest;
  }

  lemma EveryoneIsMask(a: char, b: char, c: char)
    requires {a, b, c} == {'u', 'g', 'o'}
    ensures WhoOf(a) + WhoOf(b) + WhoOf(c) == MASK
  {
    assert a in {'u', 'g', 'o'} && b in {'u', 'g', 'o'} && c in {'u', 'g', 'o'};
    assert 'u' in {a, b, c} && 'g' in {a, b, c} && 'o' in {a, b, c};
    assert Component(User) + Component(Group) + Component(Other) == MASK;
  }

  /** Bit number 2, 1 or 0 of an octal digit. */
  predicate DigitHas(c: char, bit: nat)
    requires bit < 3
  {
    var d := c as int - '0' as int;
    if bit == 2 then d >= 4 else if bit == 1 then d % 4 >= 2 else d % 2 == 1
  }

  lemma DigitBitsAre(c: char, place: nat)
    requires IsOctal(c) && place < 3
    ensures var who := ClassAt(place);
            && (Bit(who, Read) in DigitBits(c, place) <==> DigitHas(c, 2))
            && (Bit(who, Write) in DigitBits(c, place) <==> DigitHas(c, 1))
            && (Bit(who, Execute) in DigitBits(c, place) <==> DigitHas(c, 0))
            && forall b :: b in DigitBits(c, place) ==> b.who == who && b.kind != Special
  {
    assert c in {'0', '1', '2', '3', '4', '5', '6', '7'};
  }

  lemma ThreeDigitsValue(u: char, g: char, o: char)
    requires IsOctal(u) && IsOctal(g) && IsOctal(o)
    ensures OctalValue([u, g, o], 0) == Some(DigitBits(u, 2) + DigitBits(g, 1) + DigitBits(o, 0))
  {
    assert [u, g, o][..2] == [u, g] && [u, g][..1] == [u] && [u][..0] == "";
    assert {} + DigitBits(u, 2) == DigitBits(u, 2);
    assert OctalValue([u], 2) == Some(DigitBits(u, 2));
    assert OctalValue([u, g], 1) == Some(DigitBits(u, 2) + DigitBits(g, 1));
  }

  lemma NoSpecial(u: char, g: char, o: char)
    requires IsOctal(u) && IsOctal(g) && IsOctal(o)
    ensures (DigitBits(u, 2) + DigitBits(g, 1) + DigitBits(o, 0)) * SPECIAL == {}
  {
    DigitBitsAre(u, 2);
    DigitBitsAre(g, 1);
    DigitBitsAre(o, 0);
    assert forall b :: b in SPECIAL ==> b.kind == Special;
  }

  lemma ThreeDigitsParse(u: char, g: char, o: char)
    requires IsOctal(u) && IsOctal(g) && IsOctal(o)
    ensures Parsed([u, g, o]) == Chmod(DigitBits(u, 2) + DigitBits(g, 1) + DigitBits(o, 0), UGO_MASK)
  {
    ThreeDigitsValue(u, g, o);
    NoSpecial(u, g, o);
  }

  lemma Masked(orig: Permissions, perms: Permissions, b: Bit)
    ensures b in Apply(orig, Chmod(perms, UGO_MASK)) <==> if b.kind == Special then b in orig else b in perms
  {
    match b
    case Bit(User, Read) | Bit(User, Write) | Bit(User, Execute) =>
    case Bit(Group, Read) | Bit(Group, Write) | Bit(Group, Execute) =>
    case Bit(Other, Read) | Bit(Other, Write) | Bit(Other, Execute) =>
    case Bit(_, Special) =>
  }

  /** The bits of three digits that belong to one class are those of its digit. */
  lemma DigitsOf(u: char, g: char, o: char, who: Class, kind: Kind)
    requires IsOctal(u) && IsOctal(g) && IsOctal(o)
    ensures var all := DigitBits(u, 2) + DigitBits(g, 1) + DigitBits(o, 0);
            Bit(who, kind) in all <==>
              if who == User then Bit(who, kind) in DigitBits(u, 2)
              else if who == Group then Bit(who, kind) in DigitBits(g, 1) else Bit(who, kind) in DigitBits(o, 0)
  {
    DigitBitsAre(u, 2);
    DigitBitsAre(g, 1);
    DigitBitsAre(o, 0);
  }

  /** Three octal digits give the user, the group and the others exactly these permissions to read,
      write and execute, and leave the special bits alone. */
  lemma ThreeDigitsMean(u: char, g: char, o: char, orig: Permissions, who: Class, kind: Kind)
    requires IsOctal(u) && IsOctal(g) && IsOctal(o)
    ensures var c := if who == User then u else if who == Group then g else o;
            Bit(who, kind) in Apply(orig, Parsed([u, g, o])) <==>
              match kind
              case Read => DigitHas(c, 2)
              case Write => DigitHas(c, 1)
              case Execute => DigitHas(c, 0)
              case Special => Bit(who, Special) in orig
  {
    ThreeDigitsParse(u, g, o);
    Masked(orig, DigitBits(u, 2) + DigitBits(g, 1) + DigitBits(o, 0), Bit(who, kind));
    DigitsOf(u, g, o, who, kind);
    match who
    case User => DigitBitsAre(u, 2);
    case Group => DigitBitsAre(g, 1);
    case Other => DigitBitsAre(o, 0);
  }

  /** Whether a letter for who stands for the class. */
  predicate Selects(w: char, who: Class) {
    w == 'a' || (w == 'u' && who == User) || (w == 'g' && who == Group) || (w == 'o' && who == Other)
  }

  /** Whether a permission letter stands for the bit: `s` for setuid and setgid, `t` for the sticky bit. */
  predicate Stands(l: char, b: Bit) {
    || (l == 'r' && b.kind == Read)
    || (l == 'w' && b.kind == Write)
    || (l == 'x' && b.kind == Execute)
    || (l == 's' && b.kind == Special && b.who != Other)
    || (l == 't' && b.kind == Special && b.who == Other)
  }

  lemma WhoMeans(w: char, b: Bit)
    ensures b in WhoOf(w) <==> Selects(w, b.who)
  {
    match b
    case Bit(User, Read) | Bit(User, Write) | Bit(User, Execute) | Bit(User, Special) =>
    case Bit(Group, Read) | Bit(Group, Write) | Bit(Group, Execute) | Bit(Group, Special) =>
    case Bit(Other, Read) | Bit(Other, Write) | Bit(Other, Execute) | Bit(Other, Special) =>
  }

  lemma PermsMean(l: char, b: Bit)
    ensures b in PermsOf(l) <==> Stands(l, b)
  {
    match b
    case Bit(User, Read) | Bit(User, Write) | Bit(User, Execute) | Bit(User, Special) =>
    case Bit(Group, Read) | Bit(Group, Write) | Bit(Group, Execute) | Bit(Group, Special) =>
    case Bit(Other, Read) | Bit(Other, Write) | Bit(Other, Execute) | Bit(Other, Special) =>
  }

  lemma OneOperatorParses(w: char, op: char, l: char)
    requires IsWho(w) && IsOperator(op) && IsLetter(l)
    ensures Parsed([w, op, l]) == Compiled(UNCHANGED, Change(op, WhoOf(w), PermsOf(l)))
  {
    var s := [w, op, l];
    ClauseOfOne(w, [op, l]);
    assert [w] + [op, l] == s;
    assert s[1..] == [op, l] && s[1..][1..] == [l] && s[1..][1..][1..] == "";
    assert LettersLength([l]) == 1;
    assert [op, l][1..] == [l] && [op, l][1..2] == [l] && [l][..0] == "";
    assert Letters([l]) == Letters([l][..0]) + PermsOf(l) == PermsOf(l);
    var c := Change(op, WhoOf(w), PermsOf(l));
    assert Clause(s) == Some([c]);
    NothingToSplit(s);
    assert Clauses([s]) == Both(Some([c]), Clauses([s][1..])) && [c] + [] == [c];
    assert CompiledAll(UNCHANGED, [c]) == Compiled(UNCHANGED, c) by {
      assert [c][1..] == [];
    }
  }

  lemma {:induction false} NothingToSplit(s: string)
    requires ',' !in s
    ensures Split(s) == [s]
  {
    if s != "" {
      NothingToSplit(s[1..]);
      assert [s[0]] + s[1..] == s;
    }
  }

  /** What one operator with one letter does to any bit of a file. */
  lemma OneOperatorMeans(w: char, op: char, l: char, orig: Permissions, b: Bit)
    requires IsWho(w) && IsOperator(op) && IsLetter(l)
    ensures b in Apply(orig, Parsed([w, op, l])) <==>
              if op == '+' then b in orig || (Selects(w, b.who) && Stands(l, b))
              else if op == '-' then b in orig && !(Selects(w, b.who) && Stands(l, b))
              else if Selects(w, b.who) then Stands(l, b) else b in orig
  {
    var c := Change(op, WhoOf(w), PermsOf(l));
    OneOperatorParses(w, op, l);
    CompiledMeans(UNCHANGED, c, orig);
    assert Apply(orig, UNCHANGED) == orig;
    WhoMeans(w, b);
    PermsMean(l, b);
  }

  /** The bits of four digits: the special ones, and those of the three classes. */
  function FourBits(x: char, u: char, g: char, o: char): Permissions {
    DigitBits(x, 3) + (DigitBits(u, 2) + DigitBits(g, 1) + DigitBits(o, 0))
  }

  lemma FourDigitsValue(x: char, u: char, g: char, o: char)
    requires IsOctal(x) && IsOctal(u) && IsOctal(g) && IsOctal(o)
    ensures OctalValue([x, u, g, o], 0) == Some(FourBits(x, u, g, o))
    ensures OctalValue(['0', x, u, g, o], 0) == Some(FourBits(x, u, g, o))
  {
    SpecialDigit(x);
    LeadingDigits([x], u, g, o);
    LeadingDigits(['0', x], u, g, o);
    assert [x] + [u, g, o] == [x, u, g, o];
    assert ['0', x] + [u, g, o] == ['0', x, u, g, o];
  }

  lemma SpecialDigit(x: char)
    requires IsOctal(x)
    ensures OctalValue([x], 3) == Some(DigitBits(x, 3)) && OctalValue(['0', x], 3) == Some(DigitBits(x, 3))
  {
    var none: Permissions := {};
    assert none + DigitBits(x, 3) == DigitBits(x, 3) && none + none == none;
    assert [x][..0] == "" && ['0'][..0] == "" && ['0', x][..1] == ['0'];
    assert OctalValue(['0'], 4) == Some(none + none);
  }

  lemma LeadingDigits(front: string, u: char, g: char, o: char)
    requires IsOctal(u) && IsOctal(g) && IsOctal(o) && OctalValue(front, 3).Some?
    ensures OctalValue(front + [u, g, o], 0)
         == Some(OctalValue(front, 3).value + (DigitBits(u, 2) + DigitBits(g, 1) + DigitBits(o, 0)))
  {
    var v := OctalValue(front, 3).value;
    var a, b, c := front + [u], front + [u, g], front + [u, g, o];
    assert a[..|a| - 1] == front && b[..|b| - 1] == a && c[..|c| - 1] == b;
    assert OctalValue(a, 2) == Some(v + DigitBits(u, 2));
    assert OctalValue(b, 1) == Some(v + DigitBits(u, 2) + DigitBits(g, 1));
    assert v + DigitBits(u, 2) + DigitBits(g, 1) + DigitBits(o, 0)
        == v + (DigitBits(u, 2) + DigitBits(g, 1) + DigitBits(o, 0));
  }

  /** The special digit: 4 for the user, 2 for the group, 1 for the others. */
  predicate SpecialHas(x: char, who: Class) {
    DigitHas(x, if who == User then 2 else if who == Group then 1 else 0)
  }

  lemma SpecialBitsAre(x: char, who: Class, kind: Kind)
    requires IsOctal(x)
    ensures Bit(who, kind) in DigitBits(x, 3) <==> kind == Special && SpecialHas(x, who)
  {
    assert x in {'0', '1', '2', '3', '4', '5', '6', '7'};
  }

  lemma FourDigitsHave(x: char, u: char, g: char, o: char, who: Class, kind: Kind)
    requires IsOctal(x) && IsOctal(u) && IsOctal(g) && IsOctal(o)
    ensures var c := if who == User then u else if who == Group then g else o;
            Bit(who, kind) in FourBits(x, u, g, o) <==>
              match kind
              case Read => DigitHas(c, 2)
              case Write => DigitHas(c, 1)
              case Execute => DigitHas(c, 0)
              case Special => SpecialHas(x, who)
  {
    SpecialBitsAre(x, who, kind);
    DigitsOf(u, g, o, who, kind);
    match who
    case User => DigitBitsAre(u, 2);
    case Group => DigitBitsAre(g, 1);
    case Other => DigitBitsAre(o, 0);
  }

  lemma SpecialIsNonZero(x: char, u: char, g: char, o: char)
    requires IsOctal(x) && IsOctal(u) && IsOctal(g) && IsOctal(o)
    ensures FourBits(x, u, g, o) * SPECIAL == {} <==> x == '0'
  {
    NoSpecial(u, g, o);
    SpecialBitsAre(x, User, Special);
    SpecialBitsAre(x, Group, Special);
    SpecialBitsAre(x, Other, Special);
    var all := FourBits(x, u, g, o);
    assert Bit(User, Special) in SPECIAL && Bit(Group, Special) in SPECIAL && Bit(Other, Special) in SPECIAL;
    if x != '0' {
      assert SpecialHas(x, User) || SpecialHas(x, Group) || SpecialHas(x, Other);
      assert Bit(User, Special) in all * SPECIAL || Bit(Group, Special) in all * SPECIAL
          || Bit(Other, Special) in all * SPECIAL;
    } else {
      assert DigitBits(x, 3) == {};
    }
  }

  lemma AllMasked(orig: Permissions, perms: Permissions, who: Class, kind: Kind)
    ensures Bit(who, kind) in Apply(orig, Chmod(perms, MASK)) <==> Bit(who, kind) in perms
  {
    Masked(orig, perms, Bit(who, kind));
    assert MASK == UGO_MASK + SPECIAL;
    assert Bit(who, Special) in SPECIAL;
  }

  /** A fourth digit in front gives the special bits, unless it is zero: then they are left alone, as they
      are by three digits; a fifth digit, which can only be zero, makes it clear them. */
  lemma FourDigitsMean(x: char, u: char, g: char, o: char, orig: Permissions, who: Class, kind: Kind)
    requires IsOctal(x) && IsOctal(u) && IsOctal(g) && IsOctal(o)
    ensures kind != Special ==>
              var b, three := Bit(who, kind), Bit(who, kind) in Apply(orig, Parsed([u, g, o]));
              && (b in Apply(orig, Parsed([x, u, g, o])) <==> three)
              && (b in Apply(orig, Parsed(['0', x, u, g, o])) <==> three)
    ensures kind == Special ==>
              (Bit(who, kind) in Apply(orig, Parsed([x, u, g, o])) <==>
                if x == '0' then Bit(who, kind) in orig else SpecialHas(x, who))
              && (Bit(who, kind) in Apply(orig, Parsed(['0', x, u, g, o])) <==> SpecialHas(x, who))
  {
    var all := FourBits(x, u, g, o);
    FourDigitsValue(x, u, g, o);
    SpecialIsNonZero(x, u, g, o);
    FourDigitsHave(x, u, g, o, who, kind);
    AllMasked(orig, all, who, kind);
    Masked(orig, all, Bit(who, kind));
    ThreeDigitsMean(u, g, o, orig, who, kind);
    assert Parsed(['0', x, u, g, o]) == Chmod(all, MASK);
    assert Parsed([x, u, g, o]) == Chmod(all, if x == '0' then UGO_MASK else MASK);
  }
}

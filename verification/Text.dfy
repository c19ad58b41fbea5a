/** Strings, the searches over them that the engine uses, and their ordering. */
module Text {

  datatype Option<+T> = None | Some(value: T)

  /** What is done already, in front of what the rest comes to, if that succeeds. */
  function With<T>(done: seq<T>, rest: Option<seq<T>>): Option<seq<T>> {
    match rest
    case None => None
    case Some(more) => Some(done + more)
  }

  lemma WithNone<T>(rest: Option<seq<T>>)
    ensures With([], rest) == rest
  {
    if rest.Some? { assert [] + rest.value == rest.value; }
  }

  lemma WithOneMore<T>(done: seq<T>, x: T, rest: Option<seq<T>>)
    ensures With(done, With([x], rest)) == With(done + [x], rest)
  {
    if rest.Some? { assert done + ([x] + rest.value) == done + [x] + rest.value; }
  }

  lemma Regroup<T>(a: seq<T>, b: seq<T>, c: seq<T>)
    ensures a + (b + c) == a + b + c
  {}

  /** The part of a text before its first NUL. */
  function Terminated(s: string): (r: string)
    ensures |r| <= |s| && r == s[..|r|]
    ensures forall i :: 0 <= i < |r| ==> r[i] != '\0'
    ensures |r| < |s| ==> s[|r|] == '\0'
  {
    if s == "" || s[0] == '\0' then "" else [s[0]] + Terminated(s[1..])
  }

  /** Position of the first c in s, or |s| when there is none. */
  function FindFirst(s: string, c: char): (i: nat)
    ensures i <= |s|
    ensures forall k :: 0 <= k < i ==> s[k] != c
    ensures i < |s| ==> s[i] == c
  {
    if s == [] || s[0] == c then 0 else 1 + FindFirst(s[1..], c)
  }

  /** Position of the last c in s, or |s| when there is none. */
  function FindLast(s: string, c: char): (i: nat)
    ensures i <= |s|
    ensures i < |s| ==> s[i] == c && forall k :: i < k < |s| ==> s[k] != c
    ensures i == |s| ==> forall k :: 0 <= k < |s| ==> s[k] != c
  {
    if s == [] then 0
    else if s[|s| - 1] == c then |s| - 1
    else
      var i := FindLast(s[..|s| - 1], c);
      if i == |s| - 1 then |s| else i
  }

  /** Lower-casing of ASCII letters; other characters stay as they are. */
  function LowerChar(c: char): char {
    if 'A' <= c <= 'Z' then (c as int + 32) as char else c
  }

  function Lower(s: string): (r: string)
    ensures |r| == |s|
  {
    seq(|s|, i requires 0 <= i < |s| => LowerChar(s[i]))
  }

  predicate EqualNoCase(a: string, b: string) {
    Lower(a) == Lower(b)
  }

  /** The 26 capital letters from number 65 on become the small ones from number 97 on; nothing else
      changes. */
  lemma LowerMeans(s: string, i: nat)
    requires i < |s|
    ensures 65 <= s[i] as int < 91 ==> Lower(s)[i] as int == 97 + (s[i] as int - 65)
    ensures s[i] as int < 65 || s[i] as int >= 91 ==> Lower(s)[i] == s[i]
    ensures Lower("AMZ@[amz") == "amz@[amz"
  {
  }

  /** Lexicographic order on strings: the sign of wcscmp. */
  predicate Less(a: string, b: string) {
    if b == [] then false
    else if a == [] then true
    else a[0] < b[0] || (a[0] == b[0] && Less(a[1..], b[1..]))
  }

  lemma {:induction false} LessIrreflexive(a: string)
    ensures !Less(a, a)
  {
    if a != [] { LessIrreflexive(a[1..]); }
  }

  lemma {:induction false} LessTotal(a: string, b: string)
    ensures Less(a, b) || a == b || Less(b, a)
  {
    if a != [] && b != [] && a[0] == b[0] {
      LessTotal(a[1..], b[1..]);
      assert a == [a[0]] + a[1..] && b == [b[0]] + b[1..];
    }
  }

  lemma {:induction false} LessTransitive(a: string, b: string, c: string)
    requires Less(a, b) && Less(b, c)
    ensures Less(a, c)
  {
    if a != [] && a[0] == b[0] && b[0] == c[0] {
      LessTransitive(a[1..], b[1..], c[1..]);
    }
  }

  /** Where the two texts first differ, b goes on with a larger character, or a has ended. */
  predicate DiffersAt(a: string, b: string, i: nat) {
    i <= |a| && i < |b| && a[..i] == b[..i] && (i == |a| || a[i] < b[i])
  }

  lemma {:induction false} LessMeans(a: string, b: string)
    ensures Less(a, b) <==> exists i: nat :: DiffersAt(a, b, i)
  {
    if a != [] && b != [] && a[0] == b[0] {
      LessMeans(a[1..], b[1..]);
      if i: nat :| DiffersAt(a[1..], b[1..], i) {
        assert a[..i + 1] == [a[0]] + a[1..][..i] && b[..i + 1] == [b[0]] + b[1..][..i];
        assert DiffersAt(a, b, i + 1);
      }
      if i: nat :| DiffersAt(a, b, i) {
        assert a[1..][..i - 1] == a[..i][1..] && b[1..][..i - 1] == b[..i][1..];
        assert DiffersAt(a[1..], b[1..], i - 1);
      }
    } else if b != [] && (a == [] || a[0] < b[0]) {
      assert DiffersAt(a, b, 0);
    } else if b != [] {
      forall i: nat ensures !DiffersAt(a, b, i) { FirstDiffers(a, b, i); }
    }
  }

  lemma FirstDiffers(a: string, b: string, i: nat)
    requires a != [] && b != [] && a[0] != b[0]
    ensures DiffersAt(a, b, i) <==> i == 0 && a[0] < b[0]
  {
    if 0 < i <= |a| && i < |b| { assert a[..i][0] != b[..i][0]; }
  }

  /** Lexicographic order on lists of strings. */
  predicate LessList(a: seq<string>, b: seq<string>) {
    if b == [] then false
    else if a == [] then true
    else Less(a[0], b[0]) || (a[0] == b[0] && LessList(a[1..], b[1..]))
  }

  predicate ListDiffersAt(a: seq<string>, b: seq<string>, i: nat) {
    i <= |a| && i < |b| && a[..i] == b[..i] && (i == |a| || Less(a[i], b[i]))
  }

  lemma {:induction false} LessListMeans(a: seq<string>, b: seq<string>)
    ensures LessList(a, b) <==> exists i: nat :: ListDiffersAt(a, b, i)
  {
    if a != [] && b != [] && a[0] == b[0] {
      LessListMeans(a[1..], b[1..]);
      LessIrreflexive(a[0]);
      if i: nat :| ListDiffersAt(a[1..], b[1..], i) {
        assert a[..i + 1] == [a[0]] + a[1..][..i] && b[..i + 1] == [b[0]] + b[1..][..i];
        assert ListDiffersAt(a, b, i + 1);
      }
      if i: nat :| ListDiffersAt(a, b, i) {
        assert a[1..][..i - 1] == a[..i][1..] && b[1..][..i - 1] == b[..i][1..];
        assert ListDiffersAt(a[1..], b[1..], i - 1);
      }
    } else if b != [] && (a == [] || Less(a[0], b[0])) {
      assert ListDiffersAt(a, b, 0);
    } else if b != [] {
      forall i: nat ensures !ListDiffersAt(a, b, i) { FirstListDiffers(a, b, i); }
    }
  }

  lemma FirstListDiffers(a: seq<string>, b: seq<string>, i: nat)
    requires a != [] && b != [] && a[0] != b[0]
    ensures ListDiffersAt(a, b, i) <==> i == 0 && Less(a[0], b[0])
  {
    if 0 < i <= |a| && i < |b| { assert a[..i][0] != b[..i][0]; }
  }

  lemma {:induction false} LessListIrreflexive(a: seq<string>)
    ensures !LessList(a, a)
  {
    if a != [] {
      LessIrreflexive(a[0]);
      LessListIrreflexive(a[1..]);
    }
  }

  lemma {:induction false} LessListTotal(a: seq<string>, b: seq<string>)
    ensures LessList(a, b) || a == b || LessList(b, a)
  {
    if a != [] && b != [] {
      LessTotal(a[0], b[0]);
      if a[0] == b[0] {
        LessListTotal(a[1..], b[1..]);
        assert a == [a[0]] + a[1..] && b == [b[0]] + b[1..];
      }
    }
  }

  lemma {:induction false} LessListTransitive(a: seq<string>, b: seq<string>, c: seq<string>)
    requires LessList(a, b) && LessList(b, c)
    ensures LessList(a, c)
  {
    if a != [] {
      if a[0] == b[0] && b[0] == c[0] {
        LessIrreflexive(a[0]);
        LessListTransitive(a[1..], b[1..], c[1..]);
      } else if Less(a[0], b[0]) && Less(b[0], c[0]) {
        LessTransitive(a[0], b[0], c[0]);
      }
    }
  }
}

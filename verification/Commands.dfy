/** Command lines: quoting arguments so that they can be taken apart again. */
module Commands {
  import opened Text

  predicate IsSpace(c: char) {
    c == ' ' || c == '\t' || c == '\r' || c == '\n'
  }

  predicate IsNewline(c: char) {
    c == '\r' || c == '\n'
  }

  predicate ForcesQuotes(c: char) {
    c == ' ' || c == '\t' || c == '"' || c == '\''
  }

  predicate NeedsQuotes(arg: string) {
    arg == "" || exists i :: 0 <= i < |arg| && ForcesQuotes(arg[i])
  }

  predicate HasNewline(arg: string) {
    exists i :: 0 <= i < |arg| && IsNewline(arg[i])
  }

  /** Every quote doubled. */
  function Doubled(s: string): string {
    if s == "" then "" else (if s[0] == '"' then "\"\"" else [s[0]]) + Doubled(s[1..])
  }

  function Quoted(arg: string): (r: string)
    ensures r != ""
  {
    if NeedsQuotes(arg) then "\"" + Doubled(arg) + "\"" else arg
  }

  function Quote(args: seq<string>): string {
    if args == [] then "" else Quoted(args[0]) + Tail(args[1..])
  }

  /** The arguments after the first one. */
  function Tail(args: seq<string>): string
    decreases |args|
  {
    if args == [] then "" else " " + Quoted(args[0]) + Tail(args[1..])
  }

  // ---------------------------------------------------------------------------------------------
  // Taking a command line apart

  function SkipSpaces(s: string): (r: string)
    ensures |r| <= |s|
  {
    if s != "" && IsSpace(s[0]) then SkipSpaces(s[1..]) else s
  }

  datatype First = NoWord | Word(word: string, rest: string)

  /** The first word; `word` is what was read of it, if it has begun. */
  function ReadWord(s: string, quoted: bool, word: Option<string>): (r: First)
    ensures r.Word? ==> |r.rest| <= |s| && (word.None? ==> |r.rest| < |s|)
    decreases |s|
  {
    if s == "" then if quoted || word.None? then NoWord else Word(word.value, "")
    else if IsSpace(s[0]) && !quoted then
      if word.Some? then Word(word.value, SkipSpaces(s)) else ReadWord(s[1..], false, None)
    else
      var begun := if word.Some? then word.value else "";
      if s[0] != '"' then ReadWord(s[1..], quoted, Some(begun + [s[0]]))
      else if !quoted then ReadWord(s[1..], true, Some(begun))
      else if |s| > 1 && s[1] == '"' then ReadWord(s[2..], true, Some(begun + "\""))
      else ReadWord(s[1..], false, Some(begun))
  }

  /** All words, unless something is left that is none. */
  function ReadWords(s: string): Option<seq<string>>
    decreases |s|
  {
    if s == "" then Some([])
    else
      match ReadWord(s, false, None)
      case NoWord => None
      case Word(word, rest) =>
        match ReadWords(rest)
        case None => None
        case Some(more) => Some([word] + more)
  }

  /** A command may have empty arguments but not itself be empty. */
  function Unquote(s: string): seq<string> {
    match ReadWords(s)
    case None => []
    case Some(words) => if words != [] && words[0] == "" then [] else words
  }

  // ---------------------------------------------------------------------------------------------
  // One argument

  predicate Separated(rest: string) {
    rest == "" || IsSpace(rest[0])
  }

  lemma {:induction false} ReadDoubled(arg: string, rest: string, begun: string)
    requires Separated(rest)
    ensures ReadWord(Doubled(arg) + "\"" + rest, true, Some(begun)) == Word(begun + arg, SkipSpaces(rest))
    decreases |arg|
  {
    var s := Doubled(arg) + "\"" + rest;
    if arg == "" {
      assert s[1..] == rest;
      assert begun + arg == begun;
      WordEnds(rest, begun);
    } else {
      var tail := Doubled(arg[1..]) + "\"" + rest;
      if arg[0] == '"' {
        assert s[2..] == tail;
      } else {
        assert s[1..] == tail;
      }
      ReadDoubled(arg[1..], rest, begun + [arg[0]]);
      assert begun + [arg[0]] + arg[1..] == begun + arg;
    }
  }

  lemma WordEnds(rest: string, begun: string)
    requires Separated(rest)
    ensures ReadWord(rest, false, Some(begun)) == Word(begun, SkipSpaces(rest))
  {
  }

  lemma OpeningQuote(s: string)
    ensures ReadWord("\"" + s, false, None) == ReadWord(s, true, Some(""))
  {
    assert ("\"" + s)[1..] == s;
  }

  lemma ReadQuoted(arg: string, rest: string)
    requires NeedsQuotes(arg) && Separated(rest)
    ensures ReadWord(Quoted(arg) + rest, false, None) == Word(arg, SkipSpaces(rest))
  {
    var inner := Doubled(arg) + "\"" + rest;
    assert Quoted(arg) + rest == "\"" + inner;
    OpeningQuote(inner);
    ReadDoubled(arg, rest, "");
    assert "" + arg == arg;
  }

  predicate Unquotable(s: string) {
    forall i :: 0 <= i < |s| ==> !ForcesQuotes(s[i])
  }

  /** Without a newline, a bare text is read up to its end. */
  lemma {:induction false} ReadBare(text: string, rest: string, word: Option<string>)
    requires Unquotable(text) && !HasNewline(text) && Separated(rest) && (text != "" || word.Some?)
    ensures ReadWord(text + rest, false, word)
         == Word((if word.Some? then word.value else "") + text, SkipSpaces(rest))
    decreases |text|
  {
    var begun := if word.Some? then word.value else "";
    if text == "" {
      assert text + rest == rest;
      assert begun + text == begun;
      WordEnds(rest, begun);
    } else {
      assert (text + rest)[1..] == text[1..] + rest;
      assert !HasNewline(text[1..]) by {
        assert forall i :: 0 <= i < |text[1..]| ==> text[1..][i] == text[i + 1];
      }
      ReadBare(text[1..], rest, Some(begun + [text[0]]));
      assert begun + [text[0]] + text[1..] == begun + text;
    }
  }

  // ---------------------------------------------------------------------------------------------
  // Arguments that survive

  predicate Survives(arg: string) {
    NeedsQuotes(arg) || !HasNewline(arg)
  }

  predicate AllSurvive(args: seq<string>) {
    forall i :: 0 <= i < |args| ==> Survives(args[i])
  }

  lemma ReadArgument(arg: string, rest: string)
    requires Survives(arg) && Separated(rest)
    ensures ReadWord(Quoted(arg) + rest, false, None) == Word(arg, SkipSpaces(rest))
  {
    if NeedsQuotes(arg) {
      ReadQuoted(arg, rest);
    } else {
      ReadBare(arg, rest, None);
      assert "" + arg == arg;
    }
  }

  lemma QuotedStartsPlain(arg: string, rest: string)
    requires Survives(arg)
    ensures SkipSpaces(Quoted(arg) + rest) == Quoted(arg) + rest
  {
    if !NeedsQuotes(arg) {
      assert !IsNewline(arg[0]);
    }
  }

  lemma {:induction false} ReadQuote(args: seq<string>)
    requires AllSurvive(args)
    ensures ReadWords(Quote(args)) == Some(args)
    decreases |args|
  {
    if args != [] {
      var more := args[1..];
      ReadArgument(args[0], Tail(more));
      ReadQuote(more);
      if more != [] {
        assert Tail(more)[1..] == Quote(more);
        QuotedStartsPlain(more[0], Tail(more[1..]));
      }
      assert SkipSpaces(Tail(more)) == Quote(more);
      assert [args[0]] + more == args;
    }
  }

  // ---------------------------------------------------------------------------------------------
  // Arguments that do not: no word that is read has a newline, unless quotes protected it

  lemma {:induction false} SpacesChangeNothing(s: string)
    requires SkipSpaces(s) != ""
    ensures ReadWords(SkipSpaces(s)) == ReadWords(s)
    decreases |s|
  {
    if IsSpace(s[0]) {
      SpacesChangeNothing(s[1..]);
      assert s[1..] != "";
    }
  }

  ghost predicate ReadsSurvivors(s: string) {
    ReadWords(s).Some? ==> AllSurvive(ReadWords(s).value)
  }

  lemma SkippedReads(s: string)
    requires ReadsSurvivors(s)
    ensures ReadsSurvivors(SkipSpaces(s))
  {
    if SkipSpaces(s) != "" {
      SpacesChangeNothing(s);
    }
  }

  lemma WordThenReads(s: string, word: string, rest: string)
    requires s != "" && ReadWord(s, false, None) == Word(word, SkipSpaces(rest)) && Survives(word)
    requires ReadsSurvivors(rest)
    ensures ReadsSurvivors(s)
  {
    SkippedReads(rest);
  }

  lemma LeadingSpaceReads(s: string)
    requires s != "" && IsSpace(s[0]) && ReadsSurvivors(s[1..])
    ensures ReadsSurvivors(s)
  {
  }

  /** The position of the first newline. */
  function NewlineAt(s: string): (n: nat)
    ensures n <= |s| && !HasNewline(s[..n])
    ensures n < |s| ==> IsNewline(s[n])
  {
    if s == "" || IsNewline(s[0]) then 0
    else
      var n := 1 + NewlineAt(s[1..]);
      assert forall i :: 0 < i < n ==> s[..n][i] == s[1..][..n - 1][i - 1];
      n
  }

  lemma QuotedReads(arg: string, rest: string)
    requires NeedsQuotes(arg) && Separated(rest) && ReadsSurvivors(rest)
    ensures ReadsSurvivors(Quoted(arg) + rest)
  {
    ReadQuoted(arg, rest);
    WordThenReads(Quoted(arg) + rest, arg, rest);
  }

  lemma BareWordReads(word: string, rest: string)
    requires word != "" && Unquotable(word) && !HasNewline(word) && Separated(rest) && ReadsSurvivors(rest)
    ensures ReadsSurvivors(word + rest)
  {
    ReadBare(word, rest, None);
    assert "" + word == word;
    WordThenReads(word + rest, word, rest);
  }

  /** A stretch without quotes, in front of further arguments. */
  lemma {:induction false} BareReads(text: string, args: seq<string>)
    requires Unquotable(text)
    ensures ReadsSurvivors(text + Tail(args))
    decreases |args|, |text| + 1
  {
    if text == "" {
      TailReads(args);
      assert "" + Tail(args) == Tail(args);
    } else if IsNewline(text[0]) {
      BareReads(text[1..], args);
      assert (text + Tail(args))[1..] == text[1..] + Tail(args);
      LeadingSpaceReads(text + Tail(args));
    } else {
      var n := NewlineAt(text);
      BareReads(text[n..], args);
      BareWordReads(text[..n], text[n..] + Tail(args));
      assert text + Tail(args) == text[..n] + (text[n..] + Tail(args));
    }
  }

  lemma {:induction false} TailReads(args: seq<string>)
    ensures ReadsSurvivors(Tail(args))
    decreases |args|, 0
  {
    if args == [] {
      NothingReads();
    } else {
      if NeedsQuotes(args[0]) {
        TailReads(args[1..]);
        QuotedReads(args[0], Tail(args[1..]));
      } else {
        BareReads(args[0], args[1..]);
      }
      SpaceThenReads(Quoted(args[0]), Tail(args[1..]));
    }
  }

  lemma NothingReads()
    ensures ReadsSurvivors("")
  {
  }

  lemma SpaceThenReads(a: string, b: string)
    requires ReadsSurvivors(a + b)
    ensures ReadsSurvivors(" " + a + b)
  {
    var s := " " + a + b;
    assert s[1..] == a + b;
    LeadingSpaceReads(s);
  }

  lemma QuoteReads(args: seq<string>)
    ensures ReadsSurvivors(Quote(args))
  {
    if args != [] {
      if NeedsQuotes(args[0]) {
        TailReads(args[1..]);
        QuotedReads(args[0], Tail(args[1..]));
      } else {
        BareReads(args[0], args[1..]);
      }
    }
  }

  /** Quoting is undone exactly if the command itself is not empty, and every argument with a newline
      also has a character for which it is put in quotes. */
  lemma QuoteRoundTrip(args: seq<string>)
    ensures Unquote(Quote(args)) == args <==> (args == [] || args[0] != "") && AllSurvive(args)
  {
    if AllSurvive(args) {
      ReadQuote(args);
    } else {
      QuoteReads(args);
    }
    if args != [] && args[0] == "" {
      assert Unquote(Quote(args)) == [] by {
        ReadQuoted("", Tail(args[1..]));
      }
    }
  }

  // ---------------------------------------------------------------------------------------------
  // The loops

  lemma {:induction false} TailAppend(args: seq<string>, last: string)
    ensures Tail(args + [last]) == Tail(args) + " " + Quoted(last)
    decreases |args|
  {
    if args == [] {
      assert [] + [last] == [last] && [last][1..] == [];
      assert Tail([last]) == " " + Quoted(last) + "";
    } else {
      assert (args + [last])[1..] == args[1..] + [last];
      TailAppend(args[1..], last);
    }
  }

  lemma QuoteAppend(args: seq<string>, last: string)
    ensures Quote(args + [last]) == Quote(args) + (if args == [] then "" else " ") + Quoted(last)
    ensures Quote(args) == "" <==> args == []
  {
    if args == [] {
      assert [] + [last] == [last] && [last][1..] == [];
    } else {
      assert (args + [last])[1..] == args[1..] + [last];
      TailAppend(args[1..], last);
    }
  }

  method QuoteArgument(ret: string, arg: string) returns (r: string)
    ensures r == ret + Quoted(arg)
  {
    r := ret;
    if NeedsQuotes(arg) {
      r := r + "\"";
      r := r + Doubled(arg);
      r := r + "\"";
      assert r == ret + ("\"" + Doubled(arg) + "\"");
    } else {
      r := r + arg;
    }
  }

  method QuoteCommand(args: seq<string>) returns (ret: string)
    ensures ret == Quote(args)
  {
    ret := "";
    var i := 0;
    while i < |args|
      invariant 0 <= i <= |args|
      invariant ret == Quote(args[..i])
    {
      assert args[..i + 1] == args[..i] + [args[i]];
      QuoteAppend(args[..i], args[i]);
      if ret != "" {
        ret := ret + " ";
      }
      ret := QuoteArgument(ret, args[i]);
      i := i + 1;
    }
    assert args[..i] == args;
  }

  method UnquoteFirst(command: string) returns (ret: Option<string>, rest: string)
    ensures (match ret case None => NoWord case Some(word) => Word(word, rest)) == ReadWord(command, false, None)
    ensures ret.None? ==> rest == command
  {
    var quoted, i := false, 0;
    ret, rest := None, command;
    ghost var all := ReadWord(command, false, None);
    assert command[0..] == command;
    while i < |command|
      invariant 0 <= i <= |command|
      invariant quoted ==> ret.Some?
      invariant all == ReadWord(command[i..], quoted, ret)
      decreases |command| - i
    {
      var c := command[i];
      assert command[i..][1..] == command[i + 1..];
      if IsSpace(c) && !quoted {
        if ret.Some? {
          break;
        }
      } else {
        if ret.None? {
          ret := Some("");
        }
        if c == '"' {
          if !quoted {
            quoted := true;
          } else if i + 1 != |command| && command[i + 1] == '"' {
            ret := Some(ret.value + "\"");
            assert command[i..][2..] == command[i + 2..];
            i := i + 1;
          } else {
            quoted := false;
          }
        } else {
          ret := Some(ret.value + [c]);
        }
      }
      i := i + 1;
    }
    if quoted {
      ret := None;
    }
    if ret.Some? {
      ghost var from := command[i..];
      while i < |command| && IsSpace(command[i])
        invariant 0 <= i <= |command|
        invariant SkipSpaces(command[i..]) == SkipSpaces(from)
      {
        assert command[i..][1..] == command[i + 1..];
        i := i + 1;
      }
      rest := command[i..];
    }
  }

  method UnquoteCommand(text: string) returns (ret: seq<string>)
    ensures ret == Unquote(text)
  {
    ret := [];
    var command := text;
    ghost var all := ReadWords(text);
    WithNone(all);
    while command != ""
      invariant all == With(ret, ReadWords(command))
      decreases |command|
    {
      var part: Option<string>;
      ghost var before := command;
      part, command := UnquoteFirst(command);
      if part.None? {
        break;
      }
      WithOneMore(ret, part.value, ReadWords(command));
      ret := ret + [part.value];
    }
    if command != "" {
      ret := [];
    }
    assert ret + [] == ret;
    if ret != [] && ret[0] == "" {
      ret := [];
    }
  }

  // ---------------------------------------------------------------------------------------------
  // Command lines as a user may type them

  /** Blank, tab, carriage return or line feed. */
  predicate IsGapChar(c: char) { c == '\U{20}' || c == '\U{9}' || c == '\U{D}' || c == '\U{A}' }

  predicate IsGap(s: string) {
    forall i :: 0 <= i < |s| ==> IsGapChar(s[i])
  }

  /** A word that can be typed without quotes. */
  predicate Bare(s: string) {
    s != "" && forall i :: 0 <= i < |s| ==> !IsGapChar(s[i]) && s[i] != '"'
  }

  /** The text stands for the argument: quotes around it with every quote inside doubled, or as it is. */
  predicate Writes(text: string, arg: string) {
    text == "\"" + Doubled(arg) + "\"" || (text == arg && Bare(arg))
  }

  /** Texts with gaps behind them. */
  function Typed(texts: seq<string>, gaps: seq<string>): string
    requires |gaps| == |texts|
  {
    if texts == [] then "" else texts[0] + (gaps[0] + Typed(texts[1..], gaps[1..]))
  }

  lemma {:induction false} ReadPlain(text: string, rest: string, begun: string)
    requires Separated(rest) && forall i :: 0 <= i < |text| ==> !IsGapChar(text[i]) && text[i] != '"'
    ensures ReadWord(text + rest, false, Some(begun)) == Word(begun + text, SkipSpaces(rest))
    decreases |text|
  {
    if text == "" {
      assert text + rest == rest && begun + text == begun;
      WordEnds(rest, begun);
    } else {
      assert (text + rest)[1..] == text[1..] + rest;
      ReadPlain(text[1..], rest, begun + [text[0]]);
      assert begun + [text[0]] + text[1..] == begun + text;
    }
  }

  lemma ReadQuotedText(arg: string, rest: string)
    requires Separated(rest)
    ensures ReadWord("\"" + Doubled(arg) + "\"" + rest, false, None) == Word(arg, SkipSpaces(rest))
  {
    var inner := Doubled(arg) + "\"" + rest;
    assert "\"" + Doubled(arg) + "\"" + rest == "\"" + inner;
    OpeningQuote(inner);
    ReadDoubled(arg, rest, "");
    assert "" + arg == arg;
  }

  lemma ReadBareText(text: string, rest: string)
    requires Bare(text) && Separated(rest)
    ensures ReadWord(text + rest, false, None) == Word(text, SkipSpaces(rest))
  {
    assert (text + rest)[1..] == text[1..] + rest;
    ReadPlain(text[1..], rest, [text[0]]);
    assert "" + [text[0]] == [text[0]] && [text[0]] + text[1..] == text;
  }

  lemma ReadText(text: string, arg: string, rest: string)
    requires Writes(text, arg) && Separated(rest)
    ensures text != "" && !IsSpace(text[0])
    ensures ReadWord(text + rest, false, None) == Word(arg, SkipSpaces(rest))
  {
    if text == "\"" + Doubled(arg) + "\"" { ReadQuotedText(arg, rest); } else { ReadBareText(text, rest); }
  }

  lemma {:induction false} GapSkipped(gap: string, rest: string)
    requires IsGap(gap)
    ensures SkipSpaces(gap + rest) == SkipSpaces(rest)
    decreases |gap|
  {
    if gap == "" {
      assert gap + rest == rest;
    } else {
      assert (gap + rest)[1..] == gap[1..] + rest;
      GapSkipped(gap[1..], rest);
    }
  }

  lemma {:induction false} TypedReads(texts: seq<string>, args: seq<string>, gaps: seq<string>)
    requires |texts| == |args| == |gaps|
    requires forall i :: 0 <= i < |texts| ==> Writes(texts[i], args[i]) && IsGap(gaps[i])
    requires forall i :: 0 <= i < |texts| - 1 ==> gaps[i] != ""
    ensures ReadWords(Typed(texts, gaps)) == Some(args) && SkipSpaces(Typed(texts, gaps)) == Typed(texts, gaps)
    decreases |texts|
  {
    if texts != [] {
      var more := Typed(texts[1..], gaps[1..]);
      TypedReads(texts[1..], args[1..], gaps[1..]);
      assert gaps[0] == "" ==> more == "" && gaps[0] + more == "";
      assert gaps[0] != "" ==> (gaps[0] + more)[0] == gaps[0][0];
      ReadText(texts[0], args[0], gaps[0] + more);
      GapSkipped(gaps[0], more);
      assert [args[0]] + args[1..] == args;
    }
  }

  /** Words come back whatever separates them, and however each of them is written; but a command must
      not be empty, and one of gaps alone is none. */
  lemma TypedCommandReads(start: string, texts: seq<string>, args: seq<string>, gaps: seq<string>)
    requires |texts| == |args| == |gaps| && IsGap(start) && args != [] && args[0] != ""
    requires forall i :: 0 <= i < |texts| ==> Writes(texts[i], args[i]) && IsGap(gaps[i])
    requires forall i :: 0 <= i < |texts| - 1 ==> gaps[i] != ""
    ensures Unquote(start + Typed(texts, gaps)) == args
  {
    var typed := Typed(texts, gaps);
    TypedReads(texts, args, gaps);
    GapSkipped(start, typed);
    ReadText(texts[0], args[0], "");
    assert typed != "";
    SpacesChangeNothing(start + typed);
  }

  /** A quoted argument is in quotes exactly if it is empty or holds a blank, a tab or a quote of either
      kind; within them its quotes are doubled. */
  lemma QuotedMeans(arg: string)
    ensures Quoted(arg) == arg <==> arg != "" && ' ' !in arg && '\t' !in arg && '"' !in arg && '\'' !in arg
    ensures Quoted(arg) == arg || Quoted(arg) == "\"" + Doubled(arg) + "\""
    ensures Doubled("\"") == "\"\"" && ('"' !in arg ==> Doubled(arg) == arg)
  {
    DoubledShape(arg);
    assert Doubled("\"") == "\"\"" + Doubled("\""[1..]);
    if NeedsQuotes(arg) {
      assert |Quoted(arg)| == |Doubled(arg)| + 2;
    }
  }

  lemma {:induction false} DoubledShape(s: string)
    ensures |Doubled(s)| >= |s| && ('"' !in s ==> Doubled(s) == s)
  {
    if s != "" {
      DoubledShape(s[1..]);
    }
  }
}

/** The command line as written to the report: every argument quoted where needed. */
module DumpArgument {
  import opened Options

  /** A C string: bytes, the terminator not being part of it. */
  predicate ByteString(a: string) {
    forall i :: 0 <= i < |a| ==> 0 < a[i] as int < 256
  }

  // ----- quoting -----

  predicate Safe(c: char) {
    ('+' <= c <= ':') || ('@' <= c <= 'Z') || c == '_' || ('a' <= c <= 'z')
  }

  predicate AllSafe(a: string) {
    forall i :: 0 <= i < |a| ==> Safe(a[i])
  }

  /** A hexadecimal digit, lower case. */
  function Hex(n: int): char {
    var d := n % 16;
    if d < 10 then '0' + d as char else 'a' + (d - 10) as char
  }

  predicate Special(c: char) {
    c == '\\' || c == '"' || c == '$' || c == '`'
  }

  predicate Printable(c: char) {
    ' ' <= c <= '~'
  }

  function EscapeByte(c: char): string {
    if Special(c) then ['\\', c]
    else if !Printable(c) then ['\\', 'x', Hex(c as int / 16), Hex(c as int % 16)]
    else [c]
  }

  function Escape(a: string): string {
    if a == [] then [] else EscapeByte(a[0]) + Escape(a[1..])
  }

  function Quote(a: string): string {
    if AllSafe(a) then a else ['"'] + Escape(a) + ['"']
  }

  function Field(a: string, last: bool): string {
    Quote(a) + [if last then '\n' else ' ']
  }

  function Line(args: seq<string>): string {
    if args == [] then []
    else Quote(args[0]) + (if |args| == 1 then ['\n'] else [' '] + Line(args[1..]))
  }

  // ----- the code -----

  class ReportFile {
    var text: string

    constructor ()
      ensures text == []
    {
      text := [];
    }

    method Putc(c: char)
      modifies this
      ensures text == old(text) + [c]
    {
      text := text + [c];
    }

    method DumpArgument(a: string)
      modifies this
      ensures text == old(text) + Quote(a)
    {
      var p := 0;
      while p < |a| && Safe(a[p])
        invariant 0 <= p <= |a|
        invariant forall i :: 0 <= i < p ==> Safe(a[i])
      {
        p := p + 1;
      }
      if p == |a| {
        text := text + a;
        return;
      }
      Putc('"');
      EscapeInto(a);
      Putc('"');
      AppendIsAssociative(old(text), ['"'], Escape(a));
      AppendIsAssociative(old(text), ['"'] + Escape(a), ['"']);
    }

    method EscapeInto(a: string)
      modifies this
      ensures text == old(text) + Escape(a)
    {
      ghost var done := "";
      var p := 0;
      while p < |a|
        invariant 0 <= p <= |a|
        invariant text == old(text) + done
        invariant Escape(a) == done + Escape(a[p..])
      {
        var c := a[p];
        assert a[p..][1..] == a[p + 1..];
        AppendIsAssociative(done, EscapeByte(c), Escape(a[p + 1..]));
        AppendIsAssociative(old(text), done, EscapeByte(c));
        done := done + EscapeByte(c);
        if c == '\\' || c == '"' || c == '$' || c == '`' {
          text := text + ['\\', c];
        } else if c < ' ' || c > '~' {
          text := text + ['\\', 'x', Hex(c as int / 16), Hex(c as int % 16)];
        } else {
          Putc(c);
        }
        p := p + 1;
      }
    }

    /** One argument and the character behind it. */
    method WriteField(a: string, last: bool)
      modifies this
      ensures text == old(text) + Field(a, last)
    {
      DumpArgument(a);
      Putc(if last then '\n' else ' ');
      AppendIsAssociative(old(text), Quote(a), [if last then '\n' else ' ']);
    }

    /** The arguments on one line, separated by blanks. */
    method WriteCommandLine(args: seq<string>)
      modifies this
      ensures text == old(text) + Line(args)
    {
      ghost var done := "";
      for i := 0 to |args|
        invariant text == old(text) + done
        invariant Line(args) == done + Line(args[i..])
      {
        LineStep(args, i, old(text), done);
        WriteField(args[i], i == |args| - 1);
        done := done + Field(args[i], i == |args| - 1);
      }
    }
  }

  /** One argument more is written: `before` and `done` are what the file and the line had so far. */
  lemma LineStep(args: seq<string>, i: nat, before: string, done: string)
    requires i < |args| && Line(args) == done + Line(args[i..])
    ensures var field := Field(args[i], i == |args| - 1);
            Line(args) == done + field + Line(args[i + 1..]) && before + done + field == before + (done + field)
  {
    var field := Field(args[i], i == |args| - 1);
    assert args[i..][1..] == args[i + 1..];
    LineField(args[i..]);
    AppendIsAssociative(done, field, Line(args[i + 1..]));
    AppendIsAssociative(before, done, field);
  }

  lemma AppendIsAssociative(a: string, b: string, c: string)
    ensures a + (b + c) == a + b + c
  {
  }

  lemma LineField(args: seq<string>)
    requires args != []
    ensures Line(args) == Field(args[0], |args| == 1) + Line(args[1..])
  {
    if |args| == 1 {
      assert Line(args[1..]) == [];
    } else {
      AppendIsAssociative(Quote(args[0]), [' '], Line(args[1..]));
    }
  }

  // ----- reading it back -----

  function HexValue(c: char): Option<int> {
    if '0' <= c <= '9' then Some(c as int - '0' as int)
    else if 'a' <= c <= 'f' then Some(c as int - 'a' as int + 10)
    else None
  }

  datatype Read<T> = Bad | Got(value: T, rest: string)

  /** The inside of a quoted argument, up to the closing quote. */
  function Unquote(s: string): (r: Read<string>)
    ensures r.Got? ==> |r.rest| < |s|
  {
    if s == [] then Bad
    else if s[0] == '"' then Got([], s[1..])
    else if s[0] != '\\' then Prepend(s[0], Unquote(s[1..]))
    else if |s| < 2 then Bad
    else if s[1] != 'x' then Prepend(s[1], Unquote(s[2..]))
    else if |s| < 4 || HexValue(s[2]).None? || HexValue(s[3]).None? then Bad
    else
      var n := 16 * HexValue(s[2]).value + HexValue(s[3]).value;
      if n == 0 then Bad else Prepend(n as char, Unquote(s[4..]))
  }

  function Prepend(c: char, r: Read<string>): Read<string> {
    if r.Got? then Got([c] + r.value, r.rest) else Bad
  }

  predicate Separator(c: char) {
    c == ' ' || c == '\n'
  }

  /** An unquoted argument reaches to the next separator. */
  function Bare(s: string): (r: Read<string>)
    ensures r.Got? ==> |r.rest| <= |s|
  {
    if s == [] then Bad
    else if Separator(s[0]) then Got([], s)
    else Prepend(s[0], Bare(s[1..]))
  }

  function ReadArg(s: string): (r: Read<string>)
    ensures r.Got? ==> |r.rest| <= |s|
  {
    if s != [] && s[0] == '"' then Unquote(s[1..]) else Bare(s)
  }

  function ReadLine(s: string): Option<seq<string>>
    decreases |s|
  {
    var r := ReadArg(s);
    if r.Bad? || r.rest == [] then None
    else if r.rest == ['\n'] then Some([r.value])
    else if r.rest[0] == ' ' then
      var more := ReadLine(r.rest[1..]);
      if more.Some? then Some([r.value] + more.value) else None
    else None
  }

  lemma HexReadsBack(n: int)
    requires 0 <= n < 16
    ensures HexValue(Hex(n)) == Some(n)
  {
  }

  lemma {:induction false} EscapeReadsBack(a: string, rest: string)
    requires ByteString(a)
    ensures Unquote(Escape(a) + (['"'] + rest)) == Got(a, rest)
  {
    var close := ['"'] + rest;
    if a == [] {
      assert Escape(a) + close == close;
      assert close[1..] == rest;
    } else {
      EscapeReadsBack(a[1..], rest);
      ByteReadsBack(a[0], a[1..], Escape(a[1..]), close, rest);
      assert a == [a[0]] + a[1..];
    }
  }

  lemma ByteReadsBack(c: char, more: string, escaped: string, close: string, rest: string)
    requires 0 < c as int < 256 && Unquote(escaped + close) == Got(more, rest)
    ensures Unquote(EscapeByte(c) + escaped + close) == Got([c] + more, rest)
  {
    AppendIsAssociative(EscapeByte(c), escaped, close);
    UnquoteEscaped(c, escaped + close);
  }

  lemma UnquoteEscaped(c: char, tail: string)
    requires 0 < c as int < 256
    ensures Unquote(EscapeByte(c) + tail) == Prepend(c, Unquote(tail))
  {
    var s := EscapeByte(c) + tail;
    assert s[|EscapeByte(c)|..] == tail;
    if !Special(c) && !Printable(c) {
      HexReadsBack(c as int / 16);
      HexReadsBack(c as int % 16);
      assert 16 * (c as int / 16) + c as int % 16 == c as int;
    }
  }

  lemma {:induction false} BareReadsBack(a: string, rest: string)
    requires AllSafe(a) && rest != [] && Separator(rest[0])
    ensures Bare(a + rest) == Got(a, rest)
  {
    if a == [] {
      assert a + rest == rest;
    } else {
      assert (a + rest)[1..] == a[1..] + rest;
      BareReadsBack(a[1..], rest);
      assert a == [a[0]] + a[1..];
    }
  }

  lemma QuoteReadsBack(a: string, rest: string)
    requires ByteString(a) && rest != [] && Separator(rest[0])
    ensures ReadArg(Quote(a) + rest) == Got(a, rest)
  {
    if AllSafe(a) {
      BareReadsBack(a, rest);
      assert (a + rest)[0] != '"';
    } else {
      EscapeReadsBack(a, rest);
      AppendIsAssociative(['"'] + Escape(a), ['"'], rest);
      AppendIsAssociative(['"'], Escape(a), ['"'] + rest);
      assert (['"'] + (Escape(a) + (['"'] + rest)))[1..] == Escape(a) + (['"'] + rest);
    }
  }

  lemma ReadLastArg(a: string)
    requires ByteString(a)
    ensures ReadLine(Quote(a) + ['\n']) == Some([a])
  {
    QuoteReadsBack(a, ['\n']);
  }

  lemma ReadOneMore(a: string, more: string, args: seq<string>)
    requires ByteString(a) && ReadLine(more) == Some(args)
    ensures ReadLine(Quote(a) + ([' '] + more)) == Some([a] + args)
  {
    QuoteReadsBack(a, [' '] + more);
    assert ([' '] + more)[1..] == more;
  }

  /** The logged command line determines the arguments: reading it back gives exactly the original
      list, for all byte strings, empty ones included. */
  lemma {:induction false} LineReadsBack(args: seq<string>)
    requires |args| >= 1 && forall i :: 0 <= i < |args| ==> ByteString(args[i])
    ensures ReadLine(Line(args)) == Some(args)
  {
    assert args == [args[0]] + args[1..];
    if |args| == 1 {
      ReadLastArg(args[0]);
      assert args == [args[0]];
    } else {
      LineReadsBack(args[1..]);
      ReadOneMore(args[0], Line(args[1..]), args[1..]);
    }
  }

  /** The line is printable text with one line break, at its end. */
  lemma {:induction false} LineEnds(args: seq<string>)
    requires |args| >= 1
    ensures var l := Line(args);
            && l != [] && l[|l| - 1] == '\n'
            && forall i :: 0 <= i < |l| - 1 ==> Printable(l[i])
  {
    QuoteIsPrintable(args[0]);
    if |args| == 1 {
    } else {
      LineEnds(args[1..]);
    }
  }

  lemma QuoteIsPrintable(a: string)
    ensures forall i :: 0 <= i < |Quote(a)| ==> Printable(Quote(a)[i])
  {
    EscapeIsPrintable(a);
    if AllSafe(a) {
      forall i | 0 <= i < |a|
        ensures Printable(a[i])
      {
        assert Safe(a[i]);
      }
    }
  }

  lemma {:induction false} EscapeIsPrintable(a: string)
    ensures forall i :: 0 <= i < |Escape(a)| ==> Printable(Escape(a)[i])
  {
    if a == [] {
    } else {
      EscapeIsPrintable(a[1..]);
    }
  }

  /** Two different command lines are never logged alike. */
  lemma LinesAreDistinct(args1: seq<string>, args2: seq<string>)
    requires |args1| >= 1 && |args2| >= 1
    requires forall i :: 0 <= i < |args1| ==> ByteString(args1[i])
    requires forall i :: 0 <= i < |args2| ==> ByteString(args2[i])
    ensures Line(args1) == Line(args2) <==> args1 == args2
  {
    LineReadsBack(args1);
    LineReadsBack(args2);
  }

  // ----- what is quoted, and how -----

  /** A letter, a digit, or one of a few other characters. */
  predicate Plain(c: char) {
    'A' <= c <= 'Z' || 'a' <= c <= 'z' || '0' <= c <= '9' || c in "+,-./:@_"
  }

  lemma PlainIsSafe(c: char)
    ensures Safe(c) <==> Plain(c)
  {
  }

  /** An argument is logged bare if and only if it consists of letters, digits and the characters
      `+,-./:@_`; any other is quoted. */
  lemma BareIff(a: string)
    ensures Quote(a) == a <==> forall i :: 0 <= i < |a| ==> Plain(a[i])
    ensures Quote(a) != a ==> Quote(a) == "\"" + Escape(a) + "\""
  {
    forall i | 0 <= i < |a|
      ensures Safe(a[i]) <==> Plain(a[i])
    {
      PlainIsSafe(a[i]);
    }
    if !AllSafe(a) {
      EscapeIsLonger(a);
    }
  }

  lemma {:induction false} EscapeIsLonger(a: string)
    ensures |Escape(a)| >= |a|
  {
    if a == [] {
    } else {
      EscapeIsLonger(a[1..]);
    }
  }

  /** Inside quotes a byte stands for itself, except the four with a meaning for a shell, which get a
      backslash, and those outside printable ASCII, which are written in hexadecimal. */
  lemma EscapedIff(c: char)
    ensures EscapeByte(c) == [c] <==> ' ' <= c <= '~' && c !in "\\\"$`"
    ensures c in "\\\"$`" ==> EscapeByte(c) == ['\\', c]
    ensures !(' ' <= c <= '~') ==> |EscapeByte(c)| == 4 && EscapeByte(c)[..2] == "\\x"
  {
  }
}

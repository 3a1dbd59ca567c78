/** The AT&T option scanner, called again and again on one argument vector. */
module Getopt {
  import opened Options

  // ----- option strings -----

  /** Index of the first `c`, or the length. */
  function IndexOf(s: string, c: char): (k: nat)
    ensures k <= |s| && (k < |s| ==> s[k] == c)
    ensures k < |s| <==> c in s
  {
    if s == [] then 0 else if s[0] == c then 0 else 1 + IndexOf(s[1..], c)
  }

  predicate IsOption(opts: string, c: char) {
    c != ':' && c in opts
  }

  /** The letter is followed by a colon. */
  predicate TakesArg(opts: string, c: char) {
    var k := IndexOf(opts, c);
    k + 1 < |opts| && opts[k + 1] == ':'
  }

  // ----- the grammar -----

  datatype Item = Found(opt: char, arg: Option<string>) | Illegal(opt: char) | Missing(opt: char)

  /** The options read, and the number of words used up. */
  datatype Parse = Parse(items: seq<Item>, used: nat)

  function Cons(item: Item, more: nat, p: Parse): Parse {
    Parse([item] + p.items, p.used + more)
  }

  predicate IsDashWord(w: string) {
    |w| >= 2 && w[0] == '-'
  }

  /** Options up to the first operand, or through the word `--`. */
  function ParseWords(opts: string, words: seq<string>): (p: Parse)
    ensures p.used <= |words|
    decreases |words|, 0
  {
    if words == [] || !IsDashWord(words[0]) then Parse([], 0)
    else if words[0] == "--" then Parse([], 1)
    else ParseCluster(opts, words[0], 1, words[1..])
  }

  /** The letters of a word from the `j`-th on: flags, until one takes the rest of the word, or the
      next word, as its argument. */
  function ParseCluster(opts: string, w: string, j: nat, rest: seq<string>): (p: Parse)
    requires j < |w|
    ensures p.used <= |rest| + 1
    decreases |rest|, 1, |w| - j
  {
    var c := w[j];
    if IsOption(opts, c) && TakesArg(opts, c) then
      if j + 1 < |w| then Cons(Found(c, Some(w[j + 1..])), 1, ParseWords(opts, rest))
      else if rest != [] then Cons(Found(c, Some(rest[0])), 2, ParseWords(opts, rest[1..]))
      else Parse([Missing(c)], 1)
    else
      var item := if IsOption(opts, c) then Found(c, None) else Illegal(c);
      if j + 1 < |w| then Cons(item, 0, ParseCluster(opts, w, j + 1, rest))
      else Cons(item, 1, ParseWords(opts, rest))
  }

  // ----- the code -----

  /** What a caller sees after a call: the value returned, and the two variables set. */
  datatype Seen = Seen(ret: char, optopt: char, optarg: Option<string>)

  /** An error leaves the previous argument in place. */
  function See(item: Item, before: Option<string>): Seen {
    match item
    case Found(c, arg) => Seen(c, c, arg)
    case Illegal(c) => Seen('?', c, before)
    case Missing(c) => Seen('?', c, before)
  }

  function SeeAll(items: seq<Item>, before: Option<string>): seq<Seen> {
    if items == [] then [] else [See(items[0], before)] + SeeAll(items[1..], See(items[0], before).optarg)
  }

  /** The scanner stands at the start of a word, or on a letter inside one. */
  predicate Standing(argv: seq<string>, optind: nat, sp: nat) {
    && sp >= 1
    && optind <= |argv|
    && (sp > 1 ==> optind < |argv| && sp < |argv[optind]|)
  }

  /** What is left to read. */
  function Left(argv: seq<string>, opts: string, optind: nat, sp: nat): (p: Parse)
    requires Standing(argv, optind, sp)
    ensures optind + p.used <= |argv|
  {
    if sp > 1 then ParseCluster(opts, argv[optind], sp, argv[optind + 1..]) else ParseWords(opts, argv[optind..])
  }

  /** The position after one more letter. */
  function Next(argv: seq<string>, optind: nat, sp: nat): (nat, nat)
    requires optind < |argv|
  {
    if sp + 1 < |argv[optind]| then (optind, sp + 1) else (optind + 1, 1)
  }

  /** On a letter, reading from a word's start or from inside it is the same. */
  lemma LeftAtLetter(argv: seq<string>, opts: string, optind: nat, sp: nat)
    requires Standing(argv, optind, sp) && optind < |argv| && sp < |argv[optind]|
    requires sp == 1 ==> IsDashWord(argv[optind]) && argv[optind] != "--"
    ensures Left(argv, opts, optind, sp) == ParseCluster(opts, argv[optind], sp, argv[optind + 1..])
  {
    assert argv[optind..][1..] == argv[optind + 1..];
  }

  lemma PlainLetter(argv: seq<string>, opts: string, optind: nat, sp: nat)
    requires Standing(argv, optind, sp) && optind < |argv| && sp < |argv[optind]|
    requires var c := argv[optind][sp]; !(IsOption(opts, c) && TakesArg(opts, c))
    ensures var c := argv[optind][sp];
            var item := if IsOption(opts, c) then Found(c, None) else Illegal(c);
            var (i, j) := Next(argv, optind, sp);
            && Standing(argv, i, j)
            && ParseCluster(opts, argv[optind], sp, argv[optind + 1..]) == Cons(item, i - optind, Left(argv, opts, i, j))
  {
  }

  lemma ArgumentLetter(argv: seq<string>, opts: string, optind: nat, sp: nat)
    requires Standing(argv, optind, sp) && optind < |argv| && sp < |argv[optind]|
    requires var c := argv[optind][sp]; IsOption(opts, c) && TakesArg(opts, c)
    ensures var w, c := argv[optind], argv[optind][sp];
            ParseCluster(opts, w, sp, argv[optind + 1..]) ==
              if sp + 1 < |w| then Cons(Found(c, Some(w[sp + 1..])), 1, Left(argv, opts, optind + 1, 1))
              else if optind + 1 < |argv| then Cons(Found(c, Some(argv[optind + 1])), 2, Left(argv, opts, optind + 2, 1))
              else Cons(Missing(c), 1, Left(argv, opts, optind + 1, 1))
  {
    if optind + 1 < |argv| {
      assert argv[optind + 1..][1..] == argv[optind + 2..];
    }
  }

  class Scanner {
    var optind: nat
    var sp: nat
    var optopt: char
    var optarg: Option<string>

    constructor ()
      ensures optind == 1 && sp == 1 && optarg == None
    {
      optind, sp, optarg, optopt := 1, 1, None, '?';
    }

    ghost predicate Valid(argv: seq<string>)
      reads this
    {
      Standing(argv, optind, sp)
    }

    /** One call; none stands for the end of the options. */
    method Getopt(argv: seq<string>, opts: string) returns (r: Option<char>)
      requires Valid(argv)
      modifies this
      ensures Valid(argv)
      ensures r.None? ==>
        var p := Left(argv, opts, old(optind), old(sp));
        p.items == [] && optind == old(optind) + p.used && sp == 1 && optarg == old(optarg)
      ensures r.Some? ==> old(optind) <= optind && exists item ::
        && Left(argv, opts, old(optind), old(sp)) == Cons(item, optind - old(optind), Left(argv, opts, optind, sp))
        && Seen(r.value, optopt, optarg) == See(item, old(optarg))
      // the scanner moves on: to a later word, or to a later letter of the same one
      ensures r.Some? ==> old(optind) < optind || (old(optind) == optind && old(sp) < sp)
    {
      if sp == 1 {
        if optind >= |argv| || argv[optind] == "" || argv[optind][0] != '-' || argv[optind] == "-" {
          return None;
        } else if argv[optind] == "--" {
          optind := optind + 1;
          return None;
        }
      }
      LeftAtLetter(argv, opts, optind, sp);
      var c := ReadLetter(argv, opts);
      return Some(c);
    }

    /** The part of a call that looks at a letter. */
    method ReadLetter(argv: seq<string>, opts: string) returns (r: char)
      requires Valid(argv) && optind < |argv| && sp < |argv[optind]|
      modifies this
      ensures Valid(argv) && old(optind) <= optind
      ensures exists item ::
        && ParseCluster(opts, argv[old(optind)], old(sp), argv[old(optind) + 1..]) ==
             Cons(item, optind - old(optind), Left(argv, opts, optind, sp))
        && Seen(r, optopt, optarg) == See(item, old(optarg))
      ensures old(optind) < optind || (old(optind) == optind && old(sp) < sp)
    {
      var w := argv[optind];
      var c := w[sp];
      optopt := c;
      var cp := IndexOf(opts, c);
      if c == ':' || cp == |opts| {
        PlainLetter(argv, opts, optind, sp);
        Advance(argv);
        assert Seen('?', optopt, optarg) == See(Illegal(c), old(optarg));
        return '?';
      }
      if cp + 1 < |opts| && opts[cp + 1] == ':' {
        var missing := TakeArgument(argv, opts);
        return if missing then '?' else c;
      }
      PlainLetter(argv, opts, optind, sp);
      Advance(argv);
      optarg := None;
      assert Seen(c, optopt, optarg) == See(Found(c, None), old(optarg));
      return c;
    }

    /** The letter's argument: the rest of the word, or the next word. */
    method TakeArgument(argv: seq<string>, opts: string) returns (missing: bool)
      requires Valid(argv) && optind < |argv| && sp < |argv[optind]|
      requires optopt == argv[optind][sp] && IsOption(opts, optopt) && TakesArg(opts, optopt)
      modifies this`optind, this`sp, this`optarg
      ensures Valid(argv) && old(optind) < optind
      ensures exists item ::
        && ParseCluster(opts, argv[old(optind)], old(sp), argv[old(optind) + 1..]) ==
             Cons(item, optind - old(optind), Left(argv, opts, optind, sp))
        && Seen(if missing then '?' else optopt, optopt, optarg) == See(item, old(optarg))
    {
      ArgumentLetter(argv, opts, optind, sp);
      var w := argv[optind];
      missing := false;
      if sp + 1 < |w| {
        optarg := Some(w[sp + 1..]);
        optind := optind + 1;
      } else {
        optind := optind + 1;
        if optind >= |argv| {
          sp := 1;
          assert Seen('?', optopt, optarg) == See(Missing(optopt), old(optarg));
          return true;
        }
        optarg := Some(argv[optind]);
        optind := optind + 1;
      }
      sp := 1;
      assert Seen(optopt, optopt, optarg) == See(Found(optopt, optarg), old(optarg));
    }

    /** To the next letter, or the next word. */
    method Advance(argv: seq<string>)
      requires sp >= 1 && optind < |argv| && sp < |argv[optind]|
      modifies this`optind, this`sp
      ensures Valid(argv) && (optind, sp) == Next(argv, old(optind), old(sp))
    {
      sp := sp + 1;
      if sp == |argv[optind]| {
        optind := optind + 1;
        sp := 1;
      }
    }

    /** A caller's loop: it sees the options of the grammar, in order, and stops where the grammar does. */
    method GetoptLoop(argv: seq<string>, opts: string) returns (seen: seq<Seen>)
      requires Valid(argv)
      modifies this
      ensures var p := Left(argv, opts, old(optind), old(sp));
              seen == SeeAll(p.items, old(optarg)) && optind == old(optind) + p.used && sp == 1
    {
      seen := [];
      ghost var p := Left(argv, opts, optind, sp);
      while true
        invariant Valid(argv)
        invariant seen + SeeAll(Left(argv, opts, optind, sp).items, optarg) == SeeAll(p.items, old(optarg))
        invariant optind + Left(argv, opts, optind, sp).used == old(optind) + p.used
        decreases |argv| - optind, if optind < |argv| then |argv[optind]| - sp else 0
      {
        ghost var before := Left(argv, opts, optind, sp);
        ghost var arg := optarg;
        var r := Getopt(argv, opts);
        if r.None? {
          return;
        }
        assert before.items[1..] == Left(argv, opts, optind, sp).items;
        assert SeeAll(before.items, arg) == [Seen(r.value, optopt, optarg)] + SeeAll(before.items[1..], optarg);
        seen := seen + [Seen(r.value, optopt, optarg)];
      }
    }
  }

  // ----- writing options -----

  /** A word of options: flags, then perhaps one with an argument, attached or in the next word. */
  datatype Cluster = Cluster(flags: string, last: Option<(char, string)>, attached: bool)

  /** A letter that is no option is reported, and the scan goes on behind it. */
  function Flags(opts: string, flags: string): seq<Item> {
    if flags == [] then []
    else [if flags[0] in opts && flags[0] != ':' then Found(flags[0], None) else Illegal(flags[0])] + Flags(opts, flags[1..])
  }

  function Meant(opts: string, c: Cluster): seq<Item> {
    Flags(opts, c.flags) + if c.last.Some? then [Found(c.last.value.0, Some(c.last.value.1))] else []
  }

  function Letters(c: Cluster): string {
    c.flags + if c.last.None? then "" else [c.last.value.0] + if c.attached then c.last.value.1 else ""
  }

  function Written(c: Cluster): seq<string> {
    ["-" + Letters(c)] + if c.last.Some? && !c.attached then [c.last.value.1] else []
  }

  predicate Writable(opts: string, c: Cluster) {
    && Letters(c) != "" && Letters(c) != "-"
    && (forall i :: 0 <= i < |c.flags| ==> !(IsOption(opts, c.flags[i]) && TakesArg(opts, c.flags[i])))
    && (c.last.Some? ==> IsOption(opts, c.last.value.0) && TakesArg(opts, c.last.value.0))
    && (c.last.Some? && c.attached ==> c.last.value.1 != "")
  }

  function WrittenAll(cs: seq<Cluster>): seq<string> {
    if cs == [] then [] else Written(cs[0]) + WrittenAll(cs[1..])
  }

  function MeantAll(opts: string, cs: seq<Cluster>): seq<Item> {
    if cs == [] then [] else Meant(opts, cs[0]) + MeantAll(opts, cs[1..])
  }

  /** The operands start with a word that is no option, or are set off by `--`. */
  predicate Operands(tail: seq<string>) {
    tail == [] || !IsDashWord(tail[0]) || tail[0] == "--"
  }

  function Add(items: seq<Item>, n: nat, p: Parse): Parse {
    Parse(items + p.items, n + p.used)
  }

  /** The letter with an argument that ends a word. */
  lemma LastReadsBack(opts: string, c: Cluster, rest: seq<string>)
    requires Writable(opts, c) && c.last.Some?
    requires !c.attached ==> rest != [] && rest[0] == c.last.value.1
    ensures ParseCluster(opts, "-" + Letters(c), |c.flags| + 1, rest) ==
      Cons(Found(c.last.value.0, Some(c.last.value.1)), |Written(c)|, ParseWords(opts, rest[|Written(c)| - 1..]))
  {
    var w := "-" + Letters(c);
    assert w[|c.flags| + 1] == c.last.value.0;
    if c.attached {
      assert w[|c.flags| + 2..] == c.last.value.1;
      assert rest[0..] == rest;
    }
  }

  /** The flags from the `j`-th letter on, and what ends the word. */
  lemma {:induction false} ClusterReadsBack(opts: string, c: Cluster, j: nat, rest: seq<string>)
    requires Writable(opts, c) && j <= |c.flags| && j < |Letters(c)|
    requires c.last.Some? && !c.attached ==> rest != [] && rest[0] == c.last.value.1
    ensures ParseCluster(opts, "-" + Letters(c), j + 1, rest) ==
      Add(Meant(opts, Cluster(c.flags[j..], c.last, c.attached)), |Written(c)|, ParseWords(opts, rest[|Written(c)| - 1..]))
    decreases |c.flags| - j
  {
    var w := "-" + Letters(c);
    var n := |Written(c)|;
    var end := ParseWords(opts, rest[n - 1..]);
    var here := Meant(opts, Cluster(c.flags[j..], c.last, c.attached));
    if j < |c.flags| {
      var flag := if c.flags[j] in opts && c.flags[j] != ':' then Found(c.flags[j], None) else Illegal(c.flags[j]);
      var later := Meant(opts, Cluster(c.flags[j + 1..], c.last, c.attached));
      assert w[j + 1] == c.flags[j];
      assert c.flags[j..][1..] == c.flags[j + 1..];
      assert here == [flag] + later;
      if j + 1 < |Letters(c)| {
        ClusterReadsBack(opts, c, j + 1, rest);
        AddOne(flag, later, n, end);
      } else {
        assert later == [] && here == [flag] && rest[0..] == rest;
      }
    } else {
      LastReadsBack(opts, c, rest);
      assert c.flags[j..] == [];
      assert here == [Found(c.last.value.0, Some(c.last.value.1))];
    }
  }

  lemma AddOne(item: Item, items: seq<Item>, n: nat, p: Parse)
    ensures Cons(item, 0, Add(items, n, p)) == Add([item] + items, n, p)
  {
    assert [item] + (items + p.items) == [item] + items + p.items;
  }

  lemma WordReadsBack(opts: string, c: Cluster, more: seq<string>)
    requires Writable(opts, c)
    ensures ParseWords(opts, Written(c) + more) == Add(Meant(opts, c), |Written(c)|, ParseWords(opts, more))
  {
    var words := Written(c) + more;
    var w, rest := words[0], words[1..];
    assert w == "-" + Letters(c) && w[1..] == Letters(c);
    assert "--"[1..] == "-";
    assert rest[|Written(c)| - 1..] == more;
    ClusterReadsBack(opts, c, 0, rest);
    assert c.flags[0..] == c.flags;
  }

  /** Options written in clusters of any shape, followed by any operands, are read back exactly, and
      the scan ends at the first operand. */
  lemma {:induction false} ParseReadsBack(opts: string, cs: seq<Cluster>, tail: seq<string>)
    requires forall c :: c in cs ==> Writable(opts, c)
    requires Operands(tail)
    ensures ParseWords(opts, WrittenAll(cs) + tail) ==
      Parse(MeantAll(opts, cs), |WrittenAll(cs)| + if tail != [] && tail[0] == "--" then 1 else 0)
  {
    if cs == [] {
      assert WrittenAll(cs) + tail == tail;
    } else {
      ParseReadsBack(opts, cs[1..], tail);
      WordReadsBack(opts, cs[0], WrittenAll(cs[1..]) + tail);
      Associative(Written(cs[0]), WrittenAll(cs[1..]), tail);
    }
  }

  lemma Associative(a: seq<string>, b: seq<string>, c: seq<string>)
    ensures a + b + c == a + (b + c)
  {
  }

  /** The same for a whole argument vector, scanned by repeated calls from the start. */
  method ScanWritten(program: string, opts: string, cs: seq<Cluster>, tail: seq<string>) returns (seen: seq<Seen>, end: nat)
    requires forall c :: c in cs ==> Writable(opts, c)
    requires Operands(tail)
    ensures seen == SeeAll(MeantAll(opts, cs), None)
    ensures end == 1 + |WrittenAll(cs)| + if tail != [] && tail[0] == "--" then 1 else 0
  {
    var argv := [program] + WrittenAll(cs) + tail;
    var s := new Scanner();
    assert argv[1..] == WrittenAll(cs) + tail;
    ParseReadsBack(opts, cs, tail);
    seen := s.GetoptLoop(argv, opts);
    end := s.optind;
  }

  // ----- a last option without its argument -----

  /** A word of flags that ends in a letter whose argument is missing. */
  lemma {:induction false} MissingInWord(opts: string, flags: string, c: char, j: nat)
    requires IsOption(opts, c) && TakesArg(opts, c) && j <= |flags|
    requires forall i :: 0 <= i < |flags| ==> !(IsOption(opts, flags[i]) && TakesArg(opts, flags[i]))
    ensures ParseCluster(opts, "-" + flags + [c], j + 1, []) == Parse(Flags(opts, flags[j..]) + [Missing(c)], 1)
    decreases |flags| - j
  {
    var w := "-" + flags + [c];
    if j == |flags| {
      assert w[j + 1] == c && flags[j..] == [];
    } else {
      MissingInWord(opts, flags, c, j + 1);
      assert w[j + 1] == flags[j] && flags[j..][1..] == flags[j + 1..];
    }
  }

  lemma AddAdd(a: seq<Item>, b: seq<Item>, m: nat, n: nat, p: Parse)
    ensures Add(a, m, Add(b, n, p)) == Add(a + b, m + n, p)
  {
    assert a + (b + p.items) == a + b + p.items;
  }

  lemma MissingAlone(opts: string, flags: string, c: char)
    requires IsOption(opts, c) && TakesArg(opts, c) && flags + [c] != "-"
    requires forall i :: 0 <= i < |flags| ==> !(IsOption(opts, flags[i]) && TakesArg(opts, flags[i]))
    ensures ParseWords(opts, ["-" + flags + [c]]) == Parse(Flags(opts, flags) + [Missing(c)], 1)
  {
    var w := "-" + flags + [c];
    var words: seq<string> := [w];
    assert words[1..] == [] && w[1..] == flags + [c] && "--"[1..] == "-";
    MissingInWord(opts, flags, c, 0);
    assert flags[0..] == flags;
  }

  /** Options in clusters of any shape, and a last word that ends in a letter without its argument: all of
      them are read, the argument is reported missing, and the scan ends behind the last word. */
  lemma {:induction false} MissingReadsBack(opts: string, cs: seq<Cluster>, flags: string, c: char)
    requires forall d :: d in cs ==> Writable(opts, d)
    requires IsOption(opts, c) && TakesArg(opts, c) && flags + [c] != "-"
    requires forall i :: 0 <= i < |flags| ==> !(IsOption(opts, flags[i]) && TakesArg(opts, flags[i]))
    ensures ParseWords(opts, WrittenAll(cs) + ["-" + flags + [c]]) ==
      Add(MeantAll(opts, cs), |WrittenAll(cs)|, Parse(Flags(opts, flags) + [Missing(c)], 1))
  {
    var last := ["-" + flags + [c]];
    var end := Parse(Flags(opts, flags) + [Missing(c)], 1);
    if cs == [] {
      assert WrittenAll(cs) + last == last;
      MissingAlone(opts, flags, c);
      assert [] + end.items == end.items;
    } else {
      MissingReadsBack(opts, cs[1..], flags, c);
      WordReadsBack(opts, cs[0], WrittenAll(cs[1..]) + last);
      Associative(Written(cs[0]), WrittenAll(cs[1..]), last);
      AddAdd(Meant(opts, cs[0]), MeantAll(opts, cs[1..]), |Written(cs[0])|, |WrittenAll(cs[1..])|, end);
    }
  }

  /** What the caller sees of an option, and of the two errors: a question mark, with the letter and the
      argument seen before. */
  lemma SeenOf(c: char, arg: Option<string>, before: Option<string>)
    ensures See(Found(c, arg), before) == Seen(c, c, arg)
    ensures See(Illegal(c), before) == Seen('?', c, before) && See(Missing(c), before) == Seen('?', c, before)
  {
  }

  // ----- option strings from outside -----

  /** A letter, and whether it takes an argument. */
  datatype Letter = Letter(letter: char, takesArg: bool)

  /** The option string that declares the letters. */
  function Declared(letters: seq<Letter>): string {
    if letters == [] then ""
    else [letters[0].letter] + (if letters[0].takesArg then ":" else "") + Declared(letters[1..])
  }

  predicate Distinct(letters: seq<Letter>) {
    && (forall i :: 0 <= i < |letters| ==> letters[i].letter != ':')
    && (forall i, j :: 0 <= i < j < |letters| ==> letters[i].letter != letters[j].letter)
  }

  lemma {:induction false} DeclaredHas(letters: seq<Letter>, c: char)
    requires c != ':'
    ensures c in Declared(letters) <==> exists i :: 0 <= i < |letters| && letters[i].letter == c
    ensures Declared(letters) != [] && letters != [] && letters[0].letter != ':' ==> Declared(letters)[0] != ':'
  {
    if letters == [] {
    } else {
      DeclaredHas(letters[1..], c);
      assert forall i :: 0 < i < |letters| ==> letters[i] == letters[1..][i - 1];
    }
  }

  /** A string declares exactly its letters as options, and those with a colon behind them as taking an
      argument. */
  lemma {:induction false} DeclaredReadsBack(letters: seq<Letter>, c: char)
    requires Distinct(letters)
    ensures IsOption(Declared(letters), c) <==> exists i :: 0 <= i < |letters| && letters[i].letter == c
    ensures IsOption(Declared(letters), c) ==> (TakesArg(Declared(letters), c) <==> Letter(c, true) in letters)
  {
    if letters == [] {
    } else {
      var first, rest := letters[0], letters[1..];
      assert forall i :: 0 < i < |letters| ==> letters[i] == rest[i - 1];
      assert letters == [first] + rest;
      DeclaredReadsBack(rest, c);
      if c != ':' {
        DeclaredHas(letters, c);
        FirstDeclared(first, rest, c);
      }
    }
  }

  function Head(first: Letter): string {
    [first.letter] + if first.takesArg then ":" else ""
  }

  lemma SameLetter(first: Letter, rest: string)
    requires first.letter != ':' && (rest != [] ==> rest[0] != ':')
    ensures TakesArg(Head(first) + rest, first.letter) <==> first.takesArg
  {
  }

  lemma OtherLetter(first: Letter, rest: string, c: char)
    requires c != first.letter && c != ':' && c in rest
    ensures TakesArg(Head(first) + rest, c) <==> TakesArg(rest, c)
  {
    IndexBehind(Head(first), rest, c);
  }

  lemma FirstDeclared(first: Letter, rest: seq<Letter>, c: char)
    requires Distinct([first] + rest) && c != ':'
    ensures var opts := Declared([first] + rest);
            && (c == first.letter ==> (TakesArg(opts, c) <==> first.takesArg))
            && (c != first.letter && c in Declared(rest) ==> (TakesArg(opts, c) <==> TakesArg(Declared(rest), c)))
  {
    var letters := [first] + rest;
    assert letters[0] == first && letters[1..] == rest;
    assert rest != [] ==> letters[1] == rest[0];
    assert Declared(letters) == Head(first) + Declared(rest);
    DeclaredHas(rest, c);
    if c == first.letter {
      SameLetter(first, Declared(rest));
    } else if c in Declared(rest) {
      OtherLetter(first, Declared(rest), c);
    }
  }

  lemma {:induction false} IndexBehind(head: string, rest: string, c: char)
    requires c !in head && c in rest
    ensures IndexOf(head + rest, c) == |head| + IndexOf(rest, c)
  {
    if head == [] {
      assert head + rest == rest;
    } else {
      assert (head + rest)[1..] == head[1..] + rest;
      IndexBehind(head[1..], rest, c);
    }
  }
}

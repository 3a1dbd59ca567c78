/** Splitting a command line into global options and groups of options that belong to a file. */
module SplitCommandline {
  import opened Options

  datatype OptionDef = OptionDef(
    name: string, hasArg: bool, isBool: bool, exits: bool,
    perFile: bool, spec: bool, offset: bool)

  /** A kind of group; the option that ends it, or none if a bare argument does. */
  datatype GroupDef = GroupDef(name: string, sep: Option<string>)

  /** What the lookup of a library option says to a name and a value. */
  datatype AvAnswer = Taken | NotFound | Failed

  /** The tables a program is built with. */
  datatype Tables = Tables(options: seq<OptionDef>, groups: seq<GroupDef>, avOption: (string, string) -> AvAnswer)

  datatype Opt = Opt(def: OptionDef, key: string, val: Option<string>)

  datatype Group = Group(arg: string, opts: seq<Opt>, avOpts: seq<(string, string)>)

  datatype Context = Context(groups: seq<seq<Group>>, globals: seq<Opt>, opts: seq<Opt>, avOpts: seq<(string, string)>)

  datatype Error = MissingArgument | BadLibraryOption | Unrecognized

  // ----- looking names up -----

  predicate Names(def: OptionDef, name: string) {
    && |def.name| <= |name| && name[..|def.name|] == def.name
    && (|def.name| == |name| || name[|def.name|] == ':')
  }

  /** The first option whose name is the given one up to its end or a stream specifier. */
  function FindOption(options: seq<OptionDef>, name: string): Option<OptionDef> {
    if options == [] then None
    else if Names(options[0], name) then Some(options[0])
    else FindOption(options[1..], name)
  }

  /** The first group, from the `i`-th on, that the option ends. */
  function MatchGroupSeparator(groups: seq<GroupDef>, opt: string, i: nat): (r: Option<nat>)
    requires i <= |groups|
    ensures r.Some? ==> i <= r.value < |groups| && groups[r.value].sep == Some(opt)
    ensures forall j :: i <= j < (if r.Some? then r.value else |groups|) ==> groups[j].sep != Some(opt)
    decreases |groups| - i
  {
    if i == |groups| then None
    else if groups[i].sep == Some(opt) then Some(i)
    else MatchGroupSeparator(groups, opt, i + 1)
  }

  predicate IsGlobal(def: OptionDef) {
    !def.perFile && !def.spec && !def.offset
  }

  // ----- the grammar of words -----

  datatype Item =
    | Plain(opt: Opt)
    | Library(key: string, val: string)
    | Separator(group: nat, arg: string)

  datatype Parsed = Parsed(items: seq<Item>, error: Option<Error>)

  function Then(item: Item, rest: Parsed): Parsed {
    Parsed([item] + rest.items, rest.error)
  }

  function Stop(e: Error): Parsed {
    Parsed([], Some(e))
  }

  predicate IsWord(w: string) {
    w == "" || w[0] != '-' || w == "-"
  }

  function Lex(t: Tables, words: seq<string>, afterDashes: bool): Parsed
    decreases |words|, 0
  {
    if words == [] then Parsed([], None)
    else
      var w, rest := words[0], words[1..];
      if w == "--" then Lex(t, rest, true)
      else if IsWord(w) || afterDashes then Then(Separator(0, w), Lex(t, rest, false))
      else LexOption(t, w[1..], rest)
  }

  function LexOption(t: Tables, opt: string, rest: seq<string>): Parsed
    decreases |rest|, 1
  {
    var sep := MatchGroupSeparator(t.groups, opt, 0);
    var po := FindOption(t.options, opt);
    if sep.Some? then
      if rest == [] then Stop(MissingArgument) else Then(Separator(sep.value, rest[0]), Lex(t, rest[1..], false))
    else if po.Some? then
      if po.value.exits then
        if rest == [] then Parsed([Plain(Opt(po.value, opt, None))], None)
        else Then(Plain(Opt(po.value, opt, Some(rest[0]))), Lex(t, rest[1..], false))
      else if po.value.hasArg then
        if rest == [] then Stop(MissingArgument)
        else Then(Plain(Opt(po.value, opt, Some(rest[0]))), Lex(t, rest[1..], false))
      else Then(Plain(Opt(po.value, opt, Some("1"))), Lex(t, rest, false))
    else if rest != [] && t.avOption(opt, rest[0]).Taken? then Then(Library(opt, rest[0]), Lex(t, rest[1..], false))
    else if rest != [] && t.avOption(opt, rest[0]).Failed? then Stop(BadLibraryOption)
    else if Negated(t, opt).Some? then Then(Plain(Opt(Negated(t, opt).value, opt, Some("0"))), Lex(t, rest, false))
    else Stop(Unrecognized)
  }

  /** The boolean option `foo` meant by `nofoo`. */
  function Negated(t: Tables, opt: string): Option<OptionDef> {
    if |opt| >= 2 && opt[..2] == "no" then
      var po := FindOption(t.options, opt[2..]);
      if po.Some? && po.value.isBool then po else None
    else None
  }

  // ----- where the items go -----

  function Fresh(n: nat): Context {
    Context(seq(n, i => []), [], [], [])
  }

  function Place(c: Context, item: Item): Context {
    match item
    case Plain(opt) =>
      if IsGlobal(opt.def) then c.(globals := c.globals + [opt]) else c.(opts := c.opts + [opt])
    case Library(key, val) => c.(avOpts := c.avOpts + [(key, val)])
    case Separator(g, arg) =>
      if g >= |c.groups| then c
      else c.(groups := c.groups[g := c.groups[g] + [Group(arg, c.opts, c.avOpts)]], opts := [], avOpts := [])
  }

  function PlaceAll(c: Context, items: seq<Item>): Context
    decreases |items|
  {
    if items == [] then c else PlaceAll(Place(c, items[0]), items[1..])
  }

  /** The items placed, and the error that stopped the reading. */
  function Finish(c: Context, p: Parsed): (Context, Option<Error>) {
    (PlaceAll(c, p.items), p.error)
  }

  lemma FinishThen(c: Context, item: Item, p: Parsed)
    ensures Finish(c, Then(item, p)) == Finish(Place(c, item), p)
  {
    assert ([item] + p.items)[1..] == p.items;
  }

  /** What the next word is, in terms of the whole reading. */
  lemma ReadWord(t: Tables, words: seq<string>, afterDashes: bool, c: Context)
    requires words != []
    ensures var w := words[0];
            Finish(c, Lex(t, words, afterDashes)) ==
              if w == "--" then Finish(c, Lex(t, words[1..], true))
              else if IsWord(w) || afterDashes then Finish(Place(c, Separator(0, w)), Lex(t, words[1..], false))
              else Finish(c, LexOption(t, w[1..], words[1..]))
  {
    FinishThen(c, Separator(0, words[0]), Lex(t, words[1..], false));
  }

  /** What one option did, in terms of the whole reading. */
  lemma ItemPlaced(t: Tables, opt: string, rest: seq<string>, used: nat, c: Context, c': Context)
    requires used <= |rest|
    requires exists item :: LexOption(t, opt, rest) == Then(item, Lex(t, rest[used..], false)) && c' == Place(c, item)
    ensures Finish(c, LexOption(t, opt, rest)) == Finish(c', Lex(t, rest[used..], false))
  {
    var item :| LexOption(t, opt, rest) == Then(item, Lex(t, rest[used..], false)) && c' == Place(c, item);
    FinishThen(c, item, Lex(t, rest[used..], false));
  }

  // ----- the code -----

  class OptionParseContext {
    var groups: seq<seq<Group>>
    var globalOpts: seq<Opt>
    var curOpts: seq<Opt>
    var curAvOpts: seq<(string, string)>

    ghost function Value(): Context
      reads this
    {
      Context(groups, globalOpts, curOpts, curAvOpts)
    }

    constructor (nbGroups: nat)
      ensures Value() == Fresh(nbGroups)
    {
      groups := seq(nbGroups, i => []);
      globalOpts, curOpts, curAvOpts := [], [], [];
    }

    method FinishGroup(g: nat, arg: string)
      requires g < |groups|
      modifies this
      ensures Value() == Place(old(Value()), Separator(g, arg))
    {
      groups := groups[g := groups[g] + [Group(arg, curOpts, curAvOpts)]];
      curOpts, curAvOpts := [], [];
    }

    method AddOpt(def: OptionDef, key: string, val: Option<string>)
      modifies this
      ensures Value() == Place(old(Value()), Plain(Opt(def, key, val)))
    {
      if !(def.perFile || def.spec || def.offset) {
        globalOpts := globalOpts + [Opt(def, key, val)];
      } else {
        curOpts := curOpts + [Opt(def, key, val)];
      }
    }

    /** One turn of the splitting loop for a word that is an option: the words it used up, or an error. */
    method SplitOption(t: Tables, opt: string, rest: seq<string>) returns (used: nat, error: Option<Error>)
      requires |groups| == |t.groups|
      modifies this
      ensures |groups| == |t.groups| && used <= |rest|
      ensures error.Some? ==> Value() == old(Value()) && LexOption(t, opt, rest) == Stop(error.value)
      ensures error.None? ==> exists item ::
        LexOption(t, opt, rest) == Then(item, Lex(t, rest[used..], false)) && Value() == Place(old(Value()), item)
    {
      used, error := 0, None;
      var sep := MatchGroupSeparator(t.groups, opt, 0);
      if sep.Some? {
        if rest == [] {
          return 0, Some(MissingArgument);
        }
        FinishGroup(sep.value, rest[0]);
        return 1, None;
      }
      var po := FindOption(t.options, opt);
      if po.Some? {
        var arg := Some("1");
        if po.value.exits {
          arg := if rest == [] then None else Some(rest[0]);
          used := if rest == [] then 0 else 1;
        } else if po.value.hasArg {
          if rest == [] {
            return 0, Some(MissingArgument);
          }
          arg, used := Some(rest[0]), 1;
        }
        AddOpt(po.value, opt, arg);
        assert LexOption(t, opt, rest) == Then(Plain(Opt(po.value, opt, arg)), Lex(t, rest[used..], false)) by {
          assert rest[0..] == rest;
        }
        return;
      }
      if rest != [] {
        var answer := t.avOption(opt, rest[0]);
        if answer.Taken? {
          curAvOpts := curAvOpts + [(opt, rest[0])];
          assert Value() == Place(old(Value()), Library(opt, rest[0]));
          return 1, None;
        } else if answer.Failed? {
          return 0, Some(BadLibraryOption);
        }
      }
      if |opt| >= 2 && opt[..2] == "no" {
        po := FindOption(t.options, opt[2..]);
        if po.Some? && po.value.isBool {
          AddOpt(po.value, opt, Some("0"));
          assert rest[0..] == rest;
          return 0, None;
        }
      }
      return 0, Some(Unrecognized);
    }

    /** One turn of the splitting loop: `dashes` says that the word before was `--`. */
    method SplitWord(t: Tables, words: seq<string>, dashes: bool) returns (used: nat, dashes': bool, error: Option<Error>)
      requires |groups| == |t.groups| > 0 && words != []
      modifies this
      ensures |groups| == |t.groups| && 0 < used <= |words|
      ensures error.Some? ==> (Value(), error) == Finish(old(Value()), Lex(t, words, dashes))
      ensures error.None? ==> Finish(old(Value()), Lex(t, words, dashes)) == Finish(Value(), Lex(t, words[used..], dashes'))
    {
      var opt := words[0];
      used, dashes', error := 1, false, None;
      ReadWord(t, words, dashes, Value());
      if opt == "--" {
        dashes' := true;
      } else if opt == "" || opt[0] != '-' || opt == "-" || dashes {
        FinishGroup(0, opt);
      } else {
        ghost var c := Value();
        var more;
        more, error := SplitOption(t, opt[1..], words[1..]);
        if error.Some? {
          return;
        }
        ItemPlaced(t, opt[1..], words[1..], more, c, Value());
        assert words[1..][more..] == words[1 + more..];
        used := 1 + more;
      }
    }

    /** `words` are the arguments after the program's name. */
    method Split(t: Tables, words: seq<string>) returns (error: Option<Error>)
      requires |groups| == |t.groups| > 0
      modifies this
      ensures (Value(), error) == Finish(old(Value()), Lex(t, words, false))
    {
      var optindex := 0;
      var dashdash := -1;
      while optindex < |words|
        invariant 0 <= optindex <= |words| && |groups| == |t.groups|
        invariant dashdash <= optindex
        invariant Finish(old(Value()), Lex(t, words, false)) == Finish(Value(), Lex(t, words[optindex..], dashdash == optindex))
      {
        var used, dashes;
        used, dashes, error := SplitWord(t, words[optindex..], dashdash == optindex);
        if error.Some? {
          return;
        }
        assert words[optindex..][used..] == words[optindex + used..];
        optindex := optindex + used;
        if dashes {
          dashdash := optindex;
        }
      }
      return None;
    }
  }

  // ----- the tables from outside -----

  /** The name itself, or with a stream specifier behind a colon. */
  predicate Means(name: string, def: OptionDef) {
    name == def.name || (|name| > |def.name| && name[..|def.name| + 1] == def.name + ":")
  }

  predicate FirstMeant(options: seq<OptionDef>, name: string, i: nat)
    requires i < |options|
  {
    Means(name, options[i]) && forall j :: 0 <= j < i ==> !Means(name, options[j])
  }

  /** An option is found under its name, with or without a stream specifier; the first such wins. */
  lemma {:induction false} FoundIff(options: seq<OptionDef>, name: string)
    ensures var r := FindOption(options, name);
            && (r.None? <==> forall i :: 0 <= i < |options| ==> !Means(name, options[i]))
            && (r.Some? ==> exists i :: 0 <= i < |options| && options[i] == r.value && FirstMeant(options, name, i))
  {
    if options == [] {
    } else {
      FoundIff(options[1..], name);
      NamesMeans(options[0], name);
      assert forall i :: 0 < i < |options| ==> options[i] == options[1..][i - 1];
      var r := FindOption(options[1..], name);
      if Names(options[0], name) {
        assert FirstMeant(options, name, 0);
      } else if r.Some? {
        var i :| 0 <= i < |options| - 1 && options[1..][i] == r.value && FirstMeant(options[1..], name, i);
        assert FirstMeant(options, name, i + 1) && options[i + 1] == r.value;
      }
    }
  }

  lemma NamesMeans(def: OptionDef, name: string)
    ensures Names(def, name) <==> Means(name, def)
  {
    var n := |def.name|;
    if |name| > n {
      assert name[..n + 1] == name[..n] + [name[n]];
      assert name[..n + 1][..n] == name[..n];
      assert (def.name + ":")[..n] == def.name && (def.name + ":")[n] == ':';
    } else if |name| == n {
      assert name[..n] == name;
    }
  }

  /** An option belongs to the files if it is per file, has a stream specifier or is stored at an offset,
      and to the program otherwise. */
  lemma PlacedByFlags(c: Context, o: Opt)
    ensures var r := Place(c, Plain(o));
            if o.def.perFile || o.def.spec || o.def.offset then r == c.(opts := c.opts + [o]) else r == c.(globals := c.globals + [o])
  {
  }

  /** A word on its own names a file exactly if it does not begin with a dash, or is a single one; behind
      `--` every word but `--` does. */
  lemma FileWord(t: Tables, w: string, rest: seq<string>)
    requires w != "--"
    ensures (w == "" || w == "-" || w[0] != '-') ==> Lex(t, [w] + rest, false) == Then(Separator(0, w), Lex(t, rest, false))
    ensures !(w == "" || w == "-" || w[0] != '-') ==> Lex(t, [w] + rest, false) == LexOption(t, w[1..], rest)
    ensures Lex(t, ["--", w] + rest, false) == Then(Separator(0, w), Lex(t, rest, false))
  {
    assert ([w] + rest)[1..] == rest;
    assert (["--", w] + rest)[1..] == [w] + rest;
  }

  /** `nofoo` is the boolean option `foo` turned off. */
  lemma NegatedMeans(t: Tables, name: string)
    ensures Negated(t, "no" + name) == (var po := FindOption(t.options, name); if po.Some? && po.value.isBool then po else None)
    ensures forall w: string :: Negated(t, w).Some? ==> |w| >= 2 && w[..2] == "no" && Negated(t, w).value.isBool
  {
    assert ("no" + name)[..2] == "no" && ("no" + name)[2..] == name;
  }

  /** When reading stops at an option, and why: its argument is missing; the libraries know it but not the
      value; or nobody knows it. */
  lemma StopsWhen(t: Tables, opt: string, rest: seq<string>)
    ensures var sep := MatchGroupSeparator(t.groups, opt, 0);
            var po := FindOption(t.options, opt);
            var known := sep.Some? || po.Some?;
            && (rest == [] && (sep.Some? || (po.Some? && po.value.hasArg && !po.value.exits)) ==>
                  LexOption(t, opt, rest) == Stop(MissingArgument))
            && (!known && rest != [] && t.avOption(opt, rest[0]) == Failed ==>
                  LexOption(t, opt, rest) == Stop(BadLibraryOption))
            && (!known && Negated(t, opt).None? && (rest == [] || t.avOption(opt, rest[0]) == NotFound) ==>
                  LexOption(t, opt, rest) == Stop(Unrecognized))
            && (LexOption(t, opt, rest).items == [] ==>
                  || (rest == [] && (sep.Some? || (po.Some? && po.value.hasArg && !po.value.exits)))
                  || (!known && rest != [] && t.avOption(opt, rest[0]) == Failed)
                  || (!known && Negated(t, opt).None? && (rest == [] || t.avOption(opt, rest[0]) == NotFound)))
  {
  }
}

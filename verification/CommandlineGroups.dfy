/** What splitting does with the options, and that it undoes writing them out. */
module CommandlineGroups {
  import opened Options
  import opened SplitCommandline

  // ----- every option goes to one place, in order -----

  /** One closed group as it reads on the command line. */
  datatype Segment = Segment(kind: nat, group: Group)

  /** The items cut at the separators; `opts` and `avOpts` were read before them. */
  function Segments(opts: seq<Opt>, avOpts: seq<(string, string)>, items: seq<Item>): seq<Segment>
    decreases |items|
  {
    if items == [] then []
    else match items[0]
      case Plain(o) => Segments(if IsGlobal(o.def) then opts else opts + [o], avOpts, items[1..])
      case Library(key, val) => Segments(opts, avOpts + [(key, val)], items[1..])
      case Separator(g, arg) => [Segment(g, Group(arg, opts, avOpts))] + Segments([], [], items[1..])
  }

  function OfKind(segments: seq<Segment>, kind: nat): seq<Group> {
    if segments == [] then []
    else (if segments[0].kind == kind then [segments[0].group] else []) + OfKind(segments[1..], kind)
  }

  function GlobalsIn(items: seq<Item>): seq<Opt> {
    if items == [] then []
    else (if items[0].Plain? && IsGlobal(items[0].opt.def) then [items[0].opt] else []) + GlobalsIn(items[1..])
  }

  function LocalsIn(items: seq<Item>): seq<Opt> {
    if items == [] then []
    else (if items[0].Plain? && !IsGlobal(items[0].opt.def) then [items[0].opt] else []) + LocalsIn(items[1..])
  }

  function LibraryIn(items: seq<Item>): seq<(string, string)> {
    if items == [] then []
    else (if items[0].Library? then [(items[0].key, items[0].val)] else []) + LibraryIn(items[1..])
  }

  function OptsOf(segments: seq<Segment>): seq<Opt> {
    if segments == [] then [] else segments[0].group.opts + OptsOf(segments[1..])
  }

  function AvOptsOf(segments: seq<Segment>): seq<(string, string)> {
    if segments == [] then [] else segments[0].group.avOpts + AvOptsOf(segments[1..])
  }

  predicate InRange(items: seq<Item>, n: nat) {
    forall i :: 0 <= i < |items| && items[i].Separator? ==> items[i].group < n
  }

  lemma {:induction false} GroupsAreSegments(c: Context, items: seq<Item>)
    requires InRange(items, |c.groups|)
    ensures var r := PlaceAll(c, items);
            && |r.groups| == |c.groups|
            && (forall k :: 0 <= k < |c.groups| ==> r.groups[k] == c.groups[k] + OfKind(Segments(c.opts, c.avOpts, items), k))
    decreases |items|
  {
    if items == [] {
    } else {
      var c' := Place(c, items[0]);
      GroupsAreSegments(c', items[1..]);
      if items[0].Separator? {
        var g := items[0].group;
        var segments := Segments(c.opts, c.avOpts, items);
        assert segments[1..] == Segments([], [], items[1..]);
        forall k | 0 <= k < |c.groups|
          ensures PlaceAll(c, items).groups[k] == c.groups[k] + OfKind(segments, k)
        {
          assert c'.groups[k] == if k == g then c.groups[k] + [segments[0].group] else c.groups[k];
        }
      }
    }
  }

  lemma {:induction false} GlobalsAreKept(c: Context, items: seq<Item>)
    ensures PlaceAll(c, items).globals == c.globals + GlobalsIn(items)
    decreases |items|
  {
    if items == [] {
    } else {
      var tail := items[1..];
      GlobalsAreKept(Place(c, items[0]), tail);
      if items[0].Plain? && IsGlobal(items[0].opt.def) {
        MovedOver(PlaceAll(c, items).globals, c.globals, items[0].opt, GlobalsIn(tail));
      } else {
        assert GlobalsIn(items) == GlobalsIn(tail);
      }
    }
  }

  /** One more element before `tail` instead of at the end of `before`. */
  lemma MovedOver<T>(all: seq<T>, before: seq<T>, x: T, tail: seq<T>)
    requires all == before + [x] + tail
    ensures all == before + ([x] + tail)
  {
  }

  lemma Prefixed<T>(before: seq<T>, closed: seq<T>, open: seq<T>, tail: seq<T>)
    requires closed + open == [] + tail
    ensures before + closed + open == before + tail
  {
    assert [] + tail == tail;
  }

  lemma {:induction false} LocalsAreKept(c: Context, items: seq<Item>)
    requires InRange(items, |c.groups|)
    ensures OptsOf(Segments(c.opts, c.avOpts, items)) + PlaceAll(c, items).opts == c.opts + LocalsIn(items)
    decreases |items|
  {
    if items == [] {
    } else {
      var tail := items[1..];
      var open := PlaceAll(c, items).opts;
      LocalsAreKept(Place(c, items[0]), tail);
      match items[0]
      case Plain(o) =>
        if IsGlobal(o.def) {
          assert LocalsIn(items) == LocalsIn(tail);
        } else {
          MovedOver(OptsOf(Segments(c.opts + [o], c.avOpts, tail)) + open, c.opts, o, LocalsIn(tail));
        }
      case Library(_, _) =>
        assert LocalsIn(items) == LocalsIn(tail);
      case Separator(g, arg) =>
        assert LocalsIn(items) == LocalsIn(tail);
        assert Segments(c.opts, c.avOpts, items)[1..] == Segments([], [], tail);
        Prefixed(c.opts, OptsOf(Segments([], [], tail)), open, LocalsIn(tail));
    }
  }

  lemma {:induction false} LibraryOptionsAreKept(c: Context, items: seq<Item>)
    requires InRange(items, |c.groups|)
    ensures AvOptsOf(Segments(c.opts, c.avOpts, items)) + PlaceAll(c, items).avOpts == c.avOpts + LibraryIn(items)
    decreases |items|
  {
    if items == [] {
    } else {
      var tail := items[1..];
      var open := PlaceAll(c, items).avOpts;
      LibraryOptionsAreKept(Place(c, items[0]), tail);
      match items[0]
      case Plain(o) =>
        assert LibraryIn(items) == LibraryIn(tail);
      case Library(key, val) =>
        MovedOver(AvOptsOf(Segments(c.opts, c.avOpts + [(key, val)], tail)) + open, c.avOpts, (key, val), LibraryIn(tail));
      case Separator(g, arg) =>
        assert LibraryIn(items) == LibraryIn(tail);
        assert Segments(c.opts, c.avOpts, items)[1..] == Segments([], [], tail);
        Prefixed(c.avOpts, AvOptsOf(Segments([], [], tail)), open, LibraryIn(tail));
    }
  }

  lemma {:induction false} LexInRange(t: Tables, words: seq<string>, afterDashes: bool)
    requires |t.groups| > 0
    ensures InRange(Lex(t, words, afterDashes).items, |t.groups|)
    decreases |words|
  {
    if words == [] {
    } else {
      var rest := words[1..];
      LexInRange(t, rest, true);
      LexInRange(t, rest, false);
      if rest != [] {
        LexInRange(t, rest[1..], false);
      }
    }
  }

  /** In every run, whether it ends well or in an error, every option read is placed once: the
      global ones in the global list; the others in the closed groups, read one after the other,
      then in the group left open; all in the order given. */
  lemma EachOptionInOnePlace(t: Tables, words: seq<string>)
    requires |t.groups| > 0
    ensures var items := Lex(t, words, false).items;
            var r := PlaceAll(Fresh(|t.groups|), items);
            var segments := Segments([], [], items);
            && |r.groups| == |t.groups|
            && (forall k :: 0 <= k < |t.groups| ==> r.groups[k] == OfKind(segments, k))
            && r.globals == GlobalsIn(items)
            && OptsOf(segments) + r.opts == LocalsIn(items)
            && AvOptsOf(segments) + r.avOpts == LibraryIn(items)
  {
    LexInRange(t, words, false);
    var items := Lex(t, words, false).items;
    GroupsAreSegments(Fresh(|t.groups|), items);
    GlobalsAreKept(Fresh(|t.groups|), items);
    LocalsAreKept(Fresh(|t.groups|), items);
    LibraryOptionsAreKept(Fresh(|t.groups|), items);
  }

  // ----- writing a command line -----

  /** An item as it is written. */
  function Written(t: Tables, item: Item): seq<string> {
    match item
    case Plain(o) => ["-" + o.key] + if (o.def.exits || o.def.hasArg) && o.val.Some? && !NegatedForm(t, o) then [o.val.value] else []
    case Library(key, val) => ["-" + key, val]
    case Separator(g, arg) =>
      if g >= |t.groups| then []
      else if t.groups[g].sep.Some? then ["-" + t.groups[g].sep.value, arg]
      else if IsWord(arg) then [arg]
      else ["--", arg]
  }

  function WrittenAll(t: Tables, items: seq<Item>): seq<string> {
    if items == [] then [] else Written(t, items[0]) + WrittenAll(t, items[1..])
  }

  /** An option name that cannot be mistaken for something else once the dash is in front. */
  predicate OptionWord(t: Tables, key: string) {
    key != "" && key != "-" && MatchGroupSeparator(t.groups, key, 0).None?
  }

  /** The option is written as `nofoo`. */
  predicate NegatedForm(t: Tables, o: Opt) {
    FindOption(t.options, o.key).None?
  }

  /** An item the grammar can express in front of `next`, the words that follow it. */
  predicate Writable(t: Tables, item: Item, next: seq<string>) {
    match item
    case Plain(o) =>
      && OptionWord(t, o.key)
      && (if NegatedForm(t, o) then
            && Negated(t, o.key) == Some(o.def) && o.val == Some("0")
            && (next != [] ==> t.avOption(o.key, next[0]).NotFound?)
          else
            && FindOption(t.options, o.key) == Some(o.def)
            && (if o.def.exits then o.val.Some? || next == []
                else if o.def.hasArg then o.val.Some?
                else o.val == Some("1")))
    case Library(key, val) =>
      OptionWord(t, key) && FindOption(t.options, key).None? && t.avOption(key, val).Taken?
    case Separator(g, arg) =>
      && g < |t.groups|
      && (if t.groups[g].sep.Some? then
            var sep := t.groups[g].sep.value;
            sep != "" && sep != "-" && MatchGroupSeparator(t.groups, sep, 0) == Some(g)
          else g == 0 && arg != "--")
  }

  predicate WritableAll(t: Tables, items: seq<Item>) {
    items == [] || (Writable(t, items[0], WrittenAll(t, items[1..])) && WritableAll(t, items[1..]))
  }

  lemma DashWord(key: string)
    requires key != "" && key != "-"
    ensures var w := "-" + key; w != "--" && !IsWord(w) && w[1..] == key
  {
    assert ("-" + key)[1..] == key;
    assert "--"[1..] == "-";
  }

  /** Reading back what was written gives the same items and no error. */
  lemma {:induction false} LexReadsBack(t: Tables, items: seq<Item>)
    requires WritableAll(t, items)
    ensures Lex(t, WrittenAll(t, items), false) == Parsed(items, None)
  {
    if items == [] {
    } else {
      var item, rest := items[0], WrittenAll(t, items[1..]);
      LexReadsBack(t, items[1..]);
      ItemReadsBack(t, item, rest);
      assert items == [item] + items[1..];
    }
  }

  lemma ItemReadsBack(t: Tables, item: Item, rest: seq<string>)
    requires Writable(t, item, rest)
    ensures Lex(t, Written(t, item) + rest, false) == Then(item, Lex(t, rest, false))
  {
    var words := Written(t, item) + rest;
    match item
    case Plain(o) =>
      DashWord(o.key);
      assert words[0] == "-" + o.key;
      if |Written(t, item)| == 1 {
        assert words[1..] == rest;
      } else {
        assert words[1..] == [o.val.value] + rest;
        assert words[1..][1..] == rest;
      }
    case Library(key, val) =>
      DashWord(key);
      assert words[0] == "-" + key && words[1..] == [val] + rest && words[1..][1..] == rest;
    case Separator(g, arg) =>
      if t.groups[g].sep.Some? {
        DashWord(t.groups[g].sep.value);
        assert words[0] == "-" + t.groups[g].sep.value && words[1..] == [arg] + rest && words[1..][1..] == rest;
      } else if IsWord(arg) {
        assert words[0] == arg && words[1..] == rest;
      } else {
        assert words[0] == "--" && words[1..] == [arg] + rest && words[1..][1..] == rest;
      }
  }

  // ----- whole command lines -----

  /** A command line in the documented shape: global options, then each file's options before it. */
  datatype CommandLine = CommandLine(globals: seq<Opt>, files: seq<Segment>)

  function OptItems(opts: seq<Opt>): seq<Item> {
    if opts == [] then [] else [Plain(opts[0])] + OptItems(opts[1..])
  }

  function AvItems(avOpts: seq<(string, string)>): seq<Item> {
    if avOpts == [] then [] else [Library(avOpts[0].0, avOpts[0].1)] + AvItems(avOpts[1..])
  }

  function FileItems(f: Segment): seq<Item> {
    OptItems(f.group.opts) + (AvItems(f.group.avOpts) + [Separator(f.kind, f.group.arg)])
  }

  function FilesItems(files: seq<Segment>): seq<Item> {
    if files == [] then [] else FileItems(files[0]) + FilesItems(files[1..])
  }

  function LineItems(l: CommandLine): seq<Item> {
    OptItems(l.globals) + FilesItems(l.files)
  }

  /** Global options are global, the others belong to files of the known kinds. */
  predicate WellFormed(l: CommandLine, kinds: nat) {
    && (forall i :: 0 <= i < |l.globals| ==> IsGlobal(l.globals[i].def))
    && (forall f :: f in l.files ==> f.kind < kinds && forall i :: 0 <= i < |f.group.opts| ==> !IsGlobal(f.group.opts[i].def))
  }

  lemma {:induction false} PlaceConcat(c: Context, a: seq<Item>, b: seq<Item>)
    ensures PlaceAll(c, a + b) == PlaceAll(PlaceAll(c, a), b)
    decreases |a|
  {
    if a == [] {
      assert a + b == b;
    } else {
      assert (a + b)[1..] == a[1..] + b;
      PlaceConcat(Place(c, a[0]), a[1..], b);
    }
  }

  lemma {:induction false} PlaceGlobals(c: Context, opts: seq<Opt>)
    requires forall i :: 0 <= i < |opts| ==> IsGlobal(opts[i].def)
    ensures PlaceAll(c, OptItems(opts)) == c.(globals := c.globals + opts)
    decreases |opts|
  {
    if opts == [] {
      assert c.globals + opts == c.globals;
    } else {
      PlaceGlobals(Place(c, Plain(opts[0])), opts[1..]);
      assert c.globals + [opts[0]] + opts[1..] == c.globals + opts;
    }
  }

  lemma {:induction false} PlaceLocals(c: Context, opts: seq<Opt>)
    requires forall i :: 0 <= i < |opts| ==> !IsGlobal(opts[i].def)
    ensures PlaceAll(c, OptItems(opts)) == c.(opts := c.opts + opts)
    decreases |opts|
  {
    if opts == [] {
      assert c.opts + opts == c.opts;
    } else {
      PlaceLocals(Place(c, Plain(opts[0])), opts[1..]);
      assert c.opts + [opts[0]] + opts[1..] == c.opts + opts;
    }
  }

  lemma {:induction false} PlaceLibrary(c: Context, avOpts: seq<(string, string)>)
    ensures PlaceAll(c, AvItems(avOpts)) == c.(avOpts := c.avOpts + avOpts)
    decreases |avOpts|
  {
    if avOpts == [] {
      assert c.avOpts + avOpts == c.avOpts;
    } else {
      PlaceLibrary(Place(c, Library(avOpts[0].0, avOpts[0].1)), avOpts[1..]);
      assert c.avOpts + [avOpts[0]] + avOpts[1..] == c.avOpts + avOpts;
    }
  }

  lemma PlaceFile(c: Context, f: Segment)
    requires c.opts == [] && c.avOpts == [] && f.kind < |c.groups|
    requires forall i :: 0 <= i < |f.group.opts| ==> !IsGlobal(f.group.opts[i].def)
    ensures PlaceAll(c, FileItems(f)) == c.(groups := c.groups[f.kind := c.groups[f.kind] + [f.group]])
  {
    var sep := [Separator(f.kind, f.group.arg)];
    PlaceConcat(c, OptItems(f.group.opts), AvItems(f.group.avOpts) + sep);
    PlaceLocals(c, f.group.opts);
    var c1 := c.(opts := f.group.opts);
    assert c.opts + f.group.opts == f.group.opts && c.avOpts + f.group.avOpts == f.group.avOpts;
    PlaceConcat(c1, AvItems(f.group.avOpts), sep);
    PlaceLibrary(c1, f.group.avOpts);
    var c2 := c1.(avOpts := f.group.avOpts);
    assert sep[1..] == [];
    assert PlaceAll(c2, sep) == Place(c2, sep[0]);
  }

  lemma OneMore(before: seq<Group>, files: seq<Segment>, k: nat)
    requires files != []
    ensures before + OfKind(files, k) ==
      (if files[0].kind == k then before + [files[0].group] else before) + OfKind(files[1..], k)
  {
  }

  lemma {:induction false} PlaceFiles(c: Context, files: seq<Segment>)
    requires c.opts == [] && c.avOpts == [] && WellFormed(CommandLine([], files), |c.groups|)
    ensures var r := PlaceAll(c, FilesItems(files));
            && |r.groups| == |c.groups| && r.globals == c.globals && r.opts == [] && r.avOpts == []
            && forall k :: 0 <= k < |c.groups| ==> r.groups[k] == c.groups[k] + OfKind(files, k)
    decreases |files|
  {
    if files == [] {
    } else {
      var f := files[0];
      PlaceConcat(c, FileItems(f), FilesItems(files[1..]));
      PlaceFile(c, f);
      var c' := c.(groups := c.groups[f.kind := c.groups[f.kind] + [f.group]]);
      assert forall g :: g in files[1..] ==> g in files;
      PlaceFiles(c', files[1..]);
      var r := PlaceAll(c, FilesItems(files));
      assert r == PlaceAll(c', FilesItems(files[1..]));
      forall k | 0 <= k < |c.groups|
        ensures r.groups[k] == c.groups[k] + OfKind(files, k)
      {
        assert r.groups[k] == c'.groups[k] + OfKind(files[1..], k);
        OneMore(c.groups[k], files, k);
      }
    }
  }

  /** Writing any command line out and splitting it again gives back its global options and, for
      each kind, its files with their options, in the order written, with nothing left over. */
  lemma SplitUndoesWriting(t: Tables, l: CommandLine)
    requires WellFormed(l, |t.groups|) && WritableAll(t, LineItems(l))
    ensures var p := Lex(t, WrittenAll(t, LineItems(l)), false);
            var r := PlaceAll(Fresh(|t.groups|), p.items);
            && p.error == None
            && r.globals == l.globals && r.opts == [] && r.avOpts == []
            && |r.groups| == |t.groups|
            && forall k :: 0 <= k < |t.groups| ==> r.groups[k] == OfKind(l.files, k)
  {
    LexReadsBack(t, LineItems(l));
    var c := Fresh(|t.groups|);
    PlaceConcat(c, OptItems(l.globals), FilesItems(l.files));
    PlaceGlobals(c, l.globals);
    assert c.globals + l.globals == l.globals;
    PlaceFiles(c.(globals := l.globals), l.files);
  }
}

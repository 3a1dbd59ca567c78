/** The list of formats, printed in order of name by scanning the unsorted tables again and again. */
module FormatListing {
  import opened Options

  datatype Format = Format(name: string, isDevice: bool)

  datatype Shown = Both | OnlyDemuxers | OnlyMuxers

  /** One printed line. */
  datatype Line = Line(name: string, decode: bool, encode: bool)

  // ----- the order of names -----

  /** `strcmp(a, b) < 0`. */
  predicate Less(a: string, b: string) {
    if b == "" then false
    else if a == "" then true
    else if a[0] == b[0] then Less(a[1..], b[1..])
    else a[0] < b[0]
  }

  lemma {:induction false} LessIsTransitive(a: string, b: string, c: string)
    requires Less(a, b) && Less(b, c)
    ensures Less(a, c)
  {
    if a == "" || a[0] != b[0] || b[0] != c[0] {
    } else {
      LessIsTransitive(a[1..], b[1..], c[1..]);
    }
  }

  lemma {:induction false} LessIsTotal(a: string, b: string)
    ensures Less(a, b) || a == b || Less(b, a)
    ensures !(Less(a, b) && Less(b, a)) && (a == b ==> !Less(a, b))
  {
    if a == "" || b == "" || a[0] != b[0] {
    } else {
      LessIsTotal(a[1..], b[1..]);
      assert a == [a[0]] + a[1..] && b == [b[0]] + b[1..];
    }
  }

  // ----- what is to be listed -----

  datatype Query = Query(muxers: seq<Format>, demuxers: seq<Format>, deviceOnly: bool, shown: Shown)

  predicate Admitted(q: Query, f: Format) {
    f.isDevice || !q.deviceOnly
  }

  /** Some admitted format among those given has the name. */
  predicate Has(q: Query, formats: seq<Format>, name: string) {
    exists i :: 0 <= i < |formats| && Admitted(q, formats[i]) && formats[i].name == name
  }

  predicate Muxes(q: Query, name: string) {
    q.shown != OnlyDemuxers && Has(q, q.muxers, name)
  }

  predicate Demuxes(q: Query, name: string) {
    q.shown != OnlyMuxers && Has(q, q.demuxers, name)
  }

  /** The least name above `last`, if any, among the admitted ones of the formats given or `other`. */
  predicate IsLeast(q: Query, formats: seq<Format>, last: string, other: Option<string>, name: Option<string>) {
    && (name.Some? ==> Less(last, name.value) && (Has(q, formats, name.value) || name == other))
    && (forall i :: 0 <= i < |formats| && Admitted(q, formats[i]) && Less(last, formats[i].name) ==>
          name.Some? && !Less(formats[i].name, name.value))
    && (other.Some? ==> name.Some? && !Less(other.value, name.value))
  }

  lemma HasGrows(q: Query, formats: seq<Format>, n: nat, name: string)
    requires n < |formats|
    ensures Has(q, formats[..n + 1], name) <==> Has(q, formats[..n], name) || (Admitted(q, formats[n]) && formats[n].name == name)
  {
    if Admitted(q, formats[n]) && formats[n].name == name {
      assert formats[..n + 1][n].name == name;
    }
    if Has(q, formats[..n], name) {
      var i :| 0 <= i < n && Admitted(q, formats[..n][i]) && formats[..n][i].name == name;
      assert formats[..n + 1][i].name == name;
    }
  }

  /** One more format looked at. */
  lemma LeastGrows(q: Query, formats: seq<Format>, n: nat, last: string, other: Option<string>, name: Option<string>)
    requires n < |formats| && IsLeast(q, formats[..n], last, other, name)
    ensures var f := formats[n];
            var better := Admitted(q, f) && (name.None? || Less(f.name, name.value)) && Less(last, f.name);
            IsLeast(q, formats[..n + 1], last, other, if better then Some(f.name) else name)
  {
    var f := formats[n];
    if name.Some? {
      HasGrows(q, formats, n, name.value);
      LessIsTotal(f.name, name.value);
    }
    HasGrows(q, formats, n, f.name);
    LessIsTotal(f.name, f.name);
    if Admitted(q, f) && name.Some? && Less(f.name, name.value) && Less(last, f.name) {
      forall i | 0 <= i < n && Admitted(q, formats[i]) && Less(last, formats[i].name)
        ensures !Less(formats[i].name, f.name)
      {
        assert formats[..n][i] == formats[i];
        if Less(formats[i].name, f.name) {
          LessIsTransitive(formats[i].name, f.name, name.value);
        }
      }
      if other.Some? && Less(other.value, f.name) {
        LessIsTransitive(other.value, f.name, name.value);
      }
    } else {
      assert forall i :: 0 <= i < n ==> formats[..n + 1][i] == formats[..n][i];
    }
  }

  // ----- the code -----

  /** The scan of the muxers in one round. */
  method ScanMuxers(q: Query, last: string) returns (name: Option<string>, encode: bool)
    ensures IsLeast(q, q.muxers, last, None, name)
    ensures encode == name.Some?
  {
    name, encode := None, false;
    for i := 0 to |q.muxers|
      invariant IsLeast(q, q.muxers[..i], last, None, name)
      invariant encode == name.Some?
    {
      LeastGrows(q, q.muxers, i, last, None, name);
      var ofmt := q.muxers[i];
      if !ofmt.isDevice && q.deviceOnly {
        continue;
      }
      if (name.None? || Less(ofmt.name, name.value)) && Less(last, ofmt.name) {
        name, encode := Some(ofmt.name), true;
      }
    }
    assert q.muxers[..|q.muxers|] == q.muxers;
  }

  /** The scan of the demuxers in one round, starting from what the muxers gave. */
  method ScanDemuxers(q: Query, last: string, muxName: Option<string>) returns (name: Option<string>, changed: bool, decode: bool)
    requires muxName.Some? ==> Less(last, muxName.value)
    ensures IsLeast(q, q.demuxers, last, muxName, name)
    ensures changed ==> muxName.None? || (name.Some? && Less(name.value, muxName.value))
    ensures !changed ==> name == muxName
    ensures name.Some? ==> decode == Has(q, q.demuxers, name.value)
  {
    name, changed, decode := muxName, false, false;
    if muxName.Some? {
      LessIsTotal(muxName.value, muxName.value);
    }
    for i := 0 to |q.demuxers|
      invariant IsLeast(q, q.demuxers[..i], last, muxName, name)
      invariant changed ==> muxName.None? || (name.Some? && Less(name.value, muxName.value))
      invariant !changed ==> name == muxName
      invariant changed ==> name.Some? && decode
      invariant name.Some? ==> decode == Has(q, q.demuxers[..i], name.value)
      invariant name.None? ==> !decode
    {
      LeastGrows(q, q.demuxers, i, last, muxName, name);
      var ifmt := q.demuxers[i];
      HasGrows(q, q.demuxers, i, ifmt.name);
      if name.Some? {
        HasGrows(q, q.demuxers, i, name.value);
      }
      if !ifmt.isDevice && q.deviceOnly {
        continue;
      }
      if (name.None? || Less(ifmt.name, name.value)) && Less(last, ifmt.name) {
        if name.Some? && muxName.Some? && name != muxName {
          LessIsTransitive(ifmt.name, name.value, muxName.value);
        }
        name, changed := Some(ifmt.name), true;
      }
      if name.Some? && ifmt.name == name.value {
        decode := true;
      }
    }
    assert q.demuxers[..|q.demuxers|] == q.demuxers;
  }

  /** The least name above `last` that is to be listed, and its line. */
  ghost predicate NextLine(q: Query, last: string, line: Option<Line>) {
    && (line.Some? ==>
          && Less(last, line.value.name)
          && (line.value.encode <==> Muxes(q, line.value.name))
          && (line.value.decode <==> Demuxes(q, line.value.name))
          && (line.value.encode || line.value.decode))
    && (forall n :: (Muxes(q, n) || Demuxes(q, n)) && Less(last, n) ==>
          line.Some? && !Less(n, line.value.name))
  }

  /** One round of the printing loop. */
  method NextFormat(q: Query, last: string) returns (line: Option<Line>)
    ensures NextLine(q, last, line)
  {
    var name: Option<string>, encode, decode := None, false, false;
    if q.shown != OnlyDemuxers {
      name, encode := ScanMuxers(q, last);
    }
    ghost var muxName := name;
    if q.shown != OnlyMuxers {
      var changed;
      name, changed, decode := ScanDemuxers(q, last, name);
      if changed {
        encode := false;
      }
    }
    ghost var r := if name.Some? then Some(Line(name.value, decode, encode)) else None;
    forall n | (Muxes(q, n) || Demuxes(q, n)) && Less(last, n)
      ensures name.Some? && !Less(n, name.value)
    {
      if Muxes(q, n) {
        assert muxName.Some? && !Less(n, muxName.value);
        LessIsTotal(n, muxName.value);
        if Less(n, name.value) {
          if n != muxName.value {
            LessIsTransitive(muxName.value, n, name.value);
          }
        }
      }
    }
    if name.Some? {
      if muxName.Some? && name != muxName {
        LessIsTotal(name.value, muxName.value);
      }
      assert Muxes(q, name.value) ==> encode;
    }
    if name.None? {
      return None;
    }
    return Some(Line(name.value, decode, encode));
  }

  ghost predicate Sorted(lines: seq<Line>) {
    forall i, j :: 0 <= i < j < |lines| ==> Less(lines[i].name, lines[j].name)
  }

  /** The listing: every name above the first placeholder once, in order, with the right flags. */
  ghost predicate IsListing(q: Query, lines: seq<Line>) {
    && Sorted(lines)
    && (forall l :: l in lines ==>
          && Less("000", l.name) && (l.encode || l.decode)
          && (l.encode <==> Muxes(q, l.name)) && (l.decode <==> Demuxes(q, l.name)))
    && (forall n :: (Muxes(q, n) || Demuxes(q, n)) && Less("000", n) ==> exists l :: l in lines && l.name == n)
  }

  function Names(q: Query): set<string> {
    (set f | f in q.muxers :: f.name) + (set f | f in q.demuxers :: f.name)
  }

  function Above(q: Query, last: string): set<string> {
    set n | n in Names(q) && Less(last, n)
  }

  method ShowFormatsDevices(q: Query) returns (lines: seq<Line>)
    ensures IsListing(q, lines)
  {
    lines := [];
    var lastName := "000";
    while true
      invariant Sorted(lines)
      invariant forall l :: l in lines ==>
        && Less("000", l.name) && !Less(lastName, l.name) && (l.encode || l.decode)
        && (l.encode <==> Muxes(q, l.name)) && (l.decode <==> Demuxes(q, l.name))
      invariant lines == [] ==> lastName == "000"
      invariant lines != [] ==> lastName == lines[|lines| - 1].name
      invariant forall n :: (Muxes(q, n) || Demuxes(q, n)) && Less("000", n) && !Less(lastName, n) ==>
        exists l :: l in lines && l.name == n
      decreases |Above(q, lastName)|
    {
      var line := NextFormat(q, lastName);
      if line.None? {
        break;
      }
      NextIsAbove(q, lastName, line.value);
      Appended(q, lines, lastName, line.value);
      lines := lines + [line.value];
      lastName := line.value.name;
    }
  }

  lemma NextIsAbove(q: Query, last: string, line: Line)
    requires NextLine(q, last, Some(line))
    ensures |Above(q, line.name)| < |Above(q, last)|
  {
    assert line.name in Names(q);
    forall n | n in Above(q, line.name)
      ensures n in Above(q, last)
    {
      LessIsTransitive(last, line.name, n);
    }
    LessIsTotal(line.name, line.name);
    assert line.name in Above(q, last) && line.name !in Above(q, line.name);
    assert Above(q, line.name) <= Above(q, last) - {line.name};
    SmallerSet(Above(q, line.name), Above(q, last) - {line.name});
  }

  lemma {:induction false} SmallerSet(a: set<string>, b: set<string>)
    requires a <= b
    ensures |a| <= |b|
    decreases |a|
  {
    if a == {} {
    } else {
      var x :| x in a;
      SmallerSet(a - {x}, b - {x});
    }
  }

  lemma Appended(q: Query, lines: seq<Line>, last: string, line: Line)
    requires NextLine(q, last, Some(line)) && Sorted(lines)
    requires lines == [] ==> last == "000"
    requires lines != [] ==> last == lines[|lines| - 1].name
    requires forall l :: l in lines ==> Less("000", l.name) && !Less(last, l.name)
    requires forall n :: (Muxes(q, n) || Demuxes(q, n)) && Less("000", n) && !Less(last, n) ==> exists l :: l in lines && l.name == n
    ensures Sorted(lines + [line]) && Less("000", line.name)
    ensures forall l :: l in lines + [line] ==> !Less(line.name, l.name)
    ensures forall n :: (Muxes(q, n) || Demuxes(q, n)) && Less("000", n) && !Less(line.name, n) ==>
              exists l :: l in lines + [line] && l.name == n
  {
    var more := lines + [line];
    forall i | 0 <= i < |lines|
      ensures Less(lines[i].name, line.name)
    {
      if i < |lines| - 1 {
        LessIsTransitive(lines[i].name, last, line.name);
      }
    }
    if lines != [] {
      assert lines[|lines| - 1] in lines;
      LessIsTransitive("000", last, line.name);
    }
    forall l | l in more
      ensures !Less(line.name, l.name)
    {
      LessIsTotal(l.name, line.name);
    }
    forall n | (Muxes(q, n) || Demuxes(q, n)) && Less("000", n) && !Less(line.name, n)
      ensures exists l :: l in more && l.name == n
    {
      if Less(last, n) {
        LessIsTotal(n, line.name);
        assert line in more && line.name == n;
      } else {
        var l :| l in lines && l.name == n;
        assert l in more;
      }
    }
  }

  /** There is only one such list, so repeated scanning prints the sorted union of the tables. */
  lemma {:induction false} ListingIsUnique(q: Query, a: seq<Line>, b: seq<Line>)
    requires IsListing(q, a) && IsListing(q, b)
    ensures a == b
  {
    SameNames(q, a, b);
    SameNames(q, b, a);
    SortedDetermined(a, b);
  }

  lemma SameNames(q: Query, a: seq<Line>, b: seq<Line>)
    requires IsListing(q, a) && IsListing(q, b)
    ensures forall l :: l in a ==> l in b
  {
    forall l | l in a
      ensures l in b
    {
      var m :| m in b && m.name == l.name;
      assert m == l;
    }
  }

  lemma {:induction false} SortedDetermined(a: seq<Line>, b: seq<Line>)
    requires Sorted(a) && Sorted(b)
    requires forall l :: l in a <==> l in b
    ensures a == b
  {
    if a == [] {
      NonemptyHasElement(b);
    } else {
      assert a[0] in b;
      assert b[0] in a;
      FirstIsLeast(a, b[0]);
      FirstIsLeast(b, a[0]);
      LessIsTotal(a[0].name, b[0].name);
      assert a[0] == b[0];
      forall l
        ensures l in a[1..] <==> l in b[1..]
      {
        NotInTail(a, l);
        NotInTail(b, l);
      }
      SortedDetermined(a[1..], b[1..]);
      assert a == [a[0]] + a[1..] && b == [b[0]] + b[1..];
    }
  }

  lemma NonemptyHasElement(a: seq<Line>)
    ensures a == [] || exists l :: l in a
  {
    if a != [] {
      assert a[0] in a;
    }
  }

  lemma FirstIsLeast(a: seq<Line>, l: Line)
    requires Sorted(a) && l in a
    ensures a != [] && (l == a[0] || Less(a[0].name, l.name))
  {
  }

  lemma NotInTail(a: seq<Line>, l: Line)
    requires Sorted(a) && a != []
    ensures l in a[1..] <==> l in a && l != a[0]
  {
    if l in a[1..] {
      var i :| 0 <= i < |a| - 1 && a[1..][i] == l;
      assert a[i + 1] == l;
      LessIsTotal(a[0].name, a[i + 1].name);
    }
    if l in a && l != a[0] {
      var i :| 0 <= i < |a| && a[i] == l;
      assert a[1..][i - 1] == l;
    }
  }

  // ----- the order and the tables from outside -----

  /** Names that agree up to `k`, where the first ends or has the smaller character. */
  predicate DiffersAt(a: string, b: string, k: nat) {
    k <= |a| && k < |b| && a[..k] == b[..k] && (k == |a| || a[k] < b[k])
  }

  lemma {:induction false} DiffersIsLess(a: string, b: string, k: nat)
    requires DiffersAt(a, b, k)
    ensures Less(a, b)
  {
    if k == 0 {
    } else {
      assert a[0] == a[..k][0] && b[0] == b[..k][0];
      assert a[1..][..k - 1] == a[..k][1..] && b[1..][..k - 1] == b[..k][1..];
      DiffersIsLess(a[1..], b[1..], k - 1);
    }
  }

  lemma PrefixOfTail(a: string, k: nat)
    requires k + 1 <= |a|
    ensures a[..k + 1] == [a[0]] + a[1..][..k]
  {
  }

  lemma {:induction false} LessDiffers(a: string, b: string) returns (k: nat)
    requires Less(a, b)
    ensures DiffersAt(a, b, k)
  {
    if a == "" || a[0] != b[0] {
      k := 0;
    } else {
      k := LessDiffers(a[1..], b[1..]);
      PrefixOfTail(a, k);
      PrefixOfTail(b, k);
      k := k + 1;
    }
  }

  /** The order is the one of dictionaries. */
  lemma LessIsLexicographic(a: string, b: string)
    ensures Less(a, b) <==> exists k: nat :: DiffersAt(a, b, k)
  {
    if Less(a, b) {
      var k := LessDiffers(a, b);
    }
    if k: nat :| DiffersAt(a, b, k) {
      DiffersIsLess(a, b, k);
    }
  }

  /** A table has a format of the name, a device if only devices are asked for. */
  predicate InTable(table: seq<Format>, name: string, devicesOnly: bool) {
    exists f :: f in table && f.name == name && (devicesOnly ==> f.isDevice)
  }

  lemma HasIsInTable(q: Query, table: seq<Format>, name: string)
    ensures Has(q, table, name) <==> InTable(table, name, q.deviceOnly)
  {
    if Has(q, table, name) {
      var i :| 0 <= i < |table| && Admitted(q, table[i]) && table[i].name == name;
      assert table[i] in table;
    }
    if InTable(table, name, q.deviceOnly) {
      var f :| f in table && f.name == name && (q.deviceOnly ==> f.isDevice);
      var i :| 0 <= i < |table| && table[i] == f;
    }
  }

  /** A line of the listing shows E exactly if muxers are asked for and have the name, D exactly if
      demuxers are and have it, devices only where just these are asked for. */
  lemma ListedExactly(q: Query, lines: seq<Line>, name: string)
    requires IsListing(q, lines) && Less("000", name)
    ensures var e := q.shown != OnlyDemuxers && InTable(q.muxers, name, q.deviceOnly);
            var d := q.shown != OnlyMuxers && InTable(q.demuxers, name, q.deviceOnly);
            && (e || d <==> Line(name, d, e) in lines)
            && (forall l :: l in lines && l.name == name ==> l == Line(name, d, e))
  {
    HasIsInTable(q, q.muxers, name);
    HasIsInTable(q, q.demuxers, name);
  }
}

/** Which manifests are the only ones with their identity, once names and paths may hold newlines. */
module Selections {
  import opened Text
  import opened Sorting
  import opened Bytes
  import opened Manifest

  /** What a name, a path and a size are checked for. */
  datatype Rules = Rules(name: string -> bool, path: string -> bool, bytes: nat -> bool)

  predicate Fits(rules: Rules, m: Manifest) {
    rules.name(m.name) && forall e | e in m.files :: rules.path(e.path) && rules.bytes(e.bytes)
  }

  /** A name that passes does so with more after it, and so does an entry's line with a path after it. */
  ghost predicate Closed(rules: Rules) {
    && (forall a: string, b: string | rules.name(a) :: rules.name(a + b))
    && (forall e: Entry, b: string | rules.path(e.path) && rules.path(b) :: rules.path(EntryLine(e) + "\n" + b))
  }

  /** No other manifest that passes the checks has the bytes of this one. */
  ghost predicate NamesOneSelection(rules: Rules, m: Manifest) {
    forall o: Manifest | o.files != [] && DistinctPaths(o.files) && Fits(rules, o) && Preimage(o) == Preimage(m) ::
      SameSelection(o, m)
  }

  /** The name and the one path, as they stand in the listing. */
  function Joined(m: Manifest): string
    requires |m.files| == 1
  {
    m.name + "\n" + m.files[0].path
  }

  /** Another newline at which a name could end and a path begin. */
  predicate SplitsAt(rules: Rules, m: Manifest, k: nat)
    requires |m.files| == 1
  {
    && k < |Joined(m)| && k != |m.name| && Joined(m)[k] == '\n'
    && rules.name(Joined(m)[..k]) && rules.path(Joined(m)[k + 1..])
  }

  // The shape of a listing

  lemma {:induction false} LinesSplit(entries: seq<Entry>, last: Entry)
    ensures Lines(entries + [last]) == Lines(entries) + EntryLine(last) + "\n"
  {
    hide EntryLine;
    if entries == [] {
      assert entries + [last] == [last] && [last][1..] == [];
    } else {
      LinesSplit(entries[1..], last);
      assert (entries + [last])[1..] == entries[1..] + [last];
      var head, mid, end := EntryLine(entries[0]), Lines(entries[1..]), EntryLine(last);
      assert head + "\n" + (mid + end + "\n") == (head + "\n" + mid) + end + "\n";
    }
  }

  lemma {:induction false} LinesEnd(entries: seq<Entry>)
    requires entries != []
    ensures Lines(entries) != "" && Lines(entries)[|Lines(entries)| - 1] == '\n'
  {
    hide EntryLine;
    if entries[1..] != [] { LinesEnd(entries[1..]); }
  }

  lemma OneFile(name: string, e: Entry)
    ensures IdentityText(Manifest(name, [e])) == name + "\n" + EntryLine(e) + "\n"
  {
    hide EntryLine;
    assert [e][1..] == [] && Sort(PathLeq, [e]) == [e];
    LinesSplit([], e);
    assert [] + [e] == [e];
    assert Lines([e]) == "" + EntryLine(e) + "\n" == EntryLine(e) + "\n";
  }

  /** Everything but the digest and the size of the last line. */
  function Leading(name: string, front: seq<Entry>, last: Entry): string {
    name + "\n" + (Lines(front) + last.path)
  }

  lemma TextByLast(m: Manifest, front: seq<Entry>, last: Entry)
    requires Sort(PathLeq, m.files) == front + [last]
    ensures IdentityText(m) == (Leading(m.name, front, last) + " " + Hex(last.blake3)) + " " + Natural(last.bytes) + "\n"
  {
    hide Hex, Natural, Lines;
    LinesSplit(front, last);
    Regroup(m.name, Lines(front), last.path, Hex(last.blake3), Natural(last.bytes));
  }

  lemma Regroup(name: string, lines: string, path: string, hex: string, n: string)
    ensures name + "\n" + (lines + (path + " " + hex + " " + n) + "\n")
         == (name + "\n" + (lines + path) + " " + hex) + " " + n + "\n"
  {
  }

  /** Texts of one identity have the same last digest and size, and the same before them. */
  lemma SameLast(a: string, d: Entry, b: string, e: Entry)
    requires (a + " " + Hex(d.blake3)) + " " + Natural(d.bytes) + "\n" == (b + " " + Hex(e.blake3)) + " " + Natural(e.bytes) + "\n"
    ensures a == b && d.blake3 == e.blake3 && d.bytes == e.bytes
  {
    var s, t := (a + " " + Hex(d.blake3)) + " " + Natural(d.bytes), (b + " " + Hex(e.blake3)) + " " + Natural(e.bytes);
    assert (s + "\n")[..|s|] == s && (t + "\n")[..|t|] == t;
    NaturalPlain(d.bytes);
    NaturalPlain(e.bytes);
    LastSpace(a + " " + Hex(d.blake3), Natural(d.bytes), b + " " + Hex(e.blake3), Natural(e.bytes));
    LastSpace(a, Hex(d.blake3), b, Hex(e.blake3));
    HexInjective(d.blake3, e.blake3);
    NaturalRead(d.bytes);
    NaturalRead(e.bytes);
  }

  lemma SortOfOne(e: Entry)
    ensures Sort(PathLeq, [e]) == [] + [e]
  {
    assert [e][1..] == [];
  }

  lemma SortedMembers(files: seq<Entry>)
    ensures forall e :: e in Sort(PathLeq, files) <==> e in files
  {
    forall e ensures e in Sort(PathLeq, files) <==> e in files {
      assert e in multiset(Sort(PathLeq, files)) <==> e in multiset(files);
    }
  }

  // Manifests of several files

  /** All lines but the last, read as part of the name. */
  function Folded(m: Manifest): Manifest
    requires |m.files| >= 2
  {
    var sorted := Sort(PathLeq, m.files);
    var text := m.name + "\n" + Lines(sorted[..|sorted| - 1]);
    Manifest(text[..|text| - 1], [sorted[|sorted| - 1]])
  }

  lemma FoldedText(m: Manifest)
    requires |m.files| >= 2
    ensures IdentityText(Folded(m)) == IdentityText(m) && |Folded(m).name| > |m.name|
    ensures Folded(m).name[..|m.name|] == m.name
  {
    hide EntryLine, Lines;
    var sorted := Sort(PathLeq, m.files);
    var front, last := sorted[..|sorted| - 1], sorted[|sorted| - 1];
    assert sorted == front + [last];
    LinesSplit(front, last);
    LinesEnd(front);
    var text := m.name + "\n" + Lines(front);
    assert text == text[..|text| - 1] + "\n";
    OneFile(text[..|text| - 1], last);
  }

  /** A manifest of several files shares its bytes with the one whose name holds its first lines, which
      passes the same checks. */
  lemma FoldedShares(rules: Rules, m: Manifest)
    requires |m.files| >= 2 && Closed(rules) && Fits(rules, m)
    ensures Preimage(Folded(m)) == Preimage(m) && !SameSelection(Folded(m), m)
    ensures DistinctPaths(Folded(m).files) && Folded(m).files != [] && Fits(rules, Folded(m))
  {
    hide IdentityText, Sort, Lines;
    FoldedText(m);
    SortedMembers(m.files);
    var o, sorted := Folded(m), Sort(PathLeq, m.files);
    assert o.files == [sorted[|sorted| - 1]];
    hide Folded;
    assert o.name == m.name + o.name[|m.name|..];
    assert sorted[|sorted| - 1] in sorted;
  }

  // Manifests of one file

  /** The name and path on either side of a newline. */
  function SplitAt(m: Manifest, k: nat): Manifest
    requires |m.files| == 1 && k < |Joined(m)|
  {
    Manifest(Joined(m)[..k], [m.files[0].(path := Joined(m)[k + 1..])])
  }

  lemma SplitText(m: Manifest, k: nat)
    requires |m.files| == 1 && k < |Joined(m)| && Joined(m)[k] == '\n'
    ensures IdentityText(SplitAt(m, k)) == IdentityText(m)
  {
    hide Hex, Natural, Sort, Joined, Leading;
    var e, text, o := m.files[0], Joined(m), SplitAt(m, k);
    assert m.files == [e] && o.files == [o.files[0]];
    assert text == text[..k] + "\n" + text[k + 1..];
    SortOfOne(e);
    SortOfOne(o.files[0]);
    TextByLast(m, [], e);
    TextByLast(o, [], o.files[0]);
    LeadingOfOne(m);
    LeadingOfOne(o);
    assert Joined(o) == text by { JoinedSplit(m, k); }
  }

  lemma JoinedSplit(m: Manifest, k: nat)
    requires |m.files| == 1 && k < |Joined(m)| && Joined(m)[k] == '\n'
    ensures Joined(SplitAt(m, k)) == Joined(m)
  {
    var text := Joined(m);
    assert text == text[..k] + "\n" + text[k + 1..];
  }

  /** The split at another newline is another manifest with the same bytes, and passes the same checks. */
  lemma SplitShares(rules: Rules, m: Manifest, k: nat)
    requires |m.files| == 1 && Fits(rules, m) && SplitsAt(rules, m, k)
    ensures !NamesOneSelection(rules, m)
  {
    hide IdentityText;
    SplitText(m, k);
    assert m.files[0] in m.files;
    var o := SplitAt(m, k);
    assert |o.name| != |m.name|;
    assert o.files != [] && DistinctPaths(o.files) && Fits(rules, o) && Preimage(o) == Preimage(m) && !SameSelection(o, m);
  }

  lemma {:induction false} PathAfterLines(rules: Rules, front: seq<Entry>, path: string)
    requires Closed(rules) && rules.path(path) && forall e | e in front :: rules.path(e.path)
    ensures rules.path(Lines(front) + path)
  {
    hide EntryLine;
    if front == [] {
      assert Lines(front) + path == path;
    } else {
      assert front[0] in front;
      PathAfterLines(rules, front[1..], path);
      assert Lines(front) + path == EntryLine(front[0]) + "\n" + (Lines(front[1..]) + path);
    }
  }

  /** Another reading of the same leading text splits it at another newline. */
  lemma AnotherReadingSplits(rules: Rules, m: Manifest, name: string, front: seq<Entry>, last: Entry)
    requires Closed(rules) && |m.files| == 1 && Leading(name, front, last) == Joined(m)
    requires rules.name(name) && rules.path(last.path) && forall e | e in front :: rules.path(e.path)
    requires name != m.name || front != []
    ensures exists k :: SplitsAt(rules, m, k)
  {
    hide Lines;
    var text := Joined(m);
    PathAfterLines(rules, front, last.path);
    assert text[..|name|] == name && text[|name|] == '\n' && text[|name| + 1..] == Lines(front) + last.path;
    assert text[..|m.name|] == m.name;
    if name != m.name {
      assert SplitsAt(rules, m, |name|);
    } else {
      LinesEnd(front);
      var k := |name| + |Lines(front)|;
      assert text == (name + "\n" + Lines(front)) + last.path;
      assert text[k] == '\n' && text[k + 1..] == last.path;
      assert text[..k] == name + text[|name|..k];
      assert SplitsAt(rules, m, k);
    }
  }

  lemma SamePath(m: Manifest, last: Entry)
    requires |m.files| == 1 && Leading(m.name, [], last) == Joined(m)
    ensures last.path == m.files[0].path
  {
    LinesOfNone();
    var s, t := Leading(m.name, [], last), Joined(m);
    assert s[|m.name| + 1..] == "" + last.path == last.path && t[|m.name| + 1..] == m.files[0].path;
  }

  lemma LinesOfNone()
    ensures Lines([]) == ""
  {
  }

  lemma NoSplitNamesOne(rules: Rules, m: Manifest, o: Manifest)
    requires Closed(rules) && |m.files| == 1 && !exists k :: SplitsAt(rules, m, k)
    requires o.files != [] && Fits(rules, o) && Preimage(o) == Preimage(m)
    ensures SameSelection(o, m)
  {
    hide Lines, Closed, SplitsAt, Hex, Natural, Sort, Fits, SameSelection, Leading, Joined;
    Utf8Injective(IdentityText(o), IdentityText(m));
    var e, sorted := m.files[0], Sort(PathLeq, o.files);
    SortedMembers(o.files);
    var front, last := sorted[..|sorted| - 1], sorted[|sorted| - 1];
    assert m.files == [e] && sorted == front + [last];
    SortOfOne(e);
    TextByLast(m, [], e);
    TextByLast(o, front, last);
    LeadingOfOne(m);
    SameLast(Leading(o.name, front, last), last, Joined(m), e);
    OrderedFits(rules, o, front, last);
    if o.name != m.name || front != [] {
      AnotherReadingSplits(rules, m, o.name, front, last);
    }
    SamePath(m, last);
    SameFiles(o, m, e);
  }

  lemma LeadingOfOne(m: Manifest)
    requires |m.files| == 1
    ensures Leading(m.name, [], m.files[0]) == Joined(m)
  {
    LinesOfNone();
    assert "" + m.files[0].path == m.files[0].path;
  }

  lemma OrderedFits(rules: Rules, o: Manifest, front: seq<Entry>, last: Entry)
    requires Fits(rules, o) && forall e :: e in front + [last] <==> e in o.files
    ensures rules.name(o.name) && rules.path(last.path) && forall e | e in front :: rules.path(e.path)
  {
    assert last in front + [last];
    assert forall e | e in front :: e in front + [last];
  }

  lemma SameFiles(o: Manifest, m: Manifest, e: Entry)
    requires o.name == m.name && m.files == [e] && forall f :: f in o.files <==> f in [e]
    ensures SameSelection(o, m)
  {
  }

  /** Under any such checks a manifest is the only one with its bytes exactly when it has a single file
      and its name and path do not split anywhere else into a name and a path that pass. */
  lemma NamesOneSelectionExactly(rules: Rules, m: Manifest)
    requires Closed(rules) && Fits(rules, m) && m.files != [] && DistinctPaths(m.files)
    ensures NamesOneSelection(rules, m) <==> |m.files| == 1 && !exists k :: SplitsAt(rules, m, k)
  {
    hide Closed, Fits, SplitsAt;
    if |m.files| >= 2 {
      FoldedShares(rules, m);
    } else if k :| SplitsAt(rules, m, k) {
      SplitShares(rules, m, k);
    } else {
      forall o: Manifest | o.files != [] && DistinctPaths(o.files) && Fits(rules, o) && Preimage(o) == Preimage(m)
        ensures SameSelection(o, m)
      {
        NoSplitNamesOne(rules, m, o);
      }
    }
  }

  // With the checks of a listing alone, and with all the checks of a manifest

  /** The checks of the listing alone: some files, and no path twice. */
  const ANY := Rules(name => true, path => true, bytes => true)

  /** Over all listings, a manifest is the only one with its bytes exactly when it has a single file and
      no newline in its name or its path. */
  lemma AmongAllListings(m: Manifest)
    requires m.files != [] && DistinctPaths(m.files)
    ensures NamesOneSelection(ANY, m) <==> |m.files| == 1 && NewlineFree(m)
  {
    hide NamesOneSelection;
    NamesOneSelectionExactly(ANY, m);
    if |m.files| == 1 {
      NewlineSplits(m);
    }
  }

  lemma NewlineSplits(m: Manifest)
    requires |m.files| == 1
    ensures (exists k :: SplitsAt(ANY, m, k)) <==> !NewlineFree(m)
  {
    var text, path := Joined(m), m.files[0].path;
    assert m.files == [m.files[0]];
    assert text[..|m.name|] == m.name && text[|m.name| + 1..] == path;
    if '\n' in m.name {
      var k :| 0 <= k < |m.name| && m.name[k] == '\n';
      assert text[k] == '\n';
      assert SplitsAt(ANY, m, k);
    } else if '\n' in path {
      var k :| 0 <= k < |path| && path[k] == '\n';
      assert text[|m.name| + 1 + k] == '\n';
      assert SplitsAt(ANY, m, |m.name| + 1 + k);
    } else {
      forall k: nat | k < |text| && k != |m.name| ensures text[k] != '\n' {
        if k < |m.name| {
          assert text[k] == m.name[k];
        } else {
          assert text[k] == path[k - |m.name| - 1];
        }
      }
    }
  }

  /** Neither blank, nor absolute, nor with a segment that climbs out. */
  predicate PathAllowed(path: string) {
    !Blank(path) && path[0] != '/' && forall part | part in Split('/', path) :: part != ".."
  }

  /** What `validate` asks of a name, a path and a size. */
  const VALIDATED := Rules(name => !Blank(name), path => PathAllowed(path), bytes => bytes > 0)

  /** Among validated manifests too it is the only one exactly when it has a single file and its name and
      path split nowhere else into a name and a path that would be accepted. */
  lemma AmongValidated(m: Manifest)
    requires Fits(VALIDATED, m) && m.files != [] && DistinctPaths(m.files)
    ensures NamesOneSelection(VALIDATED, m) <==> |m.files| == 1 && !exists k :: SplitsAt(VALIDATED, m, k)
  {
    hide NamesOneSelection, Fits, SplitsAt;
    ValidatedClosed();
    NamesOneSelectionExactly(VALIDATED, m);
  }

  lemma ValidatedClosed()
    ensures Closed(VALIDATED)
  {
    hide EntryLine, PathAllowed;
    forall a: string, b: string | !Blank(a) ensures !Blank(a + b) {
      BlankParts(a, b);
    }
    forall e: Entry, b: string | PathAllowed(e.path) && PathAllowed(b) ensures PathAllowed(EntryLine(e) + "\n" + b) {
      PathAfterLine(e, b);
    }
  }

  lemma BlankParts(a: string, b: string)
    requires !Blank(a)
    ensures !Blank(a + b)
  {
    var c :| c in a && !Whitespace(c);
    assert c in a + b;
  }

  lemma {:induction false} HexHasNoSlash(d: seq<Byte>)
    ensures '/' !in Hex(d)
  {
    if d != [] {
      HexHasNoSlash(d[1..]);
    }
  }

  lemma PathAfterLine(e: Entry, b: string)
    requires PathAllowed(e.path) && PathAllowed(b)
    ensures PathAllowed(EntryLine(e) + "\n" + b)
  {
    hide Hex, Natural;
    var middle := " " + Hex(e.blake3) + " " + Natural(e.bytes) + "\n";
    assert EntryLine(e) + "\n" + b == e.path + (middle + b);
    HexHasNoSlash(e.blake3);
    assert Digits(Natural(e.bytes));
    BlankParts(e.path, middle + b);
    NoClimb(e.path, middle, b);
  }

  lemma NoClimb(a: string, middle: string, b: string)
    requires '/' !in middle && |middle| > 2
    requires forall part | part in Split('/', a) :: part != ".."
    requires forall part | part in Split('/', b) :: part != ".."
    ensures forall part | part in Split('/', a + (middle + b)) :: part != ".."
  {
    var x, y := Split('/', a), Split('/', b);
    SplitHead('/', middle, "");
    SplitConcat('/', middle, b);
    SplitConcat('/', a, middle + b);
    var z := Split('/', middle + b);
    assert z == [middle + y[0]] + y[1..];
    var whole := x[..|x| - 1] + [x[|x| - 1] + z[0]] + z[1..];
    forall part | part in whole ensures part != ".." {
      if part in x[..|x| - 1] {
        assert part in x;
      } else if part in z[1..] {
        assert part in y;
      } else {
        assert part == x[|x| - 1] + z[0];
      }
    }
  }
}

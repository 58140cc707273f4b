/** The identity of a corpus: the bytes hashed of a manifest, and what they name. */
module Manifest {
  import opened Text
  import opened Sorting
  import opened Bytes

  type Blake3 = d: seq<Byte> | |d| == 32 witness seq(32, _ => 0)

  datatype Entry = Entry(path: string, blake3: Blake3, bytes: nat)

  datatype Manifest = Manifest(name: string, files: seq<Entry>)

  function HexDigit(d: nat): char
    requires d < 16
  {
    if d < 10 then ('0' as int + d) as char else ('a' as int + d - 10) as char
  }

  function Hex(digest: seq<Byte>): (s: string)
    ensures |s| == 2 * |digest| && ' ' !in s && '\n' !in s
  {
    if digest == [] then "" else [HexDigit(digest[0] / 16), HexDigit(digest[0] % 16)] + Hex(digest[1..])
  }

  /** Two lower case digits for each byte, the high four bits first. */
  lemma {:induction false} HexForm(digest: seq<Byte>, i: nat)
    requires i < |digest|
    ensures Hex(digest)[2 * i] == "0123456789abcdef"[digest[i] / 16]
    ensures Hex(digest)[2 * i + 1] == "0123456789abcdef"[digest[i] % 16]
  {
    HexDigitIs(digest[0] / 16);
    HexDigitIs(digest[0] % 16);
    hide HexDigit;
    if i > 0 {
      HexForm(digest[1..], i - 1);
      assert Hex(digest)[2..] == Hex(digest[1..]);
      assert Hex(digest)[2 * i] == Hex(digest)[2..][2 * (i - 1)];
    }
  }

  lemma HexDigitIs(d: nat)
    requires d < 16
    ensures HexDigit(d) == "0123456789abcdef"[d]
  {
  }

  lemma {:induction false} HexInjective(a: seq<Byte>, b: seq<Byte>)
    requires Hex(a) == Hex(b)
    ensures a == b
  {
    assert |Hex(a)| == |Hex(b)|;
    if a != [] {
      assert Hex(a)[0] == Hex(b)[0] && Hex(a)[1] == Hex(b)[1];
      assert a[0] == 16 * (a[0] / 16) + a[0] % 16 && b[0] == 16 * (b[0] / 16) + b[0] % 16;
      assert Hex(a)[2..] == Hex(a[1..]) && Hex(b)[2..] == Hex(b[1..]);
      HexInjective(a[1..], b[1..]);
      assert a == [a[0]] + a[1..] && b == [b[0]] + b[1..];
    }
  }

  function EntryLine(e: Entry): string {
    e.path + " " + Hex(e.blake3) + " " + Natural(e.bytes)
  }

  predicate PathLeq(a: Entry, b: Entry) {
    TextLeq(a.path, b.path)
  }

  function Lines(entries: seq<Entry>): string {
    if entries == [] then "" else EntryLine(entries[0]) + "\n" + Lines(entries[1..])
  }

  function IdentityText(m: Manifest): string {
    m.name + "\n" + Lines(Sort(PathLeq, m.files))
  }

  /** The bytes fed to the hasher. */
  function Preimage(m: Manifest): seq<Byte> {
    Utf8(IdentityText(m))
  }

  predicate DistinctPaths(files: seq<Entry>) {
    forall i, j | 0 <= i < j < |files| :: files[i].path != files[j].path
  }

  predicate NewlineFree(m: Manifest) {
    '\n' !in m.name && forall e | e in m.files :: '\n' !in e.path
  }

  /** One name over one set of pinned files. */
  ghost predicate SameSelection(a: Manifest, b: Manifest) {
    a.name == b.name && (set e | e in a.files) == (set e | e in b.files)
  }

  // Reading an entry line from the right

  lemma LastSpace(a: string, x: string, b: string, y: string)
    requires ' ' !in x && ' ' !in y
    requires a + " " + x == b + " " + y
    ensures a == b && x == y
  {
    var s, t := a + " " + x, b + " " + y;
    assert s[|a|] == ' ' && t[|b|] == ' ';
    assert forall i | |a| < i < |s| :: s[i] == x[i - |a| - 1];
    assert forall i | |b| < i < |t| :: t[i] == y[i - |b| - 1];
    assert a == s[..|a|] && b == t[..|b|];
    assert x == s[|a| + 1..] && y == t[|b| + 1..];
  }

  lemma NaturalPlain(n: nat)
    ensures ' ' !in Natural(n) && '\n' !in Natural(n)
  {
    assert Digits(Natural(n));
  }

  lemma EntryLineInjective(a: Entry, b: Entry)
    requires EntryLine(a) == EntryLine(b)
    ensures a == b
  {
    NaturalPlain(a.bytes);
    NaturalPlain(b.bytes);
    LastSpace(a.path + " " + Hex(a.blake3), Natural(a.bytes), b.path + " " + Hex(b.blake3), Natural(b.bytes));
    LastSpace(a.path, Hex(a.blake3), b.path, Hex(b.blake3));
    HexInjective(a.blake3, b.blake3);
    NaturalRead(a.bytes);
    NaturalRead(b.bytes);
  }

  lemma EntryLineNewlines(e: Entry)
    ensures '\n' in EntryLine(e) <==> '\n' in e.path
  {
    NaturalPlain(e.bytes);
  }

  lemma FirstNewline(a: string, x: string, b: string, y: string)
    requires '\n' !in a && '\n' !in b
    requires a + "\n" + x == b + "\n" + y
    ensures a == b && x == y
  {
    var s, t := a + "\n" + x, b + "\n" + y;
    assert s[|a|] == '\n' && t[|b|] == '\n';
    assert forall i | 0 <= i < |a| :: s[i] == a[i];
    assert forall i | 0 <= i < |b| :: t[i] == b[i];
    assert a == s[..|a|] && b == t[..|b|];
    assert x == s[|a| + 1..] && y == t[|b| + 1..];
  }

  lemma {:induction false} LinesInjective(a: seq<Entry>, b: seq<Entry>)
    requires forall e | e in a :: '\n' !in e.path
    requires forall e | e in b :: '\n' !in e.path
    requires Lines(a) == Lines(b)
    ensures a == b
  {
    assert a == [] <==> Lines(a) == "";
    assert b == [] <==> Lines(b) == "";
    if a != [] && b != [] {
      assert a[0] in a && b[0] in b;
      EntryLineNewlines(a[0]);
      EntryLineNewlines(b[0]);
      FirstNewline(EntryLine(a[0]), Lines(a[1..]), EntryLine(b[0]), Lines(b[1..]));
      EntryLineInjective(a[0], b[0]);
      LinesInjective(a[1..], b[1..]);
      assert a == [a[0]] + a[1..] && b == [b[0]] + b[1..];
    }
  }

  // The set of files and the sorted list of files

  lemma PathsSort(files: seq<Entry>)
    requires DistinctPaths(files)
    ensures Preorder(PathLeq) && Separates(PathLeq, files)
  {
    forall x: Entry, y: Entry ensures PathLeq(x, y) || PathLeq(y, x) { TextLeqTotal(x.path, y.path); }
    forall x: Entry, y: Entry, z: Entry | PathLeq(x, y) && PathLeq(y, z) ensures PathLeq(x, z) {
      TextLeqTransitive(x.path, y.path, z.path);
    }
    forall x, y | x in files && y in files && PathLeq(x, y) && PathLeq(y, x) ensures x == y {
      TextLeqTotal(x.path, y.path);
    }
  }

  lemma {:induction false} DistinctOnce(files: seq<Entry>, e: Entry)
    requires DistinctPaths(files)
    ensures multiset(files)[e] == if e in files then 1 else 0
  {
    if files != [] {
      DistinctOnce(files[1..], e);
      assert files == [files[0]] + files[1..];
    }
  }

  lemma SetIsMultiset(a: seq<Entry>, b: seq<Entry>)
    requires DistinctPaths(a) && DistinctPaths(b)
    ensures (set e | e in a) == (set e | e in b) <==> multiset(a) == multiset(b)
  {
    var sa, sb := set e | e in a, set e | e in b;
    if sa == sb {
      forall e: Entry ensures multiset(a)[e] == multiset(b)[e] {
        DistinctOnce(a, e);
        DistinctOnce(b, e);
        assert e in a <==> e in sa;
        assert e in b <==> e in sb;
      }
    } else if multiset(a) == multiset(b) {
      forall e ensures e in a <==> e in b {
        assert e in a <==> e in multiset(a);
      }
    }
  }

  /** The entries are listed in the order of their paths. */
  lemma ListedByPath(files: seq<Entry>, i: nat, j: nat)
    requires DistinctPaths(files) && i < j < |files|
    ensures TextLeq(Sort(PathLeq, files)[i].path, Sort(PathLeq, files)[j].path)
  {
    PathsSort(files);
    SortSorts(PathLeq, files);
    assert PathLeq(Sort(PathLeq, files)[i], Sort(PathLeq, files)[j]);
  }

  /** The identity does not move when the entries of a valid manifest are reordered. */
  lemma IdentityIgnoresOrder(a: Manifest, b: Manifest)
    requires DistinctPaths(a.files) && a.name == b.name && multiset(a.files) == multiset(b.files)
    ensures Preimage(a) == Preimage(b)
  {
    PathsSort(a.files);
    SortCanonical(PathLeq, a.files, b.files);
  }

  /** Over manifests without a newline in a name or a path, the bytes are equal exactly when the name
      and the set of pinned files are: no two selections share them. */
  lemma IdentityExact(a: Manifest, b: Manifest)
    requires DistinctPaths(a.files) && DistinctPaths(b.files)
    requires NewlineFree(a) && NewlineFree(b)
    ensures Preimage(a) == Preimage(b) <==> SameSelection(a, b)
  {
    SetIsMultiset(a.files, b.files);
    if SameSelection(a, b) {
      IdentityIgnoresOrder(a, b);
    } else if Preimage(a) == Preimage(b) {
      Utf8Injective(IdentityText(a), IdentityText(b));
      var x, y := Sort(PathLeq, a.files), Sort(PathLeq, b.files);
      FirstNewline(a.name, Lines(x), b.name, Lines(y));
      forall e | e in x ensures e in a.files { assert e in multiset(x); }
      forall e | e in y ensures e in b.files { assert e in multiset(y); }
      LinesInjective(x, y);
      assert false;
    }
  }

  // The operations

  /** A hasher fed one text at a time.  What it has been fed is the encoding of all of them. */
  class Hasher {
    var fed: seq<Byte>
    ghost var text: string

    ghost predicate Valid()
      reads this
    {
      fed == Utf8(text)
    }

    constructor ()
      ensures Valid() && text == ""
    {
      fed, text := [], "";
    }

    method Update(piece: string)
      requires Valid()
      modifies this
      ensures Valid() && text == old(text) + piece
    {
      Utf8Concat(text, piece);
      fed, text := fed + Utf8(piece), text + piece;
    }
  }

  method FeedEntry(hasher: Hasher, entry: Entry)
    requires hasher.Valid()
    modifies hasher
    ensures hasher.Valid() && hasher.text == old(hasher.text) + EntryLine(entry) + "\n"
  {
    hasher.Update(entry.path);
    hasher.Update(" ");
    hasher.Update(Hex(entry.blake3));
    hasher.Update(" ");
    hasher.Update(Natural(entry.bytes));
    hasher.Update("\n");
    SixParts(old(hasher.text), entry.path, Hex(entry.blake3), Natural(entry.bytes));
  }

  lemma SixParts(a: string, p: string, h: string, n: string)
    ensures a + p + " " + h + " " + n + "\n" == a + (p + " " + h + " " + n) + "\n"
  {
  }

  lemma LinesUnroll(before: string, entries: seq<Entry>, i: nat)
    requires i < |entries|
    ensures before + Lines(entries[i..]) == before + EntryLine(entries[i]) + "\n" + Lines(entries[i + 1..])
  {
    hide EntryLine;
    assert entries[i..][1..] == entries[i + 1..];
    var line, rest := EntryLine(entries[i]), Lines(entries[i + 1..]);
    assert before + (line + "\n" + rest) == before + line + "\n" + rest;
  }

  method FeedEntries(hasher: Hasher, entries: seq<Entry>)
    requires hasher.Valid()
    modifies hasher
    ensures hasher.Valid() && hasher.text == old(hasher.text) + Lines(entries)
  {
    hide EntryLine;
    for i := 0 to |entries|
      invariant hasher.Valid()
      invariant hasher.text + Lines(entries[i..]) == old(hasher.text) + Lines(entries)
    {
      LinesUnroll(hasher.text, entries, i);
      FeedEntry(hasher, entries[i]);
    }
    assert Lines(entries[|entries|..]) == "";
  }

  /** Feeds the hasher piece by piece; the digest is the hash of the whole. */
  method Identity<D>(m: Manifest, hash: seq<Byte> -> D) returns (digest: D)
    ensures digest == hash(Preimage(m))
  {
    var entries := Sort(PathLeq, m.files);
    var hasher := new Hasher();
    hasher.Update(m.name);
    hasher.Update("\n");
    assert hasher.text == m.name + "\n" by { assert "" + m.name == m.name; }
    FeedEntries(hasher, entries);
    digest := hash(hasher.fed);
  }

  /** The duplicate check accepts exactly the file lists whose paths are distinct, and otherwise names
      the first entry whose path was seen before. */
  method CheckDistinct(files: seq<Entry>) returns (ok: bool, twice: string)
    ensures ok <==> DistinctPaths(files)
    ensures !ok ==> exists i, j :: 0 <= i < j < |files| && files[i].path == files[j].path == twice
                                   && DistinctPaths(files[..j])
  {
    var seen: seq<string> := [];
    for at := 0 to |files|
      invariant |seen| == at && forall k | 0 <= k < at :: seen[k] == files[k].path
      invariant DistinctPaths(files[..at])
    {
      if files[at].path in seen {
        ghost var i :| 0 <= i < at && seen[i] == files[at].path;
        assert files[i].path == files[at].path;
        return false, files[at].path;
      }
      seen := seen + [files[at].path];
    }
    assert files[..|files|] == files;
    return true, "";
  }
}

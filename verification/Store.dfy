/** Where corpus bytes live: objects named by their own digest, written through a temporary file. */
module Store {
  import opened Wrappers
  import opened Bytes
  import opened Text
  import opened Manifest
  import opened Streams

  // Where things sit

  datatype Path = Object(digest: Blake3) | Temporary(digest: Blake3, pid: nat)

  /** The directory and the file name a path is written as, under the root. */
  function Place(p: Path): (string, string) {
    var hex := Hex(p.digest);
    match p
    case Object(_) => (hex[..2], hex[2..])
    case Temporary(_, pid) => (hex[..2], "." + hex + "." + Natural(pid))
  }

  /** Only a temporary file's name has a dot. */
  lemma DotMarks(p: Path)
    ensures p.Temporary? <==> '.' in Place(p).1
    ensures Place(p).0 + Place(p).1 == Hex(p.digest) || p.Temporary?
  {
    HexDigits(p.digest);
    if p.Temporary? {
      assert Place(p).1[0] == '.';
    }
  }

  /** An object sits under its whole name in hex, the first two digits the directory, and the temporary file of
      any process is in the same directory. */
  lemma PlacesTogether(digest: Blake3, pid: nat)
    ensures Place(Object(digest)).0 + Place(Object(digest)).1 == Hex(digest) && |Place(Object(digest)).0| == 2
    ensures Place(Temporary(digest, pid)).0 == Place(Object(digest)).0
    ensures Place(Temporary(digest, pid)).1 == "." + Hex(digest) + "." + Natural(pid)
  {
  }

  /** No two paths share a place: two digests, two processes, or an object and a temporary file. */
  lemma PlacesDistinct(p: Path, q: Path)
    requires Place(p) == Place(q)
    ensures p == q
  {
    DotMarks(p);
    DotMarks(q);
    if p.Temporary? {
      SamePid(Hex(p.digest), Hex(q.digest), Natural(p.pid), Natural(q.pid));
      NaturalRead(p.pid);
      NaturalRead(q.pid);
    }
    HexInjective(p.digest, q.digest);
  }

  lemma {:induction false} HexDigits(d: seq<Byte>)
    ensures '.' !in Hex(d)
  {
    if d != [] {
      HexDigits(d[1..]);
    }
  }

  lemma SamePid(a: string, b: string, x: string, y: string)
    requires |a| == |b| && "." + a + "." + x == "." + b + "." + y
    ensures a == b && x == y
  {
    var s, t := "." + a + "." + x, "." + b + "." + y;
    assert s[1..|a| + 1] == a && t[1..|b| + 1] == b;
    assert s[|a| + 2..] == x && t[|b| + 2..] == y;
  }

  /** The objects among the files, by digest. */
  ghost function ObjectsOf(files: map<Path, seq<Byte>>): map<Blake3, seq<Byte>> {
    map p | p in files && p.Object? :: p.digest := files[p]
  }

  lemma ObjectsIgnoreTemporary(files: map<Path, seq<Byte>>, p: Path, bytes: seq<Byte>)
    requires p.Temporary?
    ensures ObjectsOf(files[p := bytes]) == ObjectsOf(files)
    ensures ObjectsOf(files - {p}) == ObjectsOf(files)
  {
  }

  lemma ObjectsPut(files: map<Path, seq<Byte>>, d: Blake3, bytes: seq<Byte>)
    ensures ObjectsOf(files[Object(d) := bytes]) == ObjectsOf(files)[d := bytes]
  {
    var before, after := ObjectsOf(files), ObjectsOf(files[Object(d) := bytes]);
    forall e ensures e in after <==> e == d || e in before {
      assert e in after <==> Object(e) in files[Object(d) := bytes];
      assert e in before <==> Object(e) in files;
    }
  }

  lemma ObjectsDrop(files: map<Path, seq<Byte>>, d: Blake3)
    ensures ObjectsOf(files - {Object(d)}) == ObjectsOf(files) - {d}
  {
    var before, after := ObjectsOf(files), ObjectsOf(files - {Object(d)});
    forall e ensures e in after <==> e != d && e in before {
      assert e in after <==> Object(e) in files - {Object(d)};
      assert e in before <==> Object(e) in files;
    }
  }

  lemma HasObject(files: map<Path, seq<Byte>>, d: Blake3)
    ensures d in ObjectsOf(files) <==> Object(d) in files
    ensures Object(d) in files ==> ObjectsOf(files)[d] == files[Object(d)]
  {
    assert Object(d) in files ==> d in ObjectsOf(files);
  }

  type Hash = seq<Byte> -> Blake3

  /** Every object hashes to its own name. */
  ghost predicate SelfNamed(hash: Hash, objects: map<Blake3, seq<Byte>>) {
    forall d | d in objects :: hash(objects[d]) == d
  }

  /** Putting bytes under a digest keeps every object self-named exactly when they hash to it. */
  lemma SelfNamedPut(hash: Hash, objects: map<Blake3, seq<Byte>>, d: Blake3, bytes: seq<Byte>)
    requires d !in objects || hash(bytes) == d
    ensures SelfNamed(hash, objects) ==> (SelfNamed(hash, objects[d := bytes]) <==> hash(bytes) == d)
  {
    assert objects[d := bytes][d] == bytes;
    forall e | e in objects && e != d ensures objects[d := bytes][e] == objects[e] {}
  }

  // The filesystem

  /** A filesystem whose n-th step may be refused. */
  class Disk {
    var files: map<Path, seq<Byte>>
    var step: nat
    const refuses: nat -> bool
    const partial: nat -> nat

    ghost predicate Working() {
      forall n :: !refuses(n)
    }

    ghost function Objects(): map<Blake3, seq<Byte>>
      reads this
    {
      ObjectsOf(files)
    }

    constructor (refuses: nat -> bool, partial: nat -> nat)
      ensures files == map[] && this.refuses == refuses && this.partial == partial
    {
      this.refuses, this.partial, files, step := refuses, partial, map[], 0;
    }

    /** A step that changes no file: making a directory, or syncing one. */
    method Attempt() returns (ok: bool)
      modifies this
      ensures files == old(files) && (Working() ==> ok)
    {
      ok := !refuses(step);
      step := step + 1;
    }

    method Create(p: Path) returns (ok: bool)
      modifies this
      ensures files == (if ok then old(files)[p := []] else old(files)) && (Working() ==> ok)
    {
      ok := !refuses(step);
      step := step + 1;
      if ok {
        files := files[p := []];
      }
    }

    /** Appends all the bytes, or the first of them when it fails. */
    method Append(p: Path, bytes: seq<Byte>) returns (ok: bool)
      requires p in files
      modifies this
      ensures p in files && files == old(files)[p := files[p]]
      ensures ok ==> files[p] == old(files)[p] + bytes
      ensures !ok ==> !Working() && old(files)[p] <= files[p] <= old(files)[p] + bytes
    {
      ok := !refuses(step);
      var k := if ok then |bytes| else Min(partial(step), |bytes|);
      step := step + 1;
      assert bytes[..|bytes|] == bytes;
      files := files[p := files[p] + bytes[..k]];
    }

    method Rename(p: Path, q: Path) returns (ok: bool)
      requires p in files && p != q
      modifies this
      ensures files == (if ok then (old(files) - {p})[q := old(files)[p]] else old(files)) && (Working() ==> ok)
    {
      ok := !refuses(step);
      step := step + 1;
      if ok {
        files := (files - {p})[q := files[p]];
      }
    }

    method Remove(p: Path) returns (ok: bool)
      modifies this
      ensures files == if ok then old(files) - {p} else old(files)
      ensures Working() && p in old(files) ==> ok
    {
      ok := !refuses(step) && p in files;
      step := step + 1;
      if ok {
        files := files - {p};
      }
    }
  }

  function Min(a: nat, b: nat): nat { if a < b then a else b }

  // The store

  datatype Inserted = Inserted(digest: Blake3, deduplicated: bool)

  datatype Doing = Hashing | Opening | Creating | Writing | Renaming | Removing

  datatype StoreError =
    | Io(doing: Doing)
    | DigestMismatch(wanted: Blake3, found: Blake3)
    | Missing(digest: Blake3)

  /** What hashing a whole file in chunks comes to. */
  function OfFile(hash: Hash, script: seq<Reading>): Result<Blake3, StoreError> {
    if Breaks(script) then Err(Io(Hashing)) else Ok(hash(Arrives(script)))
  }

  /** One process's handle on a store. */
  class Store {
    const disk: Disk
    const hash: Hash
    const pid: nat

    constructor (disk: Disk, hash: Hash, pid: nat)
      ensures this.disk == disk && this.hash == hash && this.pid == pid
    {
      this.disk, this.hash, this.pid := disk, hash, pid;
    }

    function Temp(digest: Blake3): (p: Path)
      ensures p.Temporary?
    {
      Temporary(digest, pid)
    }

    method Contains(digest: Blake3) returns (there: bool)
      ensures there <==> digest in disk.Objects()
    {
      HasObject(disk.files, digest);
      return Object(digest) in disk.files;
    }

    /** The part of a write before its bytes: the directory and an empty temporary file. */
    method StartWrite(digest: Blake3) returns (error: Option<StoreError>)
      modifies disk
      ensures error.None? ==> disk.files == old(disk.files)[Temp(digest) := []]
      ensures error.Some? ==> disk.files == old(disk.files) && error.value == Io(Creating)
      ensures disk.Objects() == old(disk.Objects()) && (disk.Working() ==> error.None?)
    {
      ObjectsIgnoreTemporary(disk.files, Temp(digest), []);
      var ok := disk.Attempt();
      if ok {
        ok := disk.Create(Temp(digest));
      }
      return if ok then None else Some(Io(Creating));
    }

    /** The part of a write after its bytes: synced and renamed into place, or removed when they did not
        all arrive.  A temporary file is left behind when the rename is refused. */
    method FinishWrite(digest: Blake3, filled: bool) returns (error: Option<StoreError>)
      requires Temp(digest) in disk.files
      modifies disk
      ensures error.None? ==>
        filled && disk.files == (old(disk.files) - {Temp(digest)})[Object(digest) := old(disk.files)[Temp(digest)]]
      ensures error.Some? ==> disk.files == old(disk.files) || disk.files == old(disk.files) - {Temp(digest)}
      ensures error.Some? ==> error.value == Io(Writing) || (error.value == Io(Renaming) && !disk.Working())
      ensures disk.Working() ==> (error.None? <==> filled)
      ensures disk.Working() && !filled ==> disk.files == old(disk.files) - {Temp(digest)}
      ensures disk.Objects() == if error.None? then old(disk.Objects())[digest := old(disk.files)[Temp(digest)]] else old(disk.Objects())
    {
      ObjectsIgnoreTemporary(disk.files, Temp(digest), []);
      ObjectsPut(disk.files - {Temp(digest)}, digest, disk.files[Temp(digest)]);
      var whole := filled;
      if whole {
        whole := disk.Attempt();
      }
      if !whole {
        var _ := disk.Remove(Temp(digest));
        return Some(Io(Writing));
      }
      var ok := disk.Rename(Temp(digest), Object(digest));
      return if ok then None else Some(Io(Renaming));
    }

    method InsertBytes(bytes: seq<Byte>) returns (r: Result<Inserted, StoreError>)
      modifies disk
      ensures var digest := hash(bytes);
        if digest in old(disk.Objects()) then
          r == Ok(Inserted(digest, true)) && disk.files == old(disk.files)
        else if r.Ok? then
          && r.value == Inserted(digest, false)
          && disk.files == (old(disk.files) - {Temp(digest)})[Object(digest) := bytes]
          && disk.Objects() == old(disk.Objects())[digest := bytes]
        else
          !disk.Working() && disk.Objects() == old(disk.Objects())
      ensures SelfNamed(hash, old(disk.Objects())) ==> SelfNamed(hash, disk.Objects())
    {
      hide ObjectsOf, SelfNamed;
      var digest := hash(bytes);
      SelfNamedPut(hash, disk.Objects(), digest, bytes);
      var there := Contains(digest);
      if there {
        return Ok(Inserted(digest, true));
      }
      var error := StartWrite(digest);
      if error.Some? {
        return Err(error.value);
      }
      var ok := disk.Append(Temp(digest), bytes);
      assert ok ==> disk.files[Temp(digest)] == [] + bytes == bytes;
      assert disk.files == old(disk.files)[Temp(digest) := disk.files[Temp(digest)]];
      ObjectsIgnoreTemporary(old(disk.files), Temp(digest), disk.files[Temp(digest)]);
      error := FinishWrite(digest, ok);
      return if error.Some? then Err(error.value) else Ok(Inserted(digest, false));
    }

    /** Copies what a file holds into the temporary file, stopping at its end or at the first failure. */
    method CopyFile(input: Stream, digest: Blake3) returns (filled: bool)
      requires input.Valid() && Temp(digest) in disk.files && disk.files[Temp(digest)] == []
      modifies disk, input
      ensures Temp(digest) in disk.files
      ensures disk.files == old(disk.files)[Temp(digest) := disk.files[Temp(digest)]]
      ensures filled ==> !Breaks(old(input.Rest())) && disk.files[Temp(digest)] == Arrives(old(input.Rest()))
      ensures disk.Working() ==> (filled <==> !Breaks(old(input.Rest())))
    {
      hide ObjectsOf, Arrives, Breaks;
      var t := Temp(digest);
      ghost var moved := [];
      assert moved + Arrives(input.Rest()) == Arrives(input.Rest());
      while true
        invariant input.Valid() && t in disk.files && disk.files[t] == moved
        invariant disk.files == old(disk.files)[t := disk.files[t]]
        invariant moved + Arrives(input.Rest()) == Arrives(old(input.Rest()))
        invariant Breaks(input.Rest()) <==> Breaks(old(input.Rest()))
        decreases |input.Rest()|
      {
        ghost var rest := input.Rest();
        var read := input.Read();
        Onward(moved, rest, read);
        if read.Broken? {
          return false;
        }
        if read.bytes == [] {
          return true;
        }
        moved := moved + read.bytes;
        var ok := disk.Append(t, read.bytes);
        if !ok {
          return false;
        }
      }
    }

    /** Copies a counted stream into the temporary file, keeping what the hasher is fed. */
    method CopyStream(reader: Counting, digest: Blake3) returns (filled: bool, hashed: seq<Byte>)
      requires reader.Valid() && Temp(digest) in disk.files && disk.files[Temp(digest)] == []
      modifies disk, reader, reader.inner
      ensures reader.Valid() && Temp(digest) in disk.files
      ensures disk.files == old(disk.files)[Temp(digest) := disk.files[Temp(digest)]]
      ensures filled ==> !Breaks(old(reader.inner.Rest()))
      ensures filled ==> disk.files[Temp(digest)] == Arrives(old(reader.inner.Rest())) == hashed
      ensures filled || disk.Working() ==> reader.Gauge() == Metered(old(reader.Gauge()), old(reader.inner.Rest()))
      ensures disk.Working() ==> (filled <==> !Breaks(old(reader.inner.Rest())))
    {
      hide ObjectsOf, Arrives, Breaks, Metered, Tell;
      var t := Temp(digest);
      hashed := [];
      assert hashed + Arrives(reader.inner.Rest()) == Arrives(reader.inner.Rest());
      while true
        invariant reader.Valid() && t in disk.files && disk.files[t] == hashed
        invariant disk.files == old(disk.files)[t := disk.files[t]]
        invariant hashed + Arrives(reader.inner.Rest()) == Arrives(old(reader.inner.Rest()))
        invariant Breaks(reader.inner.Rest()) <==> Breaks(old(reader.inner.Rest()))
        invariant Metered(reader.Gauge(), reader.inner.Rest()) == Metered(old(reader.Gauge()), old(reader.inner.Rest()))
        decreases |reader.inner.Rest()|
      {
        ghost var rest, gauge := reader.inner.Rest(), reader.Gauge();
        var read := reader.Read();
        Onward(hashed, rest, read);
        MeteredOnward(gauge, rest, read);
        if read.Broken? {
          return false, hashed;
        }
        if read.bytes == [] {
          return true, hashed;
        }
        hashed := hashed + read.bytes;
        var ok := disk.Append(t, read.bytes);
        if !ok {
          return false, hashed;
        }
      }
    }

    /** The write a stream goes in by: it ends with everything that arrived renamed under the digest,
        or with the objects as they were. */
    method WriteStream(reader: Counting, digest: Blake3) returns (error: Option<StoreError>, hashed: seq<Byte>)
      requires reader.Valid()
      modifies disk, reader, reader.inner
      ensures reader.Valid()
      ensures error.None? ==> !Breaks(old(reader.inner.Rest())) && hashed == Arrives(old(reader.inner.Rest()))
      ensures error.None? ==> disk.files == (old(disk.files) - {Temp(digest)})[Object(digest) := hashed]
      ensures disk.Objects() == if error.None? then old(disk.Objects())[digest := hashed] else old(disk.Objects())
      ensures error.Some? ==> error.value.Io? && error.value.doing != Removing
      ensures disk.Working() && error.Some? ==> error.value == Io(Writing)
      ensures error.None? || disk.Working() ==>
        reader.Gauge() == Metered(old(reader.Gauge()), old(reader.inner.Rest()))
      ensures disk.Working() ==> (error.None? <==> !Breaks(old(reader.inner.Rest())))
    {
      hide ObjectsOf, Arrives, Breaks, Metered, Tell;
      hashed := [];
      error := StartWrite(digest);
      if error.Some? {
        return;
      }
      var filled;
      filled, hashed := CopyStream(reader, digest);
      assert disk.files == old(disk.files)[Temp(digest) := disk.files[Temp(digest)]];
      ObjectsIgnoreTemporary(old(disk.files), Temp(digest), disk.files[Temp(digest)]);
      error := FinishWrite(digest, filled);
      if error.None? {
        assert disk.files == (old(disk.files) - {Temp(digest)})[Object(digest) := hashed];
      }
    }

    /** Puts in a file as it reads the second time, under what it hashed to the first time.  Nothing
        compares the two, so the store stays self-named exactly when the file did not change. */
    method InsertFile(hashed: seq<Reading>, opens: bool, copied: seq<Reading>) returns (r: Result<Inserted, StoreError>)
      modifies disk
      ensures OfFile(hash, hashed).Err? ==> r == Err(OfFile(hash, hashed).error) && disk.files == old(disk.files)
      ensures OfFile(hash, hashed).Ok? ==>
        var digest := OfFile(hash, hashed).value;
        if digest in old(disk.Objects()) then
          r == Ok(Inserted(digest, true)) && disk.files == old(disk.files)
        else if r.Ok? then
          && r.value == Inserted(digest, false) && opens && !Breaks(copied)
          && disk.Objects() == old(disk.Objects())[digest := Arrives(copied)]
          && (SelfNamed(hash, old(disk.Objects())) ==> (SelfNamed(hash, disk.Objects()) <==> hash(Arrives(copied)) == digest))
        else
          disk.Objects() == old(disk.Objects()) && (disk.Working() ==> !opens || Breaks(copied))
    {
      hide ObjectsOf, SelfNamed, Arrives, Breaks;
      var found := OfFile(hash, hashed);
      if found.Err? {
        return Err(found.error);
      }
      var digest := found.value;
      var there := Contains(digest);
      if there {
        return Ok(Inserted(digest, true));
      }
      if !opens {
        return Err(Io(Opening));
      }
      SelfNamedPut(hash, disk.Objects(), digest, Arrives(copied));
      var input := new Stream(copied);
      var error := StartWrite(digest);
      if error.Some? {
        return Err(error.value);
      }
      var filled := CopyFile(input, digest);
      assert disk.files == old(disk.files)[Temp(digest) := disk.files[Temp(digest)]];
      ObjectsIgnoreTemporary(old(disk.files), Temp(digest), disk.files[Temp(digest)]);
      error := FinishWrite(digest, filled);
      return if error.Some? then Err(error.value) else Ok(Inserted(digest, false));
    }

    /** Refuses a file that does not hash to what was promised, before anything is written. */
    method InsertVerified(first: seq<Reading>, hashed: seq<Reading>, opens: bool, copied: seq<Reading>, wanted: Blake3)
      returns (r: Result<Inserted, StoreError>)
      modifies disk
      ensures OfFile(hash, first).Ok? && OfFile(hash, first).value != wanted ==>
        r == Err(DigestMismatch(wanted, OfFile(hash, first).value)) && disk.files == old(disk.files)
      ensures OfFile(hash, first).Err? ==> r.Err? && disk.files == old(disk.files)
      ensures r.Err? ==> disk.Objects() == old(disk.Objects())
      ensures r.Ok? && hashed == first && copied == first ==>
        && r.value.digest == wanted && wanted in disk.Objects()
        && (SelfNamed(hash, old(disk.Objects())) ==> SelfNamed(hash, disk.Objects()))
    {
      var found := OfFile(hash, first);
      if found.Err? {
        return Err(found.error);
      }
      if found.value != wanted {
        return Err(DigestMismatch(wanted, found.value));
      }
      r := InsertFile(hashed, opens, copied);
    }

    /** Streams bytes in under the promised digest and takes them away again when they are not it. */
    method InsertStream(reader: Counting, wanted: Blake3) returns (r: Result<Inserted, StoreError>)
      requires reader.Valid()
      modifies disk, reader, reader.inner
      ensures reader.Valid()
      ensures wanted in old(disk.Objects()) ==>
        && r == Ok(Inserted(wanted, true)) && disk.files == old(disk.files)
        && reader.inner.Rest() == old(reader.inner.Rest()) && reader.Gauge() == old(reader.Gauge())
      ensures wanted !in old(disk.Objects()) ==> StreamedIn(r, wanted, old(disk.Objects()), old(reader.inner.Rest()))
      ensures wanted !in old(disk.Objects()) && (Finished(r) || disk.Working()) ==>
        reader.Gauge() == Metered(old(reader.Gauge()), old(reader.inner.Rest()))
      ensures wanted !in old(disk.Objects()) && Finished(r) ==>
        var kept := old(disk.files) - {Temp(wanted)};
        disk.files == if r.Err? && r.error.DigestMismatch? then kept else kept[Object(wanted) := Arrives(old(reader.inner.Rest()))]
    {
      hide ObjectsOf, SelfNamed, Arrives, Breaks, Metered;
      HasObject(disk.files, wanted);
      var there := Contains(wanted);
      if there {
        return Ok(Inserted(wanted, true));
      }
      var error, hashed := WriteStream(reader, wanted);
      if error.Some? {
        return Err(error.value);
      }
      var found := hash(hashed);
      if found == wanted {
        return Ok(Inserted(found, false));
      }
      ObjectsDrop(disk.files, wanted);
      var ok := disk.Remove(Object(wanted));
      if !ok {
        return Err(Io(Removing));
      }
      assert disk.Objects() == old(disk.Objects());
      return Err(DigestMismatch(wanted, found));
    }

    /** The whole stream went in before the call returned. */
    predicate Finished(r: Result<Inserted, StoreError>) {
      r.Ok? || r.error.DigestMismatch? || r.error == Io(Removing)
    }

    /** What streaming in a digest the store does not have comes to. */
    ghost predicate StreamedIn(r: Result<Inserted, StoreError>, wanted: Blake3, before: map<Blake3, seq<Byte>>,
                               script: seq<Reading>)
      reads disk
    {
      var bytes := Arrives(script);
      && (r.Ok? <==> !Breaks(script) && hash(bytes) == wanted && disk.Objects() == before[wanted := bytes])
      && (r.Ok? ==> r.value == Inserted(wanted, false))
      && (r.Err? && r.error.DigestMismatch? ==>
        r.error == DigestMismatch(wanted, hash(bytes)) && !Breaks(script) && hash(bytes) != wanted)
      && (r == Err(Io(Removing)) ==>
        !disk.Working() && !Breaks(script) && hash(bytes) != wanted && disk.Objects() == before[wanted := bytes])
      && (r.Err? && r.error != Io(Removing) ==> disk.Objects() == before)
      && (disk.Working() ==> if Breaks(script) then r == Err(Io(Writing)) else Finished(r))
    }

    /** Re-reads an object and checks that it still hashes to its own name. */
    method Verify(digest: Blake3, readable: bool) returns (r: Result<(), StoreError>)
      ensures r == Err(Missing(digest)) <==> digest !in disk.Objects()
      ensures r == Ok(()) <==> readable && digest in disk.Objects() && hash(disk.Objects()[digest]) == digest
      ensures r.Err? && r.error.DigestMismatch? ==> r.error.found == hash(disk.Objects()[digest]) != digest
    {
      HasObject(disk.files, digest);
      if Object(digest) !in disk.files {
        return Err(Missing(digest));
      }
      if !readable {
        return Err(Io(Hashing));
      }
      var found := hash(disk.files[Object(digest)]);
      return if found == digest then Ok(()) else Err(DigestMismatch(digest, found));
    }
  }
}

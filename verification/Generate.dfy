/** Running a corpus's generator and taking in every file it is pinned to write. */
module Generate {
  import opened Wrappers
  import opened Manifest
  import opened Streams
  import opened Store
  import opened Corpus

  /** What a scratch directory holds, each file as it reads back. */
  type Contents = map<string, seq<Reading>>

  datatype Generator = Generator(platforms: seq<string>)

  datatype GenerateError =
    | NotGeneratable
    | Platform(found: string)
    | Missing
    | Version
    | Scratch(doing: string)
    | Failed
    | Absent(path: string)
    | Refused(refusal: Refusal)

  /** The machine the generator runs on: its name, what is wrong with the program's version if anything,
      and what the program writes into a directory given what is in there. */
  datatype Host = Host(platform: string, version: Option<GenerateError>, run: Contents -> Result<Contents, GenerateError>)

  /** A directory that may be there, and may refuse to be cleared or made. */
  class Directory {
    var contents: Option<Contents>
    const clears: bool
    const makes: bool

    constructor (contents: Option<Contents>, clears: bool, makes: bool)
      ensures this.contents == contents && this.clears == clears && this.makes == makes
    {
      this.contents, this.clears, this.makes := contents, clears, makes;
    }

    /** Leaves an empty directory, whether or not there was one. */
    method Prepare() returns (error: Option<GenerateError>)
      modifies this
      ensures error.None? <==> (old(contents).None? || clears) && makes
      ensures error.None? ==> contents == Some(map[])
      ensures error.Some? ==>
        error == Some(Scratch(if old(contents).Some? && !clears then "clearing" else "creating"))
    {
      if contents.Some? {
        if !clears {
          return Some(Scratch("clearing"));
        }
        contents := None;
      }
      if !makes {
        return Some(Scratch("creating"));
      }
      contents := Some(map[]);
      return None;
    }

    method Run(host: Host) returns (error: Option<GenerateError>)
      requires contents.Some?
      modifies this
      ensures var ran := host.run(old(contents).value);
        && (error == if ran.Ok? then None else Some(ran.error))
        && (ran.Ok? ==> contents == Some(ran.value))
    {
      var ran := host.run(contents.value);
      if ran.Err? {
        return Some(ran.error);
      }
      contents := Some(ran.value);
      return None;
    }
  }

  function Generating<T>(r: Result<T, Refusal>): Result<T, GenerateError> {
    match r case Ok(t) => Ok(t) case Err(refusal) => Err(Refused(refusal))
  }

  /** What taking in one written file comes to when no step of the filesystem is refused. */
  function GeneratedOne(hash: Hash, objects: Objects, entry: Entry, scratch: Contents)
    : (Result<Taken, GenerateError>, Objects)
  {
    if entry.path !in scratch then (Err(Absent(entry.path)), objects)
    else
      var (r, after) := TakenIn(hash, objects, entry, scratch[entry.path]);
      (Generating(r), after)
  }

  function Taker(hash: Hash, scratch: Contents): Step<GenerateError> {
    (objects: Objects, entry: Entry, i: nat) => GeneratedOne(hash, objects, entry, scratch)
  }

  function GeneratedAll(hash: Hash, objects: Objects, entries: seq<Entry>, scratch: Contents)
    : (Result<seq<Taken>, GenerateError>, Objects)
  {
    TakenAll(Taker(hash, scratch), objects, entries)
  }

  /** A written file is taken when it is the one promised and its digest is not in the store yet; a file
      whose digest is there is not read, and is only taken when it was declared empty. */
  predicate Takes(hash: Hash, scratch: Contents, entry: Entry, there: bool) {
    entry.path in scratch && if there then entry.bytes == 0 else Promised(hash, entry, scratch[entry.path])
  }

  function GenerateRule(hash: Hash, scratch: Contents): Rule {
    (entry: Entry, i: nat, there: bool) => Takes(hash, scratch, entry, there)
  }

  lemma GeneratedOneSafely(hash: Hash, objects: Objects, entry: Entry, scratch: Contents)
    ensures var (r, after) := GeneratedOne(hash, objects, entry, scratch);
      && (r.Ok? <==> Takes(hash, scratch, entry, entry.blake3 in objects))
      && (r.Ok? ==> Safe(hash, objects, after, entry, Ok(r.value)))
      && (r.Err? ==> Safe(hash, objects, after, entry, Err(Size(entry.path, 0, 0))))
      && (SelfNamed(hash, objects) ==> SelfNamed(hash, after))
  {
    hide Arrives, Breaks, SelfNamed, Safe;
    var (r, after) := GeneratedOne(hash, objects, entry, scratch);
    var outcome := if r.Ok? then Ok(r.value) else Err(Size(entry.path, 0, 0));
    if after == objects {
      KeptSafely(hash, objects, entry, outcome);
    } else {
      AddedSafely(hash, objects, Arrives(scratch[entry.path]), entry, outcome);
      SelfNamedPut(hash, objects, entry.blake3, Arrives(scratch[entry.path]));
    }
  }

  /** What taking in one written file says: one that was not written is named, and another says what taking
      it in said. */
  lemma GeneratedOneSays(hash: Hash, objects: Objects, entry: Entry, scratch: Contents)
    ensures var r := GeneratedOne(hash, objects, entry, scratch).0;
      && (entry.path !in scratch ==> r == Err(Absent(entry.path)))
      && (entry.path in scratch ==>
        var taken := TakenIn(hash, objects, entry, scratch[entry.path]).0;
        (taken.Ok? && r == Ok(taken.value)) || (taken.Err? && r == Err(Refused(taken.error))))
  {
    hide TakenIn;
  }

  lemma GenerateFollows(hash: Hash, objects: Objects, entry: Entry, i: nat, scratch: Contents)
    ensures Follows(Taker(hash, scratch), GenerateRule(hash, scratch), hash, objects, entry, i)
  {
    hide GeneratedOne, Takes, SelfNamed, Safe;
    GeneratedOneSafely(hash, objects, entry, scratch);
    var step, rule := Taker(hash, scratch), GenerateRule(hash, scratch);
    assert step(objects, entry, i) == GeneratedOne(hash, objects, entry, scratch);
    assert rule(entry, i, entry.blake3 in objects) <==> Takes(hash, scratch, entry, entry.blake3 in objects);
    var (r, after) := step(objects, entry, i);
    assert Safe(hash, objects, after, entry, if r.Ok? then Ok(r.value) else Err(Size(entry.path, 0, 0)));
    assert SelfNamed(hash, objects) ==> SelfNamed(hash, after);
  }

  /** Taking in what was written succeeds exactly when every file is there and is what the manifest
      pins, and no file's digest is already in the store or listed before it. */
  lemma GeneratesExactly(hash: Hash, objects: Objects, entries: seq<Entry>, scratch: Contents)
    ensures var (r, after) := GeneratedAll(hash, objects, entries, scratch);
      Exact(GenerateRule(hash, scratch), hash, objects, entries, r, after)
  {
    hide Follows, Exact;
    var step, rule := Taker(hash, scratch), GenerateRule(hash, scratch);
    forall o, e, i: nat ensures Follows(step, rule, hash, o, e, i) {
      GenerateFollows(hash, o, e, i, scratch);
    }
    TakesExactly(step, rule, hash, objects, entries);
  }

  /** So a store that holds some of a corpus can never be given the rest of it by generating: a valid
      manifest has no empty files, and a file whose digest is there is refused for a size of zero.  The
      same goes for a manifest that lists one digest twice. */
  lemma PartlyThereNeverGenerates(hash: Hash, objects: Objects, entries: seq<Entry>, scratch: Contents, i: nat)
    requires i < |entries| && Has(objects, entries, i) && entries[i].bytes > 0
    ensures GeneratedAll(hash, objects, entries, scratch).0.Err?
  {
    hide Takes, Has;
    GeneratesExactly(hash, objects, entries, scratch);
    var rule := GenerateRule(hash, scratch);
    assert !rule(entries[i], i, Has(objects, entries, i)) by { NotTaken(hash, scratch, entries[i]); }
  }

  lemma NotTaken(hash: Hash, scratch: Contents, entry: Entry)
    requires entry.bytes > 0
    ensures !Takes(hash, scratch, entry, true)
  {
  }

  // The generation itself

  method One(store: Store, entry: Entry, scratch: Directory) returns (r: Result<Taken, GenerateError>, told: seq<Progress>)
    requires scratch.contents.Some?
    modifies store.disk
    ensures store.disk.Working() ==>
      (r, store.disk.Objects()) == GeneratedOne(store.hash, old(store.disk.Objects()), entry, scratch.contents.value)
    ensures Safe(store.hash, old(store.disk.Objects()), store.disk.Objects(), entry, Reason(entry, r))
  {
    hide Arrives, Breaks, SelfNamed, ObjectsOf, TakenIn;
    told := [];
    if entry.path !in scratch.contents.value {
      r := Err(Absent(entry.path));
      KeptSafely(store.hash, store.disk.Objects(), entry, Reason(entry, r));
      return;
    }
    var taken;
    taken, told := TakeIn(store, entry, scratch.contents.value[entry.path]);
    r := Generating(taken);
  }

  /** A file that was not written leaves nothing that a refusal could have left. */
  function Reason<T>(entry: Entry, r: Result<T, GenerateError>): Result<T, Refusal> {
    match r
    case Ok(t) => Ok(t)
    case Err(Refused(refusal)) => Err(refusal)
    case Err(_) => Err(Digest(entry.path, entry.blake3, entry.blake3))
  }

  ghost predicate StaysNamed<T>(hash: Hash, before: Objects, after: Objects, r: Result<T, GenerateError>) {
    SelfNamed(hash, before) && !SelfNamed(hash, after) ==>
      r.Err? && r.error.Refused? && (r.error.refusal.Size? || r.error.refusal == Stored(Io(Removing)))
  }

  lemma StillNamed(hash: Hash, before: Objects, mid: Objects, after: Objects, e: Entry, r: Result<Taken, GenerateError>)
    requires SelfNamed(hash, before) ==> SelfNamed(hash, mid)
    requires Safe(hash, mid, after, e, Reason(e, r))
    ensures StaysNamed(hash, before, after, r)
    ensures r.Ok? && SelfNamed(hash, before) ==> SelfNamed(hash, after)
  {
    hide SelfNamed;
  }

  /** Takes in every file of the scratch directory, in order. */
  method TakeAll(store: Store, entries: seq<Entry>, scratch: Directory)
    returns (r: Result<seq<Taken>, GenerateError>, told: seq<Progress>)
    requires scratch.contents.Some?
    modifies store.disk
    ensures store.disk.Working() ==>
      (r, store.disk.Objects()) == GeneratedAll(store.hash, old(store.disk.Objects()), entries, scratch.contents.value)
    ensures OnlyAdds(old(store.disk.Objects()), store.disk.Objects(), entries)
    ensures r.Ok? ==> Complete(store.hash, old(store.disk.Objects()), store.disk.Objects(), entries, r.value)
    ensures StaysNamed(store.hash, old(store.disk.Objects()), store.disk.Objects(), r)
  {
    hide SelfNamed, ObjectsOf, GeneratedOne, Safe, Complete, OnlyAdds;
    ghost var before := store.disk.Objects();
    NothingToDo(store.hash, before);
    NothingAdded(before, []);
    told := [];
    var generated: seq<Taken> := [];
    var at := 0;
    while at < |entries|
      invariant at <= |entries|
      invariant store.disk.Working() ==>
        (Ok(generated), store.disk.Objects()) == GeneratedAll(store.hash, before, entries[..at], scratch.contents.value)
      invariant OnlyAdds(before, store.disk.Objects(), entries[..at])
      invariant Complete(store.hash, before, store.disk.Objects(), entries[..at], generated)
      invariant SelfNamed(store.hash, before) ==> SelfNamed(store.hash, store.disk.Objects())
    {
      ghost var mid := store.disk.Objects();
      var one, more := One(store, entries[at], scratch);
      told := told + more;
      assert entries[..at + 1] == entries[..at] + [entries[at]] && entries[..at + 1][..at] == entries[..at];
      AddsMore(store.hash, before, mid, store.disk.Objects(), entries[..at], entries[at], Reason(entries[at], one));
      StillNamed(store.hash, before, mid, store.disk.Objects(), entries[at], one);
      if one.Err? {
        r := Err(one.error);
        if store.disk.Working() { StopsAtFirst(Taker(store.hash, scratch.contents.value), before, entries, at + 1); }
        AddsUpTo(before, store.disk.Objects(), entries, at + 1);
        return;
      }
      CompletesMore(store.hash, before, mid, store.disk.Objects(), entries[..at], generated, entries[at], one.value);
      generated := generated + [one.value];
      at := at + 1;
    }
    assert entries[..at] == entries;
    return Ok(generated), told;
  }

  method AllThere(store: Store, entries: seq<Entry>) returns (all: bool)
    ensures all <==> forall i | 0 <= i < |entries| :: entries[i].blake3 in store.disk.Objects()
  {
    for at := 0 to |entries|
      invariant forall i | 0 <= i < at :: entries[i].blake3 in store.disk.Objects()
    {
      var there := store.Contains(entries[at].blake3);
      if !there {
        return false;
      }
    }
    return true;
  }

  /** A store that has everything is not generated into, whatever the machine.  Otherwise what is taken
      in is what the program writes into an empty directory, whatever a previous run left there.  The
      generator is that of a corpus of the generated category; no other has one. */
  method GenerateCorpus(store: Store, generator: Option<Generator>, entries: seq<Entry>, host: Host, scratch: Directory)
    returns (r: Result<seq<Taken>, GenerateError>, told: seq<Progress>)
    modifies store.disk, scratch
    ensures var before := old(store.disk.Objects());
      if generator.None? then
        r == Err(NotGeneratable) && store.disk.Objects() == before && scratch.contents == old(scratch.contents)
      else if forall i | 0 <= i < |entries| :: entries[i].blake3 in before then
        r == Ok(AlreadyThere(entries)) && store.disk.Objects() == before && scratch.contents == old(scratch.contents)
      else if host.platform !in generator.value.platforms then
        r == Err(Platform(host.platform)) && store.disk.Objects() == before && scratch.contents == old(scratch.contents)
      else if host.version.Some? then
        r == Err(host.version.value) && store.disk.Objects() == before && scratch.contents == old(scratch.contents)
      else if !((old(scratch.contents).None? || scratch.clears) && scratch.makes) then
        && r == Err(Scratch(if old(scratch.contents).Some? && !scratch.clears then "clearing" else "creating"))
        && store.disk.Objects() == before
      else if host.run(map[]).Err? then
        r == Err(host.run(map[]).error) && store.disk.Objects() == before
      else
        && scratch.contents == Some(host.run(map[]).value)
        && (store.disk.Working() ==>
          (r, store.disk.Objects()) == GeneratedAll(store.hash, before, entries, host.run(map[]).value))
        && OnlyAdds(before, store.disk.Objects(), entries)
        && (r.Ok? ==> Complete(store.hash, before, store.disk.Objects(), entries, r.value))
        && StaysNamed(store.hash, before, store.disk.Objects(), r)
  {
    hide SelfNamed, ObjectsOf, Complete, OnlyAdds, StaysNamed, GeneratedAll;
    told := [];
    if generator.None? {
      return Err(NotGeneratable), told;
    }
    var all := AllThere(store, entries);
    if all {
      told := seq(|entries|, i requires 0 <= i < |entries| => Progress(entries[i].path, entries[i].bytes, entries[i].bytes));
      return Ok(AlreadyThere(entries)), told;
    }
    if host.platform !in generator.value.platforms {
      return Err(Platform(host.platform)), told;
    }
    if host.version.Some? {
      return Err(host.version.value), told;
    }
    var error := scratch.Prepare();
    if error.Some? {
      return Err(error.value), told;
    }
    error := scratch.Run(host);
    if error.Some? {
      return Err(error.value), told;
    }
    r, told := TakeAll(store, entries, scratch);
  }
}

/** Downloading the files of a corpus that the store does not have. */
module Fetch {
  import opened Wrappers
  import opened Manifest
  import opened Streams
  import opened Store
  import opened Corpus

  /** Who serves the bytes: the original source, a mirror, or nobody because a program makes them. */
  datatype Category = Source | Mirror | Generated

  /** What a request comes to: the bytes of the response, or why there was none. */
  type Reply = Result<seq<Reading>, string>

  datatype FetchError =
    | NotFetchable
    | Unserved(why: string)
    | Refused(refusal: Refusal)

  function Fetching<T>(r: Result<T, Refusal>): Result<T, FetchError> {
    match r case Ok(t) => Ok(t) case Err(refusal) => Err(Refused(refusal))
  }

  /** What fetching one file comes to when no step of the filesystem is refused. */
  function FetchedOne(hash: Hash, objects: Objects, entry: Entry, reply: Reply): (Result<Taken, FetchError>, Objects) {
    if entry.blake3 in objects then (Ok(Taken(entry.path, entry.blake3, entry.bytes, true)), objects)
    else
      match reply
      case Err(why) => (Err(Unserved(why)), objects)
      case Ok(script) =>
        var (r, after) := TakenIn(hash, objects, entry, script);
        (Fetching(r), after)
  }

  function Fetcher(hash: Hash, replies: nat -> Reply): Step<FetchError> {
    (objects: Objects, entry: Entry, i: nat) => FetchedOne(hash, objects, entry, replies(i))
  }

  /** The files one after another, up to the first that fails. */
  function FetchedAll(hash: Hash, objects: Objects, entries: seq<Entry>, replies: nat -> Reply)
    : (Result<seq<Taken>, FetchError>, Objects)
  {
    TakenAll(Fetcher(hash, replies), objects, entries)
  }

  predicate Serves(hash: Hash, entry: Entry, reply: Reply) {
    reply.Ok? && Promised(hash, entry, reply.value)
  }

  /** A file is fetched when it is there already or served as promised. */
  function FetchRule(hash: Hash, replies: nat -> Reply): Rule {
    (entry: Entry, i: nat, there: bool) => there || Serves(hash, entry, replies(i))
  }

  lemma FetchedOneSafely(hash: Hash, objects: Objects, entry: Entry, reply: Reply)
    ensures var (r, after) := FetchedOne(hash, objects, entry, reply);
      && (r.Ok? <==> entry.blake3 in objects || Serves(hash, entry, reply))
      && (r.Ok? ==> Safe(hash, objects, after, entry, Ok(r.value)))
      && (r.Err? ==> Safe(hash, objects, after, entry, Err(Size(entry.path, 0, 0))))
      && (SelfNamed(hash, objects) ==> SelfNamed(hash, after))
  {
    hide Arrives, Breaks, SelfNamed, Safe;
    var (r, after) := FetchedOne(hash, objects, entry, reply);
    var outcome := if r.Ok? then Ok(r.value) else Err(Size(entry.path, 0, 0));
    if after == objects {
      KeptSafely(hash, objects, entry, outcome);
    } else {
      AddedSafely(hash, objects, Arrives(reply.value), entry, outcome);
      SelfNamedPut(hash, objects, entry.blake3, Arrives(reply.value));
    }
  }

  /** What fetching one file says: what is there is not asked for, a request that failed says why, and what
      came says what taking it in said. */
  lemma FetchedOneSays(hash: Hash, objects: Objects, entry: Entry, reply: Reply)
    ensures var r := FetchedOne(hash, objects, entry, reply).0;
      && (entry.blake3 in objects ==> r == Ok(Taken(entry.path, entry.blake3, entry.bytes, true)))
      && (entry.blake3 !in objects && reply.Err? ==> r == Err(Unserved(reply.error)))
      && (entry.blake3 !in objects && reply.Ok? ==>
        var taken := TakenIn(hash, objects, entry, reply.value).0;
        (taken.Ok? && r == Ok(taken.value)) || (taken.Err? && r == Err(Refused(taken.error))))
  {
    hide TakenIn;
  }

  lemma FetchFollows(hash: Hash, objects: Objects, entry: Entry, i: nat, replies: nat -> Reply)
    ensures Follows(Fetcher(hash, replies), FetchRule(hash, replies), hash, objects, entry, i)
  {
    hide FetchedOne, Serves, SelfNamed, Safe;
    FetchedOneSafely(hash, objects, entry, replies(i));
    var step, rule := Fetcher(hash, replies), FetchRule(hash, replies);
    assert step(objects, entry, i) == FetchedOne(hash, objects, entry, replies(i));
    assert rule(entry, i, entry.blake3 in objects) <==> entry.blake3 in objects || Serves(hash, entry, replies(i));
    var (r, after) := step(objects, entry, i);
    assert Safe(hash, objects, after, entry, if r.Ok? then Ok(r.value) else Err(Size(entry.path, 0, 0)));
    assert SelfNamed(hash, objects) ==> SelfNamed(hash, after);
  }

  /** A fetch succeeds exactly when every file is there already, or named before, or served as promised. */
  lemma FetchesExactly(hash: Hash, objects: Objects, entries: seq<Entry>, replies: nat -> Reply)
    ensures var (r, after) := FetchedAll(hash, objects, entries, replies);
      Exact(FetchRule(hash, replies), hash, objects, entries, r, after)
  {
    hide Follows, Exact;
    var step, rule := Fetcher(hash, replies), FetchRule(hash, replies);
    forall o, e, i: nat ensures Follows(step, rule, hash, o, e, i) {
      FetchFollows(hash, o, e, i, replies);
    }
    TakesExactly(step, rule, hash, objects, entries);
  }

  lemma NotAsked(hash: Hash, objects: Objects, entry: Entry, reply: Reply)
    requires entry.blake3 in objects
    ensures FetchedOne(hash, objects, entry, reply) == (Ok(Taken(entry.path, entry.blake3, entry.bytes, true)), objects)
  {
  }

  /** Once a fetch has succeeded, or the store has every digest for another reason, the next one asks
      nothing of the network and changes nothing. */
  lemma {:induction false} NothingAskedTwice(hash: Hash, objects: Objects, entries: seq<Entry>, replies: nat -> Reply)
    requires forall i | 0 <= i < |entries| :: entries[i].blake3 in objects
    ensures FetchedAll(hash, objects, entries, replies) == (Ok(AlreadyThere(entries)), objects)
  {
    if entries != [] {
      hide FetchedOne, AlreadyThere;
      var n := |entries| - 1;
      NothingAskedTwice(hash, objects, entries[..n], replies);
      NotAsked(hash, objects, entries[n], replies(n));
      assert AlreadyThere(entries) == AlreadyThere(entries[..n]) + [AlreadyThere(entries)[n]];
    }
  }

  /** A fetch that is refused has put its bytes in the store exactly when they are new, whole and of the
      right digest and only their size is not the declared one.  The next fetch takes them at the declared
      size without reading anything. */
  lemma WrongSizeIsKept(hash: Hash, objects: Objects, entry: Entry, reply: Reply, later: Reply)
    ensures var (r, after) := FetchedOne(hash, objects, entry, reply);
      && (r.Err? && after != objects <==>
        && entry.blake3 !in objects && reply.Ok? && !Breaks(reply.value)
        && hash(Arrives(reply.value)) == entry.blake3 && |Arrives(reply.value)| != entry.bytes)
      && (r.Err? && after != objects ==>
        && r == Err(Refused(Size(entry.path, entry.bytes, |Arrives(reply.value)|)))
        && after == objects[entry.blake3 := Arrives(reply.value)]
        && FetchedOne(hash, after, entry, later) == (Ok(Taken(entry.path, entry.blake3, entry.bytes, true)), after))
  {
    hide Arrives, Breaks;
    if entry.blake3 !in objects && reply.Ok? {
      assert entry.blake3 in objects[entry.blake3 := Arrives(reply.value)];
    }
  }

  // The fetch itself

  method One(store: Store, entry: Entry, reply: Reply) returns (r: Result<Taken, FetchError>, told: seq<Progress>)
    modifies store.disk
    ensures store.disk.Working() ==>
      (r, store.disk.Objects()) == FetchedOne(store.hash, old(store.disk.Objects()), entry, reply)
    ensures Safe(store.hash, old(store.disk.Objects()), store.disk.Objects(), entry, Reason(entry, r))
    ensures r.Ok? ==> told != [] && told[|told| - 1] == Progress(entry.path, entry.bytes, entry.bytes)
  {
    hide Arrives, Breaks, SelfNamed, ObjectsOf, TakenIn;
    ghost var before := store.disk.Objects();
    told := [];
    var there := store.Contains(entry.blake3);
    if there {
      told := [Progress(entry.path, entry.bytes, entry.bytes)];
      r := Ok(Taken(entry.path, entry.blake3, entry.bytes, true));
      KeptSafely(store.hash, before, entry, Reason(entry, r));
      return;
    }
    if reply.Err? {
      r := Err(Unserved(reply.error));
      KeptSafely(store.hash, before, entry, Reason(entry, r));
      return;
    }
    var taken;
    taken, told := TakeIn(store, entry, reply.value);
    r := Fetching(taken);
  }

  /** A failed request leaves nothing that a refusal could have left. */
  function Reason<T>(entry: Entry, r: Result<T, FetchError>): Result<T, Refusal> {
    match r
    case Ok(t) => Ok(t)
    case Err(Refused(refusal)) => Err(refusal)
    case Err(_) => Err(Digest(entry.path, entry.blake3, entry.blake3))
  }

  /** What an error may have left: a bad object only behind a size error or a refused removal. */
  ghost predicate StaysNamed<T>(hash: Hash, before: Objects, after: Objects, r: Result<T, FetchError>) {
    SelfNamed(hash, before) && !SelfNamed(hash, after) ==>
      r.Err? && r.error.Refused? && (r.error.refusal.Size? || r.error.refusal == Stored(Io(Removing)))
  }

  method FetchCorpus(store: Store, category: Category, entries: seq<Entry>, replies: nat -> Reply)
    returns (r: Result<seq<Taken>, FetchError>, told: seq<Progress>)
    modifies store.disk
    ensures category == Generated ==> r == Err(NotFetchable) && store.disk.Objects() == old(store.disk.Objects())
    ensures category != Generated && store.disk.Working() ==>
      (r, store.disk.Objects()) == FetchedAll(store.hash, old(store.disk.Objects()), entries, replies)
    ensures OnlyAdds(old(store.disk.Objects()), store.disk.Objects(), entries)
    ensures r.Ok? ==> Complete(store.hash, old(store.disk.Objects()), store.disk.Objects(), entries, r.value)
    ensures StaysNamed(store.hash, old(store.disk.Objects()), store.disk.Objects(), r)
  {
    hide SelfNamed, ObjectsOf, FetchedOne, Safe, Complete, OnlyAdds;
    ghost var before := store.disk.Objects();
    NothingAdded(before, entries);
    told := [];
    if category == Generated {
      return Err(NotFetchable), told;
    }
    NothingToDo(store.hash, before);
    NothingAdded(before, []);
    var fetched: seq<Taken> := [];
    var at := 0;
    while at < |entries|
      invariant at <= |entries|
      invariant store.disk.Working() ==> (Ok(fetched), store.disk.Objects()) == FetchedAll(store.hash, before, entries[..at], replies)
      invariant OnlyAdds(before, store.disk.Objects(), entries[..at])
      invariant Complete(store.hash, before, store.disk.Objects(), entries[..at], fetched)
      invariant SelfNamed(store.hash, before) ==> SelfNamed(store.hash, store.disk.Objects())
    {
      ghost var mid := store.disk.Objects();
      var one, more := One(store, entries[at], replies(at));
      told := told + more;
      assert entries[..at + 1] == entries[..at] + [entries[at]] && entries[..at + 1][..at] == entries[..at];
      AddsMore(store.hash, before, mid, store.disk.Objects(), entries[..at], entries[at], Reason(entries[at], one));
      if one.Err? {
        r := Err(one.error);
        if store.disk.Working() { StopsAtFirst(Fetcher(store.hash, replies), before, entries, at + 1); }
        AddsUpTo(before, store.disk.Objects(), entries, at + 1);
        StillNamed(store.hash, before, mid, store.disk.Objects(), entries[at], one);
        return;
      }
      CompletesMore(store.hash, before, mid, store.disk.Objects(), entries[..at], fetched, entries[at], one.value);
      StillNamed(store.hash, before, mid, store.disk.Objects(), entries[at], one);
      fetched := fetched + [one.value];
      at := at + 1;
    }
    assert entries[..at] == entries;
    return Ok(fetched), told;
  }

  lemma StillNamed(hash: Hash, before: Objects, mid: Objects, after: Objects, e: Entry, r: Result<Taken, FetchError>)
    requires SelfNamed(hash, before) ==> SelfNamed(hash, mid)
    requires Safe(hash, mid, after, e, Reason(e, r))
    ensures StaysNamed(hash, before, after, r)
    ensures r.Ok? && SelfNamed(hash, before) ==> SelfNamed(hash, after)
  {
    hide SelfNamed;
  }
}

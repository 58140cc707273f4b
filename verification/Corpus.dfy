/** Taking one file of a corpus into the store, and what a whole corpus taken in leaves behind. */
module Corpus {
  import opened Wrappers
  import opened Bytes
  import opened Manifest
  import opened Streams
  import opened Store

  type Objects = map<Blake3, seq<Byte>>

  /** What was done to one file. */
  datatype Taken = Taken(path: string, digest: Blake3, bytes: nat, deduplicated: bool)

  /** Why a file was not taken in. */
  datatype Refusal =
    | Size(path: string, wanted: nat, found: nat)
    | Digest(path: string, expected: Blake3, actual: Blake3)
    | Stored(error: StoreError)

  /** The stream is the file the manifest promises. */
  predicate Promised(hash: Hash, entry: Entry, script: seq<Reading>) {
    !Breaks(script) && |Arrives(script)| == entry.bytes && hash(Arrives(script)) == entry.blake3
  }

  /** What taking a file in comes to when no step of the filesystem is refused.  A digest the store has
      is not read, so it counts as no bytes at all; and a stream of the right digest is kept even when
      its size is then reported as wrong. */
  function TakenIn(hash: Hash, objects: Objects, entry: Entry, script: seq<Reading>)
    : (Result<Taken, Refusal>, Objects)
  {
    if entry.blake3 in objects then
      (if entry.bytes != 0 then Err(Size(entry.path, entry.bytes, 0))
       else Ok(Taken(entry.path, entry.blake3, 0, true)), objects)
    else
      var bytes := Arrives(script);
      var after := if !Breaks(script) && hash(bytes) == entry.blake3 then objects[entry.blake3 := bytes] else objects;
      if |bytes| != entry.bytes then (Err(Size(entry.path, entry.bytes, |bytes|)), after)
      else if Breaks(script) then (Err(Stored(Io(Writing))), after)
      else if hash(bytes) != entry.blake3 then (Err(Digest(entry.path, entry.blake3, hash(bytes))), after)
      else (Ok(Taken(entry.path, entry.blake3, entry.bytes, false)), after)
  }

  /** Which refusal comes when: a file whose digest is there for want of its own bytes, any other first for a
      wrong size, then for a stream that broke off, then for a wrong digest; and what each of them says. */
  lemma RefusalsExactly(hash: Hash, objects: Objects, entry: Entry, script: seq<Reading>)
    ensures var r, bytes := TakenIn(hash, objects, entry, script).0, Arrives(script);
      if entry.blake3 in objects then
        r == (if entry.bytes > 0 then Err(Size(entry.path, entry.bytes, 0)) else Ok(Taken(entry.path, entry.blake3, 0, true)))
      else
        && (r == Ok(Taken(entry.path, entry.blake3, entry.bytes, false)) <==> Promised(hash, entry, script))
        && (r == Err(Size(entry.path, entry.bytes, |bytes|)) <==> |bytes| != entry.bytes)
        && (r == Err(Stored(Io(Writing))) <==> |bytes| == entry.bytes && Breaks(script))
        && (r == Err(Digest(entry.path, entry.blake3, hash(bytes))) <==>
          |bytes| == entry.bytes && !Breaks(script) && hash(bytes) != entry.blake3)
  {
  }

  /** Objects are only ever added, each under a digest that was not there, and an object that does not
      hash to its name appears only behind a size error or a removal that was refused. */
  ghost predicate Safe(hash: Hash, before: Objects, after: Objects, entry: Entry, r: Result<Taken, Refusal>) {
    && (forall d | d in before :: d in after && after[d] == before[d])
    && (forall d | d in after :: d in before || d == entry.blake3)
    && (r.Ok? ==>
      && entry.blake3 in after
      && r.value == Taken(entry.path, entry.blake3, entry.bytes, entry.blake3 in before))
    && (r.Ok? && entry.blake3 !in before ==>
      |after[entry.blake3]| == entry.bytes && hash(after[entry.blake3]) == entry.blake3)
    && (SelfNamed(hash, before) && !SelfNamed(hash, after) ==>
      r.Err? && (r.error.Size? || r.error == Stored(Io(Removing))))
  }

  lemma AddedSafely(hash: Hash, before: Objects, bytes: seq<Byte>, entry: Entry, r: Result<Taken, Refusal>)
    requires entry.blake3 !in before
    requires r.Ok? ==> |bytes| == entry.bytes && hash(bytes) == entry.blake3
    requires r.Ok? ==> r.value == Taken(entry.path, entry.blake3, entry.bytes, false)
    requires hash(bytes) != entry.blake3 ==> r.Err? && (r.error.Size? || r.error == Stored(Io(Removing)))
    ensures Safe(hash, before, before[entry.blake3 := bytes], entry, r)
  {
    SelfNamedPut(hash, before, entry.blake3, bytes);
    hide SelfNamed;
  }

  lemma KeptSafely(hash: Hash, before: Objects, entry: Entry, r: Result<Taken, Refusal>)
    requires r.Ok? ==> entry.blake3 in before && r.value == Taken(entry.path, entry.blake3, entry.bytes, true)
    ensures Safe(hash, before, before, entry, r)
  {
  }

  lemma ReportedToTheEnd(script: seq<Reading>)
    requires !Breaks(script)
    ensures var m := Metered(START, script);
      m.told != [] && m.told[|m.told| - 1] == m.seen == |Arrives(script)|
  {
    CountsWhatArrives(START, script);
    ReportsSpaced(START, script);
  }

  /** The part that fetching and generating share: the stream goes in counted, and the size is looked at
      before the digest. */
  method TakeIn(store: Store, entry: Entry, script: seq<Reading>)
    returns (r: Result<Taken, Refusal>, told: seq<Progress>)
    modifies store.disk
    ensures store.disk.Working() ==>
      (r, store.disk.Objects()) == TakenIn(store.hash, old(store.disk.Objects()), entry, script)
    ensures Safe(store.hash, old(store.disk.Objects()), store.disk.Objects(), entry, r)
    ensures r.Ok? && entry.blake3 !in old(store.disk.Objects()) ==>
      told != [] && told[|told| - 1] == Progress(entry.path, entry.bytes, entry.bytes)
    ensures var bytes := Arrives(script);
      entry.blake3 !in old(store.disk.Objects()) && entry.blake3 in store.disk.Objects() && store.hash(bytes) != entry.blake3 ==>
        r == Err(if |bytes| != entry.bytes then Size(entry.path, entry.bytes, |bytes|) else Stored(Io(Removing)))
  {
    hide Arrives, Breaks, Metered, ObjectsOf, SelfNamed, Safe;
    var inner := new Stream(script);
    var counting := new Counting(inner, entry.path, entry.bytes);
    var inserted := store.InsertStream(counting, entry.blake3);
    told := counting.told;
    var found := counting.seen;
    r := Settle(entry, inserted, found);
    CountsWhatArrives(START, script);
    if !Breaks(script) { ReportedToTheEnd(script); }
    if store.disk.Objects() == old(store.disk.Objects()) {
      KeptSafely(store.hash, old(store.disk.Objects()), entry, r);
    } else {
      AddedSafely(store.hash, old(store.disk.Objects()), Arrives(script), entry, r);
    }
  }

  function Settle(entry: Entry, inserted: Result<Inserted, StoreError>, found: nat): Result<Taken, Refusal> {
    if found != entry.bytes then Err(Size(entry.path, entry.bytes, found))
    else
      match inserted
      case Ok(i) => Ok(Taken(entry.path, i.digest, found, i.deduplicated))
      case Err(DigestMismatch(wanted, actual)) => Err(Digest(entry.path, wanted, actual))
      case Err(error) => Err(Stored(error))
  }

  // Whole corpora

  /** The digest is in the store when the i-th file's turn comes, if the files before it went in. */
  ghost predicate Has(objects: Objects, entries: seq<Entry>, i: nat)
    requires i < |entries|
  {
    entries[i].blake3 in objects || exists j :: 0 <= j < i && entries[j].blake3 == entries[i].blake3
  }

  /** Nothing lost or altered, and nothing added but digests the files name. */
  ghost predicate OnlyAdds(before: Objects, after: Objects, entries: seq<Entry>) {
    && (forall d | d in before :: d in after && after[d] == before[d])
    && (forall d | d in after :: d in before || exists j :: 0 <= j < |entries| && entries[j].blake3 == d)
  }

  /** Every file is in the store and accounted for in order, and what went in new is what was promised. */
  ghost predicate Complete(hash: Hash, before: Objects, after: Objects, entries: seq<Entry>, taken: seq<Taken>) {
    && |taken| == |entries|
    && (forall i | 0 <= i < |entries| ::
      && entries[i].blake3 in after
      && taken[i] == Taken(entries[i].path, entries[i].blake3, entries[i].bytes, Has(before, entries, i)))
    && (forall i | 0 <= i < |entries| && !Has(before, entries, i) ::
      |after[entries[i].blake3]| == entries[i].bytes && hash(after[entries[i].blake3]) == entries[i].blake3)
  }

  /** What is reported of files that are all in the store. */
  function AlreadyThere(entries: seq<Entry>): (taken: seq<Taken>)
    ensures |taken| == |entries|
    ensures forall i | 0 <= i < |entries| :: taken[i] == Taken(entries[i].path, entries[i].blake3, entries[i].bytes, true)
  {
    seq(|entries|, i requires 0 <= i < |entries| => Taken(entries[i].path, entries[i].blake3, entries[i].bytes, true))
  }

  lemma HasStays(objects: Objects, entries: seq<Entry>, e: Entry)
    ensures forall i | 0 <= i < |entries| :: Has(objects, entries + [e], i) <==> Has(objects, entries, i)
  {
    var more := entries + [e];
    forall i | 0 <= i < |entries| ensures Has(objects, more, i) <==> Has(objects, entries, i) {
      assert forall j | 0 <= j <= i :: more[j] == entries[j];
    }
  }

  lemma AddsMore(hash: Hash, before: Objects, mid: Objects, after: Objects, entries: seq<Entry>, e: Entry,
                 r: Result<Taken, Refusal>)
    requires OnlyAdds(before, mid, entries) && Safe(hash, mid, after, e, r)
    ensures OnlyAdds(before, after, entries + [e])
  {
    var more := entries + [e];
    assert more[|entries|] == e;
    forall d | d in after ensures d in before || exists j :: 0 <= j < |more| && more[j].blake3 == d {
      if d in mid && d !in before {
        var j :| 0 <= j < |entries| && entries[j].blake3 == d;
        assert more[j] == entries[j];
      }
    }
  }

  lemma HasNow(before: Objects, mid: Objects, entries: seq<Entry>, e: Entry)
    requires OnlyAdds(before, mid, entries) && forall i | 0 <= i < |entries| :: entries[i].blake3 in mid
    ensures Has(before, entries + [e], |entries|) <==> e.blake3 in mid
  {
    var more := entries + [e];
    assert forall j | 0 <= j < |entries| :: more[j] == entries[j];
  }

  lemma CompletesMore(hash: Hash, before: Objects, mid: Objects, after: Objects, entries: seq<Entry>, taken: seq<Taken>,
                      e: Entry, t: Taken)
    requires OnlyAdds(before, mid, entries) && Complete(hash, before, mid, entries, taken)
    requires Safe(hash, mid, after, e, Ok(t))
    ensures Complete(hash, before, after, entries + [e], taken + [t])
  {
    hide Has, SelfNamed;
    HasStays(before, entries, e);
    HasNow(before, mid, entries, e);
    var more := entries + [e];
    assert forall i | 0 <= i < |entries| :: more[i] == entries[i] && (taken + [t])[i] == taken[i];
  }

  lemma NothingToDo(hash: Hash, objects: Objects)
    ensures Complete(hash, objects, objects, [], [])
  {
  }

  lemma NothingAdded(objects: Objects, entries: seq<Entry>)
    ensures OnlyAdds(objects, objects, entries)
  {
  }

  lemma AddsUpTo(before: Objects, after: Objects, entries: seq<Entry>, n: nat)
    requires n <= |entries| && OnlyAdds(before, after, entries[..n])
    ensures OnlyAdds(before, after, entries)
  {
  }

  /** What is done with the i-th file of a corpus, given the objects there are by then. */
  type Step<!E> = (Objects, Entry, nat) -> (Result<Taken, E>, Objects)

  /** Whether the i-th file is taken, given whether its digest is there by then. */
  type Rule = (Entry, nat, bool) -> bool

  /** The files one after another, up to the first that fails. */
  function TakenAll<E>(step: Step<E>, objects: Objects, entries: seq<Entry>): (Result<seq<Taken>, E>, Objects) {
    if entries == [] then (Ok([]), objects)
    else
      var n := |entries| - 1;
      var (front, mid) := TakenAll(step, objects, entries[..n]);
      if front.Err? then (front, mid)
      else
        var (r, after) := step(mid, entries[n], n);
        (if r.Err? then Err(r.error) else Ok(front.value + [r.value]), after)
  }

  /** One step follows the rule, adds what it may, and keeps a self-named store so. */
  ghost predicate Follows<E>(step: Step<E>, rule: Rule, hash: Hash, objects: Objects, e: Entry, i: nat) {
    var (r, after) := step(objects, e, i);
    && (r.Ok? <==> rule(e, i, e.blake3 in objects))
    && Safe(hash, objects, after, e, if r.Ok? then Ok(r.value) else Err(Size(e.path, 0, 0)))
    && (SelfNamed(hash, objects) ==> SelfNamed(hash, after))
  }

  ghost predicate Willing(rule: Rule, objects: Objects, entries: seq<Entry>) {
    forall i | 0 <= i < |entries| :: rule(entries[i], i, Has(objects, entries, i))
  }

  lemma WillingMore(rule: Rule, objects: Objects, entries: seq<Entry>, e: Entry)
    ensures Willing(rule, objects, entries + [e]) <==>
      Willing(rule, objects, entries) && rule(e, |entries|, Has(objects, entries + [e], |entries|))
  {
    hide Has;
    HasStays(objects, entries, e);
    var more := entries + [e];
    assert forall i | 0 <= i < |entries| :: more[i] == entries[i];
    assert more[|entries|] == e;
    if Willing(rule, objects, more) {
      forall i | 0 <= i < |entries| ensures rule(entries[i], i, Has(objects, entries, i)) {
        assert rule(more[i], i, Has(objects, more, i));
      }
    }
  }

  /** What taking in these files by a rule promises of its outcome: success exactly when the rule takes
      every one of them, and then everything is there and accounted for; and whatever the outcome,
      objects are only added and a self-named store stays self-named. */
  ghost predicate Exact<E>(rule: Rule, hash: Hash, objects: Objects, entries: seq<Entry>,
                           r: Result<seq<Taken>, E>, after: Objects)
  {
    && (r.Ok? <==> Willing(rule, objects, entries))
    && OnlyAdds(objects, after, entries)
    && (r.Ok? ==> Complete(hash, objects, after, entries, r.value))
    && (SelfNamed(hash, objects) ==> SelfNamed(hash, after))
  }

  lemma ExactNone<E>(rule: Rule, hash: Hash, objects: Objects, r: Result<seq<Taken>, E>)
    requires r == Ok([])
    ensures Exact(rule, hash, objects, [], r, objects)
  {
    hide SelfNamed;
    NothingToDo(hash, objects);
  }

  lemma ExactMore<E>(step: Step<E>, rule: Rule, hash: Hash, objects: Objects, entries: seq<Entry>, e: Entry,
                     front: Result<seq<Taken>, E>, mid: Objects)
    requires front.Ok? && Exact(rule, hash, objects, entries, front, mid)
    requires Follows(step, rule, hash, mid, e, |entries|)
    ensures var (r, after) := step(mid, e, |entries|);
      Exact(rule, hash, objects, entries + [e], if r.Err? then Err(r.error) else Ok(front.value + [r.value]), after)
  {
    var (r, after) := step(mid, e, |entries|);
    WillingMore(rule, objects, entries, e);
    assert forall i | 0 <= i < |entries| :: entries[i].blake3 in mid;
    HasNow(objects, mid, entries, e);
    hide SelfNamed, Willing, OnlyAdds, Complete, Safe, Has;
    AddsMore(hash, objects, mid, after, entries, e, if r.Ok? then Ok(r.value) else Err(Size(e.path, 0, 0)));
    if r.Ok? {
      CompletesMore(hash, objects, mid, after, entries, front.value, e, r.value);
    }
  }

  lemma ExactStops<E>(rule: Rule, hash: Hash, objects: Objects, entries: seq<Entry>, e: Entry,
                      r: Result<seq<Taken>, E>, mid: Objects)
    requires r.Err? && Exact(rule, hash, objects, entries, r, mid)
    ensures Exact(rule, hash, objects, entries + [e], r, mid)
  {
    hide SelfNamed, Willing;
    WillingMore(rule, objects, entries, e);
    assert (entries + [e])[..|entries|] == entries;
    AddsUpTo(objects, mid, entries + [e], |entries|);
  }

  lemma {:induction false} TakesExactly<E>(step: Step<E>, rule: Rule, hash: Hash, objects: Objects, entries: seq<Entry>)
    requires forall o, e, i: nat :: Follows(step, rule, hash, o, e, i)
    ensures Exact(rule, hash, objects, entries, TakenAll(step, objects, entries).0, TakenAll(step, objects, entries).1)
  {
    hide Exact, Follows;
    if entries == [] {
      ExactNone(rule, hash, objects, TakenAll(step, objects, entries).0);
    } else {
      var n := |entries| - 1;
      var (front, mid) := TakenAll(step, objects, entries[..n]);
      TakesExactly(step, rule, hash, objects, entries[..n]);
      assert entries == entries[..n] + [entries[n]];
      if front.Ok? {
        ExactMore(step, rule, hash, objects, entries[..n], entries[n], front, mid);
      } else {
        ExactStops(rule, hash, objects, entries[..n], entries[n], front, mid);
      }
    }
  }

  /** A failure is that of the first file that fails, with those before it taken. */
  lemma {:induction false} FailureIsTheFirst<E>(step: Step<E>, objects: Objects, entries: seq<Entry>) returns (n: nat)
    requires TakenAll(step, objects, entries).0.Err?
    ensures n < |entries| && TakenAll(step, objects, entries[..n]).0.Ok?
    ensures var mid := TakenAll(step, objects, entries[..n]).1;
      step(mid, entries[n], n).0 == Err(TakenAll(step, objects, entries).0.error)
  {
    var last := |entries| - 1;
    if TakenAll(step, objects, entries[..last]).0.Err? {
      n := FailureIsTheFirst(step, objects, entries[..last]);
      assert entries[..last][..n] == entries[..n];
    } else {
      n := last;
    }
  }

  /** Files after one that failed are not looked at. */
  lemma {:induction false} StopsAtFirst<E>(step: Step<E>, objects: Objects, entries: seq<Entry>, n: nat)
    requires n <= |entries| && TakenAll(step, objects, entries[..n]).0.Err?
    ensures TakenAll(step, objects, entries) == TakenAll(step, objects, entries[..n])
  {
    if n == |entries| {
      assert entries[..n] == entries;
    } else {
      assert entries[..|entries| - 1][..n] == entries[..n];
      StopsAtFirst(step, objects, entries[..|entries| - 1], n);
    }
  }
}

/** Byte streams that may break off, and the reader that counts what goes through one. */
module Streams {
  import opened Bytes

  const CHUNK: nat := 0x10_0000

  const REPORT_EVERY: nat := 0x400_0000

  /** What fits in the buffer a copy reads into. */
  type Piece = bytes: seq<Byte> | |bytes| <= CHUNK witness []

  /** What one read comes to: some bytes, with none of them meaning the end, or a failure. */
  datatype Reading = Chunk(bytes: Piece) | Broken

  datatype Progress = Progress(path: string, done: nat, total: nat)

  /** Everything a stream delivers before it ends or breaks. */
  function Arrives(script: seq<Reading>): seq<Byte> {
    if script == [] || script[0].Broken? || script[0].bytes == [] then []
    else script[0].bytes + Arrives(script[1..])
  }

  predicate Breaks(script: seq<Reading>) {
    script != [] && (script[0].Broken? || (script[0].bytes != [] && Breaks(script[1..])))
  }

  /** What reading once does to what has been moved and what is still to arrive. */
  lemma Onward(moved: seq<Byte>, rest: seq<Reading>, read: Reading)
    requires read == if rest == [] then Chunk([]) else rest[0]
    ensures read.Broken? ==> Breaks(rest)
    ensures read.Chunk? && read.bytes == [] ==> !Breaks(rest) && moved + Arrives(rest) == moved
    ensures read.Chunk? && read.bytes != [] ==>
      && (Breaks(rest) <==> Breaks(rest[1..]))
      && moved + Arrives(rest) == (moved + read.bytes) + Arrives(rest[1..])
  {
  }

  lemma MeteredOnward(m: Meter, rest: seq<Reading>, read: Reading)
    requires read == if rest == [] then Chunk([]) else rest[0]
    ensures read.Broken? ==> Metered(m, rest) == m
    ensures read.Chunk? && read.bytes == [] ==> Metered(m, rest) == Tell(m, 0)
    ensures read.Chunk? && read.bytes != [] ==> Metered(m, rest) == Metered(Tell(m, |read.bytes|), rest[1..])
  {
  }

  /** How far a count has got, when the next report is due, and what has been reported. */
  datatype Meter = Meter(seen: nat, next: nat, told: seq<nat>)

  const START := Meter(0, REPORT_EVERY, [])

  function Metered(m: Meter, script: seq<Reading>): Meter
    decreases |script|
  {
    if script == [] then Tell(m, 0)
    else if script[0].Broken? then m
    else if script[0].bytes == [] then Tell(m, 0)
    else Metered(Tell(m, |script[0].bytes|), script[1..])
  }

  function Tell(m: Meter, read: nat): Meter {
    var seen := m.seen + read;
    if seen >= m.next || read == 0 then Meter(seen, seen + REPORT_EVERY, m.told + [seen])
    else m.(seen := seen)
  }

  /** The count is the number of bytes that arrived, broken off or not. */
  lemma {:induction false} CountsWhatArrives(m: Meter, script: seq<Reading>)
    ensures Metered(m, script).seen == m.seen + |Arrives(script)|
    decreases |script|
  {
    if script != [] && script[0].Chunk? && script[0].bytes != [] {
      CountsWhatArrives(Tell(m, |script[0].bytes|), script[1..]);
    }
  }

  /** The report before the i-th, or nothing yet. */
  function Before(told: seq<nat>, i: nat): nat
    requires i <= |told|
  {
    if i == 0 then 0 else told[i - 1]
  }

  /** A report comes an interval after the one before it and less than one buffer later than that. */
  predicate Due(before: nat, done: nat) {
    before + 67_108_864 <= done < before + 67_108_864 + 1_048_576
  }

  /** Every report so far came when it was due, and the next one is due an interval after the last. */
  ghost predicate Spaced(m: Meter) {
    && (forall i | 0 <= i < |m.told| :: Due(Before(m.told, i), m.told[i]))
    && m.next == Before(m.told, |m.told|) + REPORT_EVERY
    && m.seen < m.next
  }

  lemma TellSpaces(m: Meter, read: nat)
    requires Spaced(m) && 0 < read <= CHUNK
    ensures Spaced(Tell(m, read))
  {
    var seen := m.seen + read;
    var t := Tell(m, read);
    if seen >= m.next {
      assert Due(Before(m.told, |m.told|), seen);
      forall i | 0 <= i < |t.told| ensures Due(Before(t.told, i), t.told[i]) {
        assert Before(t.told, i) == Before(m.told, i);
        assert i < |m.told| ==> t.told[i] == m.told[i];
      }
      assert Before(t.told, |t.told|) == seen;
    }
  }

  /** A stream that ends is reported as it passes every interval and once more at its end; one that
      breaks is not reported at its end. */
  lemma {:induction false} ReportsSpaced(m: Meter, script: seq<Reading>)
    requires Spaced(m)
    ensures var r := Metered(m, script);
      && (Breaks(script) ==> Spaced(r))
      && (!Breaks(script) ==>
        && r.told != [] && r.told[|r.told| - 1] == r.seen
        && exists k: Meter :: Spaced(k) && k.seen == r.seen && k.told == r.told[..|r.told| - 1])
    decreases |script|
  {
    if script == [] || (script[0].Chunk? && script[0].bytes == []) {
      assert Metered(m, script).told[..|m.told|] == m.told;
    } else if script[0].Chunk? {
      TellSpaces(m, |script[0].bytes|);
      ReportsSpaced(Tell(m, |script[0].bytes|), script[1..]);
    }
  }

  /** A source of bytes that follows a script and then stays at its end. */
  class Stream {
    const script: seq<Reading>
    var at: nat

    ghost predicate Valid()
      reads this
    {
      at <= |script|
    }

    ghost function Rest(): seq<Reading>
      reads this
    {
      if at <= |script| then script[at..] else []
    }

    constructor (script: seq<Reading>)
      ensures Valid() && Rest() == script
    {
      this.script, at := script, 0;
    }

    method Read() returns (r: Reading)
      requires Valid()
      modifies this
      ensures Valid()
      ensures old(Rest()) == [] ==> r == Chunk([]) && Rest() == []
      ensures old(Rest()) != [] ==> r == old(Rest())[0] && Rest() == old(Rest())[1..]
    {
      if at == |script| {
        return Chunk([]);
      }
      r := script[at];
      at := at + 1;
    }
  }

  /** Wraps a stream, keeps the number of bytes read from it and tells a watcher. */
  class Counting {
    const inner: Stream
    var seen: nat
    var next: nat
    const path: string
    const total: nat
    /** What the watcher has been told. */
    var told: seq<Progress>

    ghost function Gauge(): Meter
      reads this
    {
      Meter(seen, next, seq(|told|, i requires 0 <= i < |told| reads this => told[i].done))
    }

    ghost predicate Valid()
      reads this, inner
    {
      inner.Valid() && forall i | 0 <= i < |told| :: told[i].path == path && told[i].total == total
    }

    constructor (inner: Stream, path: string, total: nat)
      requires inner.Valid()
      ensures Valid() && Gauge() == START
      ensures this.inner == inner && this.path == path && this.total == total
    {
      this.inner, this.path, this.total := inner, path, total;
      seen, next, told := 0, REPORT_EVERY, [];
    }

    method Read() returns (r: Reading)
      requires Valid()
      modifies this, inner
      ensures Valid()
      ensures old(inner.Rest()) == [] ==> r == Chunk([]) && inner.Rest() == []
      ensures old(inner.Rest()) != [] ==> r == old(inner.Rest())[0] && inner.Rest() == old(inner.Rest())[1..]
      ensures Gauge() == if r.Broken? then old(Gauge()) else Tell(old(Gauge()), |r.bytes|)
    {
      r := inner.Read();
      if r.Broken? {
        return;
      }
      seen := seen + |r.bytes|;
      if seen >= next || r.bytes == [] {
        next := seen + REPORT_EVERY;
        told := told + [Progress(path, seen, total)];
      }
    }
  }
}

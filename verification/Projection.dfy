/** Reordering the columns of a projected batch. */
module Projection {
  import opened Wrappers
  import opened Sorting

  datatype ProjectError =
    | NoSuchColumn(name: string)
    | WentMissing
    | TooNarrow

  predicate Leq(a: nat, b: nat) {
    a <= b
  }

  /** Strictly increasing: sorted, and without repeats. */
  ghost predicate Ascending(s: seq<nat>) {
    forall i, j | 0 <= i < j < |s| :: s[i] < s[j]
  }

  /** Drops each element equal to the one before it. */
  function Dedup(s: seq<nat>): (r: seq<nat>)
    ensures forall x :: x in r <==> x in s
  {
    if |s| <= 1 then s
    else
      assert s == [s[0]] + s[1..];
      if s[0] == s[1] then Dedup(s[1..]) else [s[0]] + Dedup(s[1..])
  }

  lemma {:induction false} DedupAscends(s: seq<nat>)
    requires forall i, j | 0 <= i < j < |s| :: s[i] <= s[j]
    ensures Ascending(Dedup(s))
    ensures s != [] ==> Dedup(s) != [] && Dedup(s)[0] == s[0]
  {
    if |s| > 1 {
      DedupAscends(s[1..]);
    }
  }

  /** The distinct requested columns in file order, which is how the reader delivers them. */
  function Wanted(columns: seq<nat>): seq<nat> {
    Dedup(Sort(Leq, columns))
  }

  lemma WantedAscends(columns: seq<nat>)
    ensures Ascending(Wanted(columns))
    ensures forall c :: c in Wanted(columns) <==> c in columns
  {
    SortSorts(Leq, columns);
    var sorted := Sort(Leq, columns);
    forall i, j | 0 <= i < j < |sorted| ensures sorted[i] <= sorted[j] {
      assert Leq(sorted[i], sorted[j]);
    }
    DedupAscends(sorted);
    forall c ensures c in sorted <==> c in columns {
      assert c in multiset(sorted) <==> c in multiset(columns);
    }
  }

  /** In strictly increasing order there is only one list of a given set of columns. */
  lemma {:induction false} AscendingUnique(a: seq<nat>, b: seq<nat>)
    requires Ascending(a) && Ascending(b) && forall c :: c in a <==> c in b
    ensures a == b
  {
    if a != [] {
      assert a[0] in b;
    }
    if b != [] {
      assert b[0] in a;
    }
    if a != [] && b != [] {
      assert a[0] == b[0];
      forall c ensures c in a[1..] <==> c in b[1..] {
        assert c in a[1..] <==> c in a && c != a[0];
        assert c in b[1..] <==> c in b && c != b[0];
      }
      AscendingUnique(a[1..], b[1..]);
      assert a == [a[0]] + a[1..] && b == [b[0]] + b[1..];
    }
  }

  /** A batch holding the distinct requested columns of a file, in file order. */
  ghost predicate Delivers<C(!new)>(batch: seq<C>, file: seq<C>, columns: seq<nat>) {
    exists held: seq<nat> ::
      && Ascending(held) && (forall c :: c in held <==> c in columns)
      && |batch| == |held| && forall i | 0 <= i < |held| :: held[i] < |file| && batch[i] == file[held[i]]
  }

  method BinarySearch(s: seq<nat>, key: nat) returns (at: nat, found: bool)
    requires Ascending(s)
    ensures found <==> key in s
    ensures found ==> at < |s| && s[at] == key
  {
    var low, high := 0, |s|;
    while low < high
      invariant low <= high <= |s|
      invariant forall i | 0 <= i < low :: s[i] < key
      invariant forall i | high <= i < |s| :: key < s[i]
    {
      var mid := (low + high) / 2;
      if s[mid] == key {
        return mid, true;
      } else if s[mid] < key {
        low := mid + 1;
      } else {
        high := mid;
      }
    }
    return low, false;
  }

  /** What projecting a batch comes to: the position of each requested column among the distinct ones,
      and an error exactly when the batch is too narrow to have one of them. */
  method Project<C(!new)>(batch: seq<C>, wanted: seq<nat>) returns (r: Result<seq<C>, ProjectError>)
    ensures r.Ok? ==> |r.value| == |wanted|
                      && forall i, k | 0 <= i < |wanted| && 0 <= k < |Wanted(wanted)| && Wanted(wanted)[k] == wanted[i] ::
                        k < |batch| && r.value[i] == batch[k]
    ensures r.Ok? <==> |Wanted(wanted)| <= |batch|
    ensures r.Err? ==> r.error == TooNarrow
  {
    var sorted := Sort(Leq, wanted);
    sorted := Dedup(sorted);
    WantedAscends(wanted);
    var out: seq<C> := [];
    for i := 0 to |wanted|
      invariant |out| == i
      invariant forall j, k | 0 <= j < i && 0 <= k < |sorted| && sorted[k] == wanted[j] :: k < |batch| && out[j] == batch[k]
    {
      var at, found := BinarySearch(sorted, wanted[i]);
      if !found {
        return Err(WentMissing);
      }
      if at >= |batch| {
        return Err(TooNarrow);
      }
      forall k | 0 <= k < |sorted| && sorted[k] == wanted[i] ensures k == at {
        assert !(k < at) && !(at < k);
      }
      out := out + [batch[at]];
    }
    if sorted != [] {
      assert sorted[|sorted| - 1] in wanted;
    }
    return Ok(out);
  }

  /** Whatever the requested columns, in any order and with repeats: over a batch that delivers them,
      projecting gives each requested file column at its requested place. */
  lemma ProjectRestoresOrder<C(!new)>(batch: seq<C>, file: seq<C>, columns: seq<nat>, i: nat)
    requires Delivers(batch, file, columns) && i < |columns|
    ensures |Wanted(columns)| == |batch| && columns[i] < |file|
    ensures exists k :: 0 <= k < |Wanted(columns)| && Wanted(columns)[k] == columns[i] && batch[k] == file[columns[i]]
  {
    var held: seq<nat> :|
      && Ascending(held) && (forall c :: c in held <==> c in columns)
      && |batch| == |held| && forall j | 0 <= j < |held| :: held[j] < |file| && batch[j] == file[held[j]];
    WantedAscends(columns);
    AscendingUnique(held, Wanted(columns));
    assert columns[i] in Wanted(columns);
  }

  /** The projection step of a run. */
  method ProjectFile<C(!new)>(batch: seq<C>, ghost file: seq<C>, wanted: seq<nat>) returns (columns: seq<C>)
    requires Delivers(batch, file, wanted)
    ensures |columns| == |wanted|
    ensures forall i | 0 <= i < |wanted| :: wanted[i] < |file| && columns[i] == file[wanted[i]]
  {
    if wanted != [] {
      ProjectRestoresOrder(batch, file, wanted, 0);
    }
    var r := Project(batch, wanted);
    columns := r.value;
    forall i | 0 <= i < |wanted| ensures wanted[i] < |file| && columns[i] == file[wanted[i]] {
      ProjectRestoresOrder(batch, file, wanted, i);
    }
  }

  /** Requested names as positions in the schema, the first of a name that repeats; without a list, every
      position in file order. */
  method Order(schema: seq<string>, requested: Option<seq<string>>) returns (r: Result<seq<nat>, ProjectError>)
    ensures requested.None? ==>
      r.Ok? && |r.value| == |schema| && forall i | 0 <= i < |schema| :: r.value[i] == i
    ensures requested.Some? ==> (r.Ok? <==> forall name | name in requested.value :: name in schema)
    ensures requested.Some? && r.Ok? ==> |r.value| == |requested.value|
    ensures requested.Some? && r.Ok? ==> forall i | 0 <= i < |r.value| ::
      r.value[i] < |schema| && schema[r.value[i]] == requested.value[i] && requested.value[i] !in schema[..r.value[i]]
    ensures r.Err? ==>
      requested.Some? && r.error.NoSuchColumn? && r.error.name in requested.value && r.error.name !in schema
  {
    if requested.None? {
      return Ok(seq(|schema|, i requires 0 <= i < |schema| => i));
    }
    var columns := requested.value;
    var out: seq<nat> := [];
    for i := 0 to |columns|
      invariant |out| == i
      invariant forall j | 0 <= j < i ::
        out[j] < |schema| && schema[out[j]] == columns[j] && columns[j] !in schema[..out[j]]
    {
      var at := 0;
      while at < |schema| && schema[at] != columns[i]
        invariant at <= |schema| && columns[i] !in schema[..at]
      {
        at := at + 1;
      }
      if at == |schema| {
        assert schema[..at] == schema;
        return Err(NoSuchColumn(columns[i]));
      }
      out := out + [at];
    }
    forall name | name in columns ensures name in schema {
      var j :| 0 <= j < |columns| && columns[j] == name;
      assert schema[out[j]] == name;
    }
    return Ok(out);
  }
}

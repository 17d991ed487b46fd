/** The symbol index: locations filed under lower-cased names
    (internal/symbol/symbol.go). */
module SymbolIndex {
  import opened Common
  import opened Chunks

  datatype Location = Location(
    path: string,
    language: string,
    symbol: string,
    signature: string,
    startLine: int,
    endLine: int)

  /** Locations by lower-cased symbol. */
  type Table = map<string, seq<Location>>

  function Locations(data: Table, key: string): seq<Location> {
    if key in data then data[key] else []
  }

  function LocationOf(c: Chunk): Location {
    Location(c.path, c.language, c.symbol, c.signature, c.startLine, c.endLine)
  }

  function Added(lower: string -> string, data: Table, c: Chunk): Table {
    if c.symbol == "" then data
    else data[lower(c.symbol) := Locations(data, lower(c.symbol)) + [LocationOf(c)]]
  }

  function AddedAll(lower: string -> string, data: Table, chunks: seq<Chunk>): Table {
    if chunks == [] then data
    else Added(lower, AddedAll(lower, data, chunks[..|chunks| - 1]), chunks[|chunks| - 1])
  }

  function FromPath(path: string): Location -> bool {
    (l: Location) => l.path == path
  }

  function NotFromPath(path: string): Location -> bool {
    (l: Location) => l.path != path
  }

  /** Keeps the selected locations, and no key without locations. */
  function Selected(data: Table, keep: Location -> bool): Table {
    map key | key in data && Filter(keep, data[key]) != [] :: Filter(keep, data[key])
  }

  function Removed(data: Table, path: string): Table {
    Selected(data, NotFromPath(path))
  }

  function Restrict(data: Table, path: string): Table {
    Selected(data, FromPath(path))
  }

  lemma RestrictRemoved(data: Table, path: string, other: string)
    ensures Restrict(Removed(data, path), other) == if other == path then map[] else Restrict(data, other)
  {
    forall key | key in data
      ensures Filter(FromPath(other), Filter(NotFromPath(path), data[key]))
        == if other == path then [] else Filter(FromPath(other), data[key])
    {
      if other == path {
        FilterMembers(NotFromPath(path), data[key]);
        FilterNone(FromPath(path), Filter(NotFromPath(path), data[key]));
      } else {
        FilterAbsorb(FromPath(other), NotFromPath(path), data[key]);
      }
    }
  }

  ghost predicate NoEmptyKey(data: Table) {
    forall key :: key in data ==> data[key] != []
  }

  lemma SameLocations(a: Table, b: Table)
    requires NoEmptyKey(a) && NoEmptyKey(b)
    requires forall key :: Locations(a, key) == Locations(b, key)
    ensures a == b
  {
    forall key
      ensures key in a <==> key in b
      ensures key in a ==> key in b && a[key] == b[key]
    {
      assert Locations(a, key) == Locations(b, key);
    }
  }

  lemma LocationsSelected(data: Table, keep: Location -> bool, key: string)
    ensures Locations(Selected(data, keep), key) == Filter(keep, Locations(data, key))
  {
  }

  lemma LocationsAdded(lower: string -> string, data: Table, c: Chunk, key: string)
    ensures Locations(Added(lower, data, c), key)
      == Locations(data, key) + (if c.symbol != "" && key == lower(c.symbol) then [LocationOf(c)] else [])
  {
  }

  lemma RestrictAddedAt(lower: string -> string, data: Table, c: Chunk, path: string, key: string)
    ensures Locations(Restrict(Added(lower, data, c), path), key)
      == Locations(if c.path == path then Added(lower, Restrict(data, path), c) else Restrict(data, path), key)
  {
    LocationsSelected(data, FromPath(path), key);
    LocationsSelected(Added(lower, data, c), FromPath(path), key);
    LocationsAdded(lower, data, c, key);
    LocationsAdded(lower, Restrict(data, path), c, key);
    FilterSnoc(FromPath(path), Locations(data, key), LocationOf(c));
  }

  lemma RestrictAdded(lower: string -> string, data: Table, c: Chunk, path: string)
    ensures Restrict(Added(lower, data, c), path)
      == if c.path == path then Added(lower, Restrict(data, path), c) else Restrict(data, path)
  {
    var left := Restrict(Added(lower, data, c), path);
    var right := if c.path == path then Added(lower, Restrict(data, path), c) else Restrict(data, path);
    forall key
      ensures Locations(left, key) == Locations(right, key)
    {
      RestrictAddedAt(lower, data, c, path, key);
    }
    SameLocations(left, right);
  }

  lemma {:induction false} RestrictAddedAll(lower: string -> string, data: Table, chunks: seq<Chunk>, from: string, path: string)
    requires forall c :: c in chunks ==> c.path == from
    ensures Restrict(AddedAll(lower, data, chunks), path)
      == if from == path then AddedAll(lower, Restrict(data, path), chunks) else Restrict(data, path)
  {
    if chunks != [] {
      var n := |chunks| - 1;
      RestrictAddedAll(lower, data, chunks[..n], from, path);
      RestrictAdded(lower, AddedAll(lower, data, chunks[..n]), chunks[n], path);
    }
  }

  /** Tables that agree file by file list the same locations of every name, up
      to order. */
  lemma PartsDetermineLocations(a: Table, b: Table, key: string)
    requires forall path :: Restrict(a, path) == Restrict(b, path)
    ensures multiset(Locations(a, key)) == multiset(Locations(b, key))
  {
    forall l
      ensures multiset(Locations(a, key))[l] == multiset(Locations(b, key))[l]
    {
      assert Restrict(a, l.path) == Restrict(b, l.path);
      LocationsSelected(a, FromPath(l.path), key);
      LocationsSelected(b, FromPath(l.path), key);
      FilterCount(FromPath(l.path), Locations(a, key), l);
      FilterCount(FromPath(l.path), Locations(b, key), l);
    }
  }

  /** The location of a chunk's symbol. */
  predicate Locates(l: Location, c: Chunk) {
    && l.path == c.path && l.language == c.language && l.symbol == c.symbol && l.signature == c.signature
    && l.startLine == c.startLine && l.endLine == c.endLine
  }

  function NamedAs(lower: string -> string, key: string): Chunk -> bool {
    (c: Chunk) => c.symbol != "" && lower(c.symbol) == key
  }

  /** Under every key, one by one and in order, the chunks of that name. */
  ghost predicate FiledFrom(lower: string -> string, data: Table, chunks: seq<Chunk>) {
    forall key ::
      var named := Filter(NamedAs(lower, key), chunks);
      && |Locations(data, key)| == |named|
      && forall i :: 0 <= i < |named| ==> Locates(Locations(data, key)[i], named[i])
  }

  /** Feeding chunks to an empty index files exactly the named ones. */
  lemma {:induction false} AddedAllFiles(lower: string -> string, chunks: seq<Chunk>)
    ensures FiledFrom(lower, AddedAll(lower, map[], chunks), chunks)
  {
    if chunks != [] {
      var n := |chunks| - 1;
      var front, c := AddedAll(lower, map[], chunks[..n]), chunks[n];
      AddedAllFiles(lower, chunks[..n]);
      forall key { LocationsAdded(lower, front, c, key); }
    }
  }

  /** Every location is filed under its own lower-cased, non-empty symbol, and
      no key is empty. */
  ghost predicate Filed(lower: string -> string, data: Table) {
    forall key :: key in data ==>
      data[key] != [] && forall l :: l in data[key] ==> l.symbol != "" && lower(l.symbol) == key
  }

  lemma AddedIsFiled(lower: string -> string, data: Table, c: Chunk)
    requires Filed(lower, data)
    ensures Filed(lower, Added(lower, data, c))
  {
  }

  lemma {:induction false} AddedAllIsFiled(lower: string -> string, data: Table, chunks: seq<Chunk>)
    requires Filed(lower, data)
    ensures Filed(lower, AddedAll(lower, data, chunks))
  {
    if chunks != [] {
      AddedAllIsFiled(lower, data, chunks[..|chunks| - 1]);
      AddedIsFiled(lower, AddedAll(lower, data, chunks[..|chunks| - 1]), chunks[|chunks| - 1]);
    }
  }

  lemma RemovedIsFiled(lower: string -> string, data: Table, path: string)
    requires Filed(lower, data)
    ensures Filed(lower, Removed(data, path))
    ensures forall key, l :: key in Removed(data, path) && l in Removed(data, path)[key] <==>
      key in data && l in data[key] && l.path != path
  {
    forall key | key in data { FilterMembers(NotFromPath(path), data[key]); }
  }

  class Index {
    const lower: string -> string
    var data: Table

    constructor (lower: string -> string)
      ensures data == map[] && this.lower == lower && Filed(lower, data)
    {
      this.lower := lower;
      data := map[];
    }

    /** chunksToSymbolChunks followed by AddChunks. */
    method AddChunks(chunks: seq<Chunk>)
      modifies this
      ensures data == AddedAll(lower, old(data), chunks)
      ensures old(Filed(lower, data)) ==> Filed(lower, data)
      ensures old(data) == map[] ==> FiledFrom(lower, data, chunks)
    {
      for i := 0 to |chunks|
        invariant data == AddedAll(lower, old(data), chunks[..i])
      {
        var c := chunks[i];
        assert chunks[..i + 1][..i] == chunks[..i];
        if c.symbol == "" {
          continue;
        }
        var key := lower(c.symbol);
        data := data[key := Locations(data, key) + [LocationOf(c)]];
      }
      assert chunks[..|chunks|] == chunks;
      if old(Filed(lower, data)) {
        AddedAllIsFiled(lower, old(data), chunks);
      }
      if old(data) == map[] {
        AddedAllFiles(lower, chunks);
      }
    }

    static method Compact(locs: seq<Location>, path: string) returns (kept: seq<Location>)
      ensures kept == Filter(NotFromPath(path), locs)
    {
      kept := [];
      for i := 0 to |locs|
        invariant kept == Filter(NotFromPath(path), locs[..i])
      {
        FilterStep(NotFromPath(path), locs, i);
        if locs[i].path != path {
          kept := kept + [locs[i]];
        }
      }
      assert locs[..|locs|] == locs;
    }

    /** Visits the keys in any order. */
    method RemoveByPath(path: string)
      modifies this
      ensures data == Removed(old(data), path)
      ensures old(Filed(lower, data)) ==> Filed(lower, data)
    {
      ghost var before := data;
      var todo := data.Keys;
      while todo != {}
        invariant todo <= before.Keys
        invariant forall key :: key in todo ==> key in data && data[key] == before[key]
        invariant forall key :: key in data && key !in todo ==> key in Removed(before, path) && data[key] == Removed(before, path)[key]
        invariant forall key :: key in Removed(before, path) ==> key in data
        decreases todo
      {
        var key :| key in todo;
        todo := todo - {key};
        var kept := Compact(data[key], path);
        if |kept| == 0 {
          data := data - {key};
        } else {
          data := data[key := kept];
        }
      }
      assert data == Removed(before, path);
      if old(Filed(lower, data)) {
        RemovedIsFiled(lower, before, path);
      }
    }

    /** All locations of a name, whatever its letter case. */
    method Lookup(name: string) returns (locs: seq<Location>)
      requires Filed(lower, data)
      ensures forall key, l :: key in data && l in data[key] && lower(l.symbol) == lower(name) ==> l in locs
      ensures forall l :: l in locs ==> lower(l.symbol) == lower(name) && lower(name) in data && l in data[lower(name)]
    {
      locs := Locations(data, lower(name));
    }
  }
}

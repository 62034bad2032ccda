/** The table of file locations of a tool call (`addToolLocation` in src/acp/event-mapper.ts). */
module ToolLocations {
  import opened Collections
  import opened Text

  /** A path, with a line or bare. */
  datatype Location = Location(path: string, line: Option<nat>)

  /** `normalizeToolLocationLine` on a finite number. */
  function NormalizeLine(value: Option<real>): (line: Option<nat>)
    ensures line.Some? ==> line.value > 0
    ensures line.Some? <==> value.Some? && value.value >= 1.0
    ensures line.Some? ==> line.value as real <= value.value < line.value as real + 1.0
  {
    if value.Some? && value.value.Floor > 0 then Some(value.value.Floor) else None
  }

  /** The key a location is stored under. */
  function Key(loc: Location): string
  {
    loc.path + ":" + if loc.line.Some? then Decimal(loc.line.value) else ""
  }

  lemma {:induction false} DecimalHasNoColon(n: nat)
    ensures ':' !in Decimal(n)
  {
    if n >= 10 {
      DecimalHasNoColon(n / 10);
    }
  }

  lemma ColonAtOrBefore(p: string, d: string, q: string, e: string)
    requires p + ":" + d == q + ":" + e && ':' !in e
    ensures |p| <= |q|
  {
    var s := q + ":" + e;
    forall i | |q| < i < |s|
      ensures s[i] != ':'
    {
      assert s[i] == e[i - |q| - 1];
    }
    assert (p + ":" + d)[|p|] == ':';
  }

  /** The last colon separates path and line again. */
  lemma SplitAtLastColon(p: string, d: string, q: string, e: string)
    requires p + ":" + d == q + ":" + e && ':' !in d && ':' !in e
    ensures p == q && d == e
  {
    var s, t := p + ":" + d, q + ":" + e;
    ColonAtOrBefore(p, d, q, e);
    ColonAtOrBefore(q, e, p, d);
    assert p == s[..|p|] && q == t[..|q|] && d == s[|p| + 1..] && e == t[|q| + 1..];
  }

  /** Different locations have different keys, colons in paths included. */
  lemma KeyInjective(a: Location, b: Location)
    requires Key(a) == Key(b)
    ensures a == b
  {
    var d := if a.line.Some? then Decimal(a.line.value) else "";
    var e := if b.line.Some? then Decimal(b.line.value) else "";
    if a.line.Some? { DecimalHasNoColon(a.line.value); }
    if b.line.Some? { DecimalHasNoColon(b.line.value); }
    SplitAtLastColon(a.path, d, b.path, e);
    if a.line.Some? && b.line.Some? {
      DecimalInjective(a.line.value, b.line.value);
    }
  }

  // ----- what the table should show -----

  /** Some line of this path was added. */
  ghost predicate HasLine(adds: seq<Location>, path: string)
  {
    exists n: nat :: Location(path, Some(n)) in adds
  }

  /** A location is shown when it was added, a bare path only when no line of it was. */
  ghost predicate Shown(adds: seq<Location>, loc: Location)
  {
    loc in adds && (loc.line.None? ==> !HasLine(adds, loc.path))
  }

  type Table = map<string, Location>

  /** The table holds exactly the locations to be shown, each under its key. */
  ghost predicate Shows(table: Table, adds: seq<Location>)
  {
    && (forall k :: k in table ==> Key(table[k]) == k && Shown(adds, table[k]))
    && (forall loc :: Shown(adds, loc) ==> Key(loc) in table && table[Key(loc)] == loc)
  }

  lemma ShownStep(adds: seq<Location>, add: Location, loc: Location)
    ensures Shown(adds + [add], loc) <==>
      && (Shown(adds, loc) || loc == add)
      && (loc.line.None? ==> !HasLine(adds, loc.path) && !(add.path == loc.path && add.line.Some?))
  {
    var all := adds + [add];
    assert forall x :: x in all <==> x in adds || x == add;
    if add.path == loc.path && add.line.Some? {
      assert Location(loc.path, Some(add.line.value)) in all;
    }
  }

  /** Nothing changes when the path is there already, or the very line is. */
  lemma AlreadyShown(table: Table, adds: seq<Location>, add: Location, key: string)
    requires Shows(table, adds) && key in table && table[key].path == add.path
    requires add.line.None? || table[key].line == add.line
    ensures Shows(table, adds + [add])
  {
    var there := table[key];
    forall loc
      ensures Shown(adds + [add], loc) <==> Shown(adds, loc)
    {
      ShownStep(adds, add, loc);
      if there.line.Some? {
        assert Location(add.path, Some(there.line.value)) in adds;
      }
    }
  }

  /** The table after a new location: the bare entry of its path makes way for a line. */
  function Added(table: Table, add: Location): Table
  {
    (if add.line.Some? then table - {Key(Location(add.path, None))} else table)[Key(add) := add]
  }

  lemma NewlyShown(table: Table, adds: seq<Location>, add: Location)
    requires Shows(table, adds)
    requires forall k :: k in table && table[k].path == add.path ==> add.line.Some? && table[k].line != add.line
    ensures Shows(Added(table, add), adds + [add])
  {
    hide Key;
    var all, next := adds + [add], Added(table, add);
    var bare := Location(add.path, None);
    if add.line.None? {
      NoEntryNoLine(table, adds, add.path);
    }
    forall loc
      ensures Shown(all, loc) <==> loc == add || (Shown(adds, loc) && (add.line.Some? ==> loc != bare))
    {
      ShownStep(adds, add, loc);
    }
    forall k | k in next
      ensures Key(next[k]) == k && Shown(all, next[k])
    {
      if k != Key(add) {
        assert k in table && next[k] == table[k];
      }
    }
    forall loc | Shown(all, loc)
      ensures Key(loc) in next && next[Key(loc)] == loc
    {
      if loc != add {
        assert Key(loc) in table && table[Key(loc)] == loc;
        if Key(loc) == Key(add) { KeyInjective(loc, add); }
        if Key(loc) == Key(bare) { KeyInjective(loc, bare); }
      }
    }
  }

  lemma NoEntryNoLine(table: Table, adds: seq<Location>, path: string)
    requires Shows(table, adds) && forall k :: k in table ==> table[k].path != path
    ensures !HasLine(adds, path)
  {
    if HasLine(adds, path) {
      var n: nat :| Location(path, Some(n)) in adds;
      assert Shown(adds, Location(path, Some(n)));
      assert false;
    }
  }

  // ----- the table -----

  class LocationTable {
    var locations: OrderedMap<string, Location>
    /** The locations added so far. */
    ghost var adds: seq<Location>

    ghost predicate Valid()
      reads this
    {
      locations.Valid() && Shows(locations.entries, adds)
    }

    constructor ()
      ensures Valid() && adds == []
    {
      locations, adds := EmptyMap(), [];
    }

    /** `path` is what `normalizeToolLocationPath` makes of the raw path. */
    method AddToolLocation(path: Option<string>, line: Option<nat>)
      requires Valid()
      modifies this
      ensures Valid()
      ensures adds == old(adds) + if path.Some? && path.value != "" then [Location(path.value, line)] else []
    {
      hide Shows, Key;
      if path.None? || path.value == "" {
        return;
      }
      ghost var table := locations.entries;
      var add := Location(path.value, line);
      ghost var bare := Key(Location(path.value, None));
      var keys := locations.order;
      var i := 0;
      while i < |keys|
        invariant 0 <= i <= |keys| && adds == old(adds) && locations.Valid()
        invariant locations.entries == if bare in keys[..i] then table - {bare} else table
        invariant forall k :: 0 <= k < i ==> Elsewhere(table[keys[k]], add)
      {
        NotYet(keys, i);
        EntryKey(table, adds, keys[i], add.path);
        assert keys[..i + 1] == keys[..i] + [keys[i]];
        var existing := locations.entries[keys[i]];
        if existing.path == add.path {
          if line.None? || existing.line == line {
            StillWhole(table, adds, add, keys[i]);
            AlreadyShown(table, adds, add, keys[i]);
            adds := adds + [add];
            return;
          }
          if existing.line.None? {
            locations := locations.Delete(keys[i]);
          }
        }
        i := i + 1;
      }
      assert keys[..i] == keys;
      AllElsewhere(table, keys, add);
      NewlyShown(table, adds, add);
      NotThere(table, adds, add);
      Cleared(table, adds, keys, add);
      var locationKey := Key(add);
      if !locations.Has(locationKey) {
        locations := locations.Set(locationKey, add);
      }
      adds := adds + [add];
    }
  }

  /** An entry that does not already show `add`. */
  predicate Elsewhere(entry: Location, add: Location)
  {
    entry.path == add.path ==> add.line.Some? && entry.line != add.line
  }

  lemma NotYet(keys: seq<string>, i: nat)
    requires Distinct(keys) && i < |keys|
    ensures keys[i] !in keys[..i]
  {
    forall k | 0 <= k < i
      ensures keys[k] != keys[i]
    {
      DistinctAt(keys, k, i);
    }
  }

  lemma EntryKey(table: Table, adds: seq<Location>, key: string, path: string)
    requires Shows(table, adds) && key in table
    ensures key == Key(Location(path, None)) <==> table[key] == Location(path, None)
  {
    if key == Key(Location(path, None)) {
      KeyInjective(table[key], Location(path, None));
    }
  }

  /** A path with a line in the table has no bare entry. */
  lemma StillWhole(table: Table, adds: seq<Location>, add: Location, key: string)
    requires Shows(table, adds) && key in table && table[key].path == add.path
    ensures var bare := Key(Location(add.path, None));
      key == bare || bare !in table
  {
    var bare := Location(add.path, None);
    var there := table[key];
    if there.line.Some? {
      assert Location(add.path, Some(there.line.value)) in adds;
      assert !Shown(adds, bare);
      if Key(bare) in table {
        KeyInjective(table[Key(bare)], bare);
      }
    }
  }

  lemma AllElsewhere(table: Table, keys: seq<string>, add: Location)
    requires forall k :: k in keys <==> k in table
    requires forall i :: 0 <= i < |keys| ==> Elsewhere(table[keys[i]], add)
    ensures forall k :: k in table ==> Elsewhere(table[k], add)
  {
  }

  lemma Cleared(table: Table, adds: seq<Location>, keys: seq<string>, add: Location)
    requires Shows(table, adds) && forall k :: k in keys <==> k in table
    requires forall k :: k in table ==> Elsewhere(table[k], add)
    ensures var bare := Key(Location(add.path, None));
      (if bare in keys then table - {bare} else table) == if add.line.Some? then table - {bare} else table
  {
    var bare := Key(Location(add.path, None));
    if bare in table {
      EntryKey(table, adds, bare, add.path);
    } else {
      assert table - {bare} == table;
    }
  }

  lemma NotThere(table: Table, adds: seq<Location>, add: Location)
    requires Shows(table, adds) && forall k :: k in table ==> Elsewhere(table[k], add)
    ensures Key(add) !in table
  {
    if Key(add) in table {
      KeyInjective(table[Key(add)], add);
    }
  }

  // ----- what the table means -----

  /** For every path, the table has either one bare entry or exactly the lines added for it. */
  lemma BareOrExactlyTheLines(table: Table, adds: seq<Location>, path: string)
    requires Shows(table, adds)
    ensures var lines := set k | k in table && table[k].path == path :: table[k].line;
      if HasLine(adds, path) then lines == set add | add in adds && add.path == path && add.line.Some? :: add.line
      else lines == if Location(path, None) in adds then {None} else {}
  {
    var lines := set k | k in table && table[k].path == path :: table[k].line;
    forall line
      ensures line in lines <==> Shown(adds, Location(path, line))
    {
      if Shown(adds, Location(path, line)) {
        assert table[Key(Location(path, line))] == Location(path, line);
      }
      if line in lines {
        var k :| k in table && table[k].path == path && table[k].line == line;
        assert table[k] == Location(path, line);
      }
    }
    forall line: Option<nat> | line.Some?
      ensures Location(path, line) in adds ==> HasLine(adds, path)
    {
      assert line == Some(line.value);
    }
  }

  /** The table depends on which locations were added only, not on their order or number. */
  lemma OrderDoesNotMatter(a: Table, adds: seq<Location>, b: Table, others: seq<Location>)
    requires Shows(a, adds) && Shows(b, others)
    requires forall loc :: loc in adds <==> loc in others
    ensures a == b
  {
    hide Key;
    forall loc
      ensures Shown(adds, loc) <==> Shown(others, loc)
    {
    }
    forall k | k in a
      ensures k in b && b[k] == a[k]
    {
      assert Shown(others, a[k]);
    }
    forall k | k in b
      ensures k in a
    {
      assert Shown(adds, b[k]);
    }
  }
}

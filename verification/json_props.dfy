/** What the builders and accessors of the `JSON` facade promise together:
    `get_map` and `map` copy a `std::map` member by member, so neither
    changes a table whose keys already ascend, and `operator[]` finds every
    stored member. */
module JsonProps {
  import opened Bytes
  import opened Tables
  import opened Results
  import opened Parser
  import opened Json

  /** `get_map` of a GROUP gives its members back unchanged. */
  lemma GetMapCopies(n: Node)
    requires n.Group? && Ascending(n.members)
    ensures GetMap(n) == Ok(n.members)
  {
    assert [] + n.members == n.members;
    InsertEachAppends([], n.members);
  }

  /** `map(table)` of a `std::map` holds exactly the table's members. */
  lemma MapOfRebuilds(items: Table<Node>)
    requires Ascending(items)
    ensures MapOf(items) == Group(items)
  {
    assert [] + items == items;
    InsertEachAppends([], items);
  }

  /** `get_map` after `map` gives the table that was passed in. */
  lemma MapGetMapRoundTrip(items: Table<Node>)
    requires Ascending(items)
    ensures GetMap(MapOf(items)) == Ok(items)
  {
    MapOfRebuilds(items);
    GetMapCopies(Group(items));
  }

  /** `operator[](key)` on a GROUP finds every stored member under its own
      key. */
  lemma AtKeyStored(m: Table<Node>, i: nat)
    requires Ascending(m) && i < |m|
    ensures AtKey(Group(m), m[i].0) == Ok(m[i].1)
  {
    LookupStored(m, i);
  }

  /** `add_pair` of a key the GROUP already holds leaves it as it was:
      `std::map::insert` does not overwrite. */
  lemma AddPairKeepsExisting(m: Table<Node>, key: bytes, v: Node)
    requires Ascending(m) && HasKey(m, key)
    ensures AddPair(Group(m), key, v) == Ok(Group(m))
  {
    InsertSize(m, key, v);
  }
}

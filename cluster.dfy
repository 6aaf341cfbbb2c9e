/**
 * The cluster as the initializer reaches it through a HazelcastInstance:
 * named IMaps and the SQL engine's mapping catalog. Every remote call other
 * than getMap may fail for reasons the model does not see (network, member
 * loss, connector); that choice is left open in each method body.
 */
module Cluster {
  import opened Wrappers
  import opened Store
  import Catalog

  class Instance {
    var maps: Store
    var catalog: Catalog.Catalog

    constructor (maps: Store, catalog: Catalog.Catalog)
      ensures this.maps == maps && this.catalog == catalog
    {
      this.maps := maps;
      this.catalog := catalog;
    }

    /** getMap: returns the container, creating it empty on first access. */
    method GetMap(name: string)
      modifies this
      ensures maps == Touch(old(maps), name)
      ensures catalog == old(catalog)
    {
      if name !in maps {
        maps := maps[name := map[]];
      }
    }

    /** isEmpty: `answered` is false when the call throws. */
    method IsEmpty(name: string) returns (answered: bool, empty: bool)
      requires name in maps
      ensures answered ==> (empty <==> maps[name] == map[])
    {
      var reached: bool := *;
      answered := reached;
      empty := maps[name] == map[];
    }

    /** put: a null value (None) is rejected; otherwise the call may fail and
        then writes nothing. */
    method Put(name: string, key: string, value: Option<Value>) returns (ok: bool)
      requires name in maps
      modifies this
      ensures ok ==> value.Some?
      ensures maps == if ok then old(maps)[name := old(maps)[name][key := value.value]] else old(maps)
      ensures catalog == old(catalog)
    {
      if value.None? {
        return false;
      }
      var reached: bool := *;
      if reached {
        maps := maps[name := maps[name][key := value.value]];
      }
      ok := reached;
    }

    /** size: the number of entries; `answered` is false when the call
        throws. */
    method Size(name: string) returns (answered: bool, size: nat)
      requires name in maps
      ensures answered ==> size == |maps[name]|
    {
      var reached: bool := *;
      answered := reached;
      size := |maps[name]|;
    }

    /** putAll: stores the entries partition by partition with no atomicity,
        so a call that fails may have stored any part of them; the ghost
        `written` holds the keys of the part it stored. */
    method PutAll(name: string, entries: Container) returns (ok: bool, ghost written: set<string>)
      requires name in maps
      modifies this
      ensures ok ==> maps == old(maps)[name := old(maps)[name] + entries]
      ensures !ok ==> maps == old(maps)[name := old(maps)[name] + Restrict(entries, written)]
      ensures catalog == old(catalog)
    {
      var reached: bool := *;
      var stored: set<string> := *;
      if reached {
        maps := maps[name := maps[name] + entries];
      } else {
        maps := maps[name := maps[name] + Restrict(entries, stored)];
      }
      ok, written := reached, stored;
    }

    /** getSql().execute: runs one statement against the catalog; the ghost
        `reachable` records whether the engine itself was available. */
    method Execute(statement: string) returns (ok: bool, ghost reachable: bool)
      modifies this
      ensures (catalog, ok) == Catalog.Execute(old(catalog), statement, reachable)
      ensures ok <==> Catalog.Succeeds(statement, reachable)
      ensures maps == old(maps)
    {
      var reached: bool := *;
      reachable := reached;
      var outcome := Catalog.Execute(catalog, statement, reached);
      Catalog.ExecuteSpec(catalog, statement, reached);
      catalog := outcome.0;
      ok := outcome.1;
    }
  }
}

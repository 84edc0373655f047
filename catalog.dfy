/** `get_champion_names`: the dictionary from champion id (as a string) to
    champion name, built by a loop over the catalog document's `data`. */
module Catalog {
  import opened Outcomes
  import opened Documents

  /** Every entry carries a `key`. */
  predicate Keyed(entries: seq<CatalogEntry>) {
    forall i | 0 <= i < |entries| :: entries[i].key.Some?
  }

  /** No two entries carry the same `key`. */
  predicate UniqueKeys(entries: seq<CatalogEntry>) {
    forall i, j | 0 <= i < j < |entries| :: entries[i].key != entries[j].key
  }

  /** The `key` values of the entries. */
  ghost function KeySet(entries: seq<CatalogEntry>): set<string> {
    set i | 0 <= i < |entries| && entries[i].key.Some? :: entries[i].key.value
  }

  /** The dictionary the loop holds after visiting `entries` in order, or the
      KeyError of the first entry without a `key`. */
  function Build(entries: seq<CatalogEntry>): Result<map<string, string>> {
    if |entries| == 0 then Ok(map[])
    else
      var dict :- Build(entries[..|entries| - 1]);
      var last := entries[|entries| - 1];
      if last.key.None? then Err(KeyError("key"))
      else Ok(dict[last.key.value := last.name])
  }

  /** What `get_champion_names` returns or raises for a given outcome of the
      catalog fetch. A failed fetch leaves `ddragon_data` unassigned, so the
      loop header raises instead of an empty catalog being returned. */
  function CatalogOf(fetched: Option<CatalogDoc>): Result<map<string, string>> {
    match fetched
    case None => Err(UnboundLocalError("ddragon_data"))
    case Some(doc) =>
      if doc.data.None? then Err(KeyError("data")) else Build(doc.data.value)
  }

  method GetChampionNames(fetched: Option<CatalogDoc>) returns (r: Result<map<string, string>>)
    ensures r == CatalogOf(fetched)
    ensures fetched.None? ==> r == Err(UnboundLocalError("ddragon_data"))
  {
    if fetched.None? {
      return Err(UnboundLocalError("ddragon_data"));
    }
    var doc := fetched.value;
    if doc.data.None? {
      return Err(KeyError("data"));
    }
    var entries := doc.data.value;
    var championDict: map<string, string> := map[];
    for i := 0 to |entries|
      invariant Build(entries[..i]) == Ok(championDict)
    {
      var entry := entries[i];
      assert entries[..i + 1][..i] == entries[..i];
      if entry.key.None? {
        BuildFailsIffUnkeyed(entries);
        return Err(KeyError("key"));
      }
      championDict := championDict[entry.key.value := entry.name];
    }
    assert entries[..|entries|] == entries;
    r := Ok(championDict);
  }

  /** The loop fails exactly when some entry lacks `key`, and then with KeyError('key'). */
  lemma {:induction false} BuildFailsIffUnkeyed(entries: seq<CatalogEntry>)
    ensures Build(entries).Ok? <==> Keyed(entries)
    ensures Build(entries).Err? ==> Build(entries).error == KeyError("key")
  {
    if |entries| > 0 {
      var init := entries[..|entries| - 1];
      BuildFailsIffUnkeyed(init);
      if !Keyed(init) {
        var i :| 0 <= i < |init| && init[i].key.None?;
        assert entries[i].key.None?;
      }
    }
  }

  /** The catalog's ids are exactly the entries' keys. */
  lemma {:induction false} BuildDomain(entries: seq<CatalogEntry>)
    requires Keyed(entries)
    ensures Build(entries).Ok?
    ensures Build(entries).value.Keys == KeySet(entries)
  {
    BuildFailsIffUnkeyed(entries);
    if |entries| > 0 {
      var n := |entries| - 1;
      var init := entries[..n];
      assert Keyed(init) by {
        forall i | 0 <= i < |init| ensures init[i].key.Some? {
          assert init[i] == entries[i];
        }
      }
      BuildDomain(init);
      assert KeySet(entries) == KeySet(init) + {entries[n].key.value} by {
        forall k | k in KeySet(entries) ensures k in KeySet(init) + {entries[n].key.value} {
          var i :| 0 <= i < |entries| && entries[i].key == Some(k);
          if i < n { assert init[i] == entries[i]; }
        }
        forall k | k in KeySet(init) ensures k in KeySet(entries) {
          var i :| 0 <= i < |init| && init[i].key == Some(k);
          assert entries[i] == init[i];
        }
      }
    }
  }

  /** An entry that no later entry overrides is what its key maps to. */
  lemma {:induction false} LastHolder(entries: seq<CatalogEntry>, i: nat)
    requires Keyed(entries) && i < |entries|
    requires forall j | i < j < |entries| :: entries[j].key != entries[i].key
    ensures Build(entries).Ok?
    ensures entries[i].key.value in Build(entries).value
    ensures Build(entries).value[entries[i].key.value] == entries[i].name
  {
    BuildFailsIffUnkeyed(entries);
    var n := |entries| - 1;
    if i < n {
      var init := entries[..n];
      assert Keyed(init) by {
        forall k | 0 <= k < |init| ensures init[k].key.Some? {
          assert init[k] == entries[k];
        }
      }
      assert init[i] == entries[i];
      assert forall j | i < j < |init| :: init[j] == entries[j];
      LastHolder(init, i);
    }
  }

  /** The catalog's ids are exactly the entries' keys, and each id is mapped to
      the name of the LAST entry carrying it. */
  lemma BuildLastWins(entries: seq<CatalogEntry>)
    requires Keyed(entries)
    ensures Build(entries).Ok?
    ensures Build(entries).value.Keys == KeySet(entries)
    ensures forall i | 0 <= i < |entries| ::
      (forall j | i < j < |entries| :: entries[j].key != entries[i].key) ==>
        Build(entries).value[entries[i].key.value] == entries[i].name
  {
    BuildDomain(entries);
    forall i | 0 <= i < |entries| && (forall j | i < j < |entries| :: entries[j].key != entries[i].key)
      ensures Build(entries).value[entries[i].key.value] == entries[i].name
    {
      LastHolder(entries, i);
    }
  }

  /** Every id in the catalog names an entry that carries that id. */
  lemma {:induction false} NamesCarryTheirKey(entries: seq<CatalogEntry>, id: string)
    requires Build(entries).Ok? && id in Build(entries).value
    ensures exists i | 0 <= i < |entries| ::
      entries[i].key == Some(id) && entries[i].name == Build(entries).value[id]
  {
    var n := |entries| - 1;
    var last := entries[n];
    if last.key != Some(id) {
      var init := entries[..n];
      NamesCarryTheirKey(init, id);
      var i :| 0 <= i < |init| && init[i].key == Some(id) && init[i].name == Build(init).value[id];
      assert entries[i] == init[i];
    }
  }

  /** With unique keys, looking up an entry's key gives back that entry's name. */
  lemma UniqueKeysInvert(entries: seq<CatalogEntry>)
    requires Keyed(entries) && UniqueKeys(entries)
    ensures Build(entries).Ok?
    ensures forall i | 0 <= i < |entries| ::
      entries[i].key.value in Build(entries).value &&
      Build(entries).value[entries[i].key.value] == entries[i].name
  {
    BuildLastWins(entries);
  }
}

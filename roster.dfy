/** `get_champions`: the names of the champions in the active game, in
    participant order, looked up in a freshly built catalog. */
module Roster {
  import opened Outcomes
  import opened Documents
  import opened Decimal
  import opened Catalog

  /** The first comprehension: every participant's `championId`, in order,
      or KeyError('championId') for a participant without one. */
  function ChampionIds(participants: seq<Participant>): (r: Result<seq<int>>)
    ensures r.Ok? <==> forall i | 0 <= i < |participants| :: participants[i].championId.Some?
    ensures r.Ok? ==> |r.value| == |participants|
    ensures r.Ok? ==>
      forall i | 0 <= i < |participants| :: r.value[i] == participants[i].championId.value
    ensures r.Err? ==> r.error == KeyError("championId")
  {
    if participants == [] then Ok([])
    else if participants[0].championId.None? then Err(KeyError("championId"))
    else
      var rest :- ChampionIds(participants[1..]);
      Ok([participants[0].championId.value] + rest)
  }

  /** The second comprehension: `catalog[str(id)]` for every id, in order,
      or the KeyError of the first id the catalog lacks. No id is skipped. */
  function Resolve(catalog: map<string, string>, ids: seq<int>): (r: Result<seq<string>>)
    ensures r.Ok? <==> forall i | 0 <= i < |ids| :: IntToString(ids[i]) in catalog
    ensures r.Ok? ==> |r.value| == |ids|
    ensures r.Ok? ==>
      forall i | 0 <= i < |ids| :: r.value[i] == catalog[IntToString(ids[i])]
    ensures r.Err? ==> exists i | 0 <= i < |ids| ::
      && IntToString(ids[i]) !in catalog
      && r.error == KeyError(IntToString(ids[i]))
      && forall j | 0 <= j < i :: IntToString(ids[j]) in catalog
  {
    if ids == [] then Ok([])
    else
      var key := IntToString(ids[0]);
      if key !in catalog then Err(KeyError(key))
      else
        var rest := Resolve(catalog, ids[1..]);
        if rest.Err? then Err(rest.error)
        else Ok([catalog[key]] + rest.value)
  }

  /** Both comprehensions over `match['participants']`, given the catalog.
      The "not in game" string sentinel raises TypeError on the subscript. */
  function RosterOf(catalog: map<string, string>, info: MatchInfo): (r: Result<seq<string>>)
    ensures info.Text? ==> r == Err(TypeError("str"))
    ensures info.Game? && info.doc.participants.None? ==> r == Err(KeyError("participants"))
    ensures r.Ok? <==>
      && info.Game? && info.doc.participants.Some?
      && (forall i | 0 <= i < |info.doc.participants.value| ::
            info.doc.participants.value[i].championId.Some?)
      && (forall i | 0 <= i < |info.doc.participants.value| ::
            IntToString(info.doc.participants.value[i].championId.value) in catalog)
    ensures r.Ok? ==>
      && |r.value| == |info.doc.participants.value|
      && forall i | 0 <= i < |r.value| ::
           r.value[i] == catalog[IntToString(info.doc.participants.value[i].championId.value)]
  {
    match info
    case Text(_) => Err(TypeError("str"))
    case Game(doc) =>
      if doc.participants.None? then Err(KeyError("participants"))
      else
        var ids :- ChampionIds(doc.participants.value);
        Resolve(catalog, ids)
  }

  /** What `get_champions` returns or raises: the catalog is built first, so a
      catalog failure is what escapes even when the match is also unusable. */
  function ChampionsOf(catalogFetched: Option<CatalogDoc>, info: MatchInfo): (r: Result<seq<string>>)
    ensures CatalogOf(catalogFetched).Err? ==> r == Err(CatalogOf(catalogFetched).error)
    ensures CatalogOf(catalogFetched).Ok? ==> r == RosterOf(CatalogOf(catalogFetched).value, info)
  {
    var catalog :- CatalogOf(catalogFetched);
    RosterOf(catalog, info)
  }

  method GetChampions(catalogFetched: Option<CatalogDoc>, info: MatchInfo) returns (r: Result<seq<string>>)
    ensures r == ChampionsOf(catalogFetched, info)
  {
    var championNames := GetChampionNames(catalogFetched);
    if championNames.Err? {
      return Err(championNames.error);
    }
    r := RosterOf(championNames.value, info);
  }
}

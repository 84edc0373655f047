/** The documents the tracker receives from the game-data services, reduced
    to the fields it subscripts, and the two fetchers that turn a failed
    request into a sentinel value instead of raising.

    Every `Option` field is a key the code subscripts: `None` means the
    decoded document lacks that key, so the subscript raises KeyError.
    A fetch is given as its outcome: `None` means the request or the JSON
    decoding raised inside the fetcher's `try`. */
module Documents {
  import opened Outcomes

  /** Identity service: the summoner record; only `id` is read. */
  datatype Account = Account(id: Option<string>)

  /** What `get_player_data` returns: the decoded record, or the integer
      sentinel it returns when the request failed. */
  datatype PlayerData = Summoner(account: Account) | Sentinel(code: int)

  const NOT_FOUND: int := -1

  /** Spectator service: the active game's participants. */
  datatype Participant = Participant(championId: Option<int>)
  datatype MatchDoc = MatchDoc(participants: Option<seq<Participant>>)

  /** What `get_match_info` returns: the decoded match, or a plain string
      when the request failed (the player is not in a game, say). */
  datatype MatchInfo = Game(doc: MatchDoc) | Text(text: string)

  const NOT_IN_GAME := "Summoner not in game, or bad summoner name."

  /** Static catalog: `data` maps each champion name to a record whose
      `key` is the champion's numeric id as a string. JSON objects decode to
      dictionaries that iterate in document order, so `data` is kept as the
      sequence of its entries in that order. */
  datatype CatalogEntry = CatalogEntry(name: string, key: Option<string>)
  datatype CatalogDoc = CatalogDoc(data: Option<seq<CatalogEntry>>)

  /** Static per-champion document: `data[name].spells[i].cooldownBurn`. */
  datatype Spell = Spell(cooldownBurn: Option<string>)
  datatype ChampionEntry = ChampionEntry(spells: Option<seq<Spell>>)
  datatype ChampionDoc = ChampionDoc(data: Option<map<string, ChampionEntry>>)

  /** `get_player_data`: the decoded record, or -1 when the request failed. */
  function GetPlayerData(fetched: Option<Account>): (r: PlayerData)
    ensures r.Sentinel? <==> fetched.None?
    ensures r.Sentinel? ==> r.code == NOT_FOUND
    ensures fetched.Some? ==> r.Summoner? && r.account == fetched.value
  {
    match fetched
    case Some(account) => Summoner(account)
    case None => Sentinel(NOT_FOUND)
  }

  /** `get_match_info`: the decoded match, or the "not in game" string when
      the request failed. */
  function GetMatchInfo(fetched: Option<MatchDoc>): (r: MatchInfo)
    ensures r.Text? <==> fetched.None?
    ensures r.Text? ==> r.text == NOT_IN_GAME
    ensures fetched.Some? ==> r.Game? && r.doc == fetched.value
  {
    match fetched
    case Some(doc) => Game(doc)
    case None => Text(NOT_IN_GAME)
  }
}

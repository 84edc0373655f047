/** `main`: player lookup, active-game lookup, roster, cooldown report, all
    inside one handler that turns any escaping exception into a message. */
module Pipeline {
  import opened Outcomes
  import opened Documents
  import opened Catalog
  import opened Roster
  import opened Abilities

  const FAILURE_SUFFIX := "\n Something went wrong. You may have a typo in the name, or the player is not currently playing on the NA server."

  /** The outcomes of the four kinds of request one run makes: the summoner
      lookup by (name, API key), the active-game lookup by (summoner id, API
      key), the catalog download, and the per-champion download by name. */
  datatype Services = Services(
    account: (string, string) -> Option<Account>,
    activeGame: (string, string) -> Option<MatchDoc>,
    catalog: Option<CatalogDoc>,
    champion: string -> Option<ChampionDoc>)

  /** `player['id']`: the -1 sentinel is an int, which cannot be subscripted. */
  function PlayerId(player: PlayerData): (r: Result<string>)
    ensures player.Sentinel? ==> r == Err(TypeError("int"))
    ensures player.Summoner? && player.account.id.None? ==> r == Err(KeyError("id"))
    ensures r.Ok? <==> player.Summoner? && player.account.id.Some?
    ensures r.Ok? ==> r.value == player.account.id.value
  {
    match player
    case Sentinel(_) => Err(TypeError("int"))
    case Summoner(account) =>
      if account.id.None? then Err(KeyError("id")) else Ok(account.id.value)
  }

  /** The body of the `try`: the report, or the exception that escapes it. */
  function Attempt(username: string, apiKey: string, services: Services): Result<string> {
    var id :- PlayerId(GetPlayerData(services.account(username, apiKey)));
    var champions :- ChampionsOf(services.catalog, GetMatchInfo(services.activeGame(id, apiKey)));
    Cooldowns(champions, services.champion, None)
  }

  /** What `main` returns for an outcome of the `try`; `message` is the text
      of `str(exception)`. */
  function Shown(attempt: Result<string>, message: Exception -> string): string {
    if attempt.Ok? then attempt.value else message(attempt.error) + FAILURE_SUFFIX
  }

  method Track(username: string, apiKey: string, services: Services, message: Exception -> string)
    returns (out: string)
    ensures out == Shown(Attempt(username, apiKey, services), message)
    ensures services.account(username, apiKey).None? ==> out == message(TypeError("int")) + FAILURE_SUFFIX
  {
    var player := GetPlayerData(services.account(username, apiKey));
    var id := PlayerId(player);
    if id.Err? {
      return message(id.error) + FAILURE_SUFFIX;
    }
    var matchInfo := GetMatchInfo(services.activeGame(id.value, apiKey));
    var champions := GetChampions(services.catalog, matchInfo);
    if champions.Err? {
      return message(champions.error) + FAILURE_SUFFIX;
    }
    var cooldowns := GetCooldowns(champions.value, services.champion);
    if cooldowns.Err? {
      return message(cooldowns.error) + FAILURE_SUFFIX;
    }
    out := cooldowns.value;
  }

  /** Every step before the cooldown report succeeds for this run, yielding
      `champions`. */
  ghost predicate RosterSucceeds(username: string, apiKey: string, services: Services, champions: seq<string>) {
    && services.account(username, apiKey).Some?
    && services.account(username, apiKey).value.id.Some?
    && var id := services.account(username, apiKey).value.id.value;
       && services.activeGame(id, apiKey).Some?
       && ChampionsOf(services.catalog, Game(services.activeGame(id, apiKey).value)) == Ok(champions)
  }

  /** `main` yields a report exactly when every step succeeds, and the report
      is then the cooldown text of the resolved champions. */
  lemma AttemptSucceedsIff(username: string, apiKey: string, services: Services, report: string)
    ensures Attempt(username, apiKey, services) == Ok(report) <==>
      exists champions :: RosterSucceeds(username, apiKey, services, champions)
        && Cooldowns(champions, services.champion, None) == Ok(report)
  {
    var attempt := Attempt(username, apiKey, services);
    if attempt == Ok(report) {
      var id := PlayerId(GetPlayerData(services.account(username, apiKey))).value;
      var info := GetMatchInfo(services.activeGame(id, apiKey));
      var champions := ChampionsOf(services.catalog, info).value;
      assert info.Game?;
      assert RosterSucceeds(username, apiKey, services, champions);
    }
  }

  /** The catalog download failing is never hidden behind an empty catalog:
      once the player lookup succeeds, the run fails with the unbound-variable
      error (whatever the active-game lookup returned). */
  lemma CatalogFailureReachesMain(username: string, apiKey: string, services: Services)
    requires services.catalog.None?
    requires services.account(username, apiKey).Some? && services.account(username, apiKey).value.id.Some?
    ensures Attempt(username, apiKey, services) == Err(UnboundLocalError("ddragon_data"))
  {
  }

  /** A player not in a game never reaches the champion downloads: the run
      fails with TypeError on subscripting the "not in game" string (or with
      the catalog's failure, which is raised first), whatever the champion
      service would answer. */
  lemma NotInGameSkipsAbilities(username: string, apiKey: string, services: Services,
                                champion: string -> Option<ChampionDoc>)
    requires services.account(username, apiKey).Some? && services.account(username, apiKey).value.id.Some?
    requires services.activeGame(services.account(username, apiKey).value.id.value, apiKey).None?
    ensures Attempt(username, apiKey, services) == Attempt(username, apiKey, services.(champion := champion))
    ensures Attempt(username, apiKey, services) ==
      if CatalogOf(services.catalog).Err? then Err(CatalogOf(services.catalog).error) else Err(TypeError("str"))
  {
  }

  /** A run whose every request succeeds: the displayed text is the report,
      one block per participant in participant order, each made of the
      cooldown texts of that participant's champion. */
  lemma FullReport(username: string, apiKey: string, services: Services, message: Exception -> string,
                   champions: seq<string>, sets: seq<AbilitySet>)
    requires RosterSucceeds(username, apiKey, services, champions)
    requires |sets| == |champions|
    requires forall i | 0 <= i < |champions| ::
      services.champion(champions[i]).Some? && Slots(services.champion(champions[i]).value, champions[i]) == Ok(sets[i])
    ensures Shown(Attempt(username, apiKey, services), message) == Blocks(champions, sets)
  {
    AllFetchedReport(champions, services.champion, None, sets);
  }

  /** With documents keyed by their own champion, one failed champion download
      makes the whole run show the error text: no partial report and no block
      built from another champion's document reaches the display. */
  lemma NoPartialReport(username: string, apiKey: string, services: Services, message: Exception -> string,
                        champions: seq<string>, failed: nat)
    requires RosterSucceeds(username, apiKey, services, champions)
    requires OwnKeyed(services.champion, champions)
    requires failed < |champions| && services.champion(champions[failed]).None?
    ensures Attempt(username, apiKey, services).Err?
    ensures Shown(Attempt(username, apiKey, services), message) ==
      message(Attempt(username, apiKey, services).error) + FAILURE_SUFFIX
  {
    NoStaleReport(champions, services.champion, None);
  }
}

# Cooldown tracker, modelled in Dafny

The cooldown tracker takes a summoner name. It looks up that summoner's
account, then the active game the summoner is in. It resolves every
participant's numeric champion id to a champion name through the static
champion catalog. It then downloads each champion's static document and
builds a text report: one block per champion, listing the `cooldownBurn`
text of the four ability slots Q, W, E and R. The orchestrator `main` wraps
all of this in one exception handler. If anything raises, it returns the
exception's text followed by a fixed explanation.

The model keeps the pipeline's data handling and its error behaviour:

- A network request plus `json.loads` is given as its outcome:
  `Some(document)`, or `None` when that code raised inside the fetcher's
  `try`.
- A decoded document keeps only the fields the code subscripts. Each is an
  `Option`, so a missing key is a `KeyError`, as in Python.
- The two sentinel values stay as they are. The integer `-1` from
  `get_player_data` is `Sentinel(-1)`, and subscripting it with `'id'`
  raises `TypeError`. The string from `get_match_info` is
  `Text("Summoner not in game, or bad summoner name.")`, and subscripting it
  with `'participants'` raises `TypeError`.
- The exceptions that can escape are `KeyError`, `IndexError`, `TypeError`
  and `UnboundLocalError`. The text of `str(exception)` depends on the
  Python runtime, so the orchestrator takes it as a parameter
  `message: Exception -> string`.
- The two loops stay loops:
  - `get_champion_names` fills a dictionary entry by entry
    (`Catalog.GetChampionNames`).
  - `get_cooldowns` appends to a string and carries `champion_data` from one
    iteration to the next (`Abilities.GetCooldowns`).
  - Each loop is proved equal to a recursive specification function
    (`Catalog.Build`, `Abilities.Cooldowns`). The lemmas are about those
    functions.
- The order in which exceptions are raised is kept:
  - the catalog is built before the match's participants are read;
  - every `championId` is read before any name is looked up;
  - the cooldown slots are read in the order Q, W, E, R, and each slot's
    subscripts in source order.

Modules: `Outcomes` (Option, Result, the exceptions), `Documents` (document
shapes and the two sentinel fetchers), `Decimal` (Python's `str` of an
integer), `Catalog`, `Roster`, `Abilities` and `Pipeline`. All of them model
`cooldown_tracker.py`.

Failures are modelled as the code handles them:

- A failed catalog download leaves `ddragon_data` unassigned, and the loop
  raises `UnboundLocalError`.
- A failed champion download reuses the last document fetched
  (`Abilities.StaleDocumentReused`, `Abilities.StaleReportExample`).
- The not-in-game string is never shown. Subscripting it raises
  `TypeError`, and `main` shows that exception's text plus the fixed suffix
  (`Pipeline.NotInGameSkipsAbilities`).

## Model

| member | source | states |
|---|---|---|
| Documents.GetPlayerData | cooldown_tracker.py:34-45 | The result is the `-1` sentinel exactly when the request failed; otherwise it is the decoded account record. |
| Documents.GetMatchInfo | cooldown_tracker.py:56-66 | The result is the "not in game" string exactly when the request failed; otherwise it is the decoded match. |
| Decimal.IntToString | cooldown_tracker.py:79 | `str(id)` is non-empty and starts with a minus sign exactly when the id is negative. |
| Decimal.IntToStringRoundTrip | cooldown_tracker.py:79 | `str(id)` reads back as `id`. |
| Decimal.IntToStringInjective | cooldown_tracker.py:79 | Distinct ids give distinct catalog keys. |
| Catalog.GetChampionNames | cooldown_tracker.py:11-25 | The loop returns the dictionary of the specification `Build` over `data`. A failed download raises `UnboundLocalError` on `ddragon_data`, and a missing `data` raises `KeyError('data')`. An empty catalog is never returned in place of an error. |
| Catalog.BuildFailsIffUnkeyed | cooldown_tracker.py:20-23 | Building fails exactly when some entry lacks `key`, and the error is `KeyError('key')`. |
| Catalog.BuildDomain | cooldown_tracker.py:20-23 | The dictionary's domain is exactly the set of `key` values. |
| Catalog.LastHolder | cooldown_tracker.py:23 | An entry that no later entry overrides is what its key maps to. |
| Catalog.BuildLastWins | cooldown_tracker.py:20-23 | The dictionary's domain is exactly the set of `key` values. Each key maps to the name of the last entry carrying it. |
| Catalog.NamesCarryTheirKey | cooldown_tracker.py:20-23 | Every id in the dictionary maps to the name of an entry that carries that id. |
| Catalog.UniqueKeysInvert | cooldown_tracker.py:20-25 | When keys are unique, `dict[key(entry)] == name(entry)` for every entry. |
| Roster.ChampionIds | cooldown_tracker.py:77 | The ids are returned in participant order, with the same length as the participants. A participant without `championId` raises `KeyError('championId')`, and that is the only way it fails. |
| Roster.Resolve | cooldown_tracker.py:79 | Succeeds exactly when every `str(id)` is in the catalog. Element i is then `catalog[str(ids[i])]`, with the same length. Otherwise the error is the `KeyError` of the first missing id: no participant is skipped. |
| Roster.RosterOf | cooldown_tracker.py:77-79 | The string sentinel raises `TypeError`; a missing `participants` raises `KeyError`. Success holds exactly when every participant has an id that the catalog resolves. Element i is then the name of participant i. |
| Roster.ChampionsOf | cooldown_tracker.py:76-79 | A catalog failure is what escapes, whatever the match holds. Otherwise the result is the roster for that catalog. |
| Roster.GetChampions | cooldown_tracker.py:69-79 | Builds the catalog, then the roster, with the result `ChampionsOf` specifies. |
| Abilities.CooldownBurn | cooldown_tracker.py:103-106 | Gives `data[name].spells[slot].cooldownBurn` exactly when every subscript succeeds. A missing `data` or a missing name raises the `KeyError` of that key. |
| Abilities.Slots | cooldown_tracker.py:103-106 | Succeeds exactly when all four slots do, and yields slots 0..3 in order. Otherwise it fails with the error of the first failing slot. |
| Abilities.AppendCooldownLine | cooldown_tracker.py:103-106 | Extends the text by `"Q: "+s0+GAP+"W: "+s1+GAP+"E: "+s2+GAP+"R: "+s3+"\n"`, where GAP is 8 spaces. Otherwise it raises the first slot's error. |
| Abilities.GetCooldowns | cooldown_tracker.py:82-108 | The loop, with the carried `champion_data`, returns what `Cooldowns` specifies. An empty list gives the empty string. A failed download for the first champion raises `UnboundLocalError` on `champion_data`. |
| Abilities.StaleDocumentReused | cooldown_tracker.py:94-106 | When a champion's download fails and `champion_data` still holds a document with four slots for that champion, the block is read from that document, and the rest of the loop goes on holding it. |
| Abilities.StaleReportExample | cooldown_tracker.py:94-106 | If only Aatrox's download succeeds and Aatrox's document also has a Khazix entry, the report for `["Aatrox", "Khazix"]` succeeds. Its Khazix block shows the values from Aatrox's document. |
| Abilities.AllFetchedReport | cooldown_tracker.py:89-108 | If every download succeeds with four slots, the report is the in-order concatenation of one block per champion. Each block is the separator of 21 `=`, the `<name> Cooldowns:` header and that champion's own Q/W/E/R line. |
| Abilities.NoStaleReport | cooldown_tracker.py:94-106 | When each document holds entries for its own champion only, the report succeeds exactly when every champion's own download succeeds with four slots. A document from an earlier champion is never used in a successful report. This assumes each download gives the same answer every time it is made in one run: in the real program a champion listed twice whose second download fails still shows a full report from its first document. |
| Pipeline.PlayerId | cooldown_tracker.py:125 | `player['id']` on the `-1` sentinel raises `TypeError`, and on a record without `id` raises `KeyError('id')`. Otherwise it is the record's id. |
| Pipeline.Track | cooldown_tracker.py:124-134 | `main` returns the report when the `try` body succeeds. Otherwise it returns `str(exception)` plus the fixed suffix. A failed player lookup gives the `TypeError` text plus the suffix. |
| Pipeline.AttemptSucceedsIff | cooldown_tracker.py:124-126 | The `try` body yields a report exactly when the player lookup, the game lookup, the catalog and the roster all succeed and the cooldown report for that roster is that report. |
| Pipeline.CatalogFailureReachesMain | cooldown_tracker.py:16-21 | A failed catalog download, after a successful player lookup, makes the run fail with the unbound-variable error, whatever the game lookup returned. |
| Pipeline.NotInGameSkipsAbilities | cooldown_tracker.py:62-66 | When the game lookup fails, the run fails with `TypeError`, or with the catalog's error when that is raised first. The outcome does not depend on the champion downloads. |
| Pipeline.FullReport | cooldown_tracker.py:124-134 | When every request succeeds, the displayed text is exactly the per-champion blocks in roster order. |
| Pipeline.NoPartialReport | cooldown_tracker.py:94-130 | When each document holds entries for its own champion only, one failed champion download makes `main` show the error text plus the suffix, not a partial report. This assumes each download gives the same answer every time it is made in one run: in the real program a champion listed twice whose second download fails still shows a full report from its first document. |

## Left out

- Network requests, URL construction and `json.loads` are left out. Each request is an input: the document it yields, or `None` when it raised.
- The same request is assumed to give the same answer within one run. The per-champion download is a function of the name, so a champion listed twice gets the same outcome both times.
- Document fields have the types the service gives them: names, keys, ids and cooldown texts are strings, and `championId` is an integer. A field of another JSON type is not modelled. Such a field would change how `str()`, concatenation or hashing behave.
- Floating-point champion ids are not modelled.
- The exact text of `str(exception)` is Python-runtime text. It is a parameter of `Pipeline.Track`.
- `print` calls are left out. They are console output and do not affect any result.
- `cd_tracker_gui.py` is not part of this model. It is generated window layout, and its button handler only passes the typed name to `main` and displays the returned string.
- The `__main__` test hooks are left out. They are process startup.
- The catalog's `data` object is kept as its entries in document order, which is the order a decoded JSON object iterates in.

/** `get_cooldowns`: the report text, one block per champion, built by a loop
    that appends to a string and keeps the last successfully fetched
    champion document in a variable that outlives each iteration. */
module Abilities {
  import opened Outcomes
  import opened Documents

  const SEPARATOR := "=====================\n"
  const GAP := "        "

  /** The four `cooldownBurn` texts of one champion, ability slots 0 to 3. */
  datatype AbilitySet = AbilitySet(q: string, w: string, e: string, r: string)

  /** The labelled line of one champion's four cooldown texts. */
  function Line(a: AbilitySet): string {
    "Q: " + a.q + GAP + "W: " + a.w + GAP + "E: " + a.e + GAP + "R: " + a.r + "\n"
  }

  /** One champion's block of the report: separator, header, cooldown line. */
  function Block(champion: string, a: AbilitySet): string {
    SEPARATOR + champion + " Cooldowns:\n" + Line(a)
  }

  /** The blocks of `champions` with the given ability sets, concatenated in order. */
  function Blocks(champions: seq<string>, sets: seq<AbilitySet>): string
    requires |sets| == |champions|
  {
    if champions == [] then "" else Block(champions[0], sets[0]) + Blocks(champions[1..], sets[1..])
  }

  /** `doc['data'][champion]['spells'][slot]['cooldownBurn']`, or the
      exception of the first subscript that fails. */
  function CooldownBurn(doc: ChampionDoc, champion: string, slot: nat): (r: Result<string>)
    ensures r.Ok? <==>
      && doc.data.Some? && champion in doc.data.value
      && doc.data.value[champion].spells.Some?
      && slot < |doc.data.value[champion].spells.value|
      && doc.data.value[champion].spells.value[slot].cooldownBurn.Some?
    ensures r.Ok? ==> r.value == doc.data.value[champion].spells.value[slot].cooldownBurn.value
    ensures doc.data.None? ==> r == Err(KeyError("data"))
    ensures doc.data.Some? && champion !in doc.data.value ==> r == Err(KeyError(champion))
  {
    if doc.data.None? then Err(KeyError("data"))
    else if champion !in doc.data.value then Err(KeyError(champion))
    else
      var spells := doc.data.value[champion].spells;
      if spells.None? then Err(KeyError("spells"))
      else if slot >= |spells.value| then Err(IndexError(slot))
      else if spells.value[slot].cooldownBurn.None? then Err(KeyError("cooldownBurn"))
      else Ok(spells.value[slot].cooldownBurn.value)
  }

  /** The four slots read in Q, W, E, R order; the first failure escapes. */
  function Slots(doc: ChampionDoc, champion: string): (r: Result<AbilitySet>)
    ensures r.Ok? <==> forall slot: nat | slot < 4 :: CooldownBurn(doc, champion, slot).Ok?
    ensures r.Ok? ==> r.value == AbilitySet(
      CooldownBurn(doc, champion, 0).value, CooldownBurn(doc, champion, 1).value,
      CooldownBurn(doc, champion, 2).value, CooldownBurn(doc, champion, 3).value)
    ensures r.Err? ==> exists slot: nat | slot < 4 ::
      && CooldownBurn(doc, champion, slot).Err?
      && r.error == CooldownBurn(doc, champion, slot).error
      && forall s: nat | s < slot :: CooldownBurn(doc, champion, s).Ok?
  {
    var q :- CooldownBurn(doc, champion, 0);
    var w :- CooldownBurn(doc, champion, 1);
    var e :- CooldownBurn(doc, champion, 2);
    var r :- CooldownBurn(doc, champion, 3);
    Ok(AbilitySet(q, w, e, r))
  }

  /** The document in `champion_data` once the fetch for `champion` is done:
      the new one, or, when the fetch failed, whatever the variable held. */
  function Held(fetch: string -> Option<ChampionDoc>, champion: string, held: Option<ChampionDoc>): Option<ChampionDoc> {
    if fetch(champion).Some? then fetch(champion) else held
  }

  /** What the loop appends for `champions`, starting with `champion_data`
      holding `held` (`None`: not yet assigned), or what it raises. */
  function Cooldowns(champions: seq<string>, fetch: string -> Option<ChampionDoc>, held: Option<ChampionDoc>): Result<string>
    decreases |champions|
  {
    if champions == [] then Ok("")
    else
      var data := Held(fetch, champions[0], held);
      if data.None? then Err(UnboundLocalError("champion_data"))
      else
        var a :- Slots(data.value, champions[0]);
        var rest :- Cooldowns(champions[1..], fetch, data);
        Ok(Block(champions[0], a) + rest)
  }

  /** A text already accumulated, in front of what the rest of the loop yields. */
  function Prefixed(done: string, rest: Result<string>): Result<string> {
    if rest.Ok? then Ok(done + rest.value) else rest
  }

  /** One iteration of the loop, in terms of the rest of it. */
  lemma CooldownsStep(champions: seq<string>, fetch: string -> Option<ChampionDoc>, held: Option<ChampionDoc>)
    requires champions != []
    ensures var data := Held(fetch, champions[0], held);
      Cooldowns(champions, fetch, held) ==
        if data.None? then Err(UnboundLocalError("champion_data"))
        else if Slots(data.value, champions[0]).Err? then Err(Slots(data.value, champions[0]).error)
        else Prefixed(Block(champions[0], Slots(data.value, champions[0]).value), Cooldowns(champions[1..], fetch, data))
  {
  }

  lemma PrefixedPrefixed(a: string, b: string, r: Result<string>)
    ensures Prefixed(a, Prefixed(b, r)) == Prefixed(a + b, r)
  {
    if r.Ok? { assert a + (b + r.value) == (a + b) + r.value; }
  }

  /** The four appends of one champion's cooldown line, Q, W, E, R: the text
      extended by the line, or the exception of the first slot that fails. */
  method AppendCooldownLine(output: string, championData: ChampionDoc, champion: string) returns (r: Result<string>)
    ensures Slots(championData, champion).Ok? ==> r == Ok(output + Line(Slots(championData, champion).value))
    ensures Slots(championData, champion).Err? ==> r == Err(Slots(championData, champion).error)
  {
    var q := CooldownBurn(championData, champion, 0);
    if q.Err? {
      return Err(q.error);
    }
    var text := output + "Q: " + q.value + GAP;
    var w := CooldownBurn(championData, champion, 1);
    if w.Err? {
      return Err(w.error);
    }
    text := text + "W: " + w.value + GAP;
    var e := CooldownBurn(championData, champion, 2);
    if e.Err? {
      return Err(e.error);
    }
    text := text + "E: " + e.value + GAP;
    var rr := CooldownBurn(championData, champion, 3);
    if rr.Err? {
      return Err(rr.error);
    }
    text := text + "R: " + rr.value + "\n";
    assert text == output + Line(AbilitySet(q.value, w.value, e.value, rr.value));
    r := Ok(text);
  }

  method GetCooldowns(champions: seq<string>, fetch: string -> Option<ChampionDoc>) returns (r: Result<string>)
    ensures r == Cooldowns(champions, fetch, None)
    ensures champions == [] ==> r == Ok("")
    ensures champions != [] && fetch(champions[0]).None? ==> r == Err(UnboundLocalError("champion_data"))
  {
    var output := "";
    var championData: Option<ChampionDoc> := None;
    assert champions[0..] == champions;
    assert Prefixed(output, Cooldowns(champions, fetch, None)) == Cooldowns(champions, fetch, None) by {
      var all := Cooldowns(champions, fetch, None);
      if all.Ok? { assert output + all.value == all.value; }
    }
    for i := 0 to |champions|
      invariant Cooldowns(champions, fetch, None) == Prefixed(output, Cooldowns(champions[i..], fetch, championData))
    {
      var champion := champions[i];
      ghost var before, heldBefore := output, championData;
      assert champions[i..][0] == champion && champions[i..][1..] == champions[i + 1..];
      CooldownsStep(champions[i..], fetch, heldBefore);
      output := output + SEPARATOR;
      output := output + champion + " Cooldowns:\n";
      var fetched := fetch(champion);
      if fetched.Some? {
        championData := fetched;
      }
      if championData.None? {
        return Err(UnboundLocalError("champion_data"));
      }
      var extended := AppendCooldownLine(output, championData.value, champion);
      if extended.Err? {
        return Err(extended.error);
      }
      ghost var a := Slots(championData.value, champion).value;
      assert extended.value == before + Block(champion, a);
      PrefixedPrefixed(before, Block(champion, a), Cooldowns(champions[i + 1..], fetch, championData));
      output := extended.value;
    }
    assert champions[|champions|..] == [];
    assert output + "" == output;
    r := Ok(output);
  }

  /** When every fetch succeeds and every document has the four slots, the
      report is the in-order concatenation of one block per champion, made of
      that champion's own cooldown texts. */
  lemma {:induction false} AllFetchedReport(champions: seq<string>, fetch: string -> Option<ChampionDoc>,
                                            held: Option<ChampionDoc>, sets: seq<AbilitySet>)
    requires |sets| == |champions|
    requires forall i | 0 <= i < |champions| ::
      fetch(champions[i]).Some? && Slots(fetch(champions[i]).value, champions[i]) == Ok(sets[i])
    ensures Cooldowns(champions, fetch, held) == Ok(Blocks(champions, sets))
  {
    if champions != [] {
      AllFetchedReport(champions[1..], fetch, fetch(champions[0]), sets[1..]);
    }
  }

  /** A failed download leaves `champion_data` as it was: the champion's block
      is read from the document still held, and the loop goes on holding it. */
  lemma {:induction false} StaleDocumentReused(c: string, rest: seq<string>, fetch: string -> Option<ChampionDoc>,
                                               held: Option<ChampionDoc>)
    requires fetch(c).None? && held.Some? && Slots(held.value, c).Ok?
    ensures Cooldowns([c] + rest, fetch, held) ==
      Prefixed(Block(c, Slots(held.value, c).value), Cooldowns(rest, fetch, held))
  {
    assert ([c] + rest)[0] == c && ([c] + rest)[1..] == rest;
    CooldownsStep([c] + rest, fetch, held);
  }

  /** A document served for Aatrox that also carries a Khazix entry. */
  function AatroxDoc(): ChampionDoc {
    var slots := [Spell(Some("8")), Spell(Some("16")), Spell(Some("12")), Spell(Some("120"))];
    ChampionDoc(Some(map["Aatrox" := ChampionEntry(Some(slots)), "Khazix" := ChampionEntry(Some(slots))]))
  }

  /** Only Aatrox's download succeeds. */
  function AatroxOnly(champion: string): Option<ChampionDoc> {
    if champion == "Aatrox" then Some(AatroxDoc()) else None
  }

  /** With Khazix's download failing, the report still succeeds and shows a
      Khazix block taken from Aatrox's document. */
  lemma {:induction false} StaleReportExample()
    ensures Cooldowns(["Aatrox", "Khazix"], AatroxOnly, None) ==
      Ok(Block("Aatrox", AbilitySet("8", "16", "12", "120")) + Block("Khazix", AbilitySet("8", "16", "12", "120")))
  {
    var a := AbilitySet("8", "16", "12", "120");
    assert Slots(AatroxDoc(), "Aatrox") == Ok(a);
    assert Slots(AatroxDoc(), "Khazix") == Ok(a);
    StaleDocumentReused("Khazix", [], AatroxOnly, Some(AatroxDoc()));
    assert ["Aatrox", "Khazix"][1..] == ["Khazix"] == ["Khazix"] + [];
    assert Block("Khazix", a) + "" == Block("Khazix", a);
  }

  /** Each service document holds entries for its own champion only: the one
      fetched for `c` has no entry for any other listed champion. */
  predicate OwnKeyed(fetch: string -> Option<ChampionDoc>, champions: seq<string>) {
    forall c, d | c in champions && d in champions && c != d ::
      fetch(c).Some? && fetch(c).value.data.Some? ==> d !in fetch(c).value.data.value
  }

  /** The document held in `champion_data` has no entry for a listed champion
      whose own fetch fails. */
  predicate NoStaleEntry(held: Option<ChampionDoc>, fetch: string -> Option<ChampionDoc>, champions: seq<string>) {
    held.Some? && held.value.data.Some? ==>
      forall c | c in champions && fetch(c).None? :: c !in held.value.data.value
  }

  /** Every listed champion's fetch succeeds and its document has the four slots. */
  predicate AllAvailable(champions: seq<string>, fetch: string -> Option<ChampionDoc>) {
    forall i | 0 <= i < |champions| ::
      fetch(champions[i]).Some? && Slots(fetch(champions[i]).value, champions[i]).Ok?
  }

  /** With documents keyed by their own champion, stale data is never used:
      the loop completes exactly when every champion's own fetch succeeds and
      has four slots; a single failed fetch makes the whole report fail. */
  lemma {:induction false} NoStaleReport(champions: seq<string>, fetch: string -> Option<ChampionDoc>,
                                         held: Option<ChampionDoc>)
    requires OwnKeyed(fetch, champions)
    requires NoStaleEntry(held, fetch, champions)
    ensures Cooldowns(champions, fetch, held).Ok? <==> AllAvailable(champions, fetch)
  {
    if champions != [] {
      var c := champions[0];
      var rest := champions[1..];
      var data := Held(fetch, c, held);
      if fetch(c).None? {
        assert !AllAvailable(champions, fetch);
        if data.Some? {
          assert CooldownBurn(data.value, c, 0).Err?;
        }
      } else if Slots(fetch(c).value, c).Ok? {
        assert OwnKeyed(fetch, rest) by {
          forall x | x in rest ensures x in champions { }
        }
        assert NoStaleEntry(data, fetch, rest) by {
          forall x | x in rest && fetch(x).None? && data.value.data.Some?
            ensures x !in data.value.data.value
          {
            assert x in champions && x != c;
          }
        }
        NoStaleReport(rest, fetch, data);
        assert AllAvailable(champions, fetch) <==> AllAvailable(rest, fetch) by {
          forall i | 0 <= i < |rest| ensures rest[i] == champions[i + 1] { }
          if AllAvailable(rest, fetch) {
            forall i | 0 <= i < |champions|
              ensures fetch(champions[i]).Some? && Slots(fetch(champions[i]).value, champions[i]).Ok?
            {
              if i > 0 { assert champions[i] == rest[i - 1]; }
            }
          }
        }
      } else {
        assert !AllAvailable(champions, fetch);
      }
    }
  }
}

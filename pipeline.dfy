/**
  `format_and_send_fixtures` in api/bot.py: fetch the league lists, compose
  the message, and hand it to `send_message_to_channel`, modelled as the list
  of texts that would be sent.
 */
module Pipeline {
  import opened Wrappers
  import opened Fixtures
  import opened Compose
  import opened Publish

  /** How one run ends: an exception from the data path, nothing to send, or a message sent as these parts. */
  datatype Outcome = Raised(error: Error) | NothingSent | Sent(message: string, parts: seq<string>)

  /** In a well-formed dictionary every list is non-empty, so all lists are empty exactly when there are no keys. */
  lemma AllEmptyIffNoKeys(g: Groups)
    requires g.Valid()
    ensures AllEmpty(g.Values()) <==> g.keys == []
  {
    if g.keys != [] {
      assert g.keys[0] in g.lists;
      assert g.Values()[0] != [];
    }
  }

  /** No queried league retains a fixture exactly when the successful run's dictionary has no lists to show. */
  lemma NothingToShow(leagues: seq<string>, fixturesApi: string -> FixturesResponse, predictionsApi: int -> PredictionResponse)
    requires Fetch(leagues, fixturesApi, predictionsApi).Success?
    ensures AllEmpty(Fetch(leagues, fixturesApi, predictionsApi).value.Values()) <==>
      forall l :: l in leagues ==> Retained(l, fixturesApi) == []
  {
    var g := Fetch(leagues, fixturesApi, predictionsApi).value;
    FetchGrouping(leagues, fixturesApi, predictionsApi);
    AllEmptyIffNoKeys(g);
    if g.keys != [] {
      assert g.keys[0] in g.lists;
    }
  }

  /**
    One run of the pipeline. It raises exactly when a prediction lookup of a
    retained fixture raises; it sends nothing exactly when no queried league
    retained a fixture; otherwise it sends the composed message, starting with
    the title, as parts that join back to it.
   */
  method FormatAndSendFixtures(fixturesApi: string -> FixturesResponse, predictionsApi: int -> PredictionResponse)
    returns (outcome: Outcome)
    ensures outcome.Raised? <==> exists l :: l in QueriedLeagues && LeagueRaises(l, fixturesApi, predictionsApi)
    ensures outcome.Raised? ==> Fetch(QueriedLeagues, fixturesApi, predictionsApi) == Failure(outcome.error)
    ensures outcome.NothingSent? <==>
      !outcome.Raised? && forall l :: l in QueriedLeagues ==> Retained(l, fixturesApi) == []
    ensures outcome.Sent? ==>
      && Fetch(QueriedLeagues, fixturesApi, predictionsApi).Success?
      && Message(Fetch(QueriedLeagues, fixturesApi, predictionsApi).value.Values()) == Some(outcome.message)
      && Title <= outcome.message
      && outcome.parts == Parts(outcome.message)
      && Concat(outcome.parts) == outcome.message
  {
    FetchRaisesIff(QueriedLeagues, fixturesApi, predictionsApi);
    var leagueFixtures := FetchFixtures(QueriedLeagues, fixturesApi, predictionsApi);
    if leagueFixtures.Failure? {
      return Raised(leagueFixtures.error);
    }
    NothingToShow(QueriedLeagues, fixturesApi, predictionsApi);
    var composed := ComposeMessage(leagueFixtures.value);
    if composed.None? {
      return NothingSent;
    }
    var message := composed.value;
    MessageShape(leagueFixtures.value.Values());
    PartsRoundTrip(message);
    return Sent(message, Parts(message));
  }

  /** A league whose only fixture is not started and has advice "Home Win" yields that one record. */
  lemma OneRecord(league: string, f: UpstreamFixture, predictionsApi: int -> PredictionResponse)
    requires f.statusLong == NotStarted
    requires predictionsApi(f.id) == PredictionResponse(HttpOk, [Some("Home Win")])
    ensures Records(league, [f], predictionsApi) == Success([Info(league, f, Some("Home Win"))])
  {
    var info := Info(league, f, Some("Home Win"));
    RecordsSnoc(league, [f], 0, predictionsApi);
    assert [f][..1] == [f] && [f][..0] == [];
    assert FetchPrediction(f.id, predictionsApi(f.id)) == Success(Some("Home Win"));
    var none: seq<FixtureInfo> := [];
    assert Records(league, [f][..0], predictionsApi) == Success(none);
    assert none + [info] == [info];
    assert IsUpcoming(f);
    assert RecordsStep(league, Success(none), f, predictionsApi) == Success(none + [info]);
  }

  /**
    Leagues "333" and "71": "333" has one not-started fixture with advice
    "Home Win", "71" has none. The dictionary holds only "333", with that
    fixture's record.
   */
  lemma OneLeagueOneFixture(fixturesApi: string -> FixturesResponse, predictionsApi: int -> PredictionResponse, f: UpstreamFixture)
    requires f.statusLong == NotStarted
    requires fixturesApi("333") == FixturesResponse(HttpOk, Some([f]))
    requires fixturesApi("71") == FixturesResponse(HttpOk, Some([]))
    requires predictionsApi(f.id) == PredictionResponse(HttpOk, [Some("Home Win")])
    ensures Fetch(QueriedLeagues, fixturesApi, predictionsApi) ==
      Success(Groups(["333"], map["333" := [Info("333", f, Some("Home Win"))]]))
  {
    var leagues := QueriedLeagues;
    var info := Info("333", f, Some("Home Win"));
    OneRecord("333", f, predictionsApi);
    var g := Groups(["333"], map["333" := [info]]);
    assert Fetch(leagues[..1], fixturesApi, predictionsApi) == Success(g) by {
      FetchSnoc(leagues, 0, fixturesApi, predictionsApi);
      assert leagues[..0] == [];
      assert AppendAll(EmptyGroups, "333", [info]) == g by {
        assert [info][..0] == [];
      }
    }
    assert Fetch(leagues, fixturesApi, predictionsApi) == Success(g) by {
      FetchSnoc(leagues, 1, fixturesApi, predictionsApi);
      assert leagues[..2] == leagues;
      assert AppendAll(g, "71", []) == g;
    }
  }

  /** A single-entry section with its last blank line and separator cut off. */
  lemma SectionWithoutLastNewlines(h: string, ml: string, lead: string)
    ensures var s := h + (ml + (lead + "\n\n")) + "\n\n"; |s| >= 4 && s[..|s| - 4] == h + ml + lead
  {
    var s := h + (ml + (lead + "\n\n")) + "\n\n";
    assert s == (h + ml + lead) + "\n\n\n\n";
  }

  /** A single fixture gives the one entry numbered 1. */
  lemma SingleEntry(info: FixtureInfo)
    ensures Entries([info]) == MatchLine(1, info) + PredictionLine(info)
  {
    EntriesSnoc([info], 0);
    assert [info][..1] == [info] && [info][..0] == [];
  }

  /** A single league list gives that list's section alone. */
  lemma SingleSection(fs: seq<FixtureInfo>)
    requires fs != []
    ensures Sections([fs]) == Section(fs)
  {
    SectionsSnoc([fs], 0);
    assert [fs][..1] == [fs] && [fs][..0] == [];
  }

  /** A single league list holding a single fixture gives one section with one entry numbered 1. */
  lemma SingleEntrySections(info: FixtureInfo)
    ensures Sections([[info]]) == Header(info) + (MatchLine(1, info) + PredictionLine(info)) + Separator
  {
    SingleEntry(info);
    SingleSection([info]);
  }

  /**
    One league with one fixture whose prediction text is empty or ends in a
    kept character: the body is the title, the header, the entry and the
    prediction line without its trailing newlines.
   */
  lemma SingleEntryBody(info: FixtureInfo)
    requires var t := PredictionText(info.prediction); t == [] || !IsStripped(t[|t| - 1])
    ensures Body([[info]]) == Title + (Header(info) + MatchLine(1, info) + (PredictionLead + PredictionText(info.prediction)))
  {
    var groups := [[info]];
    var h, ml := Header(info), MatchLine(1, info);
    var lead := PredictionLead + PredictionText(info.prediction);
    SingleEntrySections(info);
    assert PredictionLine(info) == lead + "\n\n";
    SectionWithoutLastNewlines(h, ml, lead);
    SingleLastFixture(info);
    RStripRemovesOnlySeparator(groups);
  }

  lemma SingleLastFixture(info: FixtureInfo)
    ensures !AllEmpty([[info]]) && LastFixture([[info]]) == info
  {
    assert [[info]][0] != [];
  }

  /** The first entry of a section is numbered `1.`. */
  lemma FirstMatchLine(f: FixtureInfo)
    ensures MatchLine(1, f) == "1. " + f.homeTeam + " vs " + f.awayTeam + "\n"
  {
    assert Decimal(1) == "1";
    assert "1" + ". " == "1. ";
  }

  /**
    The message for one league with one fixture whose advice `p` is empty or
    ends in a kept character: the title, the league header, the entry numbered 1, the
    prediction line with `p`, then the separator and the footer.
   */
  lemma OneFixtureMessage(info: FixtureInfo, p: string)
    requires info.prediction == Some(p) && (p == [] || !IsStripped(p[|p| - 1]))
    ensures Message([[info]]) == Some(Title + Header(info) + MatchLine(1, info) + PredictionLead + p + Separator + Footer)
  {
    SingleEntryBody(info);
    ConcatFive(Title, Header(info), MatchLine(1, info), PredictionLead, p);
    assert [[info]][0] != [];
  }

  /**
    The whole run on leagues "333" (one not-started fixture with advice
    "Home Win") and "71" (no fixtures) composes the one-entry message for
    that fixture.
   */
  lemma OneLeagueOneFixtureMessage(fixturesApi: string -> FixturesResponse, predictionsApi: int -> PredictionResponse, f: UpstreamFixture)
    requires f.statusLong == NotStarted
    requires fixturesApi("333") == FixturesResponse(HttpOk, Some([f]))
    requires fixturesApi("71") == FixturesResponse(HttpOk, Some([]))
    requires predictionsApi(f.id) == PredictionResponse(HttpOk, [Some("Home Win")])
    ensures var info := Info("333", f, Some("Home Win"));
      && Fetch(QueriedLeagues, fixturesApi, predictionsApi).Success?
      && Message(Fetch(QueriedLeagues, fixturesApi, predictionsApi).value.Values()) ==
         Some(Title + Header(info) + MatchLine(1, info) + PredictionLead + "Home Win" + Separator + Footer)
  {
    var info := Info("333", f, Some("Home Win"));
    OneLeagueOneFixture(fixturesApi, predictionsApi, f);
    var g := Groups(["333"], map["333" := [info]]);
    assert g.Values() == [[info]] by {
      assert g.Values()[0] == g.Get("333");
    }
    OneFixtureMessage(info, "Home Win");
  }

  lemma ConcatFive(a: string, b: string, c: string, d: string, e: string)
    ensures a + (b + c + (d + e)) == a + b + c + d + e
  {
  }
}

/**
  The fixture-selection half of the pipeline (`fetch_predictions` and
  `fetch_fixtures` in api/bot.py), with both HTTP endpoints given as oracles:
  the fixtures endpoint answers a league id with a `FixturesResponse`, the
  predictions endpoint answers a fixture id with a `PredictionResponse`.
 */
module Fixtures {
  import opened Wrappers

  /** The HTTP status the source treats as success. */
  const HttpOk: int := 200

  /** The league ids `fetch_fixtures` queries, in this order. */
  const QueriedLeagues: seq<string> := ["333", "71"]

  /** The upstream long status that marks a fixture as still to be played. */
  const NotStarted: string := "Not Started"

  /** One entry of the upstream fixtures list, reduced to the fields the source reads. */
  datatype UpstreamFixture = UpstreamFixture(
    statusLong: string,
    id: int,
    date: string,
    homeName: string,
    awayName: string,
    leagueName: string,
    country: string)

  /** One fixtures request: its status code and the body's 'response' list, if the body has one. */
  datatype FixturesResponse = FixturesResponse(statusCode: int, body: Option<seq<UpstreamFixture>>)

  /** One predictions request: its status code and the advice of each entry of its 'response' list, `None` where the advice is JSON null. */
  datatype PredictionResponse = PredictionResponse(statusCode: int, advices: seq<Option<string>>)

  /** The record `fetch_fixtures` builds for every retained fixture. */
  datatype FixtureInfo = FixtureInfo(
    league: string,
    leagueName: string,
    country: string,
    fixtureId: int,
    homeTeam: string,
    awayTeam: string,
    matchTime: string,
    prediction: Option<string>)

  /** The one exception the data path raises: a successful predictions response with an empty list. */
  datatype Error = NoPredictionResult(fixtureId: int)

  // ---------------------------------------------------------------- predictions

  /** `fetch_predictions`: the first advice of a successful response (`None` when it is null), `None` on any other status. */
  function FetchPrediction(fixtureId: int, resp: PredictionResponse): (r: Result<Option<string>, Error>)
    ensures r.Failure? <==> resp.statusCode == HttpOk && resp.advices == []
    ensures r.Failure? ==> r.error == NoPredictionResult(fixtureId)
    ensures resp.statusCode != HttpOk ==> r == Success(None)
    ensures resp.statusCode == HttpOk && resp.advices != [] ==> r == Success(resp.advices[0])
  {
    if resp.statusCode == HttpOk then
      if |resp.advices| == 0 then Failure(NoPredictionResult(fixtureId))
      else Success(resp.advices[0])
    else
      Success(None)
  }

  /** True when asking for the prediction of `f` raises. */
  predicate PredictionRaises(f: UpstreamFixture, predictionsApi: int -> PredictionResponse)
  {
    FetchPrediction(f.id, predictionsApi(f.id)).Failure?
  }

  // ---------------------------------------------------------------- status filter

  predicate IsUpcoming(f: UpstreamFixture)
  {
    f.statusLong == NotStarted
  }

  /** The fixtures of `fs` whose long status is exactly "Not Started", in their upstream order. */
  function Upcoming(fs: seq<UpstreamFixture>): (r: seq<UpstreamFixture>)
    ensures |r| <= |fs|
    ensures forall f :: f in r <==> f in fs && IsUpcoming(f)
  {
    if fs == [] then []
    else
      var init := Upcoming(fs[..|fs| - 1]);
      assert fs == fs[..|fs| - 1] + [fs[|fs| - 1]];
      if IsUpcoming(fs[|fs| - 1]) then init + [fs[|fs| - 1]] else init
  }

  /** Filtering commutes with concatenation: the relative order of retained fixtures is the upstream one. */
  lemma {:induction false} UpcomingConcat(a: seq<UpstreamFixture>, b: seq<UpstreamFixture>)
    ensures Upcoming(a + b) == Upcoming(a) + Upcoming(b)
    decreases |b|
  {
    if b == [] {
      assert a + b == a;
    } else {
      var b' := b[..|b| - 1];
      assert (a + b)[..|a + b| - 1] == a + b';
      assert (a + b)[|a + b| - 1] == b[|b| - 1];
      UpcomingConcat(a, b');
    }
  }

  /** A list that holds only upcoming fixtures is kept whole; one that holds none is dropped whole. */
  lemma {:induction false} UpcomingAllOrNothing(fs: seq<UpstreamFixture>)
    ensures (forall i :: 0 <= i < |fs| ==> IsUpcoming(fs[i])) ==> Upcoming(fs) == fs
    ensures (forall i :: 0 <= i < |fs| ==> !IsUpcoming(fs[i])) ==> Upcoming(fs) == []
  {
    if fs != [] {
      var init := fs[..|fs| - 1];
      UpcomingAllOrNothing(init);
      assert forall i :: 0 <= i < |init| ==> init[i] == fs[i];
      assert fs == init + [fs[|fs| - 1]];
    }
  }

  /** A list whose first and third fixtures are "Not Started" and whose second has any other status keeps the first and the third, in that order. */
  lemma TwoOfThreeRetained(a: UpstreamFixture, b: UpstreamFixture, c: UpstreamFixture)
    requires a.statusLong == NotStarted && b.statusLong != NotStarted && c.statusLong == NotStarted
    ensures Upcoming([a, b, c]) == [a, c]
  {
    assert [a][..0] == [];
    assert Upcoming([a]) == [a];
    assert [a, b][..1] == [a];
    assert Upcoming([a, b]) == [a];
    assert [a, b, c][..2] == [a, b];
  }

  // ---------------------------------------------------------------- per-league records

  /** The record built for an upstream fixture of league `league` with prediction `p`. */
  function Info(league: string, f: UpstreamFixture, p: Option<string>): FixtureInfo
  {
    FixtureInfo(league, f.leagueName, f.country, f.id, f.homeName, f.awayName, f.date, p)
  }

  /** The 'response' list of a fixtures body, `[]` when the key is missing. */
  function FixturesOf(resp: FixturesResponse): seq<UpstreamFixture>
  {
    match resp.body
    case Some(fs) => fs
    case None => []
  }

  /**
    The inner loop of `fetch_fixtures` over one league's list: the records of
    the upcoming fixtures in order, or the exception of the first one whose
    prediction lookup raises.
   */
  function Records(league: string, fs: seq<UpstreamFixture>, predictionsApi: int -> PredictionResponse)
    : Result<seq<FixtureInfo>, Error>
    decreases |fs|
  {
    if fs == [] then Success([])
    else RecordsStep(league, Records(league, fs[..|fs| - 1], predictionsApi), fs[|fs| - 1], predictionsApi)
  }

  /** One iteration of the inner loop: skip a fixture that is not upcoming, else look up its prediction and append its record. */
  function RecordsStep(league: string, sofar: Result<seq<FixtureInfo>, Error>, f: UpstreamFixture, predictionsApi: int -> PredictionResponse)
    : Result<seq<FixtureInfo>, Error>
  {
    match sofar
    case Failure(e) => Failure(e)
    case Success(rs) =>
      if !IsUpcoming(f) then Success(rs)
      else
        match FetchPrediction(f.id, predictionsApi(f.id))
        case Failure(e) => Failure(e)
        case Success(p) => Success(rs + [Info(league, f, p)])
  }

  /** The record of an upcoming fixture whose prediction lookup does not raise. */
  function InfoOf(league: string, f: UpstreamFixture, predictionsApi: int -> PredictionResponse): FixtureInfo
    requires !PredictionRaises(f, predictionsApi)
  {
    Info(league, f, FetchPrediction(f.id, predictionsApi(f.id)).value)
  }

  /**
    One league's loop raises exactly when one of its upcoming fixtures has a
    prediction lookup that raises; otherwise it yields one record per upcoming
    fixture, in upstream order, carrying that fixture's fields, the league id
    and the looked-up prediction.
   */
  lemma {:induction false} RecordsMatchUpcoming(league: string, fs: seq<UpstreamFixture>, predictionsApi: int -> PredictionResponse)
    ensures var r := Records(league, fs, predictionsApi);
      && (r.Failure? <==> exists f :: f in Upcoming(fs) && PredictionRaises(f, predictionsApi))
      && (r.Success? ==>
           && |r.value| == |Upcoming(fs)|
           && forall j :: 0 <= j < |r.value| ==>
                !PredictionRaises(Upcoming(fs)[j], predictionsApi) && r.value[j] == InfoOf(league, Upcoming(fs)[j], predictionsApi))
    decreases |fs|
  {
    if fs != [] {
      var init := fs[..|fs| - 1];
      var f := fs[|fs| - 1];
      assert fs == init + [f];
      RecordsMatchUpcoming(league, init, predictionsApi);
      var u := Upcoming(init);
      assert forall g :: g in u ==> g in Upcoming(fs);
      if Records(league, init, predictionsApi).Success? && IsUpcoming(f) {
        assert Upcoming(fs) == u + [f];
        assert f in Upcoming(fs);
      } else if Records(league, init, predictionsApi).Success? {
        assert Upcoming(fs) == u;
      }
    }
  }

  /** An exception in a prefix of the list is the exception of the whole list. */
  lemma {:induction false} RecordsFailurePersists(league: string, fs: seq<UpstreamFixture>, k: nat, predictionsApi: int -> PredictionResponse)
    requires k <= |fs|
    requires Records(league, fs[..k], predictionsApi).Failure?
    ensures Records(league, fs, predictionsApi) == Records(league, fs[..k], predictionsApi)
    decreases |fs| - k
  {
    if k < |fs| {
      assert fs[..k + 1][..k] == fs[..k];
      RecordsFailurePersists(league, fs, k + 1, predictionsApi);
    } else {
      assert fs[..k] == fs;
    }
  }

  // ---------------------------------------------------------------- ordered groups

  /**
    The `defaultdict(list)` keyed by league id: `keys` is the dictionary's
    insertion order, `lists` its contents.
   */
  datatype Groups = Groups(keys: seq<string>, lists: map<string, seq<FixtureInfo>>)
  {
    /** Keys are distinct, are exactly the map's keys, and a key only exists with a non-empty list. */
    ghost predicate Valid()
    {
      && (forall i, j :: 0 <= i < j < |keys| ==> keys[i] != keys[j])
      && (forall k :: k in lists <==> k in keys)
      && (forall k :: k in lists ==> lists[k] != [])
    }

    /** Every record sits under its own league id. */
    ghost predicate Homogeneous()
    {
      forall k, x :: k in lists && x in lists[k] ==> x.league == k
    }

    /** The list under `k`, `[]` when the dictionary holds no such key. */
    function Get(k: string): seq<FixtureInfo>
    {
      if k in lists then lists[k] else []
    }

    /** `league_fixtures[k].append(x)`: the first access inserts `k` at the end of the key order. */
    function Append(k: string, x: FixtureInfo): Groups
    {
      if k in lists then Groups(keys, lists[k := lists[k] + [x]])
      else Groups(keys + [k], lists[k := [x]])
    }

    /** `.values()` in insertion order. */
    function Values(): (vs: seq<seq<FixtureInfo>>)
      ensures |vs| == |keys|
      ensures forall i :: 0 <= i < |keys| ==> vs[i] == Get(keys[i])
    {
      seq(|keys|, i requires 0 <= i < |keys| => Get(keys[i]))
    }
  }

  /** A single append keeps the dictionary well-formed and touches only the list under `k`. */
  lemma AppendKeepsValid(g: Groups, k: string, x: FixtureInfo)
    ensures g.Valid() ==> g.Append(k, x).Valid()
    ensures g.Append(k, x).Get(k) == g.Get(k) + [x]
    ensures forall k' :: k' != k ==> (k' in g.Append(k, x).lists <==> k' in g.lists) && g.Append(k, x).Get(k') == g.Get(k')
  {
    if g.Valid() && k !in g.lists {
      var g' := g.Append(k, x);
      forall i, j | 0 <= i < j < |g'.keys| ensures g'.keys[i] != g'.keys[j] {
        if j == |g.keys| {
          assert g'.keys[i] == g.keys[i];
        }
      }
    }
  }

  const EmptyGroups: Groups := Groups([], map[])

  /**
    Appending `rs` one by one under `k`: `k` is created at the end of the key
    order when new and `rs` is non-empty, its list grows by `rs`, and nothing
    else changes.
   */
  function AppendAll(g: Groups, k: string, rs: seq<FixtureInfo>): (g': Groups)
    ensures g.Valid() ==> g'.Valid()
    ensures g'.keys == if rs == [] || k in g.lists then g.keys else g.keys + [k]
    ensures g'.Get(k) == g.Get(k) + rs
    ensures forall k' :: k' != k ==> (k' in g'.lists <==> k' in g.lists) && g'.Get(k') == g.Get(k')
    decreases |rs|
  {
    if rs == [] then g
    else
      var h := AppendAll(g, k, rs[..|rs| - 1]);
      assert rs == rs[..|rs| - 1] + [rs[|rs| - 1]];
      AppendKeepsValid(h, k, rs[|rs| - 1]);
      h.Append(k, rs[|rs| - 1])
  }

  // ---------------------------------------------------------------- the leagues loop

  /**
    What `fetch_fixtures` returns for the queried `leagues`: a failed league
    adds nothing and the loop goes on; an exception ends the loop.
   */
  function Fetch(leagues: seq<string>, fixturesApi: string -> FixturesResponse, predictionsApi: int -> PredictionResponse)
    : Result<Groups, Error>
    decreases |leagues|
  {
    if leagues == [] then Success(EmptyGroups)
    else FetchStep(Fetch(leagues[..|leagues| - 1], fixturesApi, predictionsApi), leagues[|leagues| - 1], fixturesApi, predictionsApi)
  }

  /** One iteration of the outer loop, for league `l`. */
  function FetchStep(sofar: Result<Groups, Error>, l: string, fixturesApi: string -> FixturesResponse, predictionsApi: int -> PredictionResponse)
    : Result<Groups, Error>
  {
    match sofar
    case Failure(e) => Failure(e)
    case Success(g) =>
      var resp := fixturesApi(l);
      if resp.statusCode != HttpOk then Success(g)
      else
        match Records(l, FixturesOf(resp), predictionsApi)
        case Failure(e) => Failure(e)
        case Success(rs) => Success(AppendAll(g, l, rs))
  }

  /** The retained fixtures of league `l`: none unless its response succeeded. */
  function Retained(l: string, fixturesApi: string -> FixturesResponse): seq<UpstreamFixture>
  {
    if fixturesApi(l).statusCode == HttpOk then Upcoming(FixturesOf(fixturesApi(l))) else []
  }

  lemma {:induction false} FetchFailurePersists(leagues: seq<string>, k: nat, fixturesApi: string -> FixturesResponse, predictionsApi: int -> PredictionResponse)
    requires k <= |leagues|
    requires Fetch(leagues[..k], fixturesApi, predictionsApi).Failure?
    ensures Fetch(leagues, fixturesApi, predictionsApi) == Fetch(leagues[..k], fixturesApi, predictionsApi)
    decreases |leagues| - k
  {
    if k < |leagues| {
      assert leagues[..k + 1][..k] == leagues[..k];
      FetchFailurePersists(leagues, k + 1, fixturesApi, predictionsApi);
    } else {
      assert leagues[..k] == leagues;
    }
  }

  /** Some retained fixture of league `l` has a prediction lookup that raises. */
  ghost predicate LeagueRaises(l: string, fixturesApi: string -> FixturesResponse, predictionsApi: int -> PredictionResponse)
  {
    exists f :: f in Retained(l, fixturesApi) && PredictionRaises(f, predictionsApi)
  }

  /** The run raises exactly when some retained fixture of some queried league has a prediction lookup that raises. */
  lemma {:induction false} FetchRaisesIff(leagues: seq<string>, fixturesApi: string -> FixturesResponse, predictionsApi: int -> PredictionResponse)
    ensures Fetch(leagues, fixturesApi, predictionsApi).Failure? <==>
      exists l :: l in leagues && LeagueRaises(l, fixturesApi, predictionsApi)
    decreases |leagues|
  {
    if leagues != [] {
      var init := leagues[..|leagues| - 1];
      var l := leagues[|leagues| - 1];
      assert leagues == init + [l];
      FetchRaisesIff(init, fixturesApi, predictionsApi);
      var resp := fixturesApi(l);
      assert Retained(l, fixturesApi) == if resp.statusCode == HttpOk then Upcoming(FixturesOf(resp)) else [];
      if resp.statusCode == HttpOk {
        RecordsMatchUpcoming(l, FixturesOf(resp), predictionsApi);
        assert LeagueRaises(l, fixturesApi, predictionsApi) <==> Records(l, FixturesOf(resp), predictionsApi).Failure?;
      } else {
        assert !LeagueRaises(l, fixturesApi, predictionsApi);
      }
    }
  }

  /**
    A successful run yields a well-formed dictionary in which every record sits
    under its own league id, and a league id is a key exactly when it was
    queried and retained at least one fixture.
   */
  lemma {:induction false} FetchGrouping(leagues: seq<string>, fixturesApi: string -> FixturesResponse, predictionsApi: int -> PredictionResponse)
    requires Fetch(leagues, fixturesApi, predictionsApi).Success?
    ensures var g := Fetch(leagues, fixturesApi, predictionsApi).value;
      && g.Valid()
      && g.Homogeneous()
      && forall k :: k in g.lists <==> k in leagues && Retained(k, fixturesApi) != []
    decreases |leagues|
  {
    if leagues != [] {
      var init := leagues[..|leagues| - 1];
      var l := leagues[|leagues| - 1];
      assert leagues == init + [l];
      FetchGrouping(init, fixturesApi, predictionsApi);
      var g := Fetch(init, fixturesApi, predictionsApi).value;
      var resp := fixturesApi(l);
      if resp.statusCode == HttpOk {
        var rs := Records(l, FixturesOf(resp), predictionsApi).value;
        var g' := AppendAll(g, l, rs);
        RecordsMatchUpcoming(l, FixturesOf(resp), predictionsApi);
        assert |rs| == |Retained(l, fixturesApi)|;
        AppendAllHomogeneous(g, l, rs);
      }
    }
  }

  /** Appending records of league `k` under `k` keeps every record under its own league id. */
  lemma AppendAllHomogeneous(g: Groups, k: string, rs: seq<FixtureInfo>)
    requires g.Homogeneous()
    requires forall j :: 0 <= j < |rs| ==> rs[j].league == k
    ensures AppendAll(g, k, rs).Homogeneous()
  {
    var g' := AppendAll(g, k, rs);
    forall k', x | k' in g'.lists && x in g'.lists[k'] ensures x.league == k' {
      if k' == k {
        if x !in g.Get(k) {
          var j :| 0 <= j < |rs| && rs[j] == x;
        }
      } else {
        assert g'.Get(k') == g.Get(k');
      }
    }
  }

  /** Query ids whose response succeeded and retained at least one fixture, in query order. */
  function Contributing(leagues: seq<string>, fixturesApi: string -> FixturesResponse): (r: seq<string>)
    ensures forall k :: k in r <==> k in leagues && Retained(k, fixturesApi) != []
  {
    if leagues == [] then []
    else
      var init := Contributing(leagues[..|leagues| - 1], fixturesApi);
      var l := leagues[|leagues| - 1];
      assert leagues == leagues[..|leagues| - 1] + [l];
      if Retained(l, fixturesApi) != [] then init + [l] else init
  }

  /**
    For distinct query ids (the source queries a constant list of distinct
    ids), the dictionary's key order is the query order of the contributing
    leagues, and each league's list holds exactly its retained fixtures'
    records in upstream order.
   */
  lemma {:induction false} FetchOrder(leagues: seq<string>, fixturesApi: string -> FixturesResponse, predictionsApi: int -> PredictionResponse)
    requires forall i, j :: 0 <= i < j < |leagues| ==> leagues[i] != leagues[j]
    requires Fetch(leagues, fixturesApi, predictionsApi).Success?
    ensures var g := Fetch(leagues, fixturesApi, predictionsApi).value;
      && g.keys == Contributing(leagues, fixturesApi)
      && forall k :: k in leagues && fixturesApi(k).statusCode == HttpOk ==>
           Records(k, FixturesOf(fixturesApi(k)), predictionsApi) == Success(g.Get(k))
    decreases |leagues|
  {
    if leagues != [] {
      var init := leagues[..|leagues| - 1];
      var l := leagues[|leagues| - 1];
      assert leagues == init + [l];
      FetchOrder(init, fixturesApi, predictionsApi);
      var g := Fetch(init, fixturesApi, predictionsApi).value;
      var g' := Fetch(leagues, fixturesApi, predictionsApi).value;
      assert l !in g.lists by {
        FetchGrouping(init, fixturesApi, predictionsApi);
        assert l !in init;
      }
      var resp := fixturesApi(l);
      if resp.statusCode == HttpOk {
        var rs := Records(l, FixturesOf(resp), predictionsApi).value;
        assert rs == [] <==> Retained(l, fixturesApi) == [] by {
          RecordsMatchUpcoming(l, FixturesOf(resp), predictionsApi);
          assert |rs| == |Retained(l, fixturesApi)|;
        }
        assert g' == AppendAll(g, l, rs);
        forall k | k in leagues && fixturesApi(k).statusCode == HttpOk
          ensures Records(k, FixturesOf(fixturesApi(k)), predictionsApi) == Success(g'.Get(k))
        {
          if k != l {
            assert k in init;
            assert g'.Get(k) == g.Get(k);
          } else {
            assert g.Get(l) == [];
            assert g'.Get(l) == rs;
          }
        }
      } else {
        assert Retained(l, fixturesApi) == [];
      }
    }
  }

  /**
    `fetch_fixtures`: the loop over the queried leagues and, for a successful
    response, over its fixtures, appending each upcoming one with its
    prediction to the league's list.
   */
  method FetchFixtures(leagues: seq<string>, fixturesApi: string -> FixturesResponse, predictionsApi: int -> PredictionResponse)
    returns (r: Result<Groups, Error>)
    ensures r == Fetch(leagues, fixturesApi, predictionsApi)
  {
    var leagueFixtures := EmptyGroups;
    for i := 0 to |leagues|
      invariant Fetch(leagues[..i], fixturesApi, predictionsApi) == Success(leagueFixtures)
    {
      var leagueId := leagues[i];
      var response := fixturesApi(leagueId);
      if response.statusCode == HttpOk {
        var fixtures := FixturesOf(response);
        ghost var before := leagueFixtures;
        ghost var kept: seq<FixtureInfo> := [];
        for j := 0 to |fixtures|
          invariant Records(leagueId, fixtures[..j], predictionsApi) == Success(kept)
          invariant leagueFixtures == AppendAll(before, leagueId, kept)
        {
          var fixture := fixtures[j];
          RecordsSnoc(leagueId, fixtures, j, predictionsApi);
          if fixture.statusLong == NotStarted {
            var prediction := FetchPrediction(fixture.id, predictionsApi(fixture.id));
            if prediction.Failure? {
              RaiseEndsRun(leagues, i, j, kept, fixturesApi, predictionsApi);
              return Failure(prediction.error);
            }
            var info := Info(leagueId, fixture, prediction.value);
            RecordsStepAppends(leagueId, kept, fixture, predictionsApi);
            AppendAllSnoc(before, leagueId, kept, info);
            kept := kept + [info];
            leagueFixtures := leagueFixtures.Append(leagueId, info);
          } else {
            RecordsStepSkips(leagueId, kept, fixture, predictionsApi);
          }
        }
        assert fixtures[..|fixtures|] == fixtures;
        FetchStepAppends(before, leagueId, kept, fixturesApi, predictionsApi);
      } else {
        FetchStepSkips(leagueFixtures, leagueId, fixturesApi, predictionsApi);
      }
      FetchSnoc(leagues, i, fixturesApi, predictionsApi);
    }
    assert leagues[..|leagues|] == leagues;
    return Success(leagueFixtures);
  }

  /** A lookup that raises at fixture `j` of league `i` is the result of the whole run. */
  lemma RaiseEndsRun(leagues: seq<string>, i: nat, j: nat, kept: seq<FixtureInfo>,
      fixturesApi: string -> FixturesResponse, predictionsApi: int -> PredictionResponse)
    requires i < |leagues| && fixturesApi(leagues[i]).statusCode == HttpOk
    requires Fetch(leagues[..i], fixturesApi, predictionsApi).Success?
    requires var fs := FixturesOf(fixturesApi(leagues[i]));
      && j < |fs| && IsUpcoming(fs[j]) && PredictionRaises(fs[j], predictionsApi)
      && Records(leagues[i], fs[..j], predictionsApi) == Success(kept)
    ensures var f := FixturesOf(fixturesApi(leagues[i]))[j];
      Fetch(leagues, fixturesApi, predictionsApi) == Failure(FetchPrediction(f.id, predictionsApi(f.id)).error)
  {
    var fs := FixturesOf(fixturesApi(leagues[i]));
    RecordsSnoc(leagues[i], fs, j, predictionsApi);
    RecordsFailurePersists(leagues[i], fs, j + 1, predictionsApi);
    assert fs[..|fs|] == fs;
    FetchSnoc(leagues, i, fixturesApi, predictionsApi);
    FetchFailurePersists(leagues, i + 1, fixturesApi, predictionsApi);
  }

  lemma RecordsStepSkips(league: string, kept: seq<FixtureInfo>, f: UpstreamFixture, predictionsApi: int -> PredictionResponse)
    requires !IsUpcoming(f)
    ensures RecordsStep(league, Success(kept), f, predictionsApi) == Success(kept)
  {
  }

  lemma RecordsStepAppends(league: string, kept: seq<FixtureInfo>, f: UpstreamFixture, predictionsApi: int -> PredictionResponse)
    requires IsUpcoming(f) && !PredictionRaises(f, predictionsApi)
    ensures RecordsStep(league, Success(kept), f, predictionsApi) == Success(kept + [InfoOf(league, f, predictionsApi)])
  {
  }

  lemma FetchStepSkips(g: Groups, l: string, fixturesApi: string -> FixturesResponse, predictionsApi: int -> PredictionResponse)
    requires fixturesApi(l).statusCode != HttpOk
    ensures FetchStep(Success(g), l, fixturesApi, predictionsApi) == Success(g)
  {
  }

  lemma FetchStepAppends(g: Groups, l: string, rs: seq<FixtureInfo>, fixturesApi: string -> FixturesResponse, predictionsApi: int -> PredictionResponse)
    requires fixturesApi(l).statusCode == HttpOk
    requires Records(l, FixturesOf(fixturesApi(l)), predictionsApi) == Success(rs)
    ensures FetchStep(Success(g), l, fixturesApi, predictionsApi) == Success(AppendAll(g, l, rs))
  {
  }

  lemma RecordsSnoc(league: string, fs: seq<UpstreamFixture>, j: nat, predictionsApi: int -> PredictionResponse)
    requires j < |fs|
    ensures Records(league, fs[..j + 1], predictionsApi) == RecordsStep(league, Records(league, fs[..j], predictionsApi), fs[j], predictionsApi)
  {
    assert fs[..j + 1][..j] == fs[..j];
  }

  lemma FetchSnoc(leagues: seq<string>, i: nat, fixturesApi: string -> FixturesResponse, predictionsApi: int -> PredictionResponse)
    requires i < |leagues|
    ensures Fetch(leagues[..i + 1], fixturesApi, predictionsApi) == FetchStep(Fetch(leagues[..i], fixturesApi, predictionsApi), leagues[i], fixturesApi, predictionsApi)
  {
    assert leagues[..i + 1][..i] == leagues[..i];
  }

  lemma AppendAllSnoc(g: Groups, k: string, rs: seq<FixtureInfo>, x: FixtureInfo)
    ensures AppendAll(g, k, rs + [x]) == AppendAll(g, k, rs).Append(k, x)
  {
    assert (rs + [x])[..|rs|] == rs;
  }
}

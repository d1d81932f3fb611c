# footbot2 core in Dafny

footbot2 is a Telegram bot. Once a day it posts the day's not-yet-started
football fixtures of two leagues, each with the match advice of a predictions
service, to a channel. This project models the data path of `api/bot.py`:

- **Fixtures** (`fixtures.dfy`): `fetch_predictions` and `fetch_fixtures`.
  For each queried league id (`"333"`, then `"71"`) the model asks the
  fixtures endpoint. It keeps the fixtures whose long status is exactly
  `Not Started` and looks up each one's advice. It appends one record per
  kept fixture to an insertion-ordered `defaultdict(list)`, modelled as the
  datatype `Groups`: the key order plus a map. If a league's response has a
  status other than 200, that league is skipped. A predictions response with status 200 and an empty
  list raises, and the exception ends the whole run.
- **Compose** (`compose.dfy`): the message text built in
  `format_and_send_fixtures`. It has these parts:
  - a title;
  - one section per non-empty league list, with a header and numbered
    entries (`str(i)`, as `Decimal`);
  - the two-character separator after each section;
  - `rstrip("\n-")`, as `RStrip`;
  - a separator and the two promotional lines.
- **Publish** (`publish.dfy`): the splitting in `send_message_to_channel`. A
  message of at most 4096 characters is sent whole. A longer one is sent as
  consecutive 4096-character slices.
- **Pipeline** (`pipeline.dfy`): one run of `format_and_send_fixtures`. It
  either raises, sends nothing, or sends the composed message as a list of
  parts.

Both HTTP endpoints are parameters. They are total functions from the request
key to a response:

- `fixturesApi` maps a league id to its status code and its optional
  `response` list;
- `predictionsApi` maps a fixture id to its status code and the advice of
  each entry of its `response` list, `None` where it is JSON null.

The request date and season are folded into `fixturesApi`. Sending a part is
modelled as the list of parts that would be sent.

The loops of `fetch_fixtures` and of the message composition are the methods
`Fixtures.FetchFixtures` and `Compose.ComposeMessage`. Each is proved equal to
a recursive function, `Fetch` or `Message`. The properties are lemmas about
those functions.

Two behaviours of the code a reader might not expect; the model follows the
code in both:

- A fixture whose prediction lookup returned `None` is printed with the text
  `None`, because the f-string formats `None` that way. This happens on a
  non-200 predictions response and on a JSON-null advice. There is no
  placeholder text.
- `rstrip("\n-")` removes trailing dashes and newlines of the *whole* text.
  When the last prediction text itself ends in `-` or a newline, the strip
  removes more than the last separator. `Compose.RStripRemovesOnlySeparator`
  states exactly when only the separator and the blank lines go: when the
  last prediction text is empty or ends in another character.

## Model

Rows marked "Definition, no contract" are the functions that say what the
source does; the lemmas named in each of those rows characterise them.

| member | source | states |
|---|---|---|
| Fixtures.FetchPrediction | api/bot.py:32-43 | Definition: a status-200 response gives its first advice (None when null) and raises on an empty list; any other status gives None. Its callers' properties are proved in RecordsMatchUpcoming and FetchRaisesIff. |
| Fixtures.Upcoming | api/bot.py:60-62 | The kept fixtures are exactly the listed ones whose long status is "Not Started", and there are no more of them than listed. |
| Fixtures.UpcomingConcat | api/bot.py:60-62 | Filtering a concatenation is the concatenation of the filtered parts, so upstream order is kept. |
| Fixtures.UpcomingAllOrNothing | api/bot.py:60-62 | A list of only not-started fixtures is kept whole. A list with none is dropped whole. |
| Fixtures.TwoOfThreeRetained | api/bot.py:60-62 | The statuses Not Started, any other status (such as Match Finished), Not Started keep the first and the third, in order. |
| Fixtures.FixturesOf | api/bot.py:59 | Definition, no contract: the body's `response` list, `[]` when the key is missing, as `.get('response', [])` (see FetchGrouping). |
| Fixtures.RecordsMatchUpcoming | api/bot.py:60-88 | One league's loop raises iff some kept fixture's prediction lookup raises. Otherwise record j is the record of the j-th kept fixture, with its league id, fields and looked-up prediction. |
| Fixtures.RecordsFailurePersists | api/bot.py:60-71 | An exception raised on a prefix of the list is the result for the whole list. |
| Fixtures.AppendKeepsValid | api/bot.py:88 | `league_fixtures[k].append(x)` keeps the dictionary well-formed, grows only the list under k, and leaves every other key and list alone. |
| Fixtures.AppendAll | api/bot.py:88 | Appending records one by one under k keeps the dictionary well-formed. It adds k at the end of the key order only when k is new and a record is appended. It grows k's list by the records in order and changes no other key. |
| Fixtures.FetchFailurePersists | api/bot.py:50-71 | An exception in an earlier league is the result of the whole run. |
| Fixtures.FetchRaisesIff | api/bot.py:50-71 | The run raises iff (by the lookup of line 39) some kept fixture of some queried league with a 200 response has a prediction lookup that raises. |
| Fixtures.Groups.Values | api/bot.py:107 | Definition: the lists taken along the key order, as `.items()` at line 107 and `.values()` at line 100 iterate them. That the key order is insertion order is proved in AppendAll and FetchOrder; AllEmptyIffNoKeys and ComposeMessage use it. |
| Fixtures.AppendAllHomogeneous | api/bot.py:74-88 | Appending records whose league id is k under key k keeps every record under its own league id. |
| Fixtures.FetchGrouping | api/bot.py:48-94 | A successful run gives a well-formed dictionary in which each record sits under its own league id. A league id is a key iff it was queried, its request succeeded and it kept a fixture. |
| Fixtures.Contributing | api/bot.py:50-62 | The query ids that keep a fixture, in query order: exactly the queried ids with a 200 response and a kept fixture. |
| Fixtures.FetchOrder | api/bot.py:50-88 | For distinct query ids, the dictionary's key order is the query order of the contributing leagues, and each key's list is that league's loop result. |
| Fixtures.RaiseEndsRun | api/bot.py:50-71 | The first prediction lookup that raises, after the earlier leagues and the earlier fixtures of its league succeeded, is the result of the whole run. |
| Fixtures.FetchFixtures | api/bot.py:45-94 | The nested loops over the leagues and their fixtures return exactly `Fetch` of the query list. |
| Compose.RStrip | api/bot.py:121 | `rstrip("\n-")` returns a prefix of its input that does not end in a newline or dash, and everything it removes is a newline or dash. |
| Compose.RStripUnique | api/bot.py:121 | Those three properties determine the stripped result. |
| Compose.RStripKeepsPrefix | api/bot.py:121 | Text before the last kept character is never stripped. |
| Compose.RStripRemovesTail | api/bot.py:121 | After a kept character, a tail of newlines and dashes is removed exactly. |
| Compose.Decimal | api/bot.py:112-114 | `str(i)` of a natural number is non-empty, all decimal digits, and without a leading zero except for 0 itself. |
| Compose.DecimalRoundTrip | api/bot.py:112-114 | The digits written for a number read back as that number. |
| Compose.EntriesNumbering | api/bot.py:112-115 | In a league section, the entry for `fixtures[j]` is `MatchLine(j + 1, ..)` with its home and away team, then its prediction line, right after the entries of the earlier fixtures. That the number reads back as j+1 is DecimalRoundTrip. |
| Compose.EntriesPrefix | api/bot.py:112-115 | The entries of a prefix of a league's list are a prefix of its entries. |
| Compose.SectionsInOrder | api/bot.py:107-118 | The section of each non-empty league list follows the sections of the lists before it, in dictionary order. |
| Compose.SectionsPrefix | api/bot.py:107-118 | The sections of a prefix of the lists are a prefix of all sections. |
| Compose.SectionsHaveKeptChar | api/bot.py:107-118 | When some list is non-empty, the sections contain a character rstrip keeps. |
| Compose.MessageShape | api/bot.py:100-126 | When some list is non-empty there is a message. It is the stripped text, the separator and the two promotional lines. It starts with the title, and the stripped text ends in neither a newline nor a dash. |
| Compose.SectionEnd | api/bot.py:110-118 | A league section ends with its last prediction text, its blank line and the separator. |
| Compose.SectionsEnd | api/bot.py:107-118 | The sections end with the last fixture's prediction text followed by four newlines. |
| Compose.SectionTail | api/bot.py:115-118 | Definition, no contract: the prediction lead, the last prediction text and four newlines, which end every section (see SectionEnd). |
| Compose.LeadEndsKept | api/bot.py:115 | The prediction line up to the end of its text is non-empty, and ends in a kept character iff the advice text is empty or ends in one, since the lead ends in a space. |
| Compose.StripSeparatorIff | api/bot.py:118-121 | For text ending in a prediction line's text and four newlines, `rstrip` removes exactly those four newlines iff the prediction text is empty or ends in a kept character. |
| Compose.RStripRemovesOnlySeparator | api/bot.py:118-121 | The sections end in four newlines, and the strip removes exactly those iff the last prediction text is empty or ends in neither a newline nor a dash. |
| Compose.ComposeMessage | api/bot.py:97-126 | The composing loop gives no message exactly when every list is empty, and otherwise `Message` of the dictionary's values in key order. |
| Publish.ChunksAreSlices | api/bot.py:141 | The comprehension gives ceil(len/4096) slices. The k-th is `m[k*4096 : min((k+1)*4096, len)]`, and joined they give m. |
| Publish.PartsOfShortMessage | api/bot.py:137-139 | A message of at most 4096 characters is sent as one part, itself. |
| Publish.PartsOfLongMessage | api/bot.py:137-143 | A longer message goes out as ceil(len/4096) parts, at least two. Each part but the last has exactly 4096 characters, the last has between 1 and 4096, and together they join back to the message. |
| Publish.PartsRoundTrip | api/bot.py:137-143 | For any message, the parts join back to it and none is longer than 4096. |
| Publish.FiveThousandCharacters | api/bot.py:137-143 | A 5000-character message goes out as two parts of 4096 and 904 characters. |
| Pipeline.AllEmptyIffNoKeys | api/bot.py:100 | In a well-formed dictionary, `not any(...)` holds exactly when there are no keys. |
| Pipeline.NothingToShow | api/bot.py:98-102 | After a successful fetch, nothing is shown exactly when no queried league kept a fixture. |
| Pipeline.FormatAndSendFixtures | api/bot.py:97-143 | The run raises iff some queried league's prediction lookup raises. It raises with the fetch's own exception. It sends nothing iff it did not raise and no league kept a fixture. Otherwise it sends the composed message, which starts with the title, as the parts that join back to it. |
| Pipeline.OneRecord | api/bot.py:60-88 | A league whose one fixture is not started, with advice "Home Win", yields exactly that fixture's record. |
| Pipeline.OneLeagueOneFixture | api/bot.py:46-94 | Suppose league "333" lists one not-started fixture with advice "Home Win" and league "71" lists none. Then the dictionary holds only "333", with that record. |
| Pipeline.SingleEntrySections | api/bot.py:107-118 | One list holding one fixture gives the header, the entry numbered 1 and the separator. |
| Pipeline.SingleEntryBody | api/bot.py:104-121 | Suppose one league has one fixture whose prediction text is empty or ends in a kept character. Then the stripped text is the title, the header, the match line and the prediction line without its trailing blank lines. |
| Pipeline.FirstMatchLine | api/bot.py:112-114 | The first entry's match line is "1. home vs away" and a newline. |
| Pipeline.OneFixtureMessage | api/bot.py:100-126 | For one league with one fixture with advice p (empty, or ending in a kept character), the message is: title, header, match line 1, prediction lead, p, separator, footer. |
| Pipeline.OneLeagueOneFixtureMessage | api/bot.py:45-126 | End to end: league "333" with one not-started fixture advised "Home Win" and league "71" with none give the message of title, that league's header, entry 1, the "Home Win" prediction, separator and footer. |
| Fixtures.Info | api/bot.py:63-82 | Definition, no contract: the record of an upstream fixture with its query id and prediction (see RecordsMatchUpcoming). |
| Fixtures.Records | api/bot.py:60-88 | Definition, no contract: the inner loop over one league's fixtures (see RecordsMatchUpcoming, RecordsFailurePersists). |
| Fixtures.RecordsStep | api/bot.py:61-88 | Definition, no contract: one iteration of the inner loop; skip, raise, or append (see RecordsMatchUpcoming). |
| Fixtures.Groups.Append | api/bot.py:88 | Definition, no contract: `league_fixtures[k].append(x)` on the insertion-ordered dictionary (see AppendKeepsValid). |
| Fixtures.Fetch | api/bot.py:50-94 | Definition, no contract: the loop over the queried leagues (see FetchRaisesIff, FetchGrouping, FetchOrder). |
| Fixtures.FetchStep | api/bot.py:51-92 | Definition, no contract: one league's iteration; a non-200 response adds nothing (see FetchGrouping). |
| Compose.PredictionText | api/bot.py:115 | Definition, no contract: the f-string rendering of a prediction, `None` as the text "None". |
| Compose.Header | api/bot.py:110 | Definition, no contract: the league title from the first fixture's country and league name (see SingleEntrySections). |
| Compose.MatchLine | api/bot.py:114 | Definition, no contract: the numbered home-vs-away line (see EntriesNumbering, FirstMatchLine). |
| Compose.PredictionLine | api/bot.py:115 | Definition, no contract: the indented prediction line with its blank line (see SectionEnd). |
| Compose.Entries | api/bot.py:112-115 | Definition, no contract: the numbered entries of one league (see EntriesNumbering, EntriesPrefix). |
| Compose.Section | api/bot.py:108-118 | Definition, no contract: header, entries and separator of a non-empty list (see SectionEnd). |
| Compose.Sections | api/bot.py:107-118 | Definition, no contract: the sections of the non-empty lists in order (see SectionsInOrder, SectionsEnd). |
| Compose.AllEmpty | api/bot.py:100 | Definition, no contract: `not any(fixtures for fixtures in league_fixtures.values())`, every list empty (see AllEmptyIffNoKeys, NothingToShow). |
| Compose.Body | api/bot.py:104-121 | Definition, no contract: the title and sections after `rstrip("\n-")` (see MessageShape, RStripRemovesOnlySeparator). |
| Compose.Message | api/bot.py:100-126 | Definition, no contract: no message when every list is empty, else body, separator and footer (see MessageShape, ComposeMessage). |
| Publish.Chunks | api/bot.py:141 | Definition, no contract: the 4096-character slices (see ChunksAreSlices). |
| Publish.Parts | api/bot.py:137-143 | Definition, no contract: the whole message when it fits, else its slices (see PartsOfShortMessage, PartsOfLongMessage, PartsRoundTrip). |

## Left out

- Exceptions from the transport: a request that raises (connection error, timeout) or a 200 body that is not JSON ends the run in the source (lines 35, 38, 57, 59); the oracles always answer, so the model's only exception is the IndexError of line 39.
- HTTP: the `requests.get` calls, headers, API key and URLs are replaced by the two response oracles.
- Repeated calls: the oracles answer the same key the same way every time. A live endpoint could answer two identical requests differently.
- JSON shape: a body missing a key the source indexes raises `KeyError` in the source; the model's response types only hold bodies with those keys, apart from a missing `response` list in a fixtures body, which counts as empty. A JSON-null advice is modelled (it prints `None`).
- Null strings in fixtures: a JSON-null team name (line 114), country or league name (line 110) is printed by the source as `None`. The model's team, country and league names are strings, so it has no null there. A non-string advice value is not modelled either.
- `datetime.today()` and the season `"2024"` are left out; they only enter the fixtures request, which the oracle answers.
- `print` on failed requests and all `logger` calls are left out; they have no effect on the result.
- `all_fixtures` is left out: it is built but never read.
- Telegram: `bot.send_message`, `parse_mode='Markdown'`, the `await`s and the `try`/`except` that logs send errors are left out. The model stops at the list of parts to send, so an exception while sending cannot happen.
- `start`, `main`, the scheduler and the environment variables are left out; they are bot wiring, not the data path.
- `api/scheduled_task.py` is not part of this model.
- Fixtures.FetchOrder: requires distinct query ids. With a repeated id the later query's records are appended to the earlier key's list. The queried list `["333", "71"]` is distinct.
- Fixtures.FetchFixtures: takes the league list as a parameter. The source uses the constant `["333", "71"]`, which `Pipeline.FormatAndSendFixtures` passes as `QueriedLeagues`.
- Compose: the source's pictographs are written as the code points stored in the source file, which are mis-decoded UTF-8. No encoding or Markdown rendering is modelled.

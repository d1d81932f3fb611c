/**
  The message composition of `format_and_send_fixtures` in api/bot.py: a
  title, one section per non-empty league list, an `rstrip("\n-")`, and a
  two-line promotional footer.
 */
module Compose {
  import opened Wrappers
  import opened Fixtures

  // The pictographs as the code points the source file holds.
  const Ball: string := "\U{201A}\U{F6}\U{3A9}"
  const MoneyFace: string := "\U{F8FF}\U{FC}\U{A7}\U{EB}"
  const Trophy: string := "\U{F8FF}\U{FC}\U{E8}\U{DC}"
  const MoneyBag: string := "\U{F8FF}\U{FC}\U{ED}\U{221E}"
  const PointRight: string := "\U{F8FF}\U{FC}\U{EB}\U{E2}"
  const Rocket: string := "\U{F8FF}\U{FC}\U{F6}\U{C4}"

  /** The fixed first line of every message, with its blank line. */
  const Title: string := "*" + Ball + " Next 24 hours matches and predictions " + MoneyFace + "*\n\n"

  /** What closes each league section, and what goes before the footer. */
  const Separator: string := "\n\n"

  const PromoMelbet: string := "Get 200% bonus " + MoneyBag + " on Melbet, use Promo code: BNS " + PointRight + " melbet.com\n"
  const PromoXbet: string := "For daily odds boost " + Rocket + " use Promo code BST on 1Xbet " + PointRight + " 1xbet.com"

  /** The two promotional lines that end every message. */
  const Footer: string := PromoMelbet + PromoXbet

  // ---------------------------------------------------------------- rstrip("\n-")

  /** The characters `rstrip("\n-")` removes. */
  predicate IsStripped(c: char)
  {
    c == '\n' || c == '-'
  }

  /** `s.rstrip("\n-")`: the longest prefix of `s` that does not end in a newline or a dash. */
  function RStrip(s: string): (r: string)
    ensures r <= s
    ensures r == [] || !IsStripped(r[|r| - 1])
    ensures forall i :: |r| <= i < |s| ==> IsStripped(s[i])
    decreases |s|
  {
    if s != [] && IsStripped(s[|s| - 1]) then RStrip(s[..|s| - 1]) else s
  }

  /** The three properties of `RStrip` determine its result: it removes every trailing stripped character and nothing else. */
  lemma RStripUnique(s: string, r: string)
    requires r <= s
    requires r == [] || !IsStripped(r[|r| - 1])
    requires forall i :: |r| <= i < |s| ==> IsStripped(s[i])
    ensures r == RStrip(s)
  {
  }

  /** Stripping stops at the last character that is not stripped, so text before it is kept whole. */
  lemma {:induction false} RStripKeepsPrefix(a: string, b: string, k: nat)
    requires k < |b| && !IsStripped(b[k])
    ensures RStrip(a + b) == a + RStrip(b)
    decreases |b|
  {
    if IsStripped(b[|b| - 1]) {
      var b' := b[..|b| - 1];
      assert (a + b)[..|a + b| - 1] == a + b';
      RStripKeepsPrefix(a, b', k);
    }
  }

  /** A tail made only of stripped characters after a character that is not stripped is removed exactly. */
  lemma {:induction false} RStripRemovesTail(p: string, q: string)
    requires p != [] && !IsStripped(p[|p| - 1])
    requires forall i :: 0 <= i < |q| ==> IsStripped(q[i])
    ensures RStrip(p + q) == p
    decreases |q|
  {
    if q == [] {
      assert p + q == p;
    } else {
      var q' := q[..|q| - 1];
      assert (p + q)[..|p + q| - 1] == p + q';
      RStripRemovesTail(p, q');
    }
  }

  // ---------------------------------------------------------------- numbers

  function DigitChar(d: nat): (c: char)
    requires d < 10
    ensures '0' <= c <= '9'
  {
    ('0' as int + d) as char
  }

  /** `str(n)` for a natural number: its decimal digits, without leading zeros. */
  function Decimal(n: nat): (s: string)
    ensures s != []
    ensures forall i :: 0 <= i < |s| ==> '0' <= s[i] <= '9'
    ensures n > 0 ==> s[0] != '0'
    ensures n == 0 ==> s == "0"
    decreases n
  {
    if n < 10 then [DigitChar(n)] else Decimal(n / 10) + [DigitChar(n % 10)]
  }

  /** The value of a string of decimal digits. */
  function ParseDecimal(s: string): nat
    decreases |s|
  {
    if s == [] then 0
    else
      var c := s[|s| - 1];
      ParseDecimal(s[..|s| - 1]) * 10 + (if '0' <= c <= '9' then c as int - '0' as int else 0)
  }

  /** The digits `Decimal` writes read back as the number. */
  lemma {:induction false} DecimalRoundTrip(n: nat)
    ensures ParseDecimal(Decimal(n)) == n
    decreases n
  {
    if n >= 10 {
      DecimalRoundTrip(n / 10);
      var s := Decimal(n);
      assert s[..|s| - 1] == Decimal(n / 10);
    }
  }

  // ---------------------------------------------------------------- sections

  /** `f"{fixture['prediction']}"`: a missing prediction is rendered as the text `None`. */
  function PredictionText(p: Option<string>): string
  {
    match p
    case Some(s) => s
    case None => "None"
  }

  /** The numbered `home vs away` line of the `n`-th fixture of a section. */
  function MatchLine(n: nat, f: FixtureInfo): string
  {
    Decimal(n) + ". " + f.homeTeam + " vs " + f.awayTeam + "\n"
  }

  /** What each prediction line starts with: an indent, a trophy and the word Prediction. */
  const PredictionLead: string := "   " + Trophy + " Prediction: "

  /** The prediction line that follows each match line, with its blank line. */
  function PredictionLine(f: FixtureInfo): string
  {
    PredictionLead + PredictionText(f.prediction) + "\n\n"
  }

  /** The numbered entries of a league's fixtures, numbering from 1 as `enumerate(fixtures, 1)` does. */
  function Entries(fs: seq<FixtureInfo>): string
    decreases |fs|
  {
    if fs == [] then []
    else Entries(fs[..|fs| - 1]) + MatchLine(|fs|, fs[|fs| - 1]) + PredictionLine(fs[|fs| - 1])
  }

  /** The league header, taken from the section's first fixture. */
  function Header(f: FixtureInfo): string
  {
    "*" + Ball + " " + f.country + " - " + f.leagueName + " Fixtures*\n\n"
  }

  function Section(fs: seq<FixtureInfo>): string
    requires fs != []
  {
    Header(fs[0]) + Entries(fs) + Separator
  }

  /** The sections of the non-empty groups, in group order; an empty group adds nothing. */
  function Sections(groups: seq<seq<FixtureInfo>>): string
    decreases |groups|
  {
    if groups == [] then []
    else
      var last := groups[|groups| - 1];
      Sections(groups[..|groups| - 1]) + (if last == [] then [] else Section(last))
  }

  /** `not any(fixtures for fixtures in league_fixtures.values())` */
  predicate AllEmpty(groups: seq<seq<FixtureInfo>>)
  {
    forall i :: 0 <= i < |groups| ==> groups[i] == []
  }

  /** The title and the sections with trailing newlines and dashes stripped: the message before its footer. */
  function Body(groups: seq<seq<FixtureInfo>>): string
  {
    RStrip(Title + Sections(groups))
  }

  /** The message composed from the league lists in dictionary order; none when every list is empty. */
  function Message(groups: seq<seq<FixtureInfo>>): Option<string>
  {
    if AllEmpty(groups) then None else Some(Body(groups) + Separator + Footer)
  }

  // ---------------------------------------------------------------- properties

  /** The `(j+1)`-th entry is the `(j+1)`-numbered rendering of `fs[j]` and comes right after the first `j` entries. */
  lemma {:induction false} EntriesNumbering(fs: seq<FixtureInfo>, j: nat)
    requires j < |fs|
    ensures Entries(fs[..j]) + MatchLine(j + 1, fs[j]) + PredictionLine(fs[j]) <= Entries(fs)
  {
    EntriesSnoc(fs, j);
    EntriesPrefix(fs, j + 1);
  }

  /** The entries of a prefix of a league's list are a prefix of its entries. */
  lemma {:induction false} EntriesPrefix(fs: seq<FixtureInfo>, j: nat)
    requires j <= |fs|
    ensures Entries(fs[..j]) <= Entries(fs)
    decreases |fs| - j
  {
    if j == |fs| {
      assert fs[..j] == fs;
    } else {
      EntriesPrefix(fs, j + 1);
      EntriesSnoc(fs, j);
      PrefixOfConcat(Entries(fs[..j]), MatchLine(j + 1, fs[j]) + PredictionLine(fs[j]));
      Assoc(Entries(fs[..j]), MatchLine(j + 1, fs[j]), PredictionLine(fs[j]));
      PrefixTrans(Entries(fs[..j]), Entries(fs[..j + 1]), Entries(fs));
    }
  }

  /** Each non-empty group's section appears, in group order, right after the sections of the groups before it. */
  lemma SectionsInOrder(groups: seq<seq<FixtureInfo>>, i: nat)
    requires i < |groups| && groups[i] != []
    ensures Sections(groups[..i]) + Section(groups[i]) <= Sections(groups)
  {
    SectionsSnoc(groups, i);
    SectionsPrefix(groups, i + 1);
  }

  /** The sections of a prefix of the groups are a prefix of the sections. */
  lemma {:induction false} SectionsPrefix(groups: seq<seq<FixtureInfo>>, i: nat)
    requires i <= |groups|
    ensures Sections(groups[..i]) <= Sections(groups)
    decreases |groups| - i
  {
    if i == |groups| {
      assert groups[..i] == groups;
    } else {
      SectionsPrefix(groups, i + 1);
      SectionsSnoc(groups, i);
      PrefixOfConcat(Sections(groups[..i]), if groups[i] == [] then [] else Section(groups[i]));
      PrefixTrans(Sections(groups[..i]), Sections(groups[..i + 1]), Sections(groups));
    }
  }

  lemma PrefixTrans(a: string, b: string, c: string)
    requires a <= b && b <= c
    ensures a <= c
  {
  }

  /** When some group is non-empty the sections contain a character `rstrip` keeps (a header's `*`). */
  lemma {:induction false} SectionsHaveKeptChar(groups: seq<seq<FixtureInfo>>) returns (k: nat)
    requires !AllEmpty(groups)
    ensures k < |Sections(groups)| && !IsStripped(Sections(groups)[k])
    decreases |groups|
  {
    var init := groups[..|groups| - 1];
    var last := groups[|groups| - 1];
    if last != [] {
      k := |Sections(init)|;
      assert Sections(groups) == Sections(init) + Section(last);
      assert Section(last)[0] == '*';
    } else {
      assert !AllEmpty(init) by {
        var i :| 0 <= i < |groups| && groups[i] != [];
        assert i < |init| && init[i] == groups[i];
      }
      k := SectionsHaveKeptChar(init);
      assert Sections(groups) == Sections(init);
    }
  }

  /**
    A composed message starts with the title, ends with the separator and the
    two promotional lines, and what precedes the separator ends in neither a
    newline nor a dash.
   */
  lemma MessageShape(groups: seq<seq<FixtureInfo>>)
    requires !AllEmpty(groups)
    ensures Message(groups).Some?
    ensures var m := Message(groups).value;
      && Title <= Body(groups)
      && Title <= m
      && m == Body(groups) + Separator + Footer
      && !IsStripped(Body(groups)[|Body(groups)| - 1])
  {
    TitleStartsBody(groups);
    TitleNonEmpty();
    PrefixExtend(Title, Body(groups), Separator + Footer);
  }

  lemma TitleStartsBody(groups: seq<seq<FixtureInfo>>)
    requires !AllEmpty(groups)
    ensures Title <= Body(groups)
  {
    var k := SectionsHaveKeptChar(groups);
    RStripKeepsPrefix(Title, Sections(groups), k);
    PrefixOfConcat(Title, RStrip(Sections(groups)));
  }

  lemma TitleNonEmpty()
    ensures |Title| > 0
  {
    assert Title[0] == '*';
  }

  lemma PrefixExtend(a: string, b: string, c: string)
    requires a <= b
    ensures a <= b + c
  {
    assert (b + c)[..|a|] == b[..|a|];
  }

  lemma PrefixOfConcat(a: string, b: string)
    ensures a <= a + b
  {
    assert (a + b)[..|a|] == a;
  }

  /** The fixture whose prediction line ends the sections: the last fixture of the last non-empty group. */
  function LastFixture(groups: seq<seq<FixtureInfo>>): FixtureInfo
    requires !AllEmpty(groups)
    decreases |groups|
  {
    var last := groups[|groups| - 1];
    if last != [] then last[|last| - 1]
    else
      assert !AllEmpty(groups[..|groups| - 1]) by {
        var i :| 0 <= i < |groups| && groups[i] != [];
        assert i < |groups| - 1 && groups[..|groups| - 1][i] == groups[i];
      }
      LastFixture(groups[..|groups| - 1])
  }

  /** One more fixture adds one more numbered entry. */
  lemma EntriesSnoc(fs: seq<FixtureInfo>, i: nat)
    requires i < |fs|
    ensures Entries(fs[..i + 1]) == Entries(fs[..i]) + MatchLine(i + 1, fs[i]) + PredictionLine(fs[i])
  {
    assert fs[..i + 1][..i] == fs[..i];
  }

  /** One more group adds its section, or nothing when it is empty. */
  lemma SectionsSnoc(groups: seq<seq<FixtureInfo>>, k: nat)
    requires k < |groups|
    ensures Sections(groups[..k + 1]) == Sections(groups[..k]) + (if groups[k] == [] then [] else Section(groups[k]))
  {
    assert groups[..k + 1][..k] == groups[..k];
  }

  lemma Assoc(a: string, b: string, c: string)
    ensures a + b + c == a + (b + c)
  {
  }

  /** `s.endswith(suffix)` */
  predicate EndsWith(s: string, suffix: string)
  {
    |suffix| <= |s| && s[|s| - |suffix|..] == suffix
  }

  lemma EndsWithExtend(a: string, b: string, c: string)
    requires EndsWith(b, c)
    ensures EndsWith(a + b, c)
  {
    assert (a + b)[|a + b| - |c|..] == b[|b| - |c|..];
  }

  lemma EndsWithShift(a: string, b: string, c: string)
    requires EndsWith(a, b)
    ensures EndsWith(a + c, b + c)
  {
    assert (a + c)[|a + c| - |b + c|..] == a[|a| - |b|..] + c;
  }

  /** What a section ends with when `f` is its last fixture: the prediction line's text, its blank line and the league separator. */
  function SectionTail(f: FixtureInfo): string
  {
    PredictionLead + PredictionText(f.prediction) + "\n\n\n\n"
  }

  /** A section ends with its last prediction line, whose text is followed by that entry's blank line and the league separator. */
  lemma SectionEnd(fs: seq<FixtureInfo>)
    requires fs != []
    ensures EndsWith(Section(fs), SectionTail(fs[|fs| - 1]))
  {
    var f := fs[|fs| - 1];
    var u := PredictionLead + PredictionText(f.prediction);
    assert PredictionLine(f) == u + "\n\n";
    assert EndsWith(PredictionLine(f), u + "\n\n") by {
      assert PredictionLine(f)[0..] == PredictionLine(f);
    }
    EndsWithExtend(Entries(fs[..|fs| - 1]) + MatchLine(|fs|, f), PredictionLine(f), u + "\n\n");
    EndsWithExtend(Header(fs[0]), Entries(fs), u + "\n\n");
    EndsWithShift(Header(fs[0]) + Entries(fs), u + "\n\n", Separator);
    assert u + "\n\n" + Separator == SectionTail(f);
  }

  /** The sections end with the last prediction line followed by its blank line and the league separator. */
  lemma {:induction false} SectionsEnd(groups: seq<seq<FixtureInfo>>)
    requires !AllEmpty(groups)
    ensures EndsWith(Sections(groups), SectionTail(LastFixture(groups)))
    decreases |groups|
  {
    var init := groups[..|groups| - 1];
    var last := groups[|groups| - 1];
    if last != [] {
      SectionEnd(last);
      EndsWithExtend(Sections(init), Section(last), SectionTail(last[|last| - 1]));
    } else {
      assert !AllEmpty(init) by {
        var i :| 0 <= i < |groups| && groups[i] != [];
        assert i < |init| && init[i] == groups[i];
      }
      SectionsEnd(init);
    }
  }

  /** The prediction line's text after the lead ends in a kept character exactly when the advice is empty or itself ends in one. */
  lemma LeadEndsKept(t: string)
    ensures var u := PredictionLead + t;
      u != [] && (!IsStripped(u[|u| - 1]) <==> t == [] || !IsStripped(t[|t| - 1]))
  {
    var u := PredictionLead + t;
    if t == [] {
      assert u == PredictionLead;
      assert PredictionLead[|PredictionLead| - 1] == ' ';
    } else {
      assert u[|u| - 1] == t[|t| - 1];
    }
  }

  /**
    `rstrip` removes exactly the final blank line and league separator, and
    nothing else, if and only if the last prediction text is empty or does
    not itself end in a newline or a dash.
   */
  lemma RStripRemovesOnlySeparator(groups: seq<seq<FixtureInfo>>)
    requires !AllEmpty(groups)
    ensures EndsWith(Sections(groups), "\n\n\n\n")
    ensures var s := Sections(groups);
      var t := PredictionText(LastFixture(groups).prediction);
      Body(groups) == Title + s[..|s| - 4] <==> t == [] || !IsStripped(t[|t| - 1])
  {
    var t := PredictionText(LastFixture(groups).prediction);
    SectionsEnd(groups);
    assert SectionTail(LastFixture(groups)) == PredictionLead + t + "\n\n\n\n";
    StripSeparatorIff(Title, Sections(groups), t);
    assert Body(groups) == RStrip(Title + Sections(groups));
  }

  /** The generic form: after a prediction line with text `t`, `rstrip` removes only the four newlines iff `t` is empty or ends in a kept character. */
  lemma StripSeparatorIff(p: string, s: string, t: string)
    requires EndsWith(s, PredictionLead + t + "\n\n\n\n")
    ensures EndsWith(s, "\n\n\n\n")
    ensures RStrip(p + s) == p + s[..|s| - 4] <==> t == [] || !IsStripped(t[|t| - 1])
  {
    var u := PredictionLead + t;
    LeadEndsKept(t);
    assert u + "\n\n\n\n" == PredictionLead + t + "\n\n\n\n";
    if !IsStripped(u[|u| - 1]) {
      StripSeparatorTail(p, s, u);
    } else {
      StripSeparatorTailOnlyIf(p, s, u);
      assert s[|s| - 4..] == "\n\n\n\n";
    }
  }

  /** Four trailing newlines after a kept character are all that `rstrip` removes. */
  lemma StripSeparatorTail(p: string, s: string, u: string)
    requires u != [] && !IsStripped(u[|u| - 1])
    requires EndsWith(s, u + "\n\n\n\n")
    ensures EndsWith(s, "\n\n\n\n")
    ensures RStrip(p + s) == p + s[..|s| - 4]
  {
    var q := p + s[..|s| - 4];
    assert s == s[..|s| - 4] + "\n\n\n\n";
    assert p + s == q + "\n\n\n\n";
    assert s[|s| - 5] == u[|u| - 1];
    assert q[|q| - 1] == s[|s| - 5];
    RStripRemovesTail(q, "\n\n\n\n");
  }

  /** When a newline or dash precedes the four trailing newlines, `rstrip` removes more than those four. */
  lemma StripSeparatorTailOnlyIf(p: string, s: string, u: string)
    requires u != [] && IsStripped(u[|u| - 1])
    requires EndsWith(s, u + "\n\n\n\n")
    ensures RStrip(p + s) != p + s[..|s| - 4]
  {
    var q := p + s[..|s| - 4];
    assert s[|s| - 5] == u[|u| - 1];
    assert q[|q| - 1] == s[|s| - 5];
  }

  /** The message composition of `format_and_send_fixtures`, over the dictionary's lists in key order. */
  method ComposeMessage(leagueFixtures: Groups) returns (message: Option<string>)
    ensures message == Message(leagueFixtures.Values())
    ensures message.None? <==> AllEmpty(leagueFixtures.Values())
  {
    var groups := leagueFixtures.Values();
    if forall i :: 0 <= i < |groups| ==> groups[i] == [] {
      return None;
    }
    var m := Title;
    for k := 0 to |groups|
      invariant m == Title + Sections(groups[..k])
    {
      var fixtures := leagueFixtures.Get(leagueFixtures.keys[k]);
      assert fixtures == groups[k];
      if fixtures != [] {
        ghost var lead := m + Header(fixtures[0]);
        m := m + Header(fixtures[0]);
        for i := 0 to |fixtures|
          invariant m == lead + Entries(fixtures[..i])
        {
          EntriesSnoc(fixtures, i);
          Assoc(lead, Entries(fixtures[..i]), MatchLine(i + 1, fixtures[i]));
          Assoc(lead, Entries(fixtures[..i]) + MatchLine(i + 1, fixtures[i]), PredictionLine(fixtures[i]));
          m := m + MatchLine(i + 1, fixtures[i]);
          m := m + PredictionLine(fixtures[i]);
        }
        assert m + Separator == Title + Sections(groups[..k + 1]) by {
          assert fixtures[..|fixtures|] == fixtures;
          SectionsSnoc(groups, k);
          Assoc(Title + Sections(groups[..k]), Header(fixtures[0]), Entries(fixtures));
          Assoc(Title + Sections(groups[..k]), Header(fixtures[0]) + Entries(fixtures), Separator);
          Assoc(Title, Sections(groups[..k]), Section(fixtures));
        }
        m := m + Separator;
      } else {
        SectionsSnoc(groups, k);
      }
    }
    assert groups[..|groups|] == groups;
    m := RStrip(m);
    m := m + Separator;
    m := m + PromoMelbet;
    m := m + PromoXbet;
    assert m == Body(groups) + Separator + Footer by {
      Assoc(Body(groups) + Separator, PromoMelbet, PromoXbet);
    }
    return Some(m);
  }
}

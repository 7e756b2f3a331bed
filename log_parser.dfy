/**
 * Extraction of standing-change events from lines of the game log
 * (`parseLogLine` and the line loop of the watcher's timer callback in
 * main.js).
 *
 * The two regular expressions are not re-implemented: a `Matcher` stands
 * for the regular-expression engine and gives, for each pattern and line,
 * either no match or the two captures (the faction-name text and the
 * signed-number text). Everything from the captures onwards is modelled.
 */
module LogParser {
  import opened Wrappers
  import opened Factions
  import opened JsText

  // ------------------------------------------------------- alias table

  datatype AliasEntry = AliasEntry(alias: string, faction: Faction)

  /** The `syndicateMap` object of `parseLogLine`, in its insertion (iteration) order. */
  const Aliases: seq<AliasEntry> := [
    AliasEntry("SteelMeridian", Steel),
    AliasEntry("Steel Meridian", Steel),
    AliasEntry("ArbitersOfHexis", Arbiters),
    AliasEntry("Arbiters of Hexis", Arbiters),
    AliasEntry("CephalonSuda", Suda),
    AliasEntry("Cephalon Suda", Suda),
    AliasEntry("PerrinSequence", Perrin),
    AliasEntry("Perrin Sequence", Perrin),
    AliasEntry("ThePerrinSequence", Perrin),
    AliasEntry("RedVeil", Veil),
    AliasEntry("Red Veil", Veil),
    AliasEntry("NewLoka", Loka),
    AliasEntry("New Loka", Loka)
  ]

  /** A captured name and an alias are related when, lower-cased, either contains the other. */
  predicate Relates(name: string, alias: string)
  {
    Contains(Lower(name), Lower(alias)) || Contains(Lower(alias), Lower(name))
  }

  /** Entry `k` is the first entry of `table` that the name relates to. */
  ghost predicate IsFirstRelated(name: string, table: seq<AliasEntry>, k: int)
  {
    0 <= k < |table| && Relates(name, table[k].alias)
    && forall j :: 0 <= j < k ==> !Relates(name, table[j].alias)
  }

  /** Scans `table` from entry `from` and stops at the first related entry. */
  function FirstRelatedFrom(name: string, table: seq<AliasEntry>, from: nat): (r: Option<nat>)
    requires from <= |table|
    ensures r.Some? ==> from <= r.value < |table| && Relates(name, table[r.value].alias)
    ensures r.Some? ==> forall j :: from <= j < r.value ==> !Relates(name, table[j].alias)
    ensures r.None? ==> forall j :: from <= j < |table| ==> !Relates(name, table[j].alias)
    decreases |table| - from
  {
    if from == |table| then None
    else if Relates(name, table[from].alias) then Some(from)
    else FirstRelatedFrom(name, table, from + 1)
  }

  /**
   * The faction of the first table entry related to `name`; no faction
   * when no entry is related.
   */
  function Resolve(name: string): (r: Option<Faction>)
    ensures r.Some? ==> exists k :: IsFirstRelated(name, Aliases, k) && Aliases[k].faction == r.value
    ensures r.None? <==> forall j :: 0 <= j < |Aliases| ==> !Relates(name, Aliases[j].alias)
  {
    match FirstRelatedFrom(name, Aliases, 0)
    case Some(k) =>
      assert IsFirstRelated(name, Aliases, k);
      Some(Aliases[k].faction)
    case None => None
  }

  /** The empty name is contained in every alias, so it resolves to the first entry's faction. */
  lemma EmptyNameResolvesToSteel()
    ensures Resolve("") == Some(Steel)
  {
    assert OccursAt(Lower(Aliases[0].alias), Lower(""), 0);
  }

  /** A name equal to an alias relates to it. */
  lemma RelatesToItself(name: string)
    ensures Relates(name, name)
  {
    ContainsOccurs(Lower(name), Lower(name));
    assert OccursAt(Lower(name), Lower(name), 0);
  }

  /** The lower-case letter `c` occurs in `s` in either case. */
  predicate HasLetter(s: string, c: char)
  {
    c in s || UpperChar(c) in s
  }

  /**
   * A name and an alias are unrelated when each holds a letter (in either
   * case) that the other lacks.
   */
  lemma UnrelatedByLetters(name: string, alias: string, a: char, n: char)
    requires 'a' <= a <= 'z' && 'a' <= n <= 'z'
    requires HasLetter(alias, a) && !HasLetter(name, a)
    requires HasLetter(name, n) && !HasLetter(alias, n)
    ensures !Relates(name, alias)
  {
    LowerHasLetter(name, a);
    LowerHasLetter(alias, a);
    LowerHasLetter(name, n);
    LowerHasLetter(alias, n);
    MissingCharNotContained(Lower(name), Lower(alias), a);
    MissingCharNotContained(Lower(alias), Lower(name), n);
  }

  /** The scan stops at the first related entry, in the two-entry block of one faction. */
  lemma ScanStopsWithin(name: string, lo: nat)
    requires lo + 1 < |Aliases| && Aliases[lo].faction == Aliases[lo + 1].faction
    requires Relates(name, Aliases[lo + 1].alias)
    ensures FirstRelatedFrom(name, Aliases, lo).Some?
    ensures Aliases[FirstRelatedFrom(name, Aliases, lo).value].faction == Aliases[lo].faction
  {
  }

  /** The display name `Steel Meridian` relates to the second entry, so it resolves to Steel Meridian. */
  lemma SteelNameResolves(name: string)
    requires name == "Steel Meridian"
    ensures Resolve(name) == Some(Steel)
  {
    RelatesToItself(name);
    ScanStopsWithin(name, 0);
  }

  // ------------------------------------------------------ line parsing

  /** The two regular expressions of `parseLogLine`, in the order they are tried. */
  datatype Pattern = StandingPattern | SyndicatePattern

  /** The two capture groups of a match: the faction-name text and the `[+-]?\d+` number text. */
  datatype Captures = Captures(name: string, number: NumberText)

  /** The regular-expression engine: `line.match(pattern)`. */
  type Matcher = (Pattern, string) -> Option<Captures>

  datatype StandingEvent = StandingEvent(faction: Faction, change: int)

  /** From the captures of a match: the trimmed name is resolved and the number text read in base 10. */
  function EventFromCaptures(c: Captures): (r: Option<StandingEvent>)
    ensures r.None? <==> forall j :: 0 <= j < |Aliases| ==> !Relates(Trim(c.name), Aliases[j].alias)
    ensures r.Some? ==> exists k :: IsFirstRelated(Trim(c.name), Aliases, k) && Aliases[k].faction == r.value.faction
    ensures r.Some? ==> r.value.change == ParseInt(c.number)
  {
    match Resolve(Trim(c.name))
    case Some(f) => Some(StandingEvent(f, ParseInt(c.number)))
    case None => None
  }

  /**
   * `parseLogLine`: the standing pattern is tried first and the syndicate
   * pattern only when it does not match; no match, or a name related to no
   * alias, gives no event.
   */
  function ParseLogLine(line: string, matcher: Matcher): (r: Option<StandingEvent>)
    ensures matcher(StandingPattern, line).None? && matcher(SyndicatePattern, line).None? ==> r.None?
    ensures matcher(StandingPattern, line).Some? ==> r == EventFromCaptures(matcher(StandingPattern, line).value)
    ensures matcher(StandingPattern, line).None? && matcher(SyndicatePattern, line).Some? ==>
              r == EventFromCaptures(matcher(SyndicatePattern, line).value)
  {
    var found := if matcher(StandingPattern, line).Some? then matcher(StandingPattern, line)
                 else matcher(SyndicatePattern, line);
    match found
    case None => None
    case Some(c) => EventFromCaptures(c)
  }

  /** When the standing pattern matches, what the syndicate pattern would give does not matter. */
  lemma SyndicateConsultedOnlyOnMiss(line: string, m1: Matcher, m2: Matcher)
    requires m1(StandingPattern, line) == m2(StandingPattern, line)
    requires m1(StandingPattern, line).Some? || m1(SyndicatePattern, line) == m2(SyndicatePattern, line)
    ensures ParseLogLine(line, m1) == ParseLogLine(line, m2)
  {
  }

  /**
   * The example of the source's comment, `Syndicate Standing: Steel Meridian +500`:
   * the standing pattern captures `Steel Meridian` and `+500`.
   */
  lemma SteelMeridianExample(line: string, matcher: Matcher)
    requires matcher(StandingPattern, line) == Some(Captures("Steel Meridian", "+500"))
    ensures ParseLogLine(line, matcher) == Some(StandingEvent(Steel, 500))
  {
    SteelCaptures(matcher(StandingPattern, line).value);
  }

  /** The captures of the example give a Steel Meridian event of +500. */
  lemma SteelCaptures(c: Captures)
    requires c == Captures("Steel Meridian", "+500")
    ensures EventFromCaptures(c) == Some(StandingEvent(Steel, 500))
  {
    SteelNameTrimmed(c.name);
    SteelNameResolves(c.name);
    PlusFiveHundred(c.number);
    ResolvedCaptures(c, Steel, 500);
  }

  /** `Steel Meridian` has no surrounding white space. */
  lemma SteelNameTrimmed(name: string)
    requires name == "Steel Meridian"
    ensures Trim(name) == name
  {
    assert name[0] == 'S' && name[|name| - 1] == 'n';
    TrimKeepsTrimmed(name);
  }

  /** Captures whose trimmed name resolves and whose number reads as `n` give that event. */
  lemma ResolvedCaptures(c: Captures, f: Faction, n: int)
    requires Trim(c.name) == c.name && Resolve(c.name) == Some(f) && ParseInt(c.number) == n
    ensures EventFromCaptures(c) == Some(StandingEvent(f, n))
  {
  }

  /** The number text `+500` is read as 500, digit by digit. */
  lemma PlusFiveHundred(s: NumberText)
    requires s == "+500"
    ensures ParseInt(s) == 500
  {
    var d := s[1..];
    assert d == "500" && d[..2] == "50" && d[..2][..1] == "5" && d[..2][..1][..0] == "";
    assert DigitsValue(d[..2][..1]) == 5;
    assert DigitsValue(d[..2]) == 50;
    assert DigitsValue(d) == 500;
  }

  /** A name capture made only of white space trims to the empty name and is credited to Steel Meridian. */
  lemma BlankNameCreditsSteel(c: Captures)
    requires AllWhitespace(c.name)
    ensures EventFromCaptures(c) == Some(StandingEvent(Steel, ParseInt(c.number)))
  {
    EmptyNameResolvesToSteel();
  }

  // ---------------------------------------------------- line dispatch

  /** What one line sends: its event, if `parseLogLine` gives one. */
  function LineEvent(line: string, matcher: Matcher): seq<StandingEvent>
  {
    match ParseLogLine(line, matcher)
    case Some(e) => [e]
    case None => []
  }

  /** Events of a sequence of lines, in line order; lines without an event contribute nothing. */
  function LineEvents(lines: seq<string>, matcher: Matcher): (r: seq<StandingEvent>)
    ensures |r| <= |lines|
  {
    if lines == [] then []
    else LineEvents(lines[..|lines| - 1], matcher) + LineEvent(lines[|lines| - 1], matcher)
  }

  /** Events of a read chunk: nothing for the empty chunk, else the events of its `\n`-separated lines. */
  function ChunkEvents(text: string, matcher: Matcher): seq<StandingEvent>
  {
    if text == [] then [] else LineEvents(Split(text, '\n'), matcher)
  }

  /** Lines can be processed in any grouping: the events of two runs of lines concatenate. */
  lemma {:induction false} LineEventsAppend(a: seq<string>, b: seq<string>, matcher: Matcher)
    ensures LineEvents(a + b, matcher) == LineEvents(a, matcher) + LineEvents(b, matcher)
    decreases |b|
  {
    if b != [] {
      var init := b[..|b| - 1];
      var last := b[|b| - 1];
      assert (a + b)[..|a + b| - 1] == a + init;
      assert (a + b)[|a + b| - 1] == last;
      assert LineEvents(a + b, matcher) == LineEvents(a + init, matcher) + LineEvent(last, matcher);
      assert LineEvents(b, matcher) == LineEvents(init, matcher) + LineEvent(last, matcher);
      LineEventsAppend(a, init, matcher);
    } else {
      assert a + b == a;
    }
  }

  /** Every event comes from some line and equals what `parseLogLine` gives for that line. */
  lemma {:induction false} LineEventsComeFromLines(lines: seq<string>, matcher: Matcher, i: int)
    requires 0 <= i < |LineEvents(lines, matcher)|
    ensures exists k :: 0 <= k < |lines| && ParseLogLine(lines[k], matcher) == Some(LineEvents(lines, matcher)[i])
  {
    var init := lines[..|lines| - 1];
    if i < |LineEvents(init, matcher)| {
      LineEventsComeFromLines(init, matcher, i);
      var k :| 0 <= k < |init| && ParseLogLine(init[k], matcher) == Some(LineEvents(init, matcher)[i]);
      assert lines[k] == init[k];
    } else {
      assert ParseLogLine(lines[|lines| - 1], matcher) == Some(LineEvents(lines, matcher)[i]);
    }
  }

  /**
   * The timer callback's loop: split the chunk on `\n`, parse each line and
   * send the non-null results, in order.
   */
  method DispatchChunk(text: string, matcher: Matcher) returns (sent: seq<StandingEvent>)
    ensures sent == ChunkEvents(text, matcher)
    ensures text != [] && '\n' !in text ==> sent == LineEvent(text, matcher)
  {
    sent := [];
    if text != [] {
      var lines := Split(text, '\n');
      for i := 0 to |lines|
        invariant sent == LineEvents(lines[..i], matcher)
      {
        var result := ParseLogLine(lines[i], matcher);
        assert lines[..i + 1][..i] == lines[..i];
        if result.Some? {
          sent := sent + [result.value];
        }
      }
      assert lines[..|lines|] == lines;
      if '\n' !in text {
        SplitWithoutSeparator(text, '\n');
      }
    }
  }
}

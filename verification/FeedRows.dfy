/** What a mapped snapshot says about one match, market or outcome of the feed, read off the provider's own
    fields. */
module FeedRows {
  import opened Domain
  import opened OddsLabels
  import opened ProviderSnapshot
  import opened OddsMapper
  import opened FeedProvenance

  // Reports

  /** The scores received for the p-th requested sport. */
  function Reports(feed: Feed, p: nat): seq<EventScore>
    requires p < |feed.sportKeys|
  {
    if feed.sportKeys[p] in feed.scoresBySport then feed.scoresBySport[feed.sportKeys[p]] else []
  }

  /** The q-th score of the p-th sport is the last one of the feed for this match. */
  predicate LastReport(feed: Feed, id: string, p: nat, q: nat) {
    && p < |feed.sportKeys| && q < |Reports(feed, p)| && Reports(feed, p)[q].id == id
    && (forall j :: q < j < |Reports(feed, p)| ==> Reports(feed, p)[j].id != id)
    && (forall i, j :: p < i < |feed.sportKeys| && 0 <= j < |Reports(feed, i)| ==> Reports(feed, i)[j].id != id)
  }

  predicate Unreported(feed: Feed, id: string) {
    forall i, j :: 0 <= i < |feed.sportKeys| && 0 <= j < |Reports(feed, i)| ==> Reports(feed, i)[j].id != id
  }

  lemma {:induction false} NotIndexed(index: map<string, EventScore>, scores: seq<EventScore>, id: string)
    requires forall j :: 0 <= j < |scores| ==> scores[j].id != id
    ensures var t := IndexScores(index, scores); (id in t <==> id in index) && (id in t ==> t[id] == index[id])
  {
    if scores != [] {
      NotIndexed(index, scores[..|scores| - 1], id);
    }
  }

  lemma {:induction false} IndexedLast(index: map<string, EventScore>, scores: seq<EventScore>, q: nat)
    requires q < |scores| && forall j :: q < j < |scores| ==> scores[j].id != scores[q].id
    ensures var t := IndexScores(index, scores); scores[q].id in t && t[scores[q].id] == scores[q]
  {
    if q < |scores| - 1 {
      IndexedLast(index, scores[..|scores| - 1], q);
    }
  }

  lemma IndexNext(feed: Feed, n: nat)
    requires 0 < n <= |feed.sportKeys|
    ensures ScoresByEventId(feed, feed.sportKeys[..n]) == IndexScores(ScoresByEventId(feed, feed.sportKeys[..n - 1]), Reports(feed, n - 1))
  {
    assert feed.sportKeys[..n][..n - 1] == feed.sportKeys[..n - 1];
    hide IndexScores;
  }

  lemma {:induction false} IndexIsLastReport(feed: Feed, n: nat, id: string, p: nat, q: nat)
    requires n <= |feed.sportKeys| && LastReport(feed, id, p, q) && p < n
    ensures var index := ScoresByEventId(feed, feed.sportKeys[..n]); id in index && index[id] == Reports(feed, p)[q]
  {
    IndexNext(feed, n);
    hide IndexScores, ScoresByEventId, Reports;
    if p < n - 1 {
      NotIndexed(ScoresByEventId(feed, feed.sportKeys[..n - 1]), Reports(feed, n - 1), id);
      IndexIsLastReport(feed, n - 1, id, p, q);
    } else {
      IndexedLast(ScoresByEventId(feed, feed.sportKeys[..n - 1]), Reports(feed, n - 1), q);
    }
  }

  lemma {:induction false} UnreportedIsAbsent(feed: Feed, n: nat, id: string)
    requires n <= |feed.sportKeys| && Unreported(feed, id)
    ensures id !in ScoresByEventId(feed, feed.sportKeys[..n])
  {
    if n > 0 {
      IndexNext(feed, n);
      hide IndexScores, ScoresByEventId, Reports;
      UnreportedIsAbsent(feed, n - 1, id);
      NotIndexed(ScoresByEventId(feed, feed.sportKeys[..n - 1]), Reports(feed, n - 1), id);
    } else {
      assert feed.sportKeys[..0] == [];
    }
  }

  // The last match with an id

  function LastMatch(ms: seq<Match>, id: string): Option<Match> {
    if ms == [] then None else if ms[|ms| - 1].id == id then Some(ms[|ms| - 1]) else LastMatch(ms[..|ms| - 1], id)
  }

  lemma {:induction false} LastMatchThen(a: seq<Match>, b: seq<Match>, id: string)
    ensures LastMatch(a + b, id) == if LastMatch(b, id).Some? then LastMatch(b, id) else LastMatch(a, id)
  {
    if b == [] {
      assert a + b == a;
    } else {
      assert (a + b)[..|a + b| - 1] == a + b[..|b| - 1];
      LastMatchThen(a, b[..|b| - 1], id);
    }
  }

  lemma {:induction false} LastMatchId(ms: seq<Match>, id: string)
    ensures LastMatch(ms, id).Some? <==> id in Ids(ms)
    ensures LastMatch(ms, id).Some? ==> LastMatch(ms, id).value.id == id
  {
    if ms != [] {
      LastMatchId(ms[..|ms| - 1], id);
      IdsNext(ms[..|ms| - 1], ms[|ms| - 1]);
      assert ms == ms[..|ms| - 1] + [ms[|ms| - 1]];
    }
  }

  lemma {:induction false} RowsOfLastMatch(ms: seq<Match>, now: int, slug: string -> string, id: string)
    requires LastMatch(ms, id).Some?
    ensures LastWrite(FixtureWrites(ms, now, slug), id) == Some(FixtureRow(LastMatch(ms, id).value, now, slug))
    ensures LastWrite(EventWrites(ms, now), id) == Some(EventRow(LastMatch(ms, id).value, now))
  {
    hide FixtureRow, EventRow;
    var front, m := ms[..|ms| - 1], ms[|ms| - 1];
    LastNext(FixtureWrites(front, now, slug), (m.id, FixtureRow(m, now, slug)), id);
    LastNext(EventWrites(front, now), (m.id, EventRow(m, now)), id);
    if m.id != id {
      RowsOfLastMatch(front, now, slug, id);
    }
  }

  // Matches with odds

  /** Every match with odds that has this id is this one, under this sport. */
  predicate OnlyOdds(feed: Feed, sport: string, e: EventOdds) {
    && sport in feed.sportKeys && sport in feed.oddsBySport && e in feed.oddsBySport[sport]
    && forall other, x :: other in feed.sportKeys && other in feed.oddsBySport && x in feed.oddsBySport[other] && x.id == e.id ==>
         other == sport && x == e
  }

  lemma {:induction false} LastOfEvents(feed: Feed, index: map<string, EventScore>, sport: string, config: SportConfig, es: seq<EventOdds>,
                                        slug: string -> string, e: EventOdds)
    requires forall x :: x in es && x.id == e.id ==> x == e
    ensures LastMatch(EventsLog(feed, index, sport, config, es, slug).matches, e.id)
         == if e in es then Some(OddsMatch(index, sport, config, e)) else None
  {
    hide MarketsLog, PickBookmaker, Done;
    if es != [] {
      var front, last := es[..|es| - 1], es[|es| - 1];
      assert es == front + [last];
      LastOfEvents(feed, index, sport, config, front, slug, e);
      var m := OddsMatch(index, sport, config, last);
      EventLogMatches(feed, index, sport, config, last, slug);
      LastMatchThen(EventsLog(feed, index, sport, config, front, slug).matches, [m], e.id);
      assert LastMatch([m], e.id) == if m.id == e.id then Some(m) else None by { assert [m][..0] == []; }
    }
  }

  lemma EventLogMatches(feed: Feed, index: map<string, EventScore>, sport: string, config: SportConfig, e: EventOdds, slug: string -> string)
    ensures EventLog(feed, index, sport, config, e, slug).matches == [OddsMatch(index, sport, config, e)]
  {
    hide PickBookmaker, Done;
    var bookmaker := PickBookmaker(e.bookmakers, config.bookmaker);
    if bookmaker.Some? {
      MarketsLogMatches(feed, e.id, bookmaker.value.key, Done(index, e.id), bookmaker.value.markets, slug);
    }
  }

  lemma {:induction false} MarketsLogMatches(feed: Feed, event: string, bookmaker: string, done: bool, ms: seq<ApiMarket>, slug: string -> string)
    ensures MarketsLog(feed, event, bookmaker, done, ms, slug).matches == []
  {
    if ms != [] {
      MarketsLogMatches(feed, event, bookmaker, done, ms[..|ms| - 1], slug);
    }
  }

  lemma {:induction false} SeenScoresAreSkipped(seen: set<string>, sport: string, config: SportConfig, odds: set<string>, ss: seq<EventScore>, id: string)
    requires id in seen || id in odds
    ensures LastMatch(ScoreMatches(seen, sport, config, odds, ss), id) == None
  {
    if ss != [] {
      var front := ScoreMatches(seen, sport, config, odds, ss[..|ss| - 1]);
      SeenScoresAreSkipped(seen, sport, config, odds, ss[..|ss| - 1], id);
      var last := ScoreMatch(sport, config, ss[|ss| - 1]);
      assert (front + [last])[..|front|] == front;
    }
  }

  /** The matches of one more sport. */
  lemma SportMatches(before: Log, feed: Feed, index: map<string, EventScore>, sport: string, slug: string -> string, id: string)
    ensures var config := ConfigOf(feed, sport, slug);
            var odds := EventsLog(feed, index, sport, config, OddsOf(feed, sport), slug).matches;
            var scores := ScoreMatches(Ids(before.matches + odds), sport, config, EventIds(OddsOf(feed, sport)), ScoresOf(feed, sport));
            && SportLog(before, feed, index, sport, slug).matches == before.matches + odds + scores
            && LastMatch(before.matches + odds + scores, id)
               == (if LastMatch(scores, id).Some? then LastMatch(scores, id)
                   else if LastMatch(odds, id).Some? then LastMatch(odds, id) else LastMatch(before.matches, id))
  {
    hide ConfigOf, EventsLog, ScoreMatches, OddsOf, ScoresOf, EventIds, Ids, LastMatch;
    var config := ConfigOf(feed, sport, slug);
    var odds := EventsLog(feed, index, sport, config, OddsOf(feed, sport), slug).matches;
    var scores := ScoreMatches(Ids(before.matches + odds), sport, config, EventIds(OddsOf(feed, sport)), ScoresOf(feed, sport));
    LastMatchThen(before.matches + odds, scores, id);
    LastMatchThen(before.matches, odds, id);
  }

  lemma {:induction false} LastIsOdds(feed: Feed, index: map<string, EventScore>, sports: seq<string>, slug: string -> string, sport: string, e: EventOdds)
    requires OnlyOdds(feed, sport, e) && sport in sports && forall i :: 0 <= i < |sports| ==> sports[i] in feed.sportKeys
    ensures LastMatch(SportsLog(feed, index, sports, slug).matches, e.id) == Some(OddsMatch(index, sport, ConfigOf(feed, sport, slug), e))
  {
    var front, last := sports[..|sports| - 1], sports[|sports| - 1];
    assert sports == front + [last] && last in feed.sportKeys;
    var before, config := SportsLog(feed, index, front, slug), ConfigOf(feed, last, slug);
    SportMatches(before, feed, index, last, slug, e.id);
    LastOfEvents(feed, index, last, config, OddsOf(feed, last), slug, e);
    var odds := EventsLog(feed, index, last, config, OddsOf(feed, last), slug).matches;
    LastMatchId(before.matches + odds, e.id);
    if last != sport {
      LastIsOdds(feed, index, front, slug, sport, e);
      assert e !in OddsOf(feed, last);
    }
    hide ConfigOf, EventsLog, ScoreMatches, SportLog, OddsMatch;
    LastMatchThen(before.matches, odds, e.id);
    SeenScoresAreSkipped(Ids(before.matches + odds), last, config, EventIds(OddsOf(feed, last)), ScoresOf(feed, last), e.id);
  }

  /** The rows of one match: its league, kick-off and teams, ended once it is reported completed, live from
      kick-off on, and each side's own score. */
  predicate MatchRows(snap: Snapshot, now: int, slug: string -> string, sport: string, id: string, commenceTime: int,
                      home: string, away: string, completed: bool, scores: seq<ScoreEntry>)
  {
    && RowOf(snap.fixtures, id).Some? && RowOf(snap.events, id).Some?
    && var f, e := RowOf(snap.fixtures, id).value, RowOf(snap.events, id).value;
       && f.league == sport && f.startsAt == commenceTime && f.home == sport + "_" + slug(home) && f.away == sport + "_" + slug(away)
       && f.status == (if completed then FixtureStatus.Ended else if commenceTime > now then FixtureStatus.Scheduled else FixtureStatus.Live)
       && e.fixture == id
       && e.status == (if completed then EventStatus.Ended else if commenceTime > now then EventStatus.Scheduled else EventStatus.Live)
       && ScoreFor(scores, home, e.homeScore) && ScoreFor(scores, away, e.awayScore)
  }

  lemma LastMatchRows(feed: Feed, now: int, slug: string -> string, id: string)
    requires LastMatch(LogOf(feed, slug).matches, id).Some?
    ensures var m := LastMatch(LogOf(feed, slug).matches, id).value;
            MatchRows(Mapped(feed, now, slug), now, slug, m.sport, id, m.commenceTime, m.home, m.away, m.completed, m.scores)
  {
    var ms := LogOf(feed, slug).matches;
    hide Mapped, LogOf, FindScore, LastMatch, LastWrite, TeamWrites, FixtureWrites, EventWrites, RowOf, ScoreFor;
    RowsOfLastMatch(ms, now, slug, id);
    LastMatchId(ms, id);
    SnapshotIsLastWrites(feed, now, slug, id);
    var m := LastMatch(ms, id).value;
    FindScoreMeans(m.scores, m.home);
    FindScoreMeans(m.scores, m.away);
  }

  /** A match with odds is in the snapshot as the provider sent it, with the state and the scores of the last
      report on it, and without scores when there is no report. */
  lemma OddsMatchRows(feed: Feed, now: int, slug: string -> string, sport: string, e: EventOdds)
    requires OnlyOdds(feed, sport, e)
    ensures forall p: nat, q: nat :: LastReport(feed, e.id, p, q) ==>
              MatchRows(Mapped(feed, now, slug), now, slug, sport, e.id, e.commenceTime, e.homeTeam, e.awayTeam,
                        Reports(feed, p)[q].completed, Reports(feed, p)[q].scores)
    ensures Unreported(feed, e.id) ==>
              MatchRows(Mapped(feed, now, slug), now, slug, sport, e.id, e.commenceTime, e.homeTeam, e.awayTeam, false, [])
  {
    assert feed.sportKeys[..|feed.sportKeys|] == feed.sportKeys;
    hide MatchRows, LastReport, Unreported;
    OddsRowsAsIndexed(feed, now, slug, sport, e);
    hide *;
    forall p: nat, q: nat | LastReport(feed, e.id, p, q)
      ensures p < |feed.sportKeys| && q < |Reports(feed, p)|
      ensures MatchRows(Mapped(feed, now, slug), now, slug, sport, e.id, e.commenceTime, e.homeTeam, e.awayTeam,
                        Reports(feed, p)[q].completed, Reports(feed, p)[q].scores)
    {
      InReports(feed, e.id, p, q);
      IndexIsLastReport(feed, |feed.sportKeys|, e.id, p, q);
    }
    if Unreported(feed, e.id) {
      UnreportedIsAbsent(feed, |feed.sportKeys|, e.id);
    }
  }

  lemma OddsRowsAsIndexed(feed: Feed, now: int, slug: string -> string, sport: string, e: EventOdds)
    requires OnlyOdds(feed, sport, e)
    ensures var index := ScoresByEventId(feed, feed.sportKeys);
            MatchRows(Mapped(feed, now, slug), now, slug, sport, e.id, e.commenceTime, e.homeTeam, e.awayTeam,
                      e.id in index && index[e.id].completed, if e.id in index then index[e.id].scores else [])
  {
    hide Mapped, LogOf, MatchRows, ScoresByEventId, LastMatch, ConfigOf, SportsLog;
    LastIsOdds(feed, ScoresByEventId(feed, feed.sportKeys), feed.sportKeys, slug, sport, e) by { KeysAreRequested(feed); }
    LogIs(feed, slug);
    LastMatchRows(feed, now, slug, e.id);
  }

  lemma KeysAreRequested(feed: Feed)
    ensures forall i :: 0 <= i < |feed.sportKeys| ==> feed.sportKeys[i] in feed.sportKeys
  {}

  lemma InReports(feed: Feed, id: string, p: nat, q: nat)
    requires LastReport(feed, id, p, q)
    ensures p < |feed.sportKeys| && q < |Reports(feed, p)|
  {}

  // Matches with scores only

  /** No odds carry this id, and only this score does. */
  predicate OnlyScore(feed: Feed, sport: string, s: EventScore) {
    && sport in feed.sportKeys && sport in feed.scoresBySport && s in feed.scoresBySport[sport]
    && (forall other, x :: other in feed.sportKeys && other in feed.oddsBySport && x in feed.oddsBySport[other] ==> x.id != s.id)
    && (forall other, x :: other in feed.sportKeys && other in feed.scoresBySport && x in feed.scoresBySport[other] && x.id == s.id ==>
          other == sport && x == s)
  }

  lemma {:induction false} LastOfScores(seen: set<string>, sport: string, config: SportConfig, odds: set<string>, ss: seq<EventScore>, s: EventScore)
    requires s.id !in odds && forall x :: x in ss && x.id == s.id ==> x == s
    ensures LastMatch(ScoreMatches(seen, sport, config, odds, ss), s.id)
         == if s.id !in seen && s in ss then Some(ScoreMatch(sport, config, s)) else None
  {
    if ss != [] {
      var front, last := ss[..|ss| - 1], ss[|ss| - 1];
      assert ss == front + [last];
      LastOfScores(seen, sport, config, odds, front, s);
      var before, m := ScoreMatches(seen, sport, config, odds, front), ScoreMatch(sport, config, last);
      LastMatchId(before, s.id);
      assert (before + [m])[..|before|] == before;
    }
  }

  lemma {:induction false} NoOddsInEvents(feed: Feed, index: map<string, EventScore>, sport: string, config: SportConfig, es: seq<EventOdds>,
                                          slug: string -> string, id: string)
    requires forall x :: x in es ==> x.id != id
    ensures LastMatch(EventsLog(feed, index, sport, config, es, slug).matches, id) == None
  {
    hide MarketsLog, PickBookmaker, Done;
    if es != [] {
      var front, last := es[..|es| - 1], es[|es| - 1];
      NoOddsInEvents(feed, index, sport, config, front, slug, id);
      EventLogMatches(feed, index, sport, config, last, slug);
      var before, m := EventsLog(feed, index, sport, config, front, slug).matches, OddsMatch(index, sport, config, last);
      assert (before + [m])[..|before|] == before;
    }
  }

  lemma {:induction false} LastIsScore(feed: Feed, index: map<string, EventScore>, sports: seq<string>, slug: string -> string, sport: string, s: EventScore)
    requires OnlyScore(feed, sport, s) && forall i :: 0 <= i < |sports| ==> sports[i] in feed.sportKeys
    ensures LastMatch(SportsLog(feed, index, sports, slug).matches, s.id)
         == if sport in sports then Some(ScoreMatch(sport, ConfigOf(feed, sport, slug), s)) else None
  {
    if sports != [] {
      var front, last := sports[..|sports| - 1], sports[|sports| - 1];
      assert sports == front + [last] && last in feed.sportKeys;
      hide SportLog;
      assert SportsLog(feed, index, sports, slug) == SportLog(SportsLog(feed, index, front, slug), feed, index, last, slug);
      hide SportsLog;
      LastIsScore(feed, index, front, slug, sport, s);
      OnlyInItsSport(feed, last, sport, s);
      hide ConfigOf, EventsLog, ScoreMatches, ScoreMatch, OnlyScore, Ids, ScoresOf, OddsOf, EventIds, LastMatch;
      var before, config := SportsLog(feed, index, front, slug), ConfigOf(feed, last, slug);
      var odds := EventsLog(feed, index, last, config, OddsOf(feed, last), slug).matches;
      NoOddsInEvents(feed, index, last, config, OddsOf(feed, last), slug, s.id);
      LastMatchId(before.matches + odds, s.id);
      LastMatchThen(before.matches, odds, s.id);
      SportMatches(before, feed, index, last, slug, s.id);
      LastOfScores(Ids(before.matches + odds), last, config, EventIds(OddsOf(feed, last)), ScoresOf(feed, last), s);
    }
  }

  lemma OnlyInItsSport(feed: Feed, last: string, sport: string, s: EventScore)
    requires OnlyScore(feed, sport, s) && last in feed.sportKeys
    ensures s.id !in EventIds(OddsOf(feed, last)) && (s in ScoresOf(feed, last) <==> last == sport)
    ensures forall x :: x in OddsOf(feed, last) ==> x.id != s.id
    ensures forall x :: x in ScoresOf(feed, last) && x.id == s.id ==> x == s
  {}

  /** A match that is only reported on is in the snapshot as the report has it. */
  lemma ScoreMatchRows(feed: Feed, now: int, slug: string -> string, sport: string, s: EventScore)
    requires OnlyScore(feed, sport, s)
    ensures MatchRows(Mapped(feed, now, slug), now, slug, sport, s.id, s.commenceTime, s.homeTeam, s.awayTeam, s.completed, s.scores)
  {
    LastIsScore(feed, ScoresByEventId(feed, feed.sportKeys), feed.sportKeys, slug, sport, s);
    LogIs(feed, slug);
    LastMatchRows(feed, now, slug, s.id);
    hide Mapped, LogOf, MatchRows, ScoresByEventId, LastMatch, ConfigOf, SportsLog, OnlyScore;
  }

  // Markets and outcomes

  /** A market of a supported kind from the first bookmaker of a match with odds in a requested sport. */
  predicate Offered(feed: Feed, sport: string, e: EventOdds, b: Bookmaker, m: ApiMarket) {
    && sport in feed.sportKeys && sport in feed.oddsBySport && e in feed.oddsBySport[sport]
    && e.bookmakers != [] && b == e.bookmakers[0] && m in b.markets && m.key in feed.marketKeys && m.key in {"h2h", "spreads", "totals"}
  }

  /** No bookmaker is preferred for any sport, so the first one is picked. */
  lemma FirstIsPicked(feed: Feed, slug: string -> string, sport: string, e: EventOdds, b: Bookmaker, m: ApiMarket)
    requires Offered(feed, sport, e, b, m)
    ensures InFeed(feed, slug, sport, e, b, m)
  {
    hide FirstPart, Title, FindSport, FindBookmaker;
  }

  /** The point of the first outcome that has one. */
  predicate LineFor(outcomes: seq<Outcome>, line: Option<int>) {
    && (forall k :: 0 <= k < |outcomes| && outcomes[k].point.Some? && (forall j :: 0 <= j < k ==> outcomes[j].point.None?) ==>
          line == outcomes[k].point)
    && ((forall k :: 0 <= k < |outcomes| ==> outcomes[k].point.None?) ==> line == None)
  }

  lemma {:induction false} MarketLineMeans(outcomes: seq<Outcome>)
    ensures LineFor(outcomes, MarketLine(outcomes))
  {
    if outcomes != [] && outcomes[0].point.None? {
      var rest := outcomes[1..];
      MarketLineMeans(rest);
      forall k | 0 <= k < |outcomes| && outcomes[k].point.Some? && forall j :: 0 <= j < k ==> outcomes[j].point.None?
        ensures MarketLine(outcomes) == outcomes[k].point
      {
        assert rest[k - 1] == outcomes[k];
        assert forall j :: 0 <= j < k - 1 ==> rest[j] == outcomes[j + 1];
      }
      if forall k :: 0 <= k < |outcomes| ==> outcomes[k].point.None? {
        assert forall k :: 0 <= k < |rest| ==> rest[k] == outcomes[k + 1];
      }
    }
  }

  /** The last report on the match says that it is completed, or that it is not, or there is none. */
  predicate ReportedAs(feed: Feed, id: string, completed: bool) {
    && (forall p: nat, q: nat :: p < |feed.sportKeys| && q < |Reports(feed, p)| && LastReport(feed, id, p, q) ==>
          completed == Reports(feed, p)[q].completed)
    && (Unreported(feed, id) ==> !completed)
  }

  lemma DoneMeans(feed: Feed, id: string)
    ensures ReportedAs(feed, id, Done(ScoresByEventId(feed, feed.sportKeys), id))
  {
    assert feed.sportKeys[..|feed.sportKeys|] == feed.sportKeys;
    hide LastReport, Unreported, Reports, ScoresByEventId;
    forall p: nat, q: nat | p < |feed.sportKeys| && q < |Reports(feed, p)| && LastReport(feed, id, p, q)
      ensures Done(ScoresByEventId(feed, feed.sportKeys), id) == Reports(feed, p)[q].completed
    {
      IndexIsLastReport(feed, |feed.sportKeys|, id, p, q);
    }
    if Unreported(feed, id) {
      UnreportedIsAbsent(feed, |feed.sportKeys|, id);
    }
  }

  /** A market of the feed whose reference no different row shares is in the snapshot with its kind and line,
      settled exactly when its match is reported completed. */
  lemma MarketInSnapshot(feed: Feed, now: int, slug: string -> string, sport: string, e: EventOdds, b: Bookmaker, m: ApiMarket)
    requires Offered(feed, sport, e, b, m)
    requires forall w, x :: w in LogOf(feed, slug).markets && x in LogOf(feed, slug).markets && w.0 == x.0 == e.id + ":" + b.key + ":" + m.key ==> w == x
    ensures var row := RowOf(Mapped(feed, now, slug).markets, e.id + ":" + b.key + ":" + m.key);
            && row.Some? && row.value.event == e.id && LineFor(m.outcomes, row.value.line)
            && (m.key == "h2h" ==> row.value.kind == MarketType.MatchResult)
            && (m.key == "spreads" ==> row.value.kind == MarketType.Handicap)
            && (m.key == "totals" ==> row.value.kind == MarketType.Total)
            && (row.value.status == MarketStatus.Open || row.value.status == MarketStatus.Settled)
            && ReportedAs(feed, e.id, row.value.status == MarketStatus.Settled)
  {
    FirstIsPicked(feed, slug, sport, e, b, m);
    hide Mapped, LogOf, RowOf, LastWrite, Offered, LineFor, ReportedAs, Done, MarketLine, ScoresByEventId, PickBookmaker;
    var done, log := Done(ScoresByEventId(feed, feed.sportKeys), e.id), LogOf(feed, slug);
    var w := (MarketRef(e.id, b.key, m.key), MarketRow(e.id, m, done));
    MarketIsInLog(feed, slug, sport, e, b, m);
    OnlyRowIsLast(log.markets, w);
    SnapshotIsLastWrites(feed, now, slug, w.0);
    MarketLineMeans(m.outcomes);
    DoneMeans(feed, e.id);
  }

  /** So is an outcome, under its market, with its own name or label and price. */
  lemma OutcomeInSnapshot(feed: Feed, now: int, slug: string -> string, sport: string, e: EventOdds, b: Bookmaker, m: ApiMarket, o: Outcome)
    requires Offered(feed, sport, e, b, m) && o in m.outcomes
    requires var ref := e.id + ":" + b.key + ":" + m.key + ":" + slug(o.name) + ":" + if o.point.Some? then Show(o.point.value) else "np";
             forall w, x :: w in LogOf(feed, slug).selections && x in LogOf(feed, slug).selections && w.0 == x.0 == ref ==> w == x
    ensures var ref := e.id + ":" + b.key + ":" + m.key;
            var row := RowOf(Mapped(feed, now, slug).selections,
                             ref + ":" + slug(o.name) + ":" + if o.point.Some? then Show(o.point.value) else "np");
            && row.Some? && row.value.market == ref && row.value.price == o.price
            && (o.point.None? ==> row.value.name == o.name) && row.value.name == SelectionLabel(o)
            && (row.value.status == SelectionStatus.Open || row.value.status == SelectionStatus.Settled)
            && ReportedAs(feed, e.id, row.value.status == SelectionStatus.Settled)
  {
    FirstIsPicked(feed, slug, sport, e, b, m);
    hide Mapped, LogOf, RowOf, LastWrite, Offered, ReportedAs, Done, ScoresByEventId, PickBookmaker, Show;
    var done, log := Done(ScoresByEventId(feed, feed.sportKeys), e.id), LogOf(feed, slug);
    var ref := MarketRef(e.id, b.key, m.key);
    var w := (SelectionRef(ref, o, slug), OutcomeRow(ref, done, o));
    OutcomeIsLogged(feed, slug, sport, e, b, m, o);
    OnlyRowIsLast(log.selections, w);
    SnapshotIsLastWrites(feed, now, slug, w.0);
    DoneMeans(feed, e.id);
  }

  // Sports and leagues

  /** The text before the first underscore. */
  lemma {:induction false} FirstPartMeans(s: string)
    ensures FirstPart(s) <= s && (forall i :: 0 <= i < |FirstPart(s)| ==> s[i] != '_')
    ensures |FirstPart(s)| < |s| ==> s[|FirstPart(s)|] == '_'
  {
    if s != "" && s[0] != '_' {
      FirstPartMeans(s[1..]);
      assert s == [s[0]] + s[1..];
    }
  }

  /** The k-th listed sport is the last one with this key. */
  predicate Listed(feed: Feed, sport: string, k: nat) {
    k < |feed.apiSports| && feed.apiSports[k].key == sport && forall j :: k < j < |feed.apiSports| ==> feed.apiSports[j].key != sport
  }

  predicate Unlisted(feed: Feed, sport: string) {
    forall j :: 0 <= j < |feed.apiSports| ==> feed.apiSports[j].key != sport
  }

  lemma {:induction false} FindSportMeans(sports: seq<ApiSport>, key: string)
    ensures FindSport(sports, key) == None ==> forall j :: 0 <= j < |sports| ==> sports[j].key != key
    ensures FindSport(sports, key) != None ==>
              exists k :: 0 <= k < |sports| && sports[k] == FindSport(sports, key).value && sports[k].key == key
                && forall j :: k < j < |sports| ==> sports[j].key != key
  {
    if sports != [] {
      var front := sports[..|sports| - 1];
      if sports[|front|].key != key {
        FindSportMeans(front, key);
        if FindSport(front, key) != None {
          var k :| 0 <= k < |front| && front[k] == FindSport(front, key).value && front[k].key == key
            && forall j :: k < j < |front| ==> front[j].key != key;
          assert sports[k] == front[k];
        }
      } else {
        assert sports[|front|] == FindSport(sports, key).value;
      }
    }
  }

  /** The group of a sport: itself or its first part if that is one of the four configured groups, otherwise
      the slug of its listed group, or the first part when it is not listed. */
  predicate GroupIs(feed: Feed, slug: string -> string, sport: string, group: string) {
    var first := FirstPart(sport);
    if sport in {"basketball", "baseball", "americanfootball", "soccer"} then group == sport
    else if first in {"basketball", "baseball", "americanfootball", "soccer"} then group == first
    else
      && (forall k: nat :: k < |feed.apiSports| && Listed(feed, sport, k) ==> group == slug(feed.apiSports[k].group))
      && (Unlisted(feed, sport) ==> group == first)
  }

  /** The name of its league: the listed title, or the key when there is none. */
  predicate LeagueNameIs(feed: Feed, sport: string, name: string) {
    && (forall k: nat :: k < |feed.apiSports| && Listed(feed, sport, k) ==>
          name == if feed.apiSports[k].title == "" && sport in {"basketball", "baseball", "americanfootball", "soccer"} then sport
                     else feed.apiSports[k].title)
    && (Unlisted(feed, sport) ==> name == sport)
  }

  lemma ConfigMeans(feed: Feed, slug: string -> string, sport: string)
    ensures GroupIs(feed, slug, sport, ConfigOf(feed, sport, slug).group)
    ensures LeagueNameIs(feed, sport, ConfigOf(feed, sport, slug).leagueName)
  {
    FindSportMeans(feed.apiSports, sport);
    hide FirstPart, FindSport;
    var found := FindSport(feed.apiSports, sport);
    forall k: nat | Listed(feed, sport, k) ensures found == Some(feed.apiSports[k]) {
      if found != None {
        var j :| 0 <= j < |feed.apiSports| && feed.apiSports[j] == found.value && feed.apiSports[j].key == sport
          && forall i :: j < i < |feed.apiSports| ==> feed.apiSports[i].key != sport;
        assert j == k;
      }
    }
  }

  lemma {:induction false} SelectionsKeepSports(d: Draft, market: string, done: bool, outcomes: seq<Outcome>, slug: string -> string)
    ensures var t := AddSelections(d, market, done, outcomes, slug); t.sports == d.sports && t.leagues == d.leagues
  {
    hide Ordered, SelectionRef, SelectionLabel;
    if outcomes != [] {
      SelectionsKeepSports(d, market, done, outcomes[..|outcomes| - 1], slug);
    }
  }

  lemma {:induction false} MarketsKeepSports(d: Draft, feed: Feed, event: string, bookmaker: string, done: bool, ms: seq<ApiMarket>, slug: string -> string)
    ensures var t := AddMarkets(d, feed, event, bookmaker, done, ms, slug); t.sports == d.sports && t.leagues == d.leagues
  {
    hide Ordered, AddSelections, MarketRef, MarketTypeOf, MarketLine;
    if ms != [] {
      var front, m := AddMarkets(d, feed, event, bookmaker, done, ms[..|ms| - 1], slug), ms[|ms| - 1];
      MarketsKeepSports(d, feed, event, bookmaker, done, ms[..|ms| - 1], slug);
      if MarketTypeOf(m.key).Some? {
        var ref := MarketRef(event, bookmaker, m.key);
        SelectionsKeepSports(PutMarket(front, event, ref, m, MarketTypeOf(m.key).value, done), ref, done, m.outcomes, slug);
      }
    }
  }

  lemma {:induction false} EventsKeepSports(d: Draft, feed: Feed, index: map<string, EventScore>, sport: string, config: SportConfig, es: seq<EventOdds>,
                                            now: int, slug: string -> string)
    ensures var t := AddEvents(d, feed, index, sport, config, es, now, slug); t.sports == d.sports && t.leagues == d.leagues
  {
    hide Ordered, AddMarkets, Done, PickBookmaker, TeamKey, FindScore, EventStatusOf, FixtureStatusOf;
    if es != [] {
      var front, e := AddEvents(d, feed, index, sport, config, es[..|es| - 1], now, slug), es[|es| - 1];
      EventsKeepSports(d, feed, index, sport, config, es[..|es| - 1], now, slug);
      var bookmaker := PickBookmaker(e.bookmakers, config.bookmaker);
      var d1 := AddMatch(front, sport, config.group, e.id, e.commenceTime, e.homeTeam, e.awayTeam, Done(index, e.id),
                         if e.id in index then index[e.id].scores else [], now, slug);
      if bookmaker.Some? {
        MarketsKeepSports(d1, feed, e.id, bookmaker.value.key, Done(index, e.id), bookmaker.value.markets, slug);
      }
    }
  }

  lemma {:induction false} ScoresKeepSports(d: Draft, sport: string, config: SportConfig, odds: set<string>, ss: seq<EventScore>, now: int, slug: string -> string)
    ensures var t := AddScores(d, sport, config, odds, ss, now, slug); t.sports == d.sports && t.leagues == d.leagues
  {
    hide Ordered, TeamKey, FindScore, EventStatusOf, FixtureStatusOf;
    if ss != [] {
      ScoresKeepSports(d, sport, config, odds, ss[..|ss| - 1], now, slug);
    }
  }

  /** The sport row of a group is named after the first requested sport of the group. */
  predicate SportRowOf(feed: Feed, sports: seq<string>, slug: string -> string, group: string, row: Sport) {
    && row.slug == group
    && exists i :: 0 <= i < |sports| && ConfigOf(feed, sports[i], slug).group == group
         && (forall j :: 0 <= j < i ==> ConfigOf(feed, sports[j], slug).group != group)
         && row.name == if FindSport(feed.apiSports, sports[i]).Some? then FindSport(feed.apiSports, sports[i]).value.group else group
  }

  predicate LeaguesAre(feed: Feed, sports: seq<string>, slug: string -> string, d: Draft) {
    forall i :: 0 <= i < |sports| ==>
      && sports[i] in d.leagues.rows && ConfigOf(feed, sports[i], slug).group in d.sports.rows
      && d.leagues.rows[sports[i]] == League(ConfigOf(feed, sports[i], slug).group, ConfigOf(feed, sports[i], slug).leagueName, None)
  }

  predicate SportsAre(feed: Feed, sports: seq<string>, slug: string -> string, d: Draft) {
    forall g :: g in d.sports.rows ==> SportRowOf(feed, sports, slug, g, d.sports.rows[g])
  }

  predicate SportsAdded(feed: Feed, sports: seq<string>, slug: string -> string, d: Draft) {
    LeaguesAre(feed, sports, slug, d) && SportsAre(feed, sports, slug, d)
  }

  lemma {:induction false} SportsAreAdded(feed: Feed, index: map<string, EventScore>, sports: seq<string>, now: int, slug: string -> string)
    ensures SportsAdded(feed, sports, slug, AddSports(feed, index, sports, now, slug))
  {
    hide AddSport, ConfigOf, FindSport, OpenSport, SportRowOf;
    if sports != [] {
      hide SportsAdded;
      var front, last := sports[..|sports| - 1], sports[|sports| - 1];
      SportsAreAdded(feed, index, front, now, slug);
      var d := AddSports(feed, index, front, now, slug);
      SportKeepsRows(d, feed, index, last, now, slug);
      assert sports == front + [last];
      OneMoreSport(feed, front, last, slug, d, AddSport(d, feed, index, last, now, slug));
    }
  }

  lemma SportKeepsRows(d: Draft, feed: Feed, index: map<string, EventScore>, sport: string, now: int, slug: string -> string)
    ensures var t, t0 := AddSport(d, feed, index, sport, now, slug), OpenSport(d, sport, FindSport(feed.apiSports, sport), ConfigOf(feed, sport, slug));
            t.sports == t0.sports && t.leagues == t0.leagues
  {
    hide FindSport, ResolveSportConfig, AddEvents, AddScores, OpenSport, Ordered;
    var config := ConfigOf(feed, sport, slug);
    var d0 := OpenSport(d, sport, FindSport(feed.apiSports, sport), config);
    EventsKeepSports(d0, feed, index, sport, config, OddsOf(feed, sport), now, slug);
    ScoresKeepSports(AddEvents(d0, feed, index, sport, config, OddsOf(feed, sport), now, slug), sport, config, EventIds(OddsOf(feed, sport)),
                     ScoresOf(feed, sport), now, slug);
  }

  lemma SportRowStays(feed: Feed, front: seq<string>, last: string, slug: string -> string, group: string, row: Sport)
    requires SportRowOf(feed, front, slug, group, row)
    ensures SportRowOf(feed, front + [last], slug, group, row)
  {
    hide ConfigOf, FindSport;
    var i :| 0 <= i < |front| && ConfigOf(feed, front[i], slug).group == group
      && (forall j :: 0 <= j < i ==> ConfigOf(feed, front[j], slug).group != group)
      && row.name == if FindSport(feed.apiSports, front[i]).Some? then FindSport(feed.apiSports, front[i]).value.group else group;
    assert (front + [last])[i] == front[i];
    assert forall j :: 0 <= j < i ==> (front + [last])[j] == front[j];
  }

  lemma OneMoreSport(feed: Feed, front: seq<string>, last: string, slug: string -> string, d: Draft, t: Draft)
    requires SportsAdded(feed, front, slug, d)
    requires var t0 := OpenSport(d, last, FindSport(feed.apiSports, last), ConfigOf(feed, last, slug)); t.sports == t0.sports && t.leagues == t0.leagues
    ensures SportsAdded(feed, front + [last], slug, t)
  {
    hide ConfigOf, FindSport, SportRowOf, Ordered;
    LeaguesAdded(feed, front, last, slug, d, t);
    OpenedSports(feed, front, last, slug, d, t);
    hide OpenSport, LeaguesAre;
    forall g | g in t.sports.rows ensures SportRowOf(feed, front + [last], slug, g, t.sports.rows[g]) {
      if g in d.sports.rows {
        SportRowStays(feed, front, last, slug, g, d.sports.rows[g]);
      } else {
        hide SportsAre;
        NewSportRow(feed, front, last, slug, d, t.sports.rows[g]);
      }
    }
  }

  lemma LeaguesAdded(feed: Feed, front: seq<string>, last: string, slug: string -> string, d: Draft, t: Draft)
    requires SportsAdded(feed, front, slug, d)
    requires var t0 := OpenSport(d, last, FindSport(feed.apiSports, last), ConfigOf(feed, last, slug)); t.sports == t0.sports && t.leagues == t0.leagues
    ensures LeaguesAre(feed, front + [last], slug, t)
  {
    hide ConfigOf, FindSport, SportRowOf, Ordered;
    var sports := front + [last];
    forall i | 0 <= i < |sports|
      ensures sports[i] in t.leagues.rows && ConfigOf(feed, sports[i], slug).group in t.sports.rows
              && t.leagues.rows[sports[i]] == League(ConfigOf(feed, sports[i], slug).group, ConfigOf(feed, sports[i], slug).leagueName, None)
    {
      if i < |front| {
        assert sports[i] == front[i];
      }
    }
  }

  lemma OpenedSports(feed: Feed, front: seq<string>, last: string, slug: string -> string, d: Draft, t: Draft)
    requires t.sports == OpenSport(d, last, FindSport(feed.apiSports, last), ConfigOf(feed, last, slug)).sports
    ensures forall g :: g in t.sports.rows ==>
              if g in d.sports.rows then t.sports.rows[g] == d.sports.rows[g]
              else
                && g == ConfigOf(feed, last, slug).group
                && t.sports.rows[g] == Sport(if FindSport(feed.apiSports, last).Some? then FindSport(feed.apiSports, last).value.group else g, g)
  {
    hide ConfigOf, FindSport, Ordered;
  }

  lemma NewSportRow(feed: Feed, front: seq<string>, last: string, slug: string -> string, d: Draft, row: Sport)
    requires SportsAdded(feed, front, slug, d) && ConfigOf(feed, last, slug).group !in d.sports.rows
    requires var g := ConfigOf(feed, last, slug).group;
             row == Sport(if FindSport(feed.apiSports, last).Some? then FindSport(feed.apiSports, last).value.group else g, g)
    ensures SportRowOf(feed, front + [last], slug, ConfigOf(feed, last, slug).group, row)
  {
    hide ConfigOf, FindSport;
    assert (front + [last])[|front|] == last;
    forall j | 0 <= j < |front| ensures ConfigOf(feed, (front + [last])[j], slug).group != ConfigOf(feed, last, slug).group {
      assert (front + [last])[j] == front[j];
    }
  }

  /** Every requested sport is a league of the snapshot, under the sport of its group and its listed name; the
      sport is named after the first requested sport of the group. */
  lemma LeagueInSnapshot(feed: Feed, now: int, slug: string -> string, sport: string)
    requires sport in feed.sportKeys
    ensures var snap := Mapped(feed, now, slug); var league := RowOf(snap.leagues, sport);
            && league.Some? && league.value.region == None && GroupIs(feed, slug, sport, league.value.sport)
            && LeagueNameIs(feed, sport, league.value.name)
            && RowOf(snap.sports, league.value.sport).Some?
            && SportRowOf(feed, feed.sportKeys, slug, league.value.sport, RowOf(snap.sports, league.value.sport).value)
  {
    var d := AddSports(feed, ScoresByEventId(feed, feed.sportKeys), feed.sportKeys, now, slug);
    SportsAreAdded(feed, ScoresByEventId(feed, feed.sportKeys), feed.sportKeys, now, slug);
    ConfigMeans(feed, slug, sport);
    RowOfEntries(d.leagues, sport);
    RowOfEntries(d.sports, ConfigOf(feed, sport, slug).group);
    hide AddSports, ScoresByEventId, ConfigOf, GroupIs, LeagueNameIs, RowOf, Entries, Ordered, FindSport, SportRowOf;
    var i :| 0 <= i < |feed.sportKeys| && feed.sportKeys[i] == sport;
  }
}

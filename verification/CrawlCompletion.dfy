/** When the completion loop drains the queue. */
module CrawlCompletion {
  import opened Options
  import opened CrawlQueue
  import opened Crawler
  import opened CrawlTermination

  lemma NoneWith(rows: Rows, st: Status)
    ensures |WithStatus(rows, st)| == 0 <==> forall u :: u in rows ==> rows[u].status != st
  {
    if |WithStatus(rows, st)| == 0 {
      forall u | u in rows ensures rows[u].status != st {
        assert u !in WithStatus(rows, st);
      }
    } else {
      var u :| u in WithStatus(rows, st);
    }
  }

  lemma NothingWaits(c: Site, s: State)
    requires Invariant(c, s) && c.policy.priority.None? && s.ws != [] && RoundOver(s.ws)
    ensures WithStatus(s.q.rows, Pending) == {} && WithStatus(s.q.rows, Processing) == {}
  {
    OverIsQuiet(c, s);
    ClaimFindsNothing(c.policy, s.q.rows);
    forall u | u in WithStatus(s.q.rows, Pending) ensures false {
      assert Eligible(c.policy, s.q.rows, u);
    }
  }

  ghost predicate NoneFailed(rows: Rows) {
    forall u :: u in rows ==> rows[u].status != Failed && rows[u].status != BlockedCf
  }

  /** After a round without a filter the loop reports the queue drained exactly when no page is left
      FAILED or challenged. */
  lemma UnfilteredRoundDrains(c: Site, s: State, sample: set<Url>, maxRounds: int)
    requires Invariant(c, s) && c.policy.priority.None? && s.ws != [] && RoundOver(s.ws) && sample <= s.q.rows.Keys
    ensures AfterRound(c, s.q.rows, sample, s.round, maxRounds) == Drained <==> NoneFailed(s.q.rows)
  {
    NothingWaits(c, s);
    NoneWith(s.q.rows, Failed);
    NoneWith(s.q.rows, BlockedCf);
  }

  /** Steps of the workers in which no request fails or meets a challenge. */
  ghost predicate Smooth(es: seq<Event>) {
    forall e :: e in es ==> !e.StartRound? && !e.Die? && !e.Fail? && (e.Fetch? ==> e.answer == Page)
  }

  lemma SmoothStep(c: Site, s: State, e: Event)
    requires Enabled(c, s, e) && Smooth([e]) && NoneFailed(s.q.rows)
    ensures NoneFailed(Apply(c, s, e).q.rows)
  {
    assert e in [e];
    var (w, m, to) := Step(c, s, e);
    StepIsFair(c, s, e);
  }

  lemma {:induction false} SmoothRun(c: Site, s: State, es: seq<Event>)
    requires Runs(c, s, es) && Smooth(es) && NoneFailed(s.q.rows)
    ensures NoneFailed(After(c, s, es).q.rows)
    decreases |es|
  {
    if es != [] {
      assert es[0] in es && forall e :: e in es[1..] ==> e in es;
      SmoothStep(c, s, es[0]);
      SmoothRun(c, Apply(c, s, es[0]), es[1..]);
    }
  }

  lemma SmoothRoundDrains(c: Site, s: State, stale: set<Url>, es: seq<Event>, sample: set<Url>, maxRounds: int)
    requires c.inScope(c.start) && c.policy.priority.None? && Invariant(c, s) && Enabled(c, s, StartRound(stale))
    requires Runs(c, Apply(c, s, StartRound(stale)), es) && Smooth(es)
    requires var end := After(c, Apply(c, s, StartRound(stale)), es);
             end.ws != [] && RoundOver(end.ws) && sample <= end.q.rows.Keys
    ensures var end := After(c, Apply(c, s, StartRound(stale)), es);
            Invariant(c, end) && end.round > 0 && AfterRound(c, end.q.rows, sample, end.round, maxRounds) == Drained
  {
    var begun := Apply(c, s, StartRound(stale));
    var end := After(c, begun, es);
    OpenedQueue(c, s.q, stale);
    InvariantStep(c, s, StartRound(stale));
    InvariantAlways(c, begun, es);
    SmoothRun(c, begun, es);
    UnfilteredRoundDrains(c, end, sample, maxRounds);
  }

  /** However the crawl went before, with crashes, failures and challenges: one round in which no
      request fails completes it. The loop stops, and every page that links out of allowed pages
      reach is VISITED, or BLOCKED where robots forbid it. */
  lemma SmoothRoundCompletes(c: Site, before: seq<Event>, stale: set<Url>, es: seq<Event>, sample: set<Url>, maxRounds: int)
    requires c.inScope(c.start) && c.policy.priority.None? && Runs(c, START, before)
    requires Enabled(c, After(c, START, before), StartRound(stale))
    requires Runs(c, Apply(c, After(c, START, before), StartRound(stale)), es) && Smooth(es)
    requires var end := After(c, Apply(c, After(c, START, before), StartRound(stale)), es);
             end.ws != [] && RoundOver(end.ws) && sample <= end.q.rows.Keys
    ensures var end := After(c, Apply(c, After(c, START, before), StartRound(stale)), es);
            && AfterRound(c, end.q.rows, sample, end.round, maxRounds) == Drained
            && (forall u :: u in end.q.rows <==> Reachable(c, u))
            && (forall u :: u in end.q.rows ==> end.q.rows[u].status == if c.allowed(u) then Visited else Blocked)
  {
    StartKeepsInvariant(c);
    InvariantAlways(c, START, before);
    SmoothRoundDrains(c, After(c, START, before), stale, es, sample, maxRounds);
    var end := After(c, Apply(c, After(c, START, before), StartRound(stale)), es);
    NoneLeft(c, end.q.rows, sample, end.round, maxRounds);
    SettledIsComplete(c, end);
  }
}

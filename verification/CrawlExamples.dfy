/** Two crawls, from the empty queue on, in which the priority filter defeats what the program
    means to do. */
module CrawlExamples {
  import opened Options
  import opened CrawlQueue
  import opened Crawler
  import opened CrawlTermination

  // ----- A page with more links than a claim scans -----

  function PageUrl(i: nat): Url {
    seq(i, _ => 'a')
  }

  function Links(n: nat): seq<Url> {
    seq(n, i requires 0 <= i < n => PageUrl(i + 1))
  }

  /** The start page links to n pages; the filter wants the start page and the first link, which
      deep-first order puts behind all the others because it is nearer the root. */
  function WideSite(n: nat): Site {
    Site(PageUrl(0), "", u => if |u| == 0 then Links(n) else [], _ => true, (u, v) => true, _ => true,
         u => if |u| == 1 then 0 else 1, (context, u, v) => context,
         Policy(DeepFirst, _ => false, Some((u, r) => |u| <= 1)), 1, 1, 1)
  }

  lemma {:induction false} AllKept(n: nat, page: Url, hrefs: seq<Url>)
    ensures Kept(WideSite(n), page, hrefs) == hrefs
  {
    if hrefs != [] {
      AllKept(n, page, hrefs[1..]);
    }
  }

  /** The start page and its first k links are queued, in this order. */
  ghost predicate Queued(rows: Rows, k: nat) {
    && (forall u :: u in rows <==> |u| <= k && u == PageUrl(|u|))
    && (forall u :: u in rows ==> rows[u].rowid == |u|)
    && forall u :: u in rows && |u| > 0 ==> rows[u].status == Pending && rows[u].level == if |u| == 1 then 0 else 1
  }

  ghost predicate Fanned(n: nat, s: State, k: nat) {
    && k <= n && s.ws == [Expanding(PageUrl(0), Links(n)[k..])] && s.q.next == k + 1
    && Queued(s.q.rows, k) && s.q.rows[PageUrl(0)].status == Processing
  }

  lemma WideStarts(n: nat) returns (es: seq<Event>)
    requires n > 0
    ensures Runs(WideSite(n), START, es)
    ensures var s := After(WideSite(n), START, es);
            && s.ws == [Idle] && s.q.rows.Keys == {PageUrl(0)}
            && s.q.rows[PageUrl(0)].status == Pending && s.q.rows[PageUrl(0)].rowid == 0 && s.q.next == 1
  {
    var c := WideSite(n);
    es := [StartRound({})];
    RunsOn(c, START, [], StartRound({}));
    assert [] + [StartRound({})] == es;
    var rows: Rows := map[];
    assert Swept(c, rows, {}) == map[];
    assert WithStatus(rows, Pending) == {};
  }

  lemma WideClaims(n: nat) returns (es: seq<Event>)
    requires n > 0
    ensures Runs(WideSite(n), START, es) && Fanned(n, After(WideSite(n), START, es), 0)
  {
    var c := WideSite(n);
    es := WideStarts(n);
    var s := After(c, START, es);
    var u := PageUrl(0);
    assert WithStatus(s.q.rows, Pending) == {u};
    ClaimFindsNothing(c.policy, s.q.rows);
    assert Eligible(c.policy, s.q.rows, u);
    RunsOn(c, START, es, TakeNext(0));
    var s1 := Apply(c, s, TakeNext(0));
    assert s1.ws == [Holding(u)] && s1.q.rows == Claimed(s.q.rows, u);
    RunsOn(c, START, es + [TakeNext(0)], Fetch(0, Page));
    es := es + [TakeNext(0)] + [Fetch(0, Page)];
    AllKept(n, u, Links(n));
    assert Links(n)[0..] == Links(n);
  }

  lemma FanStep(n: nat, s: State, k: nat)
    requires k < n && Fanned(n, s, k)
    ensures Enabled(WideSite(n), s, EnqueueChild(0)) && Fanned(n, Apply(WideSite(n), s, EnqueueChild(0)), k + 1)
  {
    var todo := Links(n)[k..];
    assert todo[0] == PageUrl(k + 1) && todo[1..] == Links(n)[k + 1..];
    assert PageUrl(k + 1) !in s.q.rows;
    var rows := Apply(WideSite(n), s, EnqueueChild(0)).q.rows;
    forall u ensures u in rows <==> |u| <= k + 1 && u == PageUrl(|u|) {
    }
  }

  lemma {:induction false} FansOut(n: nat, k: nat) returns (es: seq<Event>)
    requires 0 < n && k <= n
    ensures Runs(WideSite(n), START, es) && Fanned(n, After(WideSite(n), START, es), k)
  {
    if k == 0 {
      es := WideClaims(n);
    } else {
      es := FansOut(n, k - 1);
      FanStep(n, After(WideSite(n), START, es), k - 1);
      RunsOn(WideSite(n), START, es, EnqueueChild(0));
      es := es + [EnqueueChild(0)];
    }
  }

  /** The whole site is queued, only its start page is VISITED, and the worker looks for more. */
  lemma WideVisited(n: nat) returns (es: seq<Event>)
    requires 0 < n
    ensures Runs(WideSite(n), START, es)
    ensures var s := After(WideSite(n), START, es);
            s.ws == [Idle] && Queued(s.q.rows, n) && s.q.rows[PageUrl(0)].status == Visited
  {
    var c := WideSite(n);
    es := FansOut(n, n);
    var s := After(c, START, es);
    assert Links(n)[n..] == [];
    RunsOn(c, START, es, Finish(0));
    var s1 := Apply(c, s, Finish(0));
    assert s1.ws == [Counting];
    RunsOn(c, START, es + [Finish(0)], Count(0));
    es := es + [Finish(0)] + [Count(0)];
  }

  lemma {:induction false} UrlCount(n: nat, us: set<Url>)
    requires forall u :: u in us <==> 0 < |u| <= n && u == PageUrl(|u|)
    ensures |us| == n
  {
    if n == 0 {
      assert us == {};
    } else {
      var u := PageUrl(n);
      assert u in us;
      UrlCount(n - 1, us - {u});
    }
  }

  /** A claim does not reach an eligible row that every other pending row precedes, when there are
      more of them than it scans. */
  lemma OutOfReach(p: Policy, rows: Rows, last: Url)
    requires DistinctRowids(rows) && last in WithStatus(rows, Pending) && |WithStatus(rows, Pending)| > Window(p)
    requires forall u :: u in WithStatus(rows, Pending) && u != last ==> !Eligible(p, rows, u) && Precedes(p, rows, u, last)
    ensures Claim(p, rows) == None
  {
    var s := PendingInOrder(p, rows);
    InOrderSorted(p, rows, WithStatus(rows, Pending));
    var i := FirstEligibleIs(p, rows, s, 0, Window(p));
    assert s[|s| - 1] in WithStatus(rows, Pending);
  }

  lemma FirstLinkOutOfReach(n: nat, rows: Rows)
    requires n > MAX_SCAN && DistinctRowids(rows) && Queued(rows, n) && rows[PageUrl(0)].status == Visited
    ensures PageUrl(1) in WithStatus(rows, Pending) && Eligible(WideSite(n).policy, rows, PageUrl(1))
    ensures Claim(WideSite(n).policy, rows) == None && |WithStatus(rows, Pending)| == n
  {
    UrlCount(n, WithStatus(rows, Pending));
    OutOfReach(WideSite(n).policy, rows, PageUrl(1));
  }

  /** The pages that the recount reads first, by insertion. */
  lemma FirstSampleExists(n: nat, rows: Rows) returns (sample: set<Url>)
    requires n > MAX_SCAN && Queued(rows, n) && rows[PageUrl(0)].status == Visited && |WithStatus(rows, Pending)| == n
    ensures IsFirstSample(rows, sample)
  {
    sample := set u | u in rows && 0 < |u| <= SAMPLE_LIMIT;
    forall u ensures u in sample <==> 0 < |u| <= SAMPLE_LIMIT && u == PageUrl(|u|) {
    }
    UrlCount(SAMPLE_LIMIT, sample);
  }

  /** The eligible page was inserted first, so that every such sample holds it. */
  lemma FirstSampleIsEligible(n: nat, rows: Rows, sample: set<Url>)
    requires n > MAX_SCAN && Queued(rows, n) && rows[PageUrl(0)].status == Visited && IsFirstSample(rows, sample)
    ensures PageUrl(1) in EligibleIn(WideSite(n).policy, rows, sample)
  {
    assert PageUrl(1) in WithStatus(rows, Pending);
    assert |sample| > 0;
    var u :| u in sample;
    assert u in WithStatus(rows, Pending) && u == PageUrl(|u|) && u != PageUrl(0);
    assert Eligible(WideSite(n).policy, rows, PageUrl(1));
  }

  /** With more than 50,000 links a run from the empty queue reaches a state in which the only
      worker goes on for ever, whenever the recount reads the pending rows in the order they were
      inserted, though a page it is looking for is pending. */
  lemma WideSiteSpins(n: nat) returns (es: seq<Event>)
    requires n > MAX_SCAN
    ensures WideSite(n).inScope(WideSite(n).start) && Runs(WideSite(n), START, es)
    ensures var s := After(WideSite(n), START, es);
            && Enabled(WideSite(n), s, TakeNext(0)) && |s.ws| == 1
            && PageUrl(1) in WithStatus(s.q.rows, Pending) && Eligible(WideSite(n).policy, s.q.rows, PageUrl(1))
            && (exists sample :: IsFirstSample(s.q.rows, sample))
            && (forall sample :: IsFirstSample(s.q.rows, sample) ==> Spins(WideSite(n), s, 0, sample))
  {
    var c := WideSite(n);
    es := WideVisited(n);
    var s := After(c, START, es);
    StartKeepsInvariant(c);
    InvariantAlways(c, START, es);
    FirstLinkOutOfReach(n, s.q.rows);
    var first := FirstSampleExists(n, s.q.rows);
    forall sample | IsFirstSample(s.q.rows, sample) ensures Spins(c, s, 0, sample) {
      FirstSampleIsEligible(n, s.q.rows, sample);
      SpinsWithSample(c, s, 0, sample);
    }
  }

  // ----- A failed page that is not retried -----

  /** The start page links to "f", which the filter wants, and to "p", which it does not. */
  const FAILING_SITE: Site :=
    Site("s", "", u => if u == "s" then ["f", "p"] else [], _ => true, (u, v) => true, _ => true,
         _ => 0, (context, u, v) => context,
         Policy(Bfs, _ => false, Some((u, r) => u != "p")), 1, 1, 1)

  /** The three pages are queued with these states, and the one worker stands there. */
  ghost predicate Stands(s: State, start: Status, f: Status, p: Status, at: Worker) {
    && s.q.rows.Keys == {"s", "f", "p"} && s.ws == [at] && s.round == 1 && DistinctRowids(s.q.rows)
    && s.q.rows["s"].status == start && s.q.rows["f"].status == f && s.q.rows["p"].status == p
  }

  lemma ClaimOf(rows: Rows, u: Url)
    requires DistinctRowids(rows) && rows.Keys <= {"s", "f", "p"} && u in WithStatus(rows, Pending) && u != "p"
    requires forall v :: v in WithStatus(rows, Pending) ==> v == u || v == "p"
    ensures Claim(FAILING_SITE.policy, rows) == Some(u)
  {
    var pending := WithStatus(rows, Pending);
    assert pending <= {"s", "f", "p"};
    SubsetSize(pending, {"s", "f", "p"});
    ClaimFindsNothing(FAILING_SITE.policy, rows);
    assert Eligible(FAILING_SITE.policy, rows, u);
    ClaimIsLeastEligible(FAILING_SITE.policy, rows);
  }

  /** Only the start page is queued. */
  ghost predicate Begun(s: State, start: Status, at: Worker) {
    && s.q.rows.Keys == {"s"} && s.q.rows["s"].status == start && s.q.rows["s"].rowid == 0 && s.q.next == 1
    && s.ws == [at] && s.round == 1
  }

  lemma BegunOpens()
    ensures Enabled(FAILING_SITE, START, StartRound({})) && Begun(Apply(FAILING_SITE, START, StartRound({})), Pending, Idle)
  {
    var none: Rows := map[];
    assert Swept(FAILING_SITE, none, {}) == map[] && WithStatus(none, Pending) == {};
  }

  lemma BegunClaims(s: State)
    requires Begun(s, Pending, Idle)
    ensures Enabled(FAILING_SITE, s, TakeNext(0)) && Begun(Apply(FAILING_SITE, s, TakeNext(0)), Processing, Holding("s"))
  {
    ClaimOf(s.q.rows, "s");
  }

  lemma BegunFetches(s: State)
    requires Begun(s, Processing, Holding("s"))
    ensures Enabled(FAILING_SITE, s, Fetch(0, Page))
    ensures Begun(Apply(FAILING_SITE, s, Fetch(0, Page)), Processing, Expanding("s", ["f", "p"]))
  {
    assert ["p"][1..] == [] && ["f", "p"][1..] == ["p"];
    assert Kept(FAILING_SITE, "s", ["p"]) == ["p"];
    assert Kept(FAILING_SITE, "s", ["f", "p"]) == ["f", "p"];
  }

  lemma FirstLink(s: State)
    requires Begun(s, Processing, Expanding("s", ["f", "p"]))
    ensures Enabled(FAILING_SITE, s, EnqueueChild(0))
    ensures var s' := Apply(FAILING_SITE, s, EnqueueChild(0));
            && s'.q.rows == s.q.rows["f" := Row(Pending, 0, 0, s.q.rows["s"].context, 1)] && s'.q.next == 2
            && s'.ws == [Expanding("s", ["p"])] && s'.round == 1
  {
    assert ["f", "p"][1..] == ["p"];
  }

  lemma SecondLink(s: State)
    requires s.q.rows.Keys == {"s", "f"} && s.q.rows["s"].status == Processing && s.q.rows["s"].rowid == 0
    requires s.q.rows["f"].status == Pending && s.q.rows["f"].rowid == 1 && s.q.next == 2
    requires s.ws == [Expanding("s", ["p"])] && s.round == 1
    ensures Enabled(FAILING_SITE, s, EnqueueChild(0))
    ensures Stands(Apply(FAILING_SITE, s, EnqueueChild(0)), Processing, Pending, Pending, Expanding("s", []))
  {
    assert ["p"][1..] == [];
  }

  lemma StartEnds(s: State)
    requires Stands(s, Processing, Pending, Pending, Expanding("s", []))
    ensures Enabled(FAILING_SITE, s, Finish(0))
    ensures Stands(Apply(FAILING_SITE, s, Finish(0)), Visited, Pending, Pending, Counting)
  {
  }

  lemma StartCounts(s: State)
    requires Stands(s, Visited, Pending, Pending, Counting)
    ensures Enabled(FAILING_SITE, s, Count(0)) && Stands(Apply(FAILING_SITE, s, Count(0)), Visited, Pending, Pending, Idle)
  {
  }

  lemma SecondClaims(s: State)
    requires Stands(s, Visited, Pending, Pending, Idle)
    ensures Enabled(FAILING_SITE, s, TakeNext(0)) && Stands(Apply(FAILING_SITE, s, TakeNext(0)), Visited, Processing, Pending, Holding("f"))
    ensures Apply(FAILING_SITE, s, TakeNext(0)).q.rows["f"].attempts >= 1
  {
    assert WithStatus(s.q.rows, Pending) == {"f", "p"};
    ClaimOf(s.q.rows, "f");
  }

  lemma SecondFails(s: State)
    requires Stands(s, Visited, Processing, Pending, Holding("f")) && s.q.rows["f"].attempts >= 1
    ensures Enabled(FAILING_SITE, s, Fail(0)) && Stands(Apply(FAILING_SITE, s, Fail(0)), Visited, Failed, Pending, Idle)
  {
  }

  lemma NothingToClaim(s: State)
    requires Stands(s, Visited, Failed, Pending, Idle)
    ensures Enabled(FAILING_SITE, s, TakeNext(0)) && Stands(Apply(FAILING_SITE, s, TakeNext(0)), Visited, Failed, Pending, Waiting)
  {
    assert WithStatus(s.q.rows, Pending) == {"p"};
    assert !Eligible(FAILING_SITE.policy, s.q.rows, "p");
    ClaimFindsNothing(FAILING_SITE.policy, s.q.rows);
  }

  lemma WorkerLeaves(s: State)
    requires Stands(s, Visited, Failed, Pending, Waiting)
    ensures Enabled(FAILING_SITE, s, Recount(0, {"p"}))
    ensures Stands(Apply(FAILING_SITE, s, Recount(0, {"p"})), Visited, Failed, Pending, Gone)
    ensures IsSample(s.q.rows, {"p"})
  {
    assert WithStatus(s.q.rows, Pending) == {"p"};
    assert !Eligible(FAILING_SITE.policy, s.q.rows, "p");
  }

  lemma FailingStarts() returns (es: seq<Event>)
    ensures Runs(FAILING_SITE, START, es)
    ensures Begun(After(FAILING_SITE, START, es), Processing, Expanding("s", ["f", "p"]))
  {
    var c := FAILING_SITE;
    BegunOpens();
    RunsOn(c, START, [], StartRound({}));
    es := [] + [StartRound({})];
    BegunClaims(After(c, START, es));
    RunsOn(c, START, es, TakeNext(0));
    es := es + [TakeNext(0)];
    BegunFetches(After(c, START, es));
    RunsOn(c, START, es, Fetch(0, Page));
    es := es + [Fetch(0, Page)];
  }

  lemma FailingExpands() returns (es: seq<Event>)
    ensures Runs(FAILING_SITE, START, es)
    ensures Stands(After(FAILING_SITE, START, es), Visited, Pending, Pending, Idle)
  {
    var c := FAILING_SITE;
    es := FailingStarts();
    FirstLink(After(c, START, es));
    RunsOn(c, START, es, EnqueueChild(0));
    es := es + [EnqueueChild(0)];
    SecondLink(After(c, START, es));
    RunsOn(c, START, es, EnqueueChild(0));
    es := es + [EnqueueChild(0)];
    StartEnds(After(c, START, es));
    RunsOn(c, START, es, Finish(0));
    es := es + [Finish(0)];
    StartCounts(After(c, START, es));
    RunsOn(c, START, es, Count(0));
    es := es + [Count(0)];
  }

  lemma FailingFails() returns (es: seq<Event>)
    ensures Runs(FAILING_SITE, START, es)
    ensures Stands(After(FAILING_SITE, START, es), Visited, Failed, Pending, Idle)
  {
    var c := FAILING_SITE;
    es := FailingExpands();
    SecondClaims(After(c, START, es));
    RunsOn(c, START, es, TakeNext(0));
    es := es + [TakeNext(0)];
    SecondFails(After(c, START, es));
    RunsOn(c, START, es, Fail(0));
    es := es + [Fail(0)];
  }

  lemma FailingEnds() returns (es: seq<Event>)
    ensures Runs(FAILING_SITE, START, es)
    ensures Stands(After(FAILING_SITE, START, es), Visited, Failed, Pending, Gone)
  {
    var c := FAILING_SITE;
    es := FailingFails();
    NothingToClaim(After(c, START, es));
    RunsOn(c, START, es, TakeNext(0));
    es := es + [TakeNext(0)];
    WorkerLeaves(After(c, START, es));
    RunsOn(c, START, es, Recount(0, {"p"}));
    es := es + [Recount(0, {"p"})];
  }

  lemma LeftAside(s: State, maxRounds: int)
    requires Stands(s, Visited, Failed, Pending, Gone)
    ensures RoundOver(s.ws) && IsSample(s.q.rows, {"p"}) && Eligible(FAILING_SITE.policy, s.q.rows, "f")
    ensures AfterRound(FAILING_SITE, s.q.rows, {"p"}, s.round, maxRounds) == PriorityDone
  {
    assert WithStatus(s.q.rows, Pending) == {"p"};
    assert !Eligible(FAILING_SITE.policy, s.q.rows, "p");
  }

  /** A whole run of the loop's first round: it ends with a FAILED page of the priority set, and
      the loop stops there, however many rounds it may take. */
  lemma FailedPageIsNotRetried(maxRounds: int) returns (es: seq<Event>, sample: set<Url>)
    ensures Runs(FAILING_SITE, START, es)
    ensures var s := After(FAILING_SITE, START, es);
            && Stands(s, Visited, Failed, Pending, Gone) && RoundOver(s.ws)
            && Eligible(FAILING_SITE.policy, s.q.rows, "f") && IsSample(s.q.rows, sample)
            && AfterRound(FAILING_SITE, s.q.rows, sample, s.round, maxRounds) == PriorityDone
  {
    es := FailingEnds();
    sample := {"p"};
    LeftAside(After(FAILING_SITE, START, es), maxRounds);
  }
}

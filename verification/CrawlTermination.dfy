/** How much work a crawl can do: claims are bounded by the attempt limit and the rounds, and
    every round ends, however its workers interleave. */
module CrawlTermination {
  import opened Options
  import opened CrawlQueue
  import opened Crawler

  // ----- Claims are attempts -----

  ghost function AttemptSum(rows: Rows): nat {
    if rows == map[] then 0
    else
      var u :| u in rows;
      rows[u].attempts + AttemptSum(rows - {u})
  }

  lemma {:induction false} AttemptSumWithout(rows: Rows, u: Url)
    requires u in rows
    ensures AttemptSum(rows) == rows[u].attempts + AttemptSum(rows - {u})
    decreases |rows|
  {
    var v :| v in rows && AttemptSum(rows) == rows[v].attempts + AttemptSum(rows - {v});
    if v != u {
      AttemptSumWithout(rows - {v}, u);
      AttemptSumWithout(rows - {u}, v);
      assert (rows - {v}) - {u} == (rows - {u}) - {v};
    }
  }

  lemma AttemptSumUpdate(rows: Rows, u: Url, r: Row)
    ensures AttemptSum(rows[u := r]) + Attempts(rows, u, 0) == AttemptSum(rows) + r.attempts
  {
    AttemptSumWithout(rows[u := r], u);
    if u in rows {
      AttemptSumWithout(rows, u);
      assert rows[u := r] - {u} == rows - {u};
    } else {
      assert rows[u := r] - {u} == rows;
    }
  }

  lemma {:induction false} SameAttempts(rows: Rows, after: Rows)
    requires rows.Keys == after.Keys
    requires forall u :: u in rows ==> rows[u].attempts == after[u].attempts
    ensures AttemptSum(rows) == AttemptSum(after)
    decreases |rows|
  {
    if rows != map[] {
      var u :| u in rows;
      AttemptSumWithout(rows, u);
      AttemptSumWithout(after, u);
      SameAttempts(rows - {u}, after - {u});
    }
  }

  lemma OneMoreTimes(n: nat, k: int)
    ensures (n + 1) * k == n * k + k
  {
  }

  lemma {:induction false} AttemptSumBound(rows: Rows, bound: nat)
    requires forall u :: u in rows ==> rows[u].attempts <= bound
    ensures AttemptSum(rows) <= |rows| * bound
    decreases |rows|
  {
    if rows != map[] {
      var u :| u in rows;
      var rest := rows - {u};
      AttemptSumWithout(rows, u);
      AttemptSumBound(rest, bound);
      assert rest.Keys == rows.Keys - {u};
      OneMoreTimes(|rest|, bound);
    }
  }

  lemma MoveClaims(c: Site, s: State, w: nat, m: Move, to: Worker)
    requires Fair(c, s, w, m, to)
    ensures var s' := Moving(s, w, m, to);
            && s'.claims == s.claims + (if m.Take? then 1 else 0)
            && AttemptSum(s'.q.rows) == AttemptSum(s.q.rows) + (if m.Take? then 1 else 0)
  {
    var rows := s.q.rows;
    match m
    case Stay =>
    case Set(st) =>
      var u := Owns(s.ws[w]).value;
      if u in rows {
        AttemptSumUpdate(rows, u, rows[u].(status := st));
      }
    case Take(u) =>
      AttemptSumUpdate(rows, u, rows[u].(status := Processing, attempts := rows[u].attempts + 1));
    case Add(v, level, context) =>
      if v !in rows {
        AttemptSumUpdate(rows, v, Row(Pending, 0, level, context, s.q.next));
      }
  }

  lemma RestartKeepsSum(c: Site, rows: Rows, after: Rows)
    requires Restarted(c, rows, after)
    ensures AttemptSum(after) == AttemptSum(rows)
  {
    if c.start in after && c.start !in rows {
      AttemptSumWithout(after, c.start);
      SameAttempts(rows, after - {c.start});
    } else {
      SameAttempts(rows, after);
    }
  }

  /** The claims ever made are exactly the attempts the rows record. */
  lemma {:induction false} ClaimsAreAttempts(c: Site, s: State, es: seq<Event>)
    requires c.inScope(c.start) && Invariant(c, s) && Runs(c, s, es)
    requires s.claims == AttemptSum(s.q.rows)
    ensures After(c, s, es).claims == AttemptSum(After(c, s, es).q.rows)
    decreases |es|
  {
    if es != [] {
      var e := es[0];
      if e.StartRound? {
        NothingPruned(c, s.q, e.stale);
        RestartKeepsSum(c, s.q.rows, Opened(c, s.q, e.stale).rows);
      } else if !e.Die? {
        var w, m, to := StepMoves(c, s, e);
        MoveClaims(c, s, w, m, to);
      }
      InvariantStep(c, s, e);
      ClaimsAreAttempts(c, Apply(c, s, e), es[1..]);
    }
  }

  /** No row has more than max(1, limit) + R - 1 attempts after R rounds, and the claims made are at
      most that many for each row. */
  ghost predicate ClaimsWithin(c: Site, s: State) {
    var bound := Max(1, c.maxAttempts) + s.round - 1;
    && (forall u :: u in s.q.rows ==> s.q.rows[u].attempts <= bound)
    && s.claims <= |s.q.rows| * bound
  }

  /** So it is after every run, crashes included. */
  lemma ClaimsBounded(c: Site, es: seq<Event>)
    requires c.inScope(c.start) && Runs(c, START, es)
    ensures ClaimsWithin(c, After(c, START, es))
  {
    StartKeepsInvariant(c);
    InvariantAlways(c, START, es);
    ClaimsAreAttempts(c, START, es);
    var s := After(c, START, es);
    BoundFromSum(c, s);
  }

  lemma BoundFromSum(c: Site, s: State)
    requires Booked(c, s) && s.claims == AttemptSum(s.q.rows)
    ensures ClaimsWithin(c, s)
  {
    AttemptSumBound(s.q.rows, AttemptBound(c, s.round));
  }

  // ----- When a worker can go on for ever -----

  ghost predicate Quiet(c: Site, s: State)
    requires DistinctRowids(s.q.rows)
  {
    Claim(c.policy, s.q.rows) == None
  }

  lemma SampleExists(us: set<Url>, n: nat) returns (sample: set<Url>)
    requires n <= |us|
    ensures sample <= us && |sample| == n
  {
    if n == 0 {
      sample := {};
    } else {
      var u :| u in us;
      sample := SampleExists(us - {u}, n - 1);
      sample := sample + {u};
    }
  }

  /** An empty claim and a recount of this sample lead the whole crawl back to where it was. */
  ghost predicate Spins(c: Site, s: State, w: nat, sample: set<Url>)
    requires Enabled(c, s, TakeNext(w))
  {
    var waiting := Apply(c, s, TakeNext(w));
    Enabled(c, waiting, Recount(w, sample)) && Apply(c, waiting, Recount(w, sample)) == s
  }

  lemma SpinsWhen(c: Site, s: State, w: nat, sample: set<Url>)
    requires Enabled(c, s, TakeNext(w)) && Quiet(c, s) && IsSample(s.q.rows, sample)
    requires c.policy.priority.Some? && EligibleIn(c.policy, s.q.rows, sample) != {}
    ensures Spins(c, s, w, sample)
  {
    var waiting := Apply(c, s, TakeNext(w));
    var u :| u in EligibleIn(c.policy, s.q.rows, sample);
    assert u in WithStatus(s.q.rows, Pending);
    assert s.ws[w := Waiting][w := Idle] == s.ws;
  }

  lemma SpinsOnly(c: Site, s: State, w: nat, sample: set<Url>)
    requires Enabled(c, s, TakeNext(w)) && Spins(c, s, w, sample)
    ensures Quiet(c, s) && IsSample(s.q.rows, sample)
    ensures c.policy.priority.Some? && EligibleIn(c.policy, s.q.rows, sample) != {}
  {
    var waiting := Apply(c, s, TakeNext(w));
    assert waiting.claims == s.claims;
    assert waiting.ws[w] == Waiting;
    if c.policy.priority.None? {
      ClaimFindsNothing(c.policy, s.q.rows);
    }
  }

  /** The two steps lead back exactly when the claim found nothing and the filter accepts a row of
      the sample. */
  lemma SpinsWithSample(c: Site, s: State, w: nat, sample: set<Url>)
    requires Enabled(c, s, TakeNext(w))
    ensures Spins(c, s, w, sample)
       <==> Claim(c.policy, s.q.rows) == None && IsSample(s.q.rows, sample)
            && c.policy.priority.Some? && EligibleIn(c.policy, s.q.rows, sample) != {}
  {
    if Spins(c, s, w, sample) {
      SpinsOnly(c, s, w, sample);
    } else if Quiet(c, s) && IsSample(s.q.rows, sample) && c.policy.priority.Some? && EligibleIn(c.policy, s.q.rows, sample) != {} {
      SpinsWhen(c, s, w, sample);
    }
  }

  /** The sample that shows an eligible row exists whenever the row does. */
  lemma SampleWith(rows: Rows, u: Url) returns (sample: set<Url>)
    requires u in WithStatus(rows, Pending)
    ensures u in sample && IsSample(rows, sample)
  {
    var pending := WithStatus(rows, Pending);
    var size := if |pending| < SAMPLE_LIMIT then |pending| else SAMPLE_LIMIT;
    assert |pending - {u}| == |pending| - 1;
    sample := SampleExists(pending - {u}, size - 1);
    sample := sample + {u};
  }

  /** A worker can go on for ever exactly when, under a priority filter, its claim finds nothing
      although an eligible row is pending. That needs more pending rows than a claim scans. */
  lemma SpinsExactly(c: Site, s: State, w: nat)
    requires Enabled(c, s, TakeNext(w))
    ensures (exists sample :: Spins(c, s, w, sample))
       <==> c.policy.priority.Some? && Claim(c.policy, s.q.rows) == None
            && exists u :: u in WithStatus(s.q.rows, Pending) && Eligible(c.policy, s.q.rows, u)
    ensures (exists sample :: Spins(c, s, w, sample)) ==> |WithStatus(s.q.rows, Pending)| > MAX_SCAN
  {
    var rows := s.q.rows;
    if sample :| Spins(c, s, w, sample) {
      SpinsOnly(c, s, w, sample);
      var u :| u in EligibleIn(c.policy, rows, sample);
      assert u in WithStatus(rows, Pending) && Eligible(c.policy, rows, u);
      if |WithStatus(rows, Pending)| <= MAX_SCAN {
        ClaimFindsNothing(c.policy, rows);
      }
    }
    if c.policy.priority.Some? && Claim(c.policy, rows) == None {
      if u :| u in WithStatus(rows, Pending) && Eligible(c.policy, rows, u) {
        var sample := SampleWith(rows, u);
        assert u in EligibleIn(c.policy, rows, sample);
        SpinsWhen(c, s, w, sample);
      }
    }
  }

  lemma {:induction false} RunsOn(c: Site, s: State, es: seq<Event>, e: Event)
    requires Runs(c, s, es) && Enabled(c, After(c, s, es), e)
    ensures Runs(c, s, es + [e]) && After(c, s, es + [e]) == Apply(c, After(c, s, es), e)
    decreases |es|
  {
    if es == [] {
      assert es + [e] == [e] && [e][1..] == [];
    } else {
      assert (es + [e])[1..] == es[1..] + [e];
      RunsOn(c, Apply(c, s, es[0]), es[1..], e);
    }
  }

  /** So no bound holds: that worker alone can take any number of steps and change nothing. */
  lemma {:induction false} SpinsForEver(c: Site, s: State, w: nat, sample: set<Url>, n: nat) returns (es: seq<Event>)
    requires Enabled(c, s, TakeNext(w)) && Spins(c, s, w, sample)
    ensures |es| == 2 * n && Runs(c, s, es) && After(c, s, es) == s
    ensures forall e :: e in es ==> !e.StartRound? && !e.Die?
  {
    es := [];
    if n > 0 {
      es := SpinsForEver(c, s, w, sample, n - 1);
      RunsOn(c, s, es, TakeNext(w));
      RunsOn(c, s, es + [TakeNext(w)], Recount(w, sample));
      es := es + [TakeNext(w)] + [Recount(w, sample)];
    }
  }

  lemma {:induction false} RunsJoin(c: Site, s: State, es: seq<Event>, more: seq<Event>)
    requires Runs(c, s, es) && Runs(c, After(c, s, es), more)
    ensures Runs(c, s, es + more) && After(c, s, es + more) == After(c, After(c, s, es), more)
    decreases |es|
  {
    if es == [] {
      assert es + more == more;
    } else {
      assert (es + more)[1..] == es[1..] + more;
      RunsJoin(c, Apply(c, s, es[0]), es[1..], more);
    }
  }

  /** Steps of the workers of one round, in which no crash happens. */
  ghost predicate WorkerRun(c: Site, s: State, es: seq<Event>) {
    Runs(c, s, es) && forall e :: e in es ==> !e.StartRound? && !e.Die?
  }

  ghost predicate CanSpin(c: Site, s: State, w: nat, sample: set<Url>) {
    Enabled(c, s, TakeNext(w)) && Spins(c, s, w, sample)
  }

  /** In no state that the round can still reach could a worker go on for ever. */
  ghost predicate NoSpins(c: Site, s: State) {
    forall es, w, sample :: WorkerRun(c, s, es) ==> !CanSpin(c, After(c, s, es), w, sample)
  }

  lemma NoSpinsNow(c: Site, s: State, w: nat, sample: set<Url>)
    requires NoSpins(c, s)
    ensures !CanSpin(c, s, w, sample)
  {
    assert WorkerRun(c, s, []) && After(c, s, []) == s;
  }

  lemma NoSpinsNext(c: Site, s: State, e: Event)
    requires NoSpins(c, s) && Enabled(c, s, e) && !e.StartRound? && !e.Die?
    ensures NoSpins(c, Apply(c, s, e))
  {
    forall es, w, sample | WorkerRun(c, Apply(c, s, e), es) ensures !CanSpin(c, After(c, Apply(c, s, e), es), w, sample) {
      assert ([e] + es)[1..] == es;
      assert WorkerRun(c, s, [e] + es);
      assert After(c, s, [e] + es) == After(c, Apply(c, s, e), es);
    }
  }

  // ----- When every round ends -----

  /** The product n * x, as a sum, so that measures built from it need no arithmetic of products. */
  function Times(n: nat, x: int): int {
    if n == 0 then 0 else x + Times(n - 1, x)
  }

  lemma {:induction false} TimesIsProduct(n: nat, x: int)
    ensures Times(n, x) == n * x
  {
    if n > 0 {
      TimesIsProduct(n - 1, x);
      OneMoreTimes(n - 1, x);
    }
  }

  lemma {:induction false} TimesLess(n: nat, a: int, b: int)
    requires a < b
    ensures Times(n, a) + n <= Times(n, b)
  {
    if n > 0 {
      TimesLess(n - 1, a, b);
    }
  }

  lemma {:induction false} TimesNonNegative(n: nat, a: int)
    requires a >= 0
    ensures Times(n, a) >= 0
  {
    if n > 0 {
      TimesNonNegative(n - 1, a);
    }
  }

  /** What remains to do with the URL a worker owns, and with the page it has to count. */
  function Load(w: Worker, links: nat): nat {
    match w
    case Holding(_) => links + 4
    case Expanding(_, todo) => |todo| + 3
    case Captcha(_) => 1
    case Challenged(_) => 1
    case Counting => 1
    case _ => 0
  }

  /** How long a worker that owns nothing can stay before it claims or leaves; `quiet` says
      that a claim finds nothing. */
  function Linger(w: Worker, quiet: bool): nat {
    match w
    case Idle => if quiet then 2 else 0
    case Waiting => 1
    case _ => 0
  }

  function Loads(ws: seq<Worker>, links: nat): nat {
    if ws == [] then 0 else Loads(ws[..|ws| - 1], links) + Load(ws[|ws| - 1], links)
  }

  function Lingers(ws: seq<Worker>, quiet: bool): nat {
    if ws == [] then 0 else Lingers(ws[..|ws| - 1], quiet) + Linger(ws[|ws| - 1], quiet)
  }

  lemma {:induction false} LoadsUpdate(ws: seq<Worker>, w: nat, to: Worker, links: nat)
    requires w < |ws|
    ensures Loads(ws[w := to], links) + Load(ws[w], links) == Loads(ws, links) + Load(to, links)
  {
    var init := ws[..|ws| - 1];
    if w == |ws| - 1 {
      assert ws[w := to][..|ws| - 1] == init;
    } else {
      assert ws[w := to][..|ws| - 1] == init[w := to];
      LoadsUpdate(init, w, to, links);
    }
  }

  lemma {:induction false} LingersUpdate(ws: seq<Worker>, w: nat, to: Worker, quiet: bool)
    requires w < |ws|
    ensures Lingers(ws[w := to], quiet) + Linger(ws[w], quiet) == Lingers(ws, quiet) + Linger(to, quiet)
  {
    var init := ws[..|ws| - 1];
    if w == |ws| - 1 {
      assert ws[w := to][..|ws| - 1] == init;
    } else {
      assert ws[w := to][..|ws| - 1] == init[w := to];
      LingersUpdate(init, w, to, quiet);
    }
  }

  lemma {:induction false} LingersBound(ws: seq<Worker>, quiet: bool)
    ensures Lingers(ws, quiet) <= 2 * |ws|
  {
    if ws != [] {
      LingersBound(ws[..|ws| - 1], quiet);
    }
  }

  /** A finite site: its reachable URLs are among these, which keep at most so many links each. */
  ghost predicate FiniteSite(c: Site, urls: set<Url>, links: nat) {
    && (forall u :: Reachable(c, u) ==> u in urls)
    && (forall u :: u in urls ==> |Children(c, u)| <= links)
  }

  /** Such a bound exists for every site with finitely many reachable URLs. */
  lemma {:induction false} LinksAreBounded(c: Site, urls: set<Url>) returns (links: nat)
    ensures forall u :: u in urls ==> |Children(c, u)| <= links
  {
    if urls == {} {
      links := 0;
    } else {
      var u :| u in urls;
      var rest := LinksAreBounded(c, urls - {u});
      links := if |Children(c, u)| > rest then |Children(c, u)| else rest;
    }
  }

  /** The page a worker owns is one of the site. */
  lemma OwnedInSite(c: Site, s: State, w: nat, urls: set<Url>, links: nat)
    requires Invariant(c, s) && FiniteSite(c, urls, links) && w < |s.ws| && Owns(s.ws[w]).Some?
    ensures |Children(c, Owns(s.ws[w]).value)| <= links
  {
    assert Owns(s.ws[w]).value in s.q.rows;
  }

  /** The claims a round can still make. */
  ghost function ClaimsLeft(c: Site, s: State, urls: set<Url>): int {
    Times(|urls|, AttemptBound(c, s.round)) - AttemptSum(s.q.rows)
  }

  /** Claims still possible in this round, each with the steps it can cause, and the steps that
      the workers' present URLs can cause. */
  ghost function Work(c: Site, s: State, urls: set<Url>, links: nat): int {
    Times(links + 5, ClaimsLeft(c, s, urls)) + Loads(s.ws, links)
  }

  ghost function Measure(c: Site, s: State, urls: set<Url>, links: nat): int
    requires DistinctRowids(s.q.rows)
  {
    Times(2 * |s.ws| + 1, Work(c, s, urls, links)) + Lingers(s.ws, Quiet(c, s))
  }

  lemma SubsetSize<T>(a: set<T>, b: set<T>)
    requires a <= b
    ensures |a| <= |b|
  {
    assert b == a + (b - a);
  }

  lemma RowsInSite(c: Site, s: State, urls: set<Url>, links: nat)
    requires Invariant(c, s) && FiniteSite(c, urls, links)
    ensures |s.q.rows| <= |urls| && |WithStatus(s.q.rows, Pending)| <= |urls|
  {
    SubsetSize(s.q.rows.Keys, urls);
    SubsetSize(WithStatus(s.q.rows, Pending), urls);
    assert |s.q.rows| == |s.q.rows.Keys|;
  }

  lemma {:induction false} SumWithin(rows: Rows, urls: nat, bound: nat)
    requires |rows| <= urls && forall u :: u in rows ==> rows[u].attempts <= bound
    ensures AttemptSum(rows) <= Times(urls, bound)
    decreases urls
  {
    if rows == map[] {
      TimesNonNegative(urls, bound);
    } else {
      var u :| u in rows;
      AttemptSumWithout(rows, u);
      assert (rows - {u}).Keys == rows.Keys - {u};
      SumWithin(rows - {u}, urls - 1, bound);
    }
  }

  lemma WorkNonNegative(c: Site, s: State, urls: set<Url>, links: nat)
    requires Booked(c, s) && |s.q.rows| <= |urls|
    ensures Work(c, s, urls, links) >= 0
  {
    SumWithin(s.q.rows, |urls|, AttemptBound(c, s.round));
    TimesNonNegative(links + 5, ClaimsLeft(c, s, urls));
  }

  /** A step that touches a claimed URL or a row lowers the work; the others leave it. */
  lemma WorkStep(c: Site, s: State, w: nat, m: Move, to: Worker, urls: set<Url>, links: nat)
    requires Fair(c, s, w, m, to)
    requires Owns(s.ws[w]).Some? ==> |Children(c, Owns(s.ws[w]).value)| <= links
    ensures Work(c, Moving(s, w, m, to), urls, links)
         <= Work(c, s, urls, links) - (if Progresses(s, w, m) then 1 else 0)
  {
    MoveClaims(c, s, w, m, to);
    LoadsUpdate(s.ws, w, to, links);
    var s' := Moving(s, w, m, to);
    assert s'.ws == s.ws[w := to] && s'.round == s.round;
    if m.Take? {
      TimesLess(links + 5, ClaimsLeft(c, s', urls), ClaimsLeft(c, s, urls));
    }
  }

  /** The step of a worker that owns a URL or has a page to count, or that claims one. */
  predicate Progresses(s: State, w: nat, m: Move)
    requires w < |s.ws|
  {
    Busy(s.ws[w]) || s.ws[w] == Counting || m.Take?
  }

  /** A worker that looks again while a claim finds nothing leaves, unless it can go on for ever. */
  lemma QuietRecountLeaves(c: Site, s: State, w: nat, sample: set<Url>)
    requires Enabled(c, s, Recount(w, sample)) && DistinctRowids(s.q.rows) && Quiet(c, s)
    requires !CanSpin(c, Apply(c, s, Recount(w, sample)), w, sample)
    ensures Step(c, s, Recount(w, sample)).2 == Gone
  {
    var s' := Apply(c, s, Recount(w, sample));
    if Step(c, s, Recount(w, sample)).2 == Idle {
      assert s'.ws[w] == Idle && s'.q == s.q;
      RecountStays(c.policy, s.q.rows, sample);
      SpinsWhen(c, s', w, sample);
    }
  }

  lemma RecountStays(p: Policy, rows: Rows, sample: set<Url>)
    requires DistinctRowids(rows) && Claim(p, rows) == None && IsSample(rows, sample) && WithStatus(rows, Pending) != {}
    ensures p.priority.Some?
  {
    if p.priority.None? {
      ClaimFindsNothing(p, rows);
    }
  }

  lemma RecountLingers(c: Site, s: State, w: nat, sample: set<Url>)
    requires Enabled(c, s, Recount(w, sample)) && DistinctRowids(s.q.rows)
    requires !CanSpin(c, Apply(c, s, Recount(w, sample)), w, sample)
    ensures Linger(Step(c, s, Recount(w, sample)).2, Quiet(c, s)) < Linger(s.ws[w], Quiet(c, s))
  {
    if Quiet(c, s) {
      QuietRecountLeaves(c, s, w, sample);
    }
  }

  lemma EmptyClaimLingers(c: Site, s: State, w: nat)
    requires Enabled(c, s, TakeNext(w)) && Quiet(c, s)
    ensures Linger(Step(c, s, TakeNext(w)).2, true) < Linger(s.ws[w], true)
  {
  }

  /** A step that makes no progress is a claim that finds nothing or a recount. */
  lemma IdleSteps(c: Site, s: State, e: Event)
    requires Enabled(c, s, e) && !e.StartRound? && !e.Die?
    ensures var r := Step(c, s, e);
            && r.0 < |s.ws|
            && (!Progresses(s, r.0, r.1) ==> r.1 == Stay && (e == Recount(r.0, if e.Recount? then e.sample else {}) || (e == TakeNext(r.0) && Quiet(c, s))))
  {
  }

  /** A step of a worker that owns nothing and claims nothing brings it nearer to leaving. */
  lemma LingerStep(c: Site, s: State, e: Event)
    requires Enabled(c, s, e) && !e.StartRound? && !e.Die? && DistinctRowids(s.q.rows)
    requires forall w, sample :: !CanSpin(c, Apply(c, s, e), w, sample)
    requires Step(c, s, e).0 < |s.ws| && !Progresses(s, Step(c, s, e).0, Step(c, s, e).1)
    ensures Step(c, s, e).1 == Stay
    ensures Linger(Step(c, s, e).2, Quiet(c, s)) < Linger(s.ws[Step(c, s, e).0], Quiet(c, s))
  {
    IdleSteps(c, s, e);
    if e.Recount? {
      RecountLingers(c, s, e.w, e.sample);
    } else {
      EmptyClaimLingers(c, s, e.w);
    }
  }

  /** Fewer claims or less of a claim's work outweigh any lingering; else lingering shrinks. */
  lemma MeasureDrops(n: nat, work: int, work': int, linger: nat, linger': nat, progress: bool)
    requires work' <= work - (if progress then 1 else 0)
    requires if progress then linger' <= 2 * n else linger' < linger
    ensures Times(2 * n + 1, work') + linger' < Times(2 * n + 1, work) + linger
  {
    if work' < work {
      TimesLess(2 * n + 1, work', work);
    }
  }

  lemma CountedWork(c: Site, s: State, counted: bool, urls: set<Url>, links: nat)
    ensures Work(c, Counted(s, counted), urls, links) == Work(c, s, urls, links)
  {
  }

  /** What a step does to the parts of the measure. */
  lemma StepSummary(c: Site, s: State, e: Event, urls: set<Url>, links: nat) returns (w: nat, m: Move, to: Worker)
    requires Invariant(c, s) && FiniteSite(c, urls, links)
    requires Enabled(c, s, e) && !e.StartRound? && !e.Die?
    ensures Step(c, s, e) == (w, m, to)
    ensures w < |s.ws| && Apply(c, s, e).ws == s.ws[w := to]
    ensures Work(c, Apply(c, s, e), urls, links) <= Work(c, s, urls, links) - (if Progresses(s, w, m) then 1 else 0)
    ensures m == Stay ==> Apply(c, s, e).q == s.q
  {
    w, m, to := StepMoves(c, s, e);
    if Owns(s.ws[w]).Some? {
      OwnedInSite(c, s, w, urls, links);
    }
    WorkStep(c, s, w, m, to, urls, links);
    CountedWork(c, Moving(s, w, m, to), e.Count?, urls, links);
  }

  /** Every step of a worker lowers the measure, unless it leads to where one can go on for ever. */
  lemma MeasureStep(c: Site, s: State, e: Event, urls: set<Url>, links: nat)
    requires Invariant(c, s) && FiniteSite(c, urls, links)
    requires Enabled(c, s, e) && !e.StartRound? && !e.Die?
    requires forall w, sample :: !CanSpin(c, Apply(c, s, e), w, sample)
    requires DistinctRowids(Apply(c, s, e).q.rows)
    ensures Measure(c, Apply(c, s, e), urls, links) < Measure(c, s, urls, links)
  {
    var w, m, to := StepSummary(c, s, e, urls, links);
    var s' := Apply(c, s, e);
    var progress := Progresses(s, w, m);
    if !progress {
      LingerStep(c, s, e);
    }
    LingersBound(s'.ws, Quiet(c, s'));
    LingersUpdate(s.ws, w, to, Quiet(c, s));
    MeasureDrops(|s.ws|, Work(c, s, urls, links), Work(c, s', urls, links),
                 Lingers(s.ws, Quiet(c, s)), Lingers(s'.ws, Quiet(c, s')), progress);
  }

  lemma MeasureNonNegative(c: Site, s: State, urls: set<Url>, links: nat)
    requires Invariant(c, s) && FiniteSite(c, urls, links)
    ensures Measure(c, s, urls, links) >= 0
  {
    RowsInSite(c, s, urls, links);
    WorkNonNegative(c, s, urls, links);
    TimesNonNegative(2 * |s.ws| + 1, Work(c, s, urls, links));
  }

  lemma {:induction false} StepsWithinMeasure(c: Site, s: State, es: seq<Event>, urls: set<Url>, links: nat)
    requires c.inScope(c.start) && Invariant(c, s) && FiniteSite(c, urls, links)
    requires NoSpins(c, s) && WorkerRun(c, s, es)
    ensures |es| <= Measure(c, s, urls, links)
    decreases |es|
  {
    if es == [] {
      MeasureNonNegative(c, s, urls, links);
    } else {
      var e := es[0];
      assert e in es && forall x :: x in es[1..] ==> x in es;
      InvariantStep(c, s, e);
      NoSpinsNext(c, s, e);
      forall w, sample ensures !CanSpin(c, Apply(c, s, e), w, sample) {
        NoSpinsNow(c, Apply(c, s, e), w, sample);
      }
      MeasureStep(c, s, e, urls, links);
      StepsWithinMeasure(c, Apply(c, s, e), es[1..], urls, links);
    }
  }

  /** Whatever bound one gives, a round in which a worker can go on for ever exceeds it. */
  lemma SpinsExceed(c: Site, s: State, es: seq<Event>, w: nat, sample: set<Url>, bound: nat) returns (more: seq<Event>)
    requires WorkerRun(c, s, es) && CanSpin(c, After(c, s, es), w, sample)
    ensures WorkerRun(c, s, more) && |more| > bound
  {
    var spin := SpinsForEver(c, After(c, s, es), w, sample, bound + 1);
    RunsJoin(c, s, es, spin);
    more := es + spin;
  }

  /** Every interleaving of the round's workers comes to an end within so many steps. */
  ghost predicate EndsWithin(c: Site, s: State, bound: int) {
    forall es :: WorkerRun(c, s, es) ==> |es| <= bound
  }

  lemma BoundMeansNoSpins(c: Site, s: State, bound: nat)
    requires EndsWithin(c, s, bound)
    ensures NoSpins(c, s)
  {
    forall es, w, sample | WorkerRun(c, s, es) ensures !CanSpin(c, After(c, s, es), w, sample) {
      if CanSpin(c, After(c, s, es), w, sample) {
        var more := SpinsExceed(c, s, es, w, sample, bound);
        assert false;
      }
    }
  }

  lemma NoSpinsMeansBound(c: Site, s: State, urls: set<Url>, links: nat)
    requires c.inScope(c.start) && Invariant(c, s) && FiniteSite(c, urls, links) && NoSpins(c, s)
    ensures EndsWithin(c, s, Measure(c, s, urls, links))
  {
    forall es | WorkerRun(c, s, es) ensures |es| <= Measure(c, s, urls, links) {
      StepsWithinMeasure(c, s, es, urls, links);
    }
  }

  /** A round ends, in any interleaving and within the measure, if and only if no state that it can
      reach lets a worker go on for ever; no other bound would do better. */
  lemma RoundIsFinite(c: Site, s: State, urls: set<Url>, links: nat)
    requires c.inScope(c.start) && Invariant(c, s) && FiniteSite(c, urls, links)
    ensures EndsWithin(c, s, Measure(c, s, urls, links)) <==> NoSpins(c, s)
    ensures (exists bound: nat :: EndsWithin(c, s, bound)) <==> NoSpins(c, s)
  {
    MeasureNonNegative(c, s, urls, links);
    if bound: nat :| EndsWithin(c, s, bound) {
      BoundMeansNoSpins(c, s, bound);
    }
    if NoSpins(c, s) {
      NoSpinsMeansBound(c, s, urls, links);
    }
  }

  /** Without a priority filter, and with one as long as the round never has more rows pending than
      a claim scans, the round ends. */
  lemma RoundEndsWithinScan(c: Site, s: State, urls: set<Url>, links: nat)
    requires c.inScope(c.start) && Invariant(c, s) && FiniteSite(c, urls, links)
    requires c.policy.priority.None? || forall es :: WorkerRun(c, s, es) ==> |WithStatus(After(c, s, es).q.rows, Pending)| <= MAX_SCAN
    ensures EndsWithin(c, s, Measure(c, s, urls, links))
  {
    forall es, w, sample | WorkerRun(c, s, es) ensures !CanSpin(c, After(c, s, es), w, sample) {
      if CanSpin(c, After(c, s, es), w, sample) {
        SpinsExactly(c, After(c, s, es), w);
      }
    }
    RoundIsFinite(c, s, urls, links);
  }

  /** No round gets stuck: while some worker has not gone, some worker can take a step. */
  lemma NeverStuck(c: Site, s: State) returns (e: Event)
    requires Invariant(c, s) && !RoundOver(s.ws)
    ensures Enabled(c, s, e) && !e.StartRound? && !e.Die?
  {
    var w :| 0 <= w < |s.ws| && s.ws[w] != Gone;
    match s.ws[w]
    case Idle => e := TakeNext(w);
    case Waiting =>
      var pending := WithStatus(s.q.rows, Pending);
      var sample := SampleExists(pending, if |pending| < SAMPLE_LIMIT then |pending| else SAMPLE_LIMIT);
      e := Recount(w, sample);
    case Holding(u) => e := if c.allowed(u) then Fetch(w, Page) else Refuse(w);
    case Captcha(_) => e := Fail(w);
    case Challenged(_) => e := Release(w);
    case Expanding(_, todo) => e := if todo == [] then Finish(w) else EnqueueChild(w);
    case Counting => e := Count(w);
  }
}

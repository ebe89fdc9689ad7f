/** The crawl as a state machine: one queue, any number of workers that interleave at every
    queue operation, rounds that start over the queue, and a process that may die anywhere. */
module Crawler {
  import opened Options
  import opened CrawlQueue

  /** What a crawl is given: the start page, each page's links and the tests they must pass, the
      robots rules, the claim policy, the attempt limit and the number of workers. */
  datatype Site = Site(
    start: Url,
    startContext: Context,
    hrefs: Url -> seq<Url>,
    inScope: Url -> bool,
    follows: (Url, Url) -> bool,
    allowed: Url -> bool,
    level: Url -> int,
    hint: (Context, Url, Url) -> Context,
    policy: Policy,
    maxAttempts: int,
    maxWorkers: int,
    maxConcurrent: int)

  function Max(a: int, b: int): int {
    if a < b then b else a
  }

  /** How many workers a round runs: at least one, otherwise no more than either limit. */
  function Workers(c: Site): (n: nat)
    ensures n >= 1 && (n > 1 ==> n <= c.maxWorkers && n <= c.maxConcurrent)
    ensures c.maxWorkers >= 1 && c.maxConcurrent >= 1 ==> n == c.maxWorkers || n == c.maxConcurrent
  {
    Max(1, if c.maxWorkers < c.maxConcurrent then c.maxWorkers else c.maxConcurrent)
  }

  function Kept(c: Site, page: Url, hrefs: seq<Url>): (kept: seq<Url>)
    ensures forall v :: v in kept ==> c.inScope(v)
    ensures |kept| <= |hrefs|
  {
    if hrefs == [] then []
    else if c.inScope(hrefs[0]) && c.follows(page, hrefs[0]) then [hrefs[0]] + Kept(c, page, hrefs[1..])
    else Kept(c, page, hrefs[1..])
  }

  /** The links of a page that the crawl follows. */
  function Children(c: Site, u: Url): (kept: seq<Url>)
    ensures forall v :: v in kept ==> c.inScope(v)
  {
    Kept(c, u, c.hrefs(u))
  }

  /** A link that the crawl follows: it is on the page, in scope, and of a kind the page may lead to. */
  predicate LinksTo(c: Site, u: Url, v: Url) {
    v in c.hrefs(u) && c.inScope(v) && c.follows(u, v)
  }

  lemma {:induction false} KeptAre(c: Site, page: Url, hrefs: seq<Url>, v: Url)
    ensures v in Kept(c, page, hrefs) <==> v in hrefs && c.inScope(v) && c.follows(page, v)
  {
    if hrefs != [] {
      KeptAre(c, page, hrefs[1..], v);
      assert hrefs == [hrefs[0]] + hrefs[1..];
    }
  }

  /** A refused link hides no other: the children are all the links to follow, and only those. */
  lemma ChildrenAre(c: Site, u: Url)
    ensures forall v :: v in Children(c, u) <==> LinksTo(c, u, v)
  {
    forall v ensures v in Children(c, u) <==> LinksTo(c, u, v) {
      KeptAre(c, u, c.hrefs(u), v);
    }
  }

  /** Where a worker stands. A worker that has claimed a URL owns it until it lets go. */
  datatype Worker =
    | Idle
    | Waiting                              // its last claim found nothing
    | Holding(url: Url)                    // claimed, not yet fetched
    | Captcha(url: Url)                    // marked FAILED, about to be marked again
    | Challenged(url: Url)                 // marked BLOCKED_CF
    | Expanding(url: Url, todo: seq<Url>)  // fetched, its links being enqueued
    | Counting                             // its page is VISITED and not yet counted
    | Gone

  datatype State = State(q: Queue, ws: seq<Worker>, pages: nat, round: nat, before: set<Url>, claims: nat)

  function Owns(w: Worker): Option<Url> {
    match w
    case Holding(u) => Some(u)
    case Captcha(u) => Some(u)
    case Challenged(u) => Some(u)
    case Expanding(u, _) => Some(u)
    case _ => None
  }

  function OwnedStatus(w: Worker): Status {
    match w
    case Captcha(_) => Failed
    case Challenged(_) => BlockedCf
    case _ => Processing
  }

  datatype Answer = Page | Recaptcha | Cloudflare

  datatype Event =
    | StartRound(stale: set<Url>)
    | TakeNext(w: nat)
    | Recount(w: nat, sample: set<Url>)
    | Refuse(w: nat)
    | Fetch(w: nat, answer: Answer)
    | Release(w: nat)
    | EnqueueChild(w: nat)
    | Finish(w: nat)
    | Count(w: nat)
    | Fail(w: nat)
    | Die

  // ----- The start of a round -----

  function Fresh(c: Site, q: Queue): Queue {
    Enqueued(q, c.start, c.level(c.start), c.startContext)
  }

  /** Out-of-scope rows dropped, failed and stuck ones pending again. */
  function Swept(c: Site, rows: Rows, stale: set<Url>): Rows {
    Requeued(Reclaimed(Pruned(rows, c.inScope), stale))
  }

  /** The start page seeded, or reopened after pruning, when nothing is pending. */
  function Seeded(c: Site, q: Queue, pruned: bool): Queue {
    if WithStatus(q.rows, Pending) != {} then q
    else if c.start !in q.rows then Fresh(c, q)
    else if pruned then Queue(q.rows[c.start := q.rows[c.start].(status := Pending, attempts := 0)], q.next)
    else q
  }

  /** The queue a round starts with. */
  function Opened(c: Site, q: Queue, stale: set<Url>): Queue {
    Seeded(c, Queue(Swept(c, q.rows, stale), q.next), exists u :: u in q.rows && !c.inScope(u))
  }

  function Spawned(c: Site): (ws: seq<Worker>)
    ensures forall i :: 0 <= i < |ws| ==> ws[i] == Idle
    ensures ws == [] <==> !c.allowed(c.start)
  {
    if c.allowed(c.start) then seq(Workers(c), _ => Idle) else []
  }

  predicate RoundOver(ws: seq<Worker>) {
    forall i :: 0 <= i < |ws| ==> ws[i] == Gone
  }

  // ----- Steps -----

  ghost predicate At(s: State, w: nat) {
    w < |s.ws|
  }

  ghost predicate Enabled(c: Site, s: State, e: Event) {
    match e
    case StartRound(_) => RoundOver(s.ws)
    case TakeNext(w) => At(s, w) && s.ws[w] == Idle && DistinctRowids(s.q.rows)
    case Recount(w, sample) => At(s, w) && s.ws[w] == Waiting && IsSample(s.q.rows, sample)
    case Refuse(w) => At(s, w) && s.ws[w].Holding? && !c.allowed(s.ws[w].url)
    case Fetch(w, _) => At(s, w) && s.ws[w].Holding? && c.allowed(s.ws[w].url)
    case Release(w) => At(s, w) && s.ws[w].Challenged?
    case EnqueueChild(w) => At(s, w) && s.ws[w].Expanding? && s.ws[w].todo != []
    case Finish(w) => At(s, w) && s.ws[w].Expanding? && s.ws[w].todo == []
    case Count(w) => At(s, w) && s.ws[w] == Counting
    case Fail(w) => At(s, w) && Owns(s.ws[w]).Some? && (s.ws[w].Holding? ==> c.allowed(s.ws[w].url))
    case Die => true
  }

  /** What a worker's step does to the queue: nothing, set the status of the URL the worker owns,
      claim a pending URL, or enqueue a link. */
  datatype Move = Stay | Set(status: Status) | Take(url: Url) | Add(url: Url, level: int, context: Context)

  function Attempts(rows: Rows, u: Url, absent: int): int {
    if u in rows then rows[u].attempts else absent
  }

  /** The worker a step belongs to, what it does to the queue and where the worker stands after. */
  ghost function Step(c: Site, s: State, e: Event): (nat, Move, Worker)
    requires Enabled(c, s, e) && !e.StartRound? && !e.Die?
  {
    match e
    case TakeNext(w) =>
      var u := Claim(c.policy, s.q.rows);
      if u.None? then (w, Stay, Waiting) else (w, Take(u.value), Holding(u.value))
    case Recount(w, sample) =>
      // A worker leaves when nothing is pending, or nothing it sampled is eligible.
      if WithStatus(s.q.rows, Pending) == {} then (w, Stay, Gone)
      else if c.policy.priority.Some? && EligibleIn(c.policy, s.q.rows, sample) == {} then (w, Stay, Gone)
      else (w, Stay, Idle)
    case Refuse(w) => (w, Set(Blocked), Idle)
    case Fetch(w, a) =>
      var u := s.ws[w].url;
      (match a
       case Page => (w, Stay, Expanding(u, Children(c, u)))
       case Recaptcha => (w, Set(Failed), Captcha(u))
       case Cloudflare => (w, Set(BlockedCf), Challenged(u)))
    case Release(w) => (w, Stay, Idle)
    case EnqueueChild(w) =>
      var u, v := s.ws[w].url, s.ws[w].todo[0];
      var context := if u in s.q.rows then s.q.rows[u].context else "";
      (w, Add(v, c.level(v), c.hint(context, u, v)), Expanding(u, s.ws[w].todo[1..]))
    case Finish(w) => (w, Set(VisitStatus(true, Attempts(s.q.rows, s.ws[w].url, c.maxAttempts), c.maxAttempts)), Counting)
    case Count(w) => (w, Stay, Idle)
    case Fail(w) =>
      (w, Set(VisitStatus(false, Attempts(s.q.rows, Owns(s.ws[w]).value, c.maxAttempts), c.maxAttempts)), Idle)
  }

  function WithRows(s: State, rows: Rows): State {
    s.(q := Queue(rows, s.q.next))
  }

  function Moving(s: State, w: nat, m: Move, to: Worker): State
    requires w < |s.ws| && (m.Set? ==> Owns(s.ws[w]).Some?)
  {
    var moved := s.(ws := s.ws[w := to]);
    match m
    case Stay => moved
    case Set(st) => WithRows(moved, SetTo(s.q.rows, Owns(s.ws[w]).value, st))
    case Take(u) => WithRows(moved, Claimed(s.q.rows, u)).(claims := s.claims + 1)
    case Add(v, level, context) => moved.(q := Enqueued(s.q, v, level, context))
  }

  ghost function NewRound(c: Site, s: State, stale: set<Url>): State {
    var q := Opened(c, s.q, stale);
    State(q, Spawned(c), 0, s.round + 1, WithStatus(q.rows, Visited), s.claims)
  }

  function Counted(s: State, counted: bool): State {
    if counted then s.(pages := s.pages + 1) else s
  }

  ghost function Apply(c: Site, s: State, e: Event): State
    requires Enabled(c, s, e)
  {
    if e.StartRound? then NewRound(c, s, e.stale)
    else if e.Die? then s.(ws := [])
    else
      var (w, m, to) := Step(c, s, e);
      Counted(Moving(s, w, m, to), e.Count?)
  }

  const START := State(Queue(map[], 0), [], 0, 0, {}, 0)

  ghost predicate Runs(c: Site, s: State, es: seq<Event>)
    decreases |es|
  {
    es == [] || (Enabled(c, s, es[0]) && Runs(c, Apply(c, s, es[0]), es[1..]))
  }

  ghost function After(c: Site, s: State, es: seq<Event>): State
    requires Runs(c, s, es)
    decreases |es|
  {
    if es == [] then s else After(c, Apply(c, s, es[0]), es[1..])
  }

  /** What every step of a worker respects. */
  ghost predicate Fair(c: Site, s: State, w: nat, m: Move, to: Worker) {
    && w < |s.ws|
    && var from := s.ws[w];
       match m
       case Stay =>
         || (!Busy(to) && to != Counting && (!Busy(from) || from.Challenged?))
         || (from.Holding? && c.allowed(from.url) && to == Expanding(from.url, Children(c, from.url)))
       case Set(st) =>
         && Owns(from).Some? && st != Processing
         && (st == Visited <==> to == Counting)
         && (st == Visited ==> from.Expanding? && from.todo == [])
         && (st == Blocked ==> from.Holding? && !c.allowed(from.url))
         && (st == Pending ==> Attempts(s.q.rows, Owns(from).value, c.maxAttempts) < c.maxAttempts)
         && (Busy(to) ==> Owns(to) == Owns(from) && OwnedStatus(to) == st && from.Holding? && c.allowed(from.url))
       case Take(u) => from == Idle && to == Holding(u) && u in WithStatus(s.q.rows, Pending)
       case Add(v, _, _) => from.Expanding? && from.todo != [] && v == from.todo[0] && to == Expanding(from.url, from.todo[1..])
  }

  predicate Busy(w: Worker) {
    Owns(w).Some?
  }

  lemma StepIsFair(c: Site, s: State, e: Event)
    requires Enabled(c, s, e) && !e.StartRound? && !e.Die?
    ensures var (w, m, to) := Step(c, s, e); Fair(c, s, w, m, to)
  {
  }

  // ----- Ownership -----

  /** Every owned URL is a row with the status its owner left, and no two workers own one. */
  ghost predicate Owned(rows: Rows, ws: seq<Worker>) {
    && (forall i :: 0 <= i < |ws| && Owns(ws[i]).Some? ==>
          Owns(ws[i]).value in rows && rows[Owns(ws[i]).value].status == OwnedStatus(ws[i]))
    && (forall i, j :: 0 <= i < j < |ws| && Owns(ws[i]).Some? ==> Owns(ws[i]) != Owns(ws[j]))
  }

  ghost predicate Held(ws: seq<Worker>, u: Url) {
    exists i :: 0 <= i < |ws| && Owns(ws[i]) == Some(u) && OwnedStatus(ws[i]) == Processing
  }

  /** While a round runs, exactly the URLs that workers hold are PROCESSING. */
  ghost predicate ProcessingIsHeld(rows: Rows, ws: seq<Worker>) {
    ws != [] ==> forall u :: u in rows && rows[u].status == Processing ==> Held(ws, u)
  }

  lemma SweptRows(c: Site, rows: Rows, stale: set<Url>)
    ensures forall u :: u in Swept(c, rows, stale) <==> u in rows && c.inScope(u)
    ensures forall u :: u in Swept(c, rows, stale) ==>
              Swept(c, rows, stale)[u] == if Retriable(rows[u].status) then rows[u].(status := Pending) else rows[u]
  {
  }

  ghost predicate NoneRetriable(rows: Rows) {
    forall u :: u in rows ==> !Retriable(rows[u].status)
  }

  lemma SeededQueue(c: Site, q: Queue, pruned: bool)
    requires QueueOk(q) && NoneRetriable(q.rows)
    ensures QueueOk(Seeded(c, q, pruned)) && NoneRetriable(Seeded(c, q, pruned).rows)
  {
  }

  lemma OpenedQueue(c: Site, q: Queue, stale: set<Url>)
    requires QueueOk(q)
    ensures QueueOk(Opened(c, q, stale)) && NoneRetriable(Opened(c, q, stale).rows)
  {
    SweptRows(c, q.rows, stale);
    SameRowids(q, Swept(c, q.rows, stale));
    SeededQueue(c, Queue(Swept(c, q.rows, stale), q.next), exists u :: u in q.rows && !c.inScope(u));
  }

  lemma OwnedMove(c: Site, s: State, w: nat, m: Move, to: Worker)
    requires QueueOk(s.q) && Owned(s.q.rows, s.ws) && Fair(c, s, w, m, to)
    ensures var s' := Moving(s, w, m, to); QueueOk(s'.q) && Owned(s'.q.rows, s'.ws)
  {
  }

  lemma HeldMove(c: Site, s: State, w: nat, m: Move, to: Worker)
    requires Owned(s.q.rows, s.ws) && ProcessingIsHeld(s.q.rows, s.ws) && Fair(c, s, w, m, to)
    ensures var s' := Moving(s, w, m, to); ProcessingIsHeld(s'.q.rows, s'.ws)
  {
    var s' := Moving(s, w, m, to);
    forall u | u in s'.q.rows && s'.q.rows[u].status == Processing ensures Held(s'.ws, u) {
      if Owns(to) == Some(u) {
        assert s'.ws[w] == to;
      } else {
        assert u in s.q.rows && s.q.rows[u].status == Processing;
        var i :| 0 <= i < |s.ws| && Owns(s.ws[i]) == Some(u) && OwnedStatus(s.ws[i]) == Processing;
        assert i != w ==> s'.ws[i] == s.ws[i];
      }
    }
  }

  // ----- Links, robots and reachability -----

  /** The links of a visited page are queued; those of a page being expanded are queued or to do. */
  ghost predicate LinksKept(c: Site, rows: Rows, ws: seq<Worker>) {
    && (forall u, v :: u in rows && rows[u].status == Visited && v in Children(c, u) ==> v in rows)
    && (forall i, v :: 0 <= i < |ws| && ws[i].Expanding? && v in Children(c, ws[i].url) ==> v in rows || v in ws[i].todo)
    && (forall i, v :: 0 <= i < |ws| && ws[i].Expanding? && v in ws[i].todo ==> v in Children(c, ws[i].url))
  }

  lemma LinksMove(c: Site, s: State, w: nat, m: Move, to: Worker)
    requires LinksKept(c, s.q.rows, s.ws) && Fair(c, s, w, m, to)
    ensures LinksKept(c, Moving(s, w, m, to).q.rows, Moving(s, w, m, to).ws)
  {
    var rows', ws' := Moving(s, w, m, to).q.rows, Moving(s, w, m, to).ws;
    forall i, v | 0 <= i < |ws'| && ws'[i].Expanding? && v in Children(c, ws'[i].url) ensures v in rows' || v in ws'[i].todo {
      if i == w && m.Add? {
        assert s.ws[w].todo == [m.url] + to.todo;
      } else if i != w {
        assert ws'[i] == s.ws[i];
      }
    }
  }

  /** A page is BLOCKED only when robots forbid it, and fetched only when they do not. */
  ghost predicate RobotsKept(c: Site, rows: Rows, ws: seq<Worker>) {
    && (forall u :: u in rows && rows[u].status == Blocked ==> !c.allowed(u))
    && (forall u :: u in rows && rows[u].status == Visited ==> c.allowed(u))
    && (forall i :: 0 <= i < |ws| && Busy(ws[i]) && !ws[i].Holding? ==> c.allowed(Owns(ws[i]).value))
  }

  lemma RobotsMove(c: Site, s: State, w: nat, m: Move, to: Worker)
    requires RobotsKept(c, s.q.rows, s.ws) && Fair(c, s, w, m, to)
    ensures RobotsKept(c, Moving(s, w, m, to).q.rows, Moving(s, w, m, to).ws)
  {
  }

  /** A path of links from the start page, out of pages that robots allow. */
  ghost predicate Path(c: Site, p: seq<Url>) {
    && p != [] && p[0] == c.start
    && forall i :: 0 <= i < |p| - 1 ==> c.allowed(p[i]) && LinksTo(c, p[i], p[i + 1])
  }

  ghost predicate Reachable(c: Site, u: Url) {
    exists p :: Path(c, p) && p[|p| - 1] == u
  }

  lemma StartReachable(c: Site)
    ensures Reachable(c, c.start)
  {
    assert Path(c, [c.start]);
  }

  lemma LinkReachable(c: Site, u: Url, v: Url)
    requires Reachable(c, u) && c.allowed(u) && v in Children(c, u)
    ensures Reachable(c, v)
  {
    ChildrenAre(c, u);
    var p :| Path(c, p) && p[|p| - 1] == u;
    assert Path(c, p + [v]);
  }

  /** Every queued URL is in scope and reachable. */
  ghost predicate OnlyReachable(c: Site, rows: Rows) {
    forall u :: u in rows ==> c.inScope(u) && Reachable(c, u)
  }

  lemma ReachableMove(c: Site, s: State, w: nat, m: Move, to: Worker)
    requires OnlyReachable(c, s.q.rows) && Owned(s.q.rows, s.ws) && LinksKept(c, s.q.rows, s.ws) && RobotsKept(c, s.q.rows, s.ws)
    requires Fair(c, s, w, m, to)
    ensures OnlyReachable(c, Moving(s, w, m, to).q.rows)
  {
    if m.Add? {
      assert m.url in Children(c, s.ws[w].url);
      LinkReachable(c, s.ws[w].url, m.url);
    }
  }

  /** The rows after the start of a round that drops none: retriable ones are pending again,
      the others are as before, and the start page may be new. */
  ghost predicate Restarted(c: Site, rows: Rows, after: Rows) {
    && (forall u :: u in rows ==>
          u in after && after[u] == if Retriable(rows[u].status) then rows[u].(status := Pending) else rows[u])
    && (forall u :: u in after && u !in rows ==> u == c.start && after[u].status == Pending && after[u].attempts == 0)
  }

  /** With the start page in scope, the start of a round drops nothing. */
  lemma NothingPruned(c: Site, q: Queue, stale: set<Url>)
    requires c.inScope(c.start) && OnlyReachable(c, q.rows)
    ensures Restarted(c, q.rows, Opened(c, q, stale).rows)
    ensures q.rows == map[] ==> c.start in Opened(c, q, stale).rows
  {
    SweptRows(c, q.rows, stale);
    assert !exists u :: u in q.rows && !c.inScope(u);
  }

  lemma MoveKeepsVisited(c: Site, s: State, w: nat, m: Move, to: Worker, u: Url)
    requires Fair(c, s, w, m, to) && Owned(s.q.rows, s.ws)
    requires u in s.q.rows && s.q.rows[u].status == Visited
    ensures u in Moving(s, w, m, to).q.rows && Moving(s, w, m, to).q.rows[u] == s.q.rows[u]
  {
    if m.Set? {
      assert s.q.rows[Owns(s.ws[w]).value].status == OwnedStatus(s.ws[w]);
    }
  }

  /** A visited page stays visited: no step of a worker and no start of a round touches it. */
  lemma VisitedStays(c: Site, s: State, e: Event, u: Url)
    requires Enabled(c, s, e) && Owned(s.q.rows, s.ws)
    requires c.inScope(c.start) && OnlyReachable(c, s.q.rows)
    requires u in s.q.rows && s.q.rows[u].status == Visited
    ensures u in Apply(c, s, e).q.rows && Apply(c, s, e).q.rows[u] == s.q.rows[u]
  {
    if e.StartRound? {
      NothingPruned(c, s.q, e.stale);
    } else if !e.Die? {
      var w, m, to := StepMoves(c, s, e);
      MoveKeepsVisited(c, s, w, m, to, u);
    }
  }

  // ----- Page counting -----

  function CountingIn(ws: seq<Worker>): nat {
    if ws == [] then 0 else CountingIn(ws[..|ws| - 1]) + (if ws[|ws| - 1] == Counting then 1 else 0)
  }

  lemma {:induction false} CountingUpdate(ws: seq<Worker>, w: nat, to: Worker)
    requires w < |ws|
    ensures CountingIn(ws[w := to]) + (if ws[w] == Counting then 1 else 0) == CountingIn(ws) + (if to == Counting then 1 else 0)
  {
    var init := ws[..|ws| - 1];
    if w == |ws| - 1 {
      assert ws[w := to][..|ws| - 1] == init;
    } else {
      assert ws[w := to][..|ws| - 1] == init[w := to];
      CountingUpdate(init, w, to);
    }
  }

  lemma {:induction false} NoneCounting(ws: seq<Worker>)
    requires forall i :: 0 <= i < |ws| ==> ws[i] != Counting
    ensures CountingIn(ws) == 0
  {
    if ws != [] {
      NoneCounting(ws[..|ws| - 1]);
    }
  }

  /** The pages counted in a round, and those visited but not yet counted, are exactly the pages
      that became VISITED in it. */
  ghost predicate PagesCounted(before: set<Url>, rows: Rows, ws: seq<Worker>, pages: nat) {
    ws != [] ==>
      && before <= WithStatus(rows, Visited)
      && |WithStatus(rows, Visited) - before| == pages + CountingIn(ws)
  }

  lemma VisitedAfter(c: Site, s: State, w: nat, m: Move, to: Worker)
    requires Owned(s.q.rows, s.ws) && Fair(c, s, w, m, to)
    ensures WithStatus(Moving(s, w, m, to).q.rows, Visited)
         == WithStatus(s.q.rows, Visited) + (if m == Set(Visited) then {Owns(s.ws[w]).value} else {})
    ensures m == Set(Visited) ==> Owns(s.ws[w]).value !in WithStatus(s.q.rows, Visited)
  {
  }

  lemma CountingAfter(c: Site, s: State, w: nat, m: Move, to: Worker)
    requires Fair(c, s, w, m, to)
    ensures Moving(s, w, m, to).ws == s.ws[w := to]
    ensures to == Counting <==> m == Set(Visited)
    ensures CountingIn(s.ws[w := to]) + (if s.ws[w] == Counting then 1 else 0)
         == CountingIn(s.ws) + (if m == Set(Visited) then 1 else 0)
  {
    CountingUpdate(s.ws, w, to);
  }

  lemma OneMoreVisited(before: set<Url>, visited: set<Url>, u: Url)
    requires before <= visited && u !in visited
    ensures |visited + {u} - before| == |visited - before| + 1
  {
    assert visited + {u} - before == (visited - before) + {u};
  }

  lemma PagesMove(c: Site, s: State, w: nat, m: Move, to: Worker, pages: nat)
    requires Owned(s.q.rows, s.ws) && Fair(c, s, w, m, to)
    requires PagesCounted(s.before, s.q.rows, s.ws, pages)
    ensures PagesCounted(s.before, Moving(s, w, m, to).q.rows, Moving(s, w, m, to).ws,
                         pages + (if s.ws[w] == Counting then 1 else 0))
  {
    VisitedAfter(c, s, w, m, to);
    CountingAfter(c, s, w, m, to);
    if m == Set(Visited) {
      OneMoreVisited(s.before, WithStatus(s.q.rows, Visited), Owns(s.ws[w]).value);
    }
  }

  // ----- Attempts -----

  /** Round r leaves at most this many attempts on a row. */
  function AttemptBound(c: Site, round: nat): int {
    Max(1, c.maxAttempts) + round - 1
  }

  ghost predicate AttemptsBounded(c: Site, rows: Rows, round: nat) {
    forall u :: u in rows ==>
      rows[u].attempts <= AttemptBound(c, round) - (if rows[u].status == Pending then 1 else 0)
  }

  lemma AttemptsMove(c: Site, s: State, w: nat, m: Move, to: Worker)
    requires AttemptsBounded(c, s.q.rows, s.round) && s.round > 0 && Owned(s.q.rows, s.ws) && Fair(c, s, w, m, to)
    ensures AttemptsBounded(c, Moving(s, w, m, to).q.rows, s.round)
  {
  }

  // ----- No work left behind -----

  predicate Resting(w: Worker) {
    w == Waiting || w == Gone
  }

  predicate AllRest(ws: seq<Worker>) {
    forall i :: 0 <= i < |ws| ==> Resting(ws[i])
  }

  /** When every worker has found nothing and gone, or is about to look again, a claim on the
      queue as it is now would still find nothing. */
  ghost predicate NothingStranded(c: Site, s: State) {
    s.ws != [] && AllRest(s.ws) ==>
      DistinctRowids(s.q.rows) && Claim(c.policy, s.q.rows) == None
  }

  lemma StrandedMove(c: Site, s: State, e: Event)
    requires Enabled(c, s, e) && !e.StartRound? && !e.Die?
    requires NothingStranded(c, s)
    ensures NothingStranded(c, Apply(c, s, e))
  {
    var (w, m, to) := Step(c, s, e);
    var ws' := Apply(c, s, e).ws;
    assert ws'[w] == to;
    if AllRest(ws') && !e.TakeNext? {
      forall i | 0 <= i < |s.ws| ensures Resting(s.ws[i]) {
        assert i != w ==> ws'[i] == s.ws[i];
      }
    }
  }

  // ----- Every run -----

  ghost predicate Safe(c: Site, s: State) {
    && QueueOk(s.q)
    && Owned(s.q.rows, s.ws) && ProcessingIsHeld(s.q.rows, s.ws)
    && LinksKept(c, s.q.rows, s.ws)
    && RobotsKept(c, s.q.rows, s.ws)
    && OnlyReachable(c, s.q.rows)
  }

  ghost predicate Booked(c: Site, s: State) {
    && PagesCounted(s.before, s.q.rows, s.ws, s.pages)
    && (s.round == 0 ==> s.q.rows == map[] && s.ws == [])
    && (s.round > 0 ==> c.start in s.q.rows && AttemptsBounded(c, s.q.rows, s.round))
  }

  ghost predicate Invariant(c: Site, s: State) {
    Safe(c, s) && Booked(c, s) && NothingStranded(c, s)
  }

  lemma RestartKeepsLinks(c: Site, rows: Rows, ws: seq<Worker>, after: Rows)
    requires LinksKept(c, rows, ws) && Restarted(c, rows, after)
    ensures LinksKept(c, after, Spawned(c))
  {
  }

  lemma RestartKeepsRobots(c: Site, rows: Rows, ws: seq<Worker>, after: Rows)
    requires RobotsKept(c, rows, ws) && Restarted(c, rows, after)
    ensures RobotsKept(c, after, Spawned(c))
  {
  }

  lemma RestartKeepsReachable(c: Site, rows: Rows, after: Rows)
    requires OnlyReachable(c, rows) && c.inScope(c.start) && Restarted(c, rows, after)
    ensures OnlyReachable(c, after)
  {
    StartReachable(c);
  }

  lemma RestartKeepsAttempts(c: Site, rows: Rows, round: nat, after: Rows)
    requires round > 0 ==> AttemptsBounded(c, rows, round)
    requires round == 0 ==> rows == map[]
    requires Restarted(c, rows, after)
    ensures AttemptsBounded(c, after, round + 1)
  {
  }

  lemma RoundKeepsSafe(c: Site, s: State, stale: set<Url>)
    requires Safe(c, s) && c.inScope(c.start)
    ensures Safe(c, NewRound(c, s, stale))
  {
    OpenedQueue(c, s.q, stale);
    NothingPruned(c, s.q, stale);
    RestartKeepsLinks(c, s.q.rows, s.ws, Opened(c, s.q, stale).rows);
    RestartKeepsRobots(c, s.q.rows, s.ws, Opened(c, s.q, stale).rows);
    RestartKeepsReachable(c, s.q.rows, Opened(c, s.q, stale).rows);
  }

  lemma RestartIsBooked(c: Site, s: State, stale: set<Url>)
    requires Safe(c, s) && Booked(c, s) && c.inScope(c.start)
    ensures Booked(c, NewRound(c, s, stale))
  {
    var rows := Opened(c, s.q, stale).rows;
    NothingPruned(c, s.q, stale);
    RestartKeepsAttempts(c, s.q.rows, s.round, rows);
    NoneCounting(Spawned(c));
    assert WithStatus(rows, Visited) - WithStatus(rows, Visited) == {};
    assert PagesCounted(WithStatus(rows, Visited), rows, Spawned(c), 0);
  }

  lemma RestartStrandsNothing(c: Site, s: State, stale: set<Url>)
    ensures NothingStranded(c, NewRound(c, s, stale))
  {
    var ws := NewRound(c, s, stale).ws;
    assert ws != [] ==> ws[0] == Idle;
  }

  lemma SafeMove(c: Site, s: State, w: nat, m: Move, to: Worker)
    requires Safe(c, s) && Fair(c, s, w, m, to)
    ensures Safe(c, Moving(s, w, m, to))
  {
    OwnedMove(c, s, w, m, to);
    HeldMove(c, s, w, m, to);
    LinksMove(c, s, w, m, to);
    RobotsMove(c, s, w, m, to);
    ReachableMove(c, s, w, m, to);
  }

  lemma RowsStay(c: Site, s: State, w: nat, m: Move, to: Worker)
    requires Fair(c, s, w, m, to)
    ensures s.q.rows.Keys <= Moving(s, w, m, to).q.rows.Keys
  {
  }

  /** `counted` says whether the step counts a page. */
  lemma BookedMove(c: Site, s: State, counted: bool, w: nat, m: Move, to: Worker)
    requires Safe(c, s) && Booked(c, s) && Fair(c, s, w, m, to)
    requires counted <==> s.ws[w] == Counting
    ensures Booked(c, Counted(Moving(s, w, m, to), counted))
  {
    PagesMove(c, s, w, m, to, s.pages);
    AttemptsMove(c, s, w, m, to);
    RowsStay(c, s, w, m, to);
  }

  lemma StepMoves(c: Site, s: State, e: Event) returns (w: nat, m: Move, to: Worker)
    requires Enabled(c, s, e) && !e.StartRound? && !e.Die?
    ensures Step(c, s, e) == (w, m, to)
    ensures Fair(c, s, w, m, to) && (e.Count? <==> s.ws[w] == Counting)
    ensures Apply(c, s, e) == Counted(Moving(s, w, m, to), e.Count?)
  {
    var r := Step(c, s, e);
    w, m, to := r.0, r.1, r.2;
    StepIsFair(c, s, e);
  }

  lemma WorkerKeepsSafe(c: Site, s: State, e: Event)
    requires Safe(c, s) && Enabled(c, s, e) && !e.StartRound? && !e.Die?
    ensures Safe(c, Apply(c, s, e))
  {
    var w, m, to := StepMoves(c, s, e);
    SafeMove(c, s, w, m, to);
  }

  lemma WorkerKeepsBooked(c: Site, s: State, e: Event)
    requires Safe(c, s) && Booked(c, s) && Enabled(c, s, e) && !e.StartRound? && !e.Die?
    ensures Booked(c, Apply(c, s, e))
  {
    var w, m, to := StepMoves(c, s, e);
    BookedMove(c, s, e.Count?, w, m, to);
  }

  /** Every step keeps the invariant. */
  lemma InvariantStep(c: Site, s: State, e: Event)
    requires Invariant(c, s) && c.inScope(c.start) && Enabled(c, s, e)
    ensures Invariant(c, Apply(c, s, e))
  {
    if e.StartRound? {
      RoundKeepsSafe(c, s, e.stale);
      RestartIsBooked(c, s, e.stale);
      RestartStrandsNothing(c, s, e.stale);
    } else if !e.Die? {
      WorkerKeepsSafe(c, s, e);
      WorkerKeepsBooked(c, s, e);
      StrandedMove(c, s, e);
    }
  }

  /** Whatever the events, a run from a queue that keeps the invariant keeps it. */
  lemma {:induction false} InvariantAlways(c: Site, s: State, es: seq<Event>)
    requires Invariant(c, s) && c.inScope(c.start) && Runs(c, s, es)
    ensures Invariant(c, After(c, s, es))
    decreases |es|
  {
    if es != [] {
      InvariantStep(c, s, es[0]);
      InvariantAlways(c, Apply(c, s, es[0]), es[1..]);
    }
  }

  lemma StartKeepsInvariant(c: Site)
    ensures Invariant(c, START)
  {
  }

  // ----- What every run from an empty queue gives -----

  /** No two workers ever hold the same URL, and while a round runs the PROCESSING rows are
      exactly the URLs its workers hold. */
  lemma ExclusiveClaims(c: Site, es: seq<Event>)
    requires c.inScope(c.start) && Runs(c, START, es)
    ensures var s := After(c, START, es);
            && (forall i, j :: 0 <= i < j < |s.ws| && Busy(s.ws[i]) ==> Owns(s.ws[i]) != Owns(s.ws[j]))
            && (s.ws != [] ==> forall u :: u in WithStatus(s.q.rows, Processing) <==> Held(s.ws, u))
  {
    StartKeepsInvariant(c);
    InvariantAlways(c, START, es);
    var s := After(c, START, es);
    if s.ws != [] {
      forall u ensures u in WithStatus(s.q.rows, Processing) <==> Held(s.ws, u) {
        if Held(s.ws, u) {
          var i :| 0 <= i < |s.ws| && Owns(s.ws[i]) == Some(u) && OwnedStatus(s.ws[i]) == Processing;
        }
      }
    }
  }

  lemma NoneHeld(rows: Rows, ws: seq<Worker>)
    requires ws != [] && RoundOver(ws) && ProcessingIsHeld(rows, ws)
    ensures WithStatus(rows, Processing) == {}
  {
    assert forall u :: !Held(ws, u);
  }

  lemma OverIsQuiet(c: Site, s: State)
    requires Invariant(c, s) && s.ws != [] && RoundOver(s.ws)
    ensures WithStatus(s.q.rows, Processing) == {}
    ensures DistinctRowids(s.q.rows) && Claim(c.policy, s.q.rows) == None
    ensures |WithStatus(s.q.rows, Visited) - s.before| == s.pages && s.before <= WithStatus(s.q.rows, Visited)
  {
    NoneHeld(s.q.rows, s.ws);
    NoneCounting(s.ws);
  }

  /** A round that ends leaves no PROCESSING row and nothing that a claim would still take; its
      page count is the number of pages that became VISITED in it. */
  lemma RoundEnd(c: Site, es: seq<Event>)
    requires c.inScope(c.start) && Runs(c, START, es)
    ensures var s := After(c, START, es);
            s.ws != [] && RoundOver(s.ws) ==>
              && WithStatus(s.q.rows, Processing) == {}
              && DistinctRowids(s.q.rows) && Claim(c.policy, s.q.rows) == None
              && |WithStatus(s.q.rows, Visited) - s.before| == s.pages && s.before <= WithStatus(s.q.rows, Visited)
  {
    StartKeepsInvariant(c);
    InvariantAlways(c, START, es);
    var s := After(c, START, es);
    if s.ws != [] && RoundOver(s.ws) {
      OverIsQuiet(c, s);
    }
  }

  /** Without a priority filter a round that ends leaves no PENDING row, although its workers
      leave one by one; with a filter it leaves no eligible one, as long as no more rows are
      pending than a claim scans. */
  lemma NoStrandedWork(c: Site, es: seq<Event>)
    requires c.inScope(c.start) && Runs(c, START, es)
    ensures var s := After(c, START, es);
            s.ws != [] && RoundOver(s.ws) ==>
              && (c.policy.priority.None? ==> WithStatus(s.q.rows, Pending) == {})
              && (|WithStatus(s.q.rows, Pending)| <= MAX_SCAN ==>
                    forall u :: u in WithStatus(s.q.rows, Pending) ==> !Eligible(c.policy, s.q.rows, u))
  {
    RoundEnd(c, es);
    var s := After(c, START, es);
    if s.ws != [] && RoundOver(s.ws) && (c.policy.priority.None? || |WithStatus(s.q.rows, Pending)| <= MAX_SCAN) {
      ClaimFindsNothing(c.policy, s.q.rows);
    }
  }

  // ----- The completion loop -----

  datatype Decision = Drained | PriorityDone | GaveUp | NextRound

  /** What the completion loop decides after a round, from the status counts of the queue and the
      eligible rows of its sample. */
  function AfterRound(c: Site, rows: Rows, sample: set<Url>, round: nat, maxRounds: int): Decision
    requires sample <= rows.Keys
  {
    var total := |WithStatus(rows, Pending)|;
    var pending := total + |WithStatus(rows, Processing)|;
    var retriable := |WithStatus(rows, Failed)| + |WithStatus(rows, BlockedCf)|;
    if c.policy.priority.Some? && total > 0 && EligibleIn(c.policy, rows, sample) == {} then PriorityDone
    else if pending > 0 then (if round >= Max(1, maxRounds) then GaveUp else NextRound)
    else if retriable == 0 then Drained
    else if round >= Max(1, maxRounds) then GaveUp
    else NextRound
  }

  predicate Unsettled(st: Status) {
    st in {Pending, Processing, Failed, BlockedCf}
  }

  /** The decision from the rows themselves. The loop stops for a priority filter exactly when pages
      wait and none of the sampled ones is eligible. Otherwise it has drained the queue exactly when
      no page is unsettled; if one is, it goes on exactly when it has a round left, and always has
      for the first round. */
  lemma AfterRoundIs(c: Site, rows: Rows, sample: set<Url>, round: nat, maxRounds: int)
    requires sample <= rows.Keys && round > 0
    ensures var decision := AfterRound(c, rows, sample, round, maxRounds);
            var stops := c.policy.priority.Some? && (exists u :: u in rows && rows[u].status == Pending)
                         && forall u :: u in sample ==> !c.policy.priority.value(u, rows[u]);
            var unsettled := exists u :: u in rows && Unsettled(rows[u].status);
            && (decision == PriorityDone <==> stops)
            && (decision == Drained <==> !stops && !unsettled)
            && (decision == NextRound <==> !stops && unsettled && round < maxRounds)
            && (decision == GaveUp <==> !stops && unsettled && round >= maxRounds)
  {
    WithStatusSize(rows, Pending);
    WithStatusSize(rows, Processing);
    WithStatusSize(rows, Failed);
    WithStatusSize(rows, BlockedCf);
    if EligibleIn(c.policy, rows, sample) == {} {
      forall u | u in sample ensures !Eligible(c.policy, rows, u) {
        assert u !in EligibleIn(c.policy, rows, sample);
      }
    } else {
      var u :| u in EligibleIn(c.policy, rows, sample);
    }
  }

  lemma WithStatusSize(rows: Rows, st: Status)
    ensures |WithStatus(rows, st)| > 0 <==> exists u :: u in rows && rows[u].status == st
  {
    if u :| u in rows && rows[u].status == st {
      assert u in WithStatus(rows, st);
    }
    if |WithStatus(rows, st)| > 0 {
      var u :| u in WithStatus(rows, st);
    }
  }

  lemma PathInQueue(c: Site, rows: Rows, p: seq<Url>)
    requires Path(c, p) && c.start in rows
    requires forall u, v :: u in rows && c.allowed(u) && v in Children(c, u) ==> v in rows
    ensures p[|p| - 1] in rows
  {
    if |p| > 1 {
      var q := p[..|p| - 1];
      assert Path(c, q);
      PathInQueue(c, rows, q);
      assert LinksTo(c, p[|p| - 2], p[|p| - 2 + 1]);
      ChildrenAre(c, p[|p| - 2]);
    }
  }

  ghost predicate Settled(rows: Rows) {
    forall u :: u in rows ==> rows[u].status == Visited || rows[u].status == Blocked
  }

  lemma NoneLeft(c: Site, rows: Rows, sample: set<Url>, round: nat, maxRounds: int)
    requires sample <= rows.Keys && AfterRound(c, rows, sample, round, maxRounds) == Drained
    ensures Settled(rows)
  {
    assert WithStatus(rows, Pending) == {} && WithStatus(rows, Processing) == {};
    assert WithStatus(rows, Failed) == {} && WithStatus(rows, BlockedCf) == {};
    forall u | u in rows ensures rows[u].status == Visited || rows[u].status == Blocked {
      assert u in WithStatus(rows, rows[u].status);
    }
  }

  lemma SettledIsComplete(c: Site, s: State)
    requires Invariant(c, s) && s.round > 0 && Settled(s.q.rows)
    ensures forall u :: u in s.q.rows <==> Reachable(c, u)
    ensures forall u :: u in s.q.rows ==> s.q.rows[u].status == if c.allowed(u) then Visited else Blocked
  {
    var rows := s.q.rows;
    forall u | Reachable(c, u) ensures u in rows {
      var p :| Path(c, p) && p[|p| - 1] == u;
      PathInQueue(c, rows, p);
    }
  }

  /** When the loop reports the queue drained, the queue holds exactly the URLs that links out of
      allowed pages reach from the start page: the allowed ones VISITED, the others BLOCKED. */
  lemma DrainedIsComplete(c: Site, es: seq<Event>, sample: set<Url>, maxRounds: int)
    requires c.inScope(c.start) && Runs(c, START, es) && After(c, START, es).round > 0
    requires var s := After(c, START, es);
             sample <= s.q.rows.Keys && AfterRound(c, s.q.rows, sample, s.round, maxRounds) == Drained
    ensures var rows := After(c, START, es).q.rows;
            && (forall u :: u in rows <==> Reachable(c, u))
            && (forall u :: u in rows ==> rows[u].status == if c.allowed(u) then Visited else Blocked)
  {
    StartKeepsInvariant(c);
    InvariantAlways(c, START, es);
    var s := After(c, START, es);
    NoneLeft(c, s.q.rows, sample, s.round, maxRounds);
    SettledIsComplete(c, s);
  }

  /** With a priority filter the loop stops after a round exactly when some page is still pending,
      as long as no more are than a claim scans; how many pages of the priority set have failed or
      were challenged, and could be retried, makes no difference. */
  lemma PriorityLoopStops(c: Site, es: seq<Event>, sample: set<Url>, maxRounds: int)
    requires c.inScope(c.start) && c.policy.priority.Some? && Runs(c, START, es)
    requires var s := After(c, START, es);
             && s.ws != [] && RoundOver(s.ws)
             && |WithStatus(s.q.rows, Pending)| <= MAX_SCAN && IsSample(s.q.rows, sample)
    ensures var s := After(c, START, es);
            AfterRound(c, s.q.rows, sample, s.round, maxRounds) == PriorityDone <==> WithStatus(s.q.rows, Pending) != {}
  {
    NoStrandedWork(c, es);
  }
}

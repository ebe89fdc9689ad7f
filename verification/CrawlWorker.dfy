/** The crawl's queue operations in the order the program makes them: what the start of a round and
    each step of a worker do to the queue is what the state machine says. */
module CrawlWorker {
  import opened Options
  import opened CrawlQueue
  import opened Crawler

  lemma PrunedSome(rows: Rows, inScope: Url -> bool, dropped: nat)
    requires dropped + |Pruned(rows, inScope)| == |rows|
    ensures dropped > 0 <==> exists u :: u in rows && !inScope(u)
  {
    CountSplit(rows, inScope);
    var out := set u | u in rows && !inScope(u);
    assert |out| == dropped;
    if u :| u in rows && !inScope(u) {
      assert u in out;
    }
    if dropped > 0 {
      var u :| u in out;
    }
  }

  /** Drops what is out of scope and makes everything else that can be retried pending again. */
  method Sweep(c: Site, db: QueueDb, stale0: set<Url>, stale: set<Url>) returns (pruned: bool)
    requires QueueOk(db.q)
    modifies db
    ensures QueueOk(db.q) && db.q == Queue(Swept(c, old(db.q.rows), stale), old(db.q.next))
    ensures pruned <==> exists u :: u in old(db.q.rows) && !c.inScope(u)
  {
    ghost var rows := db.q.rows;
    var dropped := db.PruneOutOfScope(c.inScope);
    PrunedSome(rows, c.inScope, dropped);
    ReclaimThenRequeue(db.q.rows, stale0);
    ReclaimThenRequeue(db.q.rows, stale);
    db.ReclaimStale(stale0);
    var requeued := db.RequeueFailed(stale);
    pruned := dropped > 0;
  }

  lemma NothingPending(c: Site, q: Queue, pruned: bool, pending: nat)
    requires pending == |WithStatus(q.rows, Pending)|
    ensures pending != 0 ==> Seeded(c, q, pruned) == q
    ensures pending == 0 ==> WithStatus(q.rows, Pending) == {}
  {
    assert pending != 0 ==> WithStatus(q.rows, Pending) != {};
  }

  /** Queues the start page, or opens it again after pruning, when nothing is pending. */
  method Seed(c: Site, db: QueueDb, pruned: bool)
    requires QueueOk(db.q)
    modifies db
    ensures QueueOk(db.q) && db.q == Seeded(c, old(db.q), pruned)
  {
    var pending := db.PendingCount();
    NothingPending(c, db.q, pruned, pending);
    if pending == 0 {
      if c.start !in db.q.rows {
        var added := db.Enqueue(c.start, c.level(c.start), c.startContext);
      } else if pruned {
        db.Reopen(c.start);
      }
    }
  }

  /** Opens the queue for a round. */
  method OpenQueue(c: Site, db: QueueDb, stale0: set<Url>, stale: set<Url>)
    requires QueueOk(db.q)
    modifies db
    ensures QueueOk(db.q) && db.q == Opened(c, old(db.q), stale)
    ensures OnlyReachable(c, old(db.q.rows)) && c.inScope(c.start) ==> Restarted(c, old(db.q.rows), db.q.rows)
  {
    ghost var q0 := db.q;
    var pruned := Sweep(c, db, stale0, stale);
    Seed(c, db, pruned);
    if c.inScope(c.start) && OnlyReachable(c, q0.rows) {
      NothingPruned(c, q0, stale);
    }
  }

  /** The links of a page that are in scope and may be followed from it. */
  method CollectLinks(c: Site, page: Url) returns (kept: seq<Url>)
    ensures kept == Children(c, page)
    ensures forall v :: v in kept <==> LinksTo(c, page, v)
  {
    kept := [];
    var hrefs := c.hrefs(page);
    for i := 0 to |hrefs|
      invariant kept + Kept(c, page, hrefs[i..]) == Kept(c, page, hrefs)
    {
      var href := hrefs[i];
      assert hrefs[i..][0] == href && hrefs[i..][1..] == hrefs[i + 1..];
      if !c.inScope(href) {
        continue;
      }
      if !c.follows(page, href) {
        continue;
      }
      assert kept + ([href] + Kept(c, page, hrefs[i + 1..])) == (kept + [href]) + Kept(c, page, hrefs[i + 1..]);
      kept := kept + [href];
    }
    assert kept + [] == kept;
    ChildrenAre(c, page);
  }

  /** What the worker does with the answer to its request. */
  method Receive(c: Site, db: QueueDb, url: Url, answer: Answer) returns (to: Worker)
    requires QueueOk(db.q)
    modifies db
    ensures QueueOk(db.q)
    ensures Owns(to) == Some(url) && (url in db.q.rows && !answer.Page? ==> db.q.rows[url].status == OwnedStatus(to))
    ensures to == match answer case Page => Expanding(url, Children(c, url)) case Recaptcha => Captcha(url) case Cloudflare => Challenged(url)
    ensures db.q == if answer.Page? then old(db.q) else Queue(SetTo(old(db.q.rows), url, OwnedStatus(to)), old(db.q.next))
  {
    match answer
    case Page =>
      var links := CollectLinks(c, url);
      to := Expanding(url, links);
    case Recaptcha =>
      db.SetStatus(url, Failed);
      to := Captcha(url);
    case Cloudflare =>
      db.SetStatus(url, BlockedCf);
      to := Challenged(url);
  }

  /** Claims a URL, or decides after an empty claim whether to leave. */
  method FindWork(c: Site, db: QueueDb, ghost s: State, e: Event) returns (to: Worker)
    requires QueueOk(db.q) && db.q == s.q && Enabled(c, s, e) && (e.TakeNext? || e.Recount?)
    modifies db
    ensures QueueOk(db.q) && db.q == Apply(c, s, e).q
    ensures Apply(c, s, e).ws == s.ws[e.w := to]
  {
    match e
    case TakeNext(w) =>
      var claimed := db.ClaimNext(c.policy);
      to := if claimed.Some? then Holding(claimed.value) else Waiting;
    case Recount(w, sample) =>
      var pending := db.PendingCount();
      if pending == 0 {
        return Gone;
      }
      assert WithStatus(s.q.rows, Pending) != {};
      var eligible := set u | u in sample && Eligible(c.policy, db.q.rows, u);
      to := if c.policy.priority.Some? && eligible == {} then Gone else Idle;
  }

  /** Ends the visit of the URL the worker owns, if this step does, or queues its next link. */
  method Visit(c: Site, db: QueueDb, ghost s: State, e: Event, at: Worker) returns (to: Worker)
    requires QueueOk(db.q) && db.q == s.q && Enabled(c, s, e) && (e.EnqueueChild? || e.Finish? || e.Fail?) && at == s.ws[e.w]
    modifies db
    ensures QueueOk(db.q) && db.q == Apply(c, s, e).q
    ensures Apply(c, s, e).ws == s.ws[e.w := to]
  {
    match e
    case EnqueueChild(w) =>
      var v := at.todo[0];
      var context := if at.url in db.q.rows then db.q.rows[at.url].context else "";
      var added := db.Enqueue(v, c.level(v), c.hint(context, at.url, v));
      to := Expanding(at.url, at.todo[1..]);
    case Finish(w) =>
      var status := db.MarkVisit(at.url, true, c.maxAttempts);
      to := Counting;
    case Fail(w) =>
      var status := db.MarkVisit(Owns(at).value, false, c.maxAttempts);
      to := Idle;
  }

  /** Makes one step of the worker that stands at `at`. The queue and the worker end where the
      state machine's step puts them. */
  method TakeStep(c: Site, db: QueueDb, ghost s: State, e: Event, at: Worker) returns (to: Worker)
    requires QueueOk(db.q) && db.q == s.q
    requires Enabled(c, s, e) && !e.StartRound? && !e.Die? && at == s.ws[e.w]
    modifies db
    ensures QueueOk(db.q) && db.q == Apply(c, s, e).q
    ensures Apply(c, s, e).ws == s.ws[e.w := to]
  {
    if e.TakeNext? || e.Recount? {
      to := FindWork(c, db, s, e);
    } else if e.EnqueueChild? || e.Finish? || e.Fail? {
      to := Visit(c, db, s, e, at);
    } else if e.Refuse? {
      db.SetStatus(at.url, Blocked);
      to := Idle;
    } else if e.Fetch? {
      to := Receive(c, db, at.url, e.answer);
    } else {
      to := Idle;
    }
  }
}

/** The persistent crawl queue: its rows, the order in which pending rows are claimed, and the
    operations that update them. */
module CrawlQueue {
  import opened Options

  type Url = string
  type Context = string

  datatype Status = Pending | Processing | Visited | Failed | BlockedCf | Blocked

  datatype Row = Row(status: Status, attempts: nat, level: int, context: Context, rowid: nat)

  type Rows = map<Url, Row>

  /** The table, with the row number its next insertion gets. */
  datatype Queue = Queue(rows: Rows, next: nat)

  ghost predicate QueueOk(q: Queue) {
    && (forall u :: u in q.rows ==> q.rows[u].rowid < q.next)
    && DistinctRowids(q.rows)
  }

  ghost predicate DistinctRowids(rows: Rows) {
    forall u, v :: u in rows && v in rows && u != v ==> rows[u].rowid != rows[v].rowid
  }

  function WithStatus(rows: Rows, s: Status): set<Url> {
    set u | u in rows && rows[u].status == s
  }

  // ----- Updates -----

  function Enqueued(q: Queue, url: Url, level: int, context: Context): Queue {
    if url in q.rows then q
    else Queue(q.rows[url := Row(Pending, 0, level, context, q.next)], q.next + 1)
  }

  function SetTo(rows: Rows, url: Url, s: Status): Rows {
    if url in rows then rows[url := rows[url].(status := s)] else rows
  }

  function Claimed(rows: Rows, url: Url): Rows {
    if url in rows then rows[url := rows[url].(status := Processing, attempts := rows[url].attempts + 1)] else rows
  }

  /** The status a visit leaves: an unsuccessful one is retried below the attempt limit. */
  function VisitStatus(ok: bool, attempts: int, maxAttempts: int): Status {
    if ok then Visited else if attempts < maxAttempts then Pending else Failed
  }

  function Marked(rows: Rows, url: Url, ok: bool, maxAttempts: int): Rows {
    SetTo(rows, url, VisitStatus(ok, if url in rows then rows[url].attempts else maxAttempts, maxAttempts))
  }

  predicate Retriable(s: Status) {
    s == Failed || s == Processing || s == BlockedCf
  }

  function Requeued(rows: Rows): Rows {
    map u | u in rows :: if Retriable(rows[u].status) then rows[u].(status := Pending) else rows[u]
  }

  function Reclaimed(rows: Rows, stale: set<Url>): Rows {
    map u | u in rows :: if rows[u].status == Processing && u in stale then rows[u].(status := Pending) else rows[u]
  }

  function Pruned(rows: Rows, inScope: Url -> bool): Rows {
    map u | u in rows && inScope(u) :: rows[u]
  }

  // ----- Claim order -----

  datatype Mode = Bfs | DeepFirst | Hybrid

  const CHASSIS_LEVEL: int := 2
  const BATCH_SIZE: nat := 500
  const MAX_SCAN: nat := 50_000

  /** How a claim orders and filters: the mode, which URLs are vehicle pages, and the priority
      filter, if any, as the eligibility of a row. */
  datatype Policy = Policy(mode: Mode, isVehicle: Url -> bool, priority: Option<(Url, Row) -> bool>)

  /** The sort key of a pending row; the smaller comes first. */
  datatype Rank = Rank(group: nat, level: int, attempts: nat, rowid: nat)

  predicate VehicleGroup(p: Policy, u: Url, r: Row) {
    r.level == CHASSIS_LEVEL || p.isVehicle(u)
  }

  function RankOf(p: Policy, u: Url, r: Row): Rank {
    match p.mode
    case Hybrid => Rank(if VehicleGroup(p, u, r) then 0 else 1, -r.level, r.attempts, r.rowid)
    case DeepFirst => Rank(0, -r.level, r.attempts, r.rowid)
    case Bfs => Rank(0, r.level, r.attempts, r.rowid)
  }

  predicate Less(a: Rank, b: Rank) {
    || a.group < b.group
    || (a.group == b.group && (
          || a.level < b.level
          || (a.level == b.level && (
                || a.attempts < b.attempts
                || (a.attempts == b.attempts && a.rowid < b.rowid)))))
  }

  predicate Precedes(p: Policy, rows: Rows, u: Url, v: Url)
    requires u in rows && v in rows
  {
    Less(RankOf(p, u, rows[u]), RankOf(p, v, rows[v]))
  }

  predicate Eligible(p: Policy, rows: Rows, u: Url)
    requires u in rows
  {
    p.priority.Some? ==> p.priority.value(u, rows[u])
  }

  predicate IsLeast(p: Policy, rows: Rows, us: set<Url>, u: Url)
    requires us <= rows.Keys
  {
    u in us && forall v :: v in us && v != u ==> Precedes(p, rows, u, v)
  }

  lemma LeastExists(p: Policy, rows: Rows, us: set<Url>)
    requires DistinctRowids(rows) && us <= rows.Keys && us != {}
    ensures exists u :: IsLeast(p, rows, us, u)
    decreases |us|
  {
    var u :| u in us;
    if us == {u} {
      assert IsLeast(p, rows, us, u);
    } else {
      LeastExists(p, rows, us - {u});
      var v :| IsLeast(p, rows, us - {u}, v);
      if Precedes(p, rows, v, u) {
        assert IsLeast(p, rows, us, v);
      } else {
        assert Precedes(p, rows, u, v);
        assert forall w :: w in us && w != u && w != v ==> Precedes(p, rows, v, w);
        assert IsLeast(p, rows, us, u);
      }
    }
  }

  /** A set of rows in claim order, as the ORDER BY of the claim query lists them. */
  function InOrder(p: Policy, rows: Rows, us: set<Url>): seq<Url>
    requires DistinctRowids(rows) && us <= rows.Keys
    decreases |us|
  {
    if us == {} then []
    else
      LeastExists(p, rows, us);
      var u :| IsLeast(p, rows, us, u);
      [u] + InOrder(p, rows, us - {u})
  }

  ghost predicate Ascending(p: Policy, rows: Rows, s: seq<Url>) {
    && (forall u :: u in s ==> u in rows)
    && forall i, j :: 0 <= i < j < |s| ==> Precedes(p, rows, s[i], s[j])
  }

  lemma AscendingCons(p: Policy, rows: Rows, u: Url, s: seq<Url>)
    requires u in rows && Ascending(p, rows, s)
    requires forall v :: v in s ==> Precedes(p, rows, u, v)
    ensures Ascending(p, rows, [u] + s)
  {
    var all := [u] + s;
    forall i, j | 0 <= i < j < |all| ensures Precedes(p, rows, all[i], all[j]) {
      assert all[j] == s[j - 1] && s[j - 1] in s;
      if i > 0 {
        assert all[i] == s[i - 1];
      }
    }
  }

  lemma {:induction false} InOrderSorted(p: Policy, rows: Rows, us: set<Url>)
    requires DistinctRowids(rows) && us <= rows.Keys
    ensures |InOrder(p, rows, us)| == |us|
    ensures forall u :: u in InOrder(p, rows, us) <==> u in us
    ensures Ascending(p, rows, InOrder(p, rows, us))
    decreases |us|
  {
    if us != {} {
      var u := InOrder(p, rows, us)[0];
      assert IsLeast(p, rows, us, u);
      var tail := InOrder(p, rows, us - {u});
      InOrderSorted(p, rows, us - {u});
      AscendingCons(p, rows, u, tail);
      assert InOrder(p, rows, us) == [u] + tail;
    }
  }

  function PendingInOrder(p: Policy, rows: Rows): seq<Url>
    requires DistinctRowids(rows)
  {
    InOrder(p, rows, WithStatus(rows, Pending))
  }

  /** The ORDER BY lists every pending row once, each before those it comes first of. */
  lemma PendingSorted(p: Policy, rows: Rows)
    requires DistinctRowids(rows)
    ensures var s := PendingInOrder(p, rows);
            && |s| == |WithStatus(rows, Pending)|
            && (forall u :: u in s <==> u in rows && rows[u].status == Pending)
            && forall i, j :: 0 <= i < j < |s| ==> ComesFirst(p, s[i], rows[s[i]], s[j], rows[s[j]])
  {
    var s := PendingInOrder(p, rows);
    InOrderSorted(p, rows, WithStatus(rows, Pending));
    forall i, j | 0 <= i < j < |s| ensures ComesFirst(p, s[i], rows[s[i]], s[j], rows[s[j]]) {
      PrecedesIs(p, rows, s[i], s[j]);
    }
  }

  // ----- The claim, specified -----

  function Window(p: Policy): nat {
    if p.priority.Some? then MAX_SCAN else BATCH_SIZE
  }

  /** The first eligible row at position lo or later, before position hi. */
  function FirstEligible(p: Policy, rows: Rows, order: seq<Url>, lo: nat, hi: nat): (r: Option<Url>)
    requires forall u :: u in order ==> u in rows
    ensures r.Some? ==> r.value in order
    decreases hi - lo
  {
    if lo >= hi || lo >= |order| then None
    else if Eligible(p, rows, order[lo]) then Some(order[lo])
    else FirstEligible(p, rows, order, lo + 1, hi)
  }

  /** The row a claim takes: the first eligible one among the pending rows it scans. */
  function Claim(p: Policy, rows: Rows): (r: Option<Url>)
    requires DistinctRowids(rows)
    ensures r.Some? ==> r.value in WithStatus(rows, Pending)
  {
    InOrderSorted(p, rows, WithStatus(rows, Pending));
    FirstEligible(p, rows, PendingInOrder(p, rows), 0, Window(p))
  }

  lemma {:induction false} FirstEligibleIs(p: Policy, rows: Rows, order: seq<Url>, lo: nat, hi: nat) returns (i: nat)
    requires forall u :: u in order ==> u in rows
    ensures lo <= i && forall j :: lo <= j < i && j < |order| ==> !Eligible(p, rows, order[j])
    ensures var r := FirstEligible(p, rows, order, lo, hi);
            if r.Some? then i < hi && i < |order| && order[i] == r.value && Eligible(p, rows, r.value)
            else i >= hi || i >= |order|
    decreases hi - lo
  {
    i := lo;
    if lo < hi && lo < |order| && !Eligible(p, rows, order[lo]) {
      i := FirstEligibleIs(p, rows, order, lo + 1, hi);
    }
  }

  /** Among pages of one level the one with fewer attempts is handed out first, then the older row. */
  predicate Sooner(a: Row, b: Row) {
    a.attempts < b.attempts || (a.attempts == b.attempts && a.rowid < b.rowid)
  }

  /** Which of two pending pages the mode hands out first: breadth-first the one of the lower level,
      deep-first the one of the higher level, hybrid a vehicle page (level 2, or by its URL) before
      any other and otherwise as deep-first. */
  predicate ComesFirst(p: Policy, u: Url, a: Row, v: Url, b: Row) {
    match p.mode
    case Bfs => a.level < b.level || (a.level == b.level && Sooner(a, b))
    case DeepFirst => a.level > b.level || (a.level == b.level && Sooner(a, b))
    case Hybrid =>
      var uIsVehicle, vIsVehicle := a.level == 2 || p.isVehicle(u), b.level == 2 || p.isVehicle(v);
      if uIsVehicle != vIsVehicle then uIsVehicle
      else a.level > b.level || (a.level == b.level && Sooner(a, b))
  }

  lemma PrecedesIs(p: Policy, rows: Rows, u: Url, v: Url)
    requires u in rows && v in rows
    ensures Precedes(p, rows, u, v) <==> ComesFirst(p, u, rows[u], v, rows[v])
  {
  }

  /** A page that is pending, passes the filter, and comes before every other page that does. */
  ghost predicate FirstOfEligible(p: Policy, rows: Rows, u: Url) {
    && u in rows && rows[u].status == Pending && (p.priority.Some? ==> p.priority.value(u, rows[u]))
    && forall v :: v in rows && rows[v].status == Pending && (p.priority.Some? ==> p.priority.value(v, rows[v])) && v != u ==>
         ComesFirst(p, u, rows[u], v, rows[v])
  }

  /** A claim takes the first of the eligible rows: no priority filter or queue length changes that. */
  lemma ClaimIsLeastEligible(p: Policy, rows: Rows)
    requires DistinctRowids(rows) && Claim(p, rows).Some?
    ensures var u := Claim(p, rows).value;
            && FirstOfEligible(p, rows, u)
            && u in WithStatus(rows, Pending) && Eligible(p, rows, u)
            && forall v :: v in WithStatus(rows, Pending) && Eligible(p, rows, v) && v != u ==> Precedes(p, rows, u, v)
  {
    var s := PendingInOrder(p, rows);
    InOrderSorted(p, rows, WithStatus(rows, Pending));
    var i := FirstEligibleIs(p, rows, s, 0, Window(p));
    var u := Claim(p, rows).value;
    forall v | v in WithStatus(rows, Pending) && Eligible(p, rows, v) && v != u ensures Precedes(p, rows, u, v) {
      var k :| 0 <= k < |s| && s[k] == v;
      assert k > i;
    }
    forall v | v in rows && rows[v].status == Pending && (p.priority.Some? ==> p.priority.value(v, rows[v])) && v != u
      ensures ComesFirst(p, u, rows[u], v, rows[v])
    {
      assert v in WithStatus(rows, Pending) && Eligible(p, rows, v);
      PrecedesIs(p, rows, u, v);
    }
  }

  /** A claim finds nothing exactly when no row it scans is eligible; with no more pending rows
      than it scans that means no pending row is eligible. */
  lemma ClaimFindsNothing(p: Policy, rows: Rows)
    requires DistinctRowids(rows)
    requires |WithStatus(rows, Pending)| <= Window(p) || p.priority.None?
    ensures Claim(p, rows) == None <==> forall u :: u in WithStatus(rows, Pending) ==> !Eligible(p, rows, u)
  {
    var s := PendingInOrder(p, rows);
    InOrderSorted(p, rows, WithStatus(rows, Pending));
    var i := FirstEligibleIs(p, rows, s, 0, Window(p));
    if Claim(p, rows) == None {
      forall u | u in WithStatus(rows, Pending) ensures !Eligible(p, rows, u) {
        var k :| 0 <= k < |s| && s[k] == u;
      }
    }
  }

  /** Hybrid mode hands out another page only when no vehicle page is pending and eligible. */
  lemma HybridPrefersVehicles(p: Policy, rows: Rows)
    requires DistinctRowids(rows) && p.mode == Hybrid && Claim(p, rows).Some?
    requires !VehicleGroup(p, Claim(p, rows).value, rows[Claim(p, rows).value])
    ensures forall v :: v in WithStatus(rows, Pending) && Eligible(p, rows, v) ==> !VehicleGroup(p, v, rows[v])
  {
    ClaimIsLeastEligible(p, rows);
  }

  /** What the worker's recount reports: the eligible rows in a sample of the pending ones. */
  function EligibleIn(p: Policy, rows: Rows, sample: set<Url>): set<Url>
    requires sample <= rows.Keys
  {
    set u | u in sample && Eligible(p, rows, u)
  }

  const SAMPLE_LIMIT: nat := 2000

  /** The rows the recount reads: as many pending ones as its limit allows, in any order. */
  ghost predicate IsSample(rows: Rows, sample: set<Url>) {
    && sample <= WithStatus(rows, Pending)
    && |sample| == if |WithStatus(rows, Pending)| < SAMPLE_LIMIT then |WithStatus(rows, Pending)| else SAMPLE_LIMIT
  }

  /** A sample in the order the rows were inserted, as an index on the status returns them. */
  ghost predicate IsFirstSample(rows: Rows, sample: set<Url>) {
    && IsSample(rows, sample)
    && forall u, v :: u in sample && v in WithStatus(rows, Pending) && v !in sample ==> rows[u].rowid < rows[v].rowid
  }

  /** After a claim that finds nothing the recount, on the same queue, reports none either, so
      the worker leaves instead of spinning. */
  lemma EmptyClaimEmptyRecount(p: Policy, rows: Rows, sample: set<Url>)
    requires DistinctRowids(rows) && |WithStatus(rows, Pending)| <= Window(p)
    requires Claim(p, rows) == None && IsSample(rows, sample)
    ensures EligibleIn(p, rows, sample) == {}
  {
    ClaimFindsNothing(p, rows);
  }

  // ----- The queue itself -----

  /** Which rows an operation changed: those, and no other. */
  ghost predicate OnlyChanged(before: Rows, after: Rows, us: set<Url>) {
    && after.Keys == before.Keys
    && forall u :: u in before && u !in us ==> after[u] == before[u]
  }

  ghost predicate OnlyStatusDiffers(before: Row, after: Row) {
    after.attempts == before.attempts && after.level == before.level && after.context == before.context && after.rowid == before.rowid
  }

  lemma SameRowids(q: Queue, rows: Rows)
    requires QueueOk(q)
    requires forall u :: u in rows ==> u in q.rows && rows[u].rowid == q.rows[u].rowid
    ensures QueueOk(Queue(rows, q.next))
  {
  }

  /** Reclaiming stale rows first makes no difference to requeueing every failed or stuck row. */
  lemma ReclaimThenRequeue(rows: Rows, stale: set<Url>)
    ensures Requeued(Reclaimed(rows, stale)) == Requeued(rows)
    ensures forall u :: u in Reclaimed(rows, stale) && Retriable(Reclaimed(rows, stale)[u].status) ==> u in rows && Retriable(rows[u].status)
  {
  }

  /** The requeued rows that are counted: the stale ones were taken back before. */
  ghost function CountedRetries(rows: Rows, stale: set<Url>): set<Url> {
    set u | u in rows && (rows[u].status in {Failed, BlockedCf} || (rows[u].status == Processing && u !in stale))
  }

  lemma RequeuedRows(q: Queue)
    requires QueueOk(q)
    ensures var rows := Requeued(q.rows);
            && QueueOk(Queue(rows, q.next))
            && OnlyChanged(q.rows, rows, set u | u in q.rows && q.rows[u].status in {Failed, Processing, BlockedCf})
            && forall u :: u in rows ==> rows[u].status !in {Failed, Processing, BlockedCf} && OnlyStatusDiffers(q.rows[u], rows[u])
  {
    SameRowids(q, Requeued(q.rows));
  }

  lemma CountedIs(rows: Rows, stale: set<Url>)
    ensures (set u | u in Reclaimed(rows, stale) && Retriable(Reclaimed(rows, stale)[u].status)) == CountedRetries(rows, stale)
  {
  }

  lemma ReclaimedRows(q: Queue, stale: set<Url>)
    requires QueueOk(q)
    ensures var rows := Reclaimed(q.rows, stale);
            && QueueOk(Queue(rows, q.next))
            && OnlyChanged(q.rows, rows, stale * WithStatus(q.rows, Processing))
            && WithStatus(rows, Processing) == WithStatus(q.rows, Processing) - stale
            && WithStatus(rows, Pending) == WithStatus(q.rows, Pending) + WithStatus(q.rows, Processing) * stale
  {
    SameRowids(q, Reclaimed(q.rows, stale));
  }

  class QueueDb {
    var q: Queue

    constructor ()
      ensures q == Queue(map[], 0) && QueueOk(q)
    {
      q := Queue(map[], 0);
    }

    /** Queues an unknown URL, last among equals; a known one keeps its row, whatever its status. */
    method Enqueue(url: Url, level: int, context: Context) returns (added: bool)
      requires QueueOk(q)
      modifies this
      ensures QueueOk(q) && q == Enqueued(old(q), url, level, context)
      ensures added <==> url !in old(q.rows)
      ensures q.rows.Keys == old(q.rows.Keys) + {url}
      ensures forall u :: u in old(q.rows) ==> q.rows[u] == old(q.rows)[u]
      ensures added ==> q.rows[url].status == Pending && q.rows[url].attempts == 0
      ensures added ==> forall u :: u in old(q.rows) ==> q.rows[u].rowid < q.rows[url].rowid
    {
      added := url !in q.rows;
      if added {
        q := Queue(q.rows[url := Row(Pending, 0, level, context, q.next)], q.next + 1);
      }
    }

    /** Hands out the row that the claim order puts first, to no one else: it is PROCESSING now. */
    method ClaimNext(p: Policy) returns (claimed: Option<Url>)
      requires QueueOk(q)
      modifies this
      ensures QueueOk(q) && claimed == Claim(p, old(q.rows))
      ensures q == if claimed.Some? then Queue(Claimed(old(q.rows), claimed.value), old(q.next)) else old(q)
      ensures claimed.Some? ==> FirstOfEligible(p, old(q.rows), claimed.value)
      ensures claimed.Some? ==>
                && old(q.rows[claimed.value].status) == Pending && q.rows[claimed.value].status == Processing
                && q.rows[claimed.value].attempts == old(q.rows[claimed.value].attempts) + 1
                && OnlyChanged(old(q.rows), q.rows, {claimed.value})
                && WithStatus(q.rows, Pending) == WithStatus(old(q.rows), Pending) - {claimed.value}
    {
      claimed := FindCandidate(p, q.rows);
      if claimed.Some? {
        ghost var was := q;
        ClaimIsLeastEligible(p, q.rows);
        q := Queue(Claimed(q.rows, claimed.value), q.next);
        SameRowids(was, q.rows);
      }
    }

    method SetStatus(url: Url, s: Status)
      requires QueueOk(q)
      modifies this
      ensures QueueOk(q) && q == Queue(SetTo(old(q.rows), url, s), old(q.next))
      ensures OnlyChanged(old(q.rows), q.rows, {url})
      ensures url in q.rows ==> q.rows[url].status == s && OnlyStatusDiffers(old(q.rows)[url], q.rows[url])
    {
      if url in q.rows {
        q := Queue(q.rows[url := q.rows[url].(status := s)], q.next);
      }
    }

    /** Ends a visit: VISITED exactly when it succeeded, PENDING again exactly when it failed with
        attempts left. Only this row's status changes; a URL that is not queued stays unqueued. */
    method MarkVisit(url: Url, ok: bool, maxAttempts: int) returns (s: Status)
      requires QueueOk(q)
      modifies this
      ensures QueueOk(q) && q == Queue(Marked(old(q.rows), url, ok, maxAttempts), old(q.next))
      ensures OnlyChanged(old(q.rows), q.rows, {url})
      ensures url in q.rows ==> q.rows[url].status == s && OnlyStatusDiffers(old(q.rows)[url], q.rows[url])
      ensures s == Visited <==> ok
      ensures s == Pending <==> !ok && url in q.rows && q.rows[url].attempts < maxAttempts
      ensures s in {Visited, Pending, Failed}
    {
      var attempts: int := if url in q.rows then q.rows[url].attempts else maxAttempts;
      if ok {
        s := Visited;
      } else if attempts < maxAttempts {
        s := Pending;
      } else {
        s := Failed;
      }
      SetStatus(url, s);
    }

    /** Leaves nothing to retry: every FAILED, PROCESSING or challenged row is PENDING, and the
        other rows are as before. Which of them were stale makes no difference to the rows. */
    method RequeueFailed(stale: set<Url>) returns (n: nat)
      requires QueueOk(q)
      modifies this
      ensures QueueOk(q) && q == Queue(Requeued(old(q.rows)), old(q.next))
      ensures forall u :: u in q.rows ==>
                q.rows[u].status !in {Failed, Processing, BlockedCf} && OnlyStatusDiffers(old(q.rows)[u], q.rows[u])
      ensures OnlyChanged(old(q.rows), q.rows, set u | u in old(q.rows) && old(q.rows)[u].status in {Failed, Processing, BlockedCf})
      ensures n == |CountedRetries(old(q.rows), stale)|
    {
      RequeuedRows(q);
      ReclaimThenRequeue(q.rows, stale);
      ReclaimStale(stale);
      CountedIs(old(q.rows), stale);
      n := |set u | u in q.rows && Retriable(q.rows[u].status)|;
      q := Queue(map u | u in q.rows :: if Retriable(q.rows[u].status) then q.rows[u].(status := Pending) else q.rows[u], q.next);
    }

    /** Takes the stale rows, and no other, back from workers that died. */
    method ReclaimStale(stale: set<Url>)
      requires QueueOk(q)
      modifies this
      ensures QueueOk(q) && q == Queue(Reclaimed(old(q.rows), stale), old(q.next))
      ensures OnlyChanged(old(q.rows), q.rows, stale * WithStatus(old(q.rows), Processing))
      ensures WithStatus(q.rows, Processing) == WithStatus(old(q.rows), Processing) - stale
      ensures WithStatus(q.rows, Pending) == WithStatus(old(q.rows), Pending) + WithStatus(old(q.rows), Processing) * stale
    {
      ReclaimedRows(q, stale);
      q := Queue(map u | u in q.rows :: if q.rows[u].status == Processing && u in stale then q.rows[u].(status := Pending) else q.rows[u], q.next);
    }

    /** Drops the out-of-scope rows and counts them; the others are as before. */
    method PruneOutOfScope(inScope: Url -> bool) returns (dropped: nat)
      requires QueueOk(q)
      modifies this
      ensures QueueOk(q) && q == Queue(Pruned(old(q.rows), inScope), old(q.next))
      ensures forall u :: u in q.rows <==> u in old(q.rows) && inScope(u)
      ensures forall u :: u in q.rows ==> q.rows[u] == old(q.rows)[u]
      ensures dropped + |q.rows| == |old(q.rows)|
    {
      dropped := |set u | u in q.rows && !inScope(u)|;
      CountSplit(q.rows, inScope);
      ghost var was := q;
      q := Queue(map u | u in q.rows && inScope(u) :: q.rows[u], q.next);
      SameRowids(was, q.rows);
    }

    /** Opens a queued URL again, with all its attempts. */
    method Reopen(url: Url)
      requires QueueOk(q) && url in q.rows
      modifies this
      ensures QueueOk(q) && q == Queue(old(q.rows)[url := old(q.rows)[url].(status := Pending, attempts := 0)], old(q.next))
      ensures OnlyChanged(old(q.rows), q.rows, {url}) && url in WithStatus(q.rows, Pending)
    {
      q := Queue(q.rows[url := q.rows[url].(status := Pending, attempts := 0)], q.next);
    }

    /** No row is counted exactly when no worker could claim one without a filter. */
    method PendingCount() returns (n: nat)
      requires QueueOk(q)
      ensures n == |WithStatus(q.rows, Pending)|
      ensures n == 0 <==> forall u :: u in q.rows ==> q.rows[u].status != Pending
    {
      n := |set u | u in q.rows && q.rows[u].status == Pending|;
      assert n == |WithStatus(q.rows, Pending)|;
      if n == 0 {
        forall u | u in q.rows ensures q.rows[u].status != Pending {
          assert u !in WithStatus(q.rows, Pending);
        }
      } else {
        assert WithStatus(q.rows, Pending) != {};
      }
    }
  }

  lemma CountSplit(rows: Rows, keep: Url -> bool)
    ensures |set u | u in rows && !keep(u)| + |Pruned(rows, keep)| == |rows|
  {
    var kept, dropped := Pruned(rows, keep).Keys, set u | u in rows && !keep(u);
    assert rows.Keys == kept + dropped && kept !! dropped;
    assert |rows| == |rows.Keys| && |Pruned(rows, keep)| == |kept|;
  }

  lemma {:induction false} FirstOfRest(p: Policy, rows: Rows, order: seq<Url>, lo: nat, mid: nat, hi: nat)
    requires forall u :: u in order ==> u in rows
    requires lo <= mid <= hi
    requires forall j :: lo <= j < mid && j < |order| ==> !Eligible(p, rows, order[j])
    ensures FirstEligible(p, rows, order, lo, hi) == FirstEligible(p, rows, order, mid, hi)
    decreases mid - lo
  {
    if lo < mid {
      if lo < |order| {
        assert !Eligible(p, rows, order[lo]);
      }
      FirstOfRest(p, rows, order, lo + 1, mid, hi);
    }
  }

  /** Scans the rows that LIMIT and OFFSET select, from `offset` on. */
  method ScanBatch(p: Policy, rows: Rows, order: seq<Url>, offset: nat) returns (claimed: Option<Url>)
    requires forall u :: u in order ==> u in rows
    ensures claimed == FirstEligible(p, rows, order, offset, offset + BATCH_SIZE)
  {
    var k := offset;
    while k < offset + BATCH_SIZE && k < |order|
      invariant offset <= k <= offset + BATCH_SIZE
      invariant FirstEligible(p, rows, order, offset, offset + BATCH_SIZE) == FirstEligible(p, rows, order, k, offset + BATCH_SIZE)
    {
      if p.priority.None? || p.priority.value(order[k], rows[order[k]]) {
        return Some(order[k]);
      }
      k := k + 1;
    }
    claimed := None;
  }

  /** Scans the rows, a batch at a time, for the first eligible one. */
  method ScanInBatches(p: Policy, rows: Rows, order: seq<Url>, maxScan: nat, ghost batches: nat) returns (claimed: Option<Url>)
    requires forall u :: u in order ==> u in rows
    requires maxScan == batches * BATCH_SIZE
    ensures claimed == FirstEligible(p, rows, order, 0, maxScan)
  {
    var offset := 0;
    ghost var read := 0;
    while offset < maxScan && offset < |order|
      invariant read <= batches && offset == read * BATCH_SIZE
      invariant forall j :: 0 <= j < offset && j < |order| ==> !Eligible(p, rows, order[j])
    {
      claimed := ScanBatch(p, rows, order, offset);
      ghost var i := FirstEligibleIs(p, rows, order, offset, offset + BATCH_SIZE);
      if claimed.Some? {
        FirstOfRest(p, rows, order, 0, i, maxScan);
        return;
      }
      offset := offset + BATCH_SIZE;
      read := read + 1;
    }
    FirstOfRest(p, rows, order, 0, maxScan, maxScan);
    claimed := None;
  }

  /** Scans the pending rows in claim order. */
  method FindCandidate(p: Policy, rows: Rows) returns (claimed: Option<Url>)
    requires DistinctRowids(rows)
    ensures claimed == Claim(p, rows)
  {
    var order := PendingInOrder(p, rows);
    InOrderSorted(p, rows, WithStatus(rows, Pending));
    claimed := ScanInBatches(p, rows, order, if p.priority.Some? then MAX_SCAN else BATCH_SIZE, if p.priority.Some? then 100 else 1);
  }
}

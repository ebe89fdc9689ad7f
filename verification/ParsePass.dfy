/** One pass of the single worker that parses cached pages. */
module ParsePass {
  import opened Sequences

  type Url = string

  datatype Status = Pending | Processing | Done | Empty | Error
  datatype Row = Row(status: Status, diagrams: nat, parts: nat)
  type Rows = map<Url, Row>

  /** What parsing one page yields; a page that raises fails. */
  datatype Outcome = NothingFound | Identity | Parts(diagrams: nat, parts: nat) | Fails

  datatype Summary = Summary(processed: nat, diagrams: nat, parts: nat, identities: nat, empties: nat, errors: nat)

  /** The pending rows in the order they were enqueued. */
  function PendingIn(order: seq<Url>, rows: Rows): seq<Url> {
    if order == [] then []
    else if order[0] in rows && rows[order[0]].status == Pending then [order[0]] + PendingIn(order[1..], rows)
    else PendingIn(order[1..], rows)
  }

  /** The rows a query with this limit returns; a negative limit is none. */
  function FirstUpTo(urls: seq<Url>, limit: int): seq<Url> {
    if 0 <= limit < |urls| then urls[..limit] else urls
  }

  function MarkedClaimed(rows: Rows, batch: set<Url>): Rows {
    map u | u in rows :: if u in batch then rows[u].(status := Processing) else rows[u]
  }

  function RowFor(outcome: Outcome): Row {
    match outcome
    case NothingFound => Row(Empty, 0, 0)
    case Identity => Row(Done, 0, 0)
    case Parts(d, p) => Row(Done, d, p)
    case Fails => Row(Error, 0, 0)
  }

  /** The rows when some of the claimed ones are parsed. */
  function Parsing(was: Rows, outcome: Url -> Outcome, done: set<Url>, claimed: set<Url>): Rows {
    map u | u in was :: if u in done then RowFor(outcome(u))
                        else if u in claimed then was[u].(status := Processing)
                        else was[u]
  }

  /** The rows when the first done of the pending ones are parsed and the first claimed are claimed. */
  function Midway(was: Rows, pending: seq<Url>, outcome: Url -> Outcome, done: nat, claimed: nat): Rows
    requires done <= claimed <= |pending|
  {
    Parsing(was, outcome, Elements(pending[..done]), Elements(pending[..claimed]))
  }

  function Tallied(s: Summary, outcome: Outcome): Summary {
    var t := s.(processed := s.processed + 1);
    match outcome
    case NothingFound => t.(empties := s.empties + 1)
    case Identity => t.(identities := s.identities + 1)
    case Parts(d, p) => t.(diagrams := s.diagrams + d, parts := s.parts + p)
    case Fails => t.(errors := s.errors + 1)
  }

  function Tally(urls: seq<Url>, outcome: Url -> Outcome): Summary {
    if urls == [] then Summary(0, 0, 0, 0, 0, 0)
    else Tallied(Tally(urls[..|urls| - 1], outcome), outcome(urls[|urls| - 1]))
  }

  /** How many of the pending rows a pass parses. */
  function Quota(pending: nat, limit: int, batchSize: int): nat {
    if batchSize == 0 then 0 else if 0 < limit < pending then limit else pending
  }

  /** How many it claims: a negative batch size claims all of them at once. */
  function ClaimQuota(pending: nat, limit: int, batchSize: int): nat {
    if batchSize < 0 then pending else Quota(pending, limit, batchSize)
  }

  // ----- Pending rows -----

  lemma {:induction false} PendingAre(order: seq<Url>, rows: Rows)
    requires Distinct(order)
    ensures Distinct(PendingIn(order, rows))
    ensures forall u :: u in PendingIn(order, rows) <==> u in order && u in rows && rows[u].status == Pending
  {
    if order != [] {
      PendingAre(order[1..], rows);
      assert order == [order[0]] + order[1..];
    }
  }

  /** They are the rows that are pending, row by row and in the order they were enqueued. */
  lemma {:induction false} PendingInOrder(a: seq<Url>, b: seq<Url>, u: Url, rows: Rows)
    ensures PendingIn(a + b, rows) == PendingIn(a, rows) + PendingIn(b, rows)
    ensures PendingIn([u], rows) == if u in rows && rows[u].status == Pending then [u] else []
  {
    if a == [] {
      assert a + b == b;
    } else {
      PendingInOrder(a[1..], b, u, rows);
      assert (a + b)[1..] == a[1..] + b;
    }
  }

  ghost predicate PendingBeyond(rows: Rows, now: Rows, order: seq<Url>, first: seq<Url>) {
    forall u :: u in order ==>
      ((u in now && now[u].status == Pending) <==> (u in rows && rows[u].status == Pending && u !in first))
  }

  /** When only the first n pending rows stopped being pending, the others are pending in order. */
  lemma {:induction false} PendingRest(order: seq<Url>, rows: Rows, now: Rows, n: nat)
    requires Distinct(order) && n <= |PendingIn(order, rows)|
    requires PendingBeyond(rows, now, order, PendingIn(order, rows)[..n])
    ensures PendingIn(order, now) == PendingIn(order, rows)[n..]
  {
    if order != [] {
      var pending, rest := PendingIn(order, rows), PendingIn(order[1..], rows);
      var m := if order[0] in rows && rows[order[0]].status == Pending && n > 0 then n - 1 else n;
      assert order[0] in order;
      PendingAre(order[1..], rows);
      if order[0] in rows && rows[order[0]].status == Pending {
        assert pending[..n] == if n > 0 then [order[0]] + rest[..n - 1] else [];
      }
      forall u | u in order[1..]
        ensures (u in now && now[u].status == Pending) <==> (u in rows && rows[u].status == Pending && u !in rest[..m])
      {
        assert u in order && u != order[0];
      }
      PendingRest(order[1..], rows, now, m);
    }
  }

  lemma MidwayAt(was: Rows, pending: seq<Url>, outcome: Url -> Outcome, done: nat, claimed: nat, u: Url)
    requires done <= claimed <= |pending|
    ensures var now := Midway(was, pending, outcome, done, claimed);
            (u in now && now[u].status == Pending) <==> (u in was && was[u].status == Pending && u !in pending[..claimed])
  {
    assert u in Elements(pending[..claimed]) <==> u in pending[..claimed];
    if u in Elements(pending[..done]) {
      var i :| 0 <= i < done && pending[..done][i] == u;
      assert pending[..claimed][i] == u;
    }
  }

  lemma MidwayPending(order: seq<Url>, was: Rows, outcome: Url -> Outcome, done: nat, claimed: nat)
    requires Distinct(order) && done <= claimed <= |PendingIn(order, was)|
    ensures PendingIn(order, Midway(was, PendingIn(order, was), outcome, done, claimed)) == PendingIn(order, was)[claimed..]
  {
    var pending := PendingIn(order, was);
    var now := Midway(was, pending, outcome, done, claimed);
    assert PendingBeyond(was, now, order, pending[..claimed]) by {
      forall u | u in order
        ensures (u in now && now[u].status == Pending) <==> (u in was && was[u].status == Pending && u !in pending[..claimed])
      {
        MidwayAt(was, pending, outcome, done, claimed, u);
      }
    }
    PendingRest(order, was, now, claimed);
  }

  // ----- The steps of a pass -----

  lemma ClaimStep(was: Rows, pending: seq<Url>, outcome: Url -> Outcome, n: nat, claimed: nat)
    requires Distinct(pending) && n <= claimed <= |pending|
    ensures MarkedClaimed(Midway(was, pending, outcome, n, n), Elements(pending[n..claimed])) == Midway(was, pending, outcome, n, claimed)
  {
    var done, batch := Elements(pending[..n]), Elements(pending[n..claimed]);
    assert pending[..claimed] == pending[..n] + pending[n..claimed];
    assert Elements(pending[..claimed]) == done + batch;
    assert done !! batch by {
      forall u | u in done ensures u !in batch {
        var i :| 0 <= i < n && pending[i] == u;
      }
    }
  }

  lemma MarkStep(was: Rows, pending: seq<Url>, outcome: Url -> Outcome, done: nat, claimed: nat)
    requires done < claimed <= |pending| && pending[done] in was
    ensures Midway(was, pending, outcome, done, claimed)[pending[done] := RowFor(outcome(pending[done]))]
            == Midway(was, pending, outcome, done + 1, claimed)
    ensures pending[done] in Midway(was, pending, outcome, done, claimed)
  {
    assert pending[..done + 1] == pending[..done] + [pending[done]];
    assert Elements(pending[..done + 1]) == Elements(pending[..done]) + {pending[done]};
  }

  /** How far a pass came: how many pending rows it parsed and claimed. */
  ghost predicate InPass(was: Rows, pending: seq<Url>, outcome: Url -> Outcome, rows: Rows, done: nat, claimed: nat) {
    done <= claimed <= |pending| && rows == Midway(was, pending, outcome, done, claimed)
  }

  /** The counters of a pass that parsed so many rows. */
  ghost predicate Counted(pending: seq<Url>, outcome: Url -> Outcome, s: Summary, done: nat) {
    done <= |pending| && s == Tally(pending[..done], outcome) && s.processed == done
  }

  lemma CountsOne(pending: seq<Url>, outcome: Url -> Outcome, s: Summary, done: nat)
    requires Counted(pending, outcome, s, done) && done < |pending|
    ensures Counted(pending, outcome, Tallied(s, outcome(pending[done])), done + 1)
  {
    assert pending[..done + 1][..done] == pending[..done];
  }

  lemma PassStarts(was: Rows, pending: seq<Url>, outcome: Url -> Outcome)
    ensures InPass(was, pending, outcome, was, 0, 0)
    ensures Counted(pending, outcome, Summary(0, 0, 0, 0, 0, 0), 0)
  {
    assert pending[..0] == [];
  }

  lemma PassParses(was: Rows, pending: seq<Url>, outcome: Url -> Outcome, rows: Rows, done: nat, claimed: nat)
    requires InPass(was, pending, outcome, rows, done, claimed) && done < claimed && pending[done] in was
    ensures pending[done] in rows
    ensures InPass(was, pending, outcome, rows[pending[done] := RowFor(outcome(pending[done]))], done + 1, claimed)
  {
    MarkStep(was, pending, outcome, done, claimed);
  }

  lemma FirstUpToRest(pending: seq<Url>, k: nat, limit: int)
    requires k <= |pending|
    ensures var n := if 0 <= limit < |pending| - k then limit else |pending| - k;
            FirstUpTo(pending[k..], limit) == pending[k..k + n]
  {
  }

  lemma PendingQueued(order: seq<Url>, was: Rows)
    requires Distinct(order)
    ensures Distinct(PendingIn(order, was)) && forall u :: u in PendingIn(order, was) ==> u in was
  {
    PendingAre(order, was);
  }

  /** A claim takes the next pending rows. */
  lemma BatchClaimed(order: seq<Url>, was: Rows, pending: seq<Url>, outcome: Url -> Outcome, rows: Rows, done: nat,
                     limit: int, batch: seq<Url>, after: Rows)
    requires Distinct(order) && Distinct(pending)
    requires pending == PendingIn(order, was) && InPass(was, pending, outcome, rows, done, done)
    requires batch == FirstUpTo(PendingIn(order, rows), limit) && after == MarkedClaimed(rows, Elements(batch))
    ensures |batch| == if 0 <= limit < |pending| - done then limit else |pending| - done
    ensures done + |batch| <= |pending| && batch == pending[done..done + |batch|]
    ensures InPass(was, pending, outcome, after, done, done + |batch|)
  {
    MidwayPending(order, was, outcome, done, done);
    FirstUpToRest(pending, done, limit);
    ClaimStep(was, pending, outcome, done, done + |batch|);
  }

  function PartsPages(urls: seq<Url>, outcome: Url -> Outcome): nat {
    if urls == [] then 0
    else PartsPages(urls[..|urls| - 1], outcome) + if outcome(urls[|urls| - 1]).Parts? then 1 else 0
  }

  /** The counters account for every page once. */
  lemma {:induction false} TallySums(urls: seq<Url>, outcome: Url -> Outcome)
    ensures var t := Tally(urls, outcome);
            t.processed == |urls| && t.empties + t.identities + t.errors + PartsPages(urls, outcome) == |urls|
  {
    if urls != [] {
      TallySums(urls[..|urls| - 1], outcome);
    }
  }

  function DiagramsIn(rows: Rows, urls: seq<Url>): nat
    requires forall u :: u in urls ==> u in rows
  {
    if urls == [] then 0 else DiagramsIn(rows, urls[..|urls| - 1]) + rows[urls[|urls| - 1]].diagrams
  }

  function PartsIn(rows: Rows, urls: seq<Url>): nat
    requires forall u :: u in urls ==> u in rows
  {
    if urls == [] then 0 else PartsIn(rows, urls[..|urls| - 1]) + rows[urls[|urls| - 1]].parts
  }

  /** How many of the rows have this status. */
  function StatusCount(rows: Rows, urls: seq<Url>, status: Status): nat
    requires forall u :: u in urls ==> u in rows
  {
    if urls == [] then 0
    else StatusCount(rows, urls[..|urls| - 1], status) + if rows[urls[|urls| - 1]].status == status then 1 else 0
  }

  /** What is written to the row of a page, by what parsing it yields. */
  ghost predicate Records(row: Row, outcome: Outcome) {
    && (row.status == Error <==> outcome.Fails?)
    && (row.status == Empty <==> outcome.NothingFound?)
    && (row.status == Done <==> outcome.Identity? || outcome.Parts?)
    && row.diagrams == (if outcome.Parts? then outcome.diagrams else 0)
    && row.parts == (if outcome.Parts? then outcome.parts else 0)
  }

  /** The counters agree with the table: the sums of diagrams and parts are those of the parsed rows, and
      the other counters are the numbers of rows of each status. */
  ghost predicate AgreeWithTable(t: Summary, rows: Rows, parsed: seq<Url>)
    requires forall u :: u in parsed ==> u in rows
  {
    && t.diagrams == DiagramsIn(rows, parsed) && t.parts == PartsIn(rows, parsed)
    && t.errors == StatusCount(rows, parsed, Error) && t.empties == StatusCount(rows, parsed, Empty)
    && t.processed - t.errors - t.empties == StatusCount(rows, parsed, Done)
  }

  lemma {:induction false} TallyIsInTable(rows: Rows, urls: seq<Url>, outcome: Url -> Outcome)
    requires forall u :: u in urls ==> u in rows && Records(rows[u], outcome(u))
    ensures AgreeWithTable(Tally(urls, outcome), rows, urls)
  {
    if urls != [] {
      var init, last := urls[..|urls| - 1], urls[|urls| - 1];
      assert last in urls && forall u :: u in init ==> u in urls;
      TallyIsInTable(rows, init, outcome);
    }
  }

  /** What a pass leaves of a row: a parsed page's is written by what it yielded, a page that was only
      claimed stays PROCESSING, every other row is as before. */
  lemma PassLeaves(was: Rows, pending: seq<Url>, outcome: Url -> Outcome, n: nat, claimed: nat, u: Url)
    requires n <= claimed <= |pending| && u in was
    ensures var final := Midway(was, pending, outcome, n, claimed);
            && u in final
            && (u in pending[..n] ==> Records(final[u], outcome(u)))
            && (u in pending[..claimed] && u !in pending[..n] ==> final[u] == was[u].(status := Processing))
            && (u !in pending[..claimed] && u !in pending[..n] ==> final[u] == was[u])
  {
    assert u in Elements(pending[..n]) <==> u in pending[..n];
    assert u in Elements(pending[..claimed]) <==> u in pending[..claimed];
  }

  /** The counters of a pass agree with the table it leaves. */
  lemma PassRecords(order: seq<Url>, was: Rows, outcome: Url -> Outcome, n: nat, claimed: nat)
    requires Distinct(order) && n <= claimed <= |PendingIn(order, was)|
    ensures var pending := PendingIn(order, was);
            var final, parsed := Midway(was, pending, outcome, n, claimed), pending[..n];
            && (forall u :: u in parsed ==> u in final)
            && AgreeWithTable(Tally(parsed, outcome), final, parsed)
  {
    var pending := PendingIn(order, was);
    var final, parsed := Midway(was, pending, outcome, n, claimed), pending[..n];
    PendingQueued(order, was);
    forall u | u in parsed ensures u in final && Records(final[u], outcome(u)) {
      assert u in pending;
      PassLeaves(was, pending, outcome, n, claimed, u);
    }
    TallyIsInTable(final, parsed, outcome);
  }

  /** How the claims of a pass run ahead of its parsing: only a negative batch size claims more
      than the limit leaves to parse. */
  ghost predicate InStep(limit: int, batchSize: int, total: nat, done: nat, claimed: nat) {
    && (done < claimed ==> limit > 0 && done >= limit)
    && (limit > 0 ==> done <= limit)
    && (claimed > 0 ==> batchSize != 0)
    && (if batchSize < 0 then claimed == 0 || claimed == total else claimed == done)
  }

  lemma QuotaReached(limit: int, batchSize: int, total: nat, done: nat, claimed: nat)
    requires done <= claimed <= total && InStep(limit, batchSize, total, done, claimed)
    requires (limit > 0 && done >= limit) || (claimed == done && (batchSize == 0 || done == total))
    ensures done == Quota(total, limit, batchSize) && claimed == ClaimQuota(total, limit, batchSize)
  {
  }

  predicate Ended(r: Row) {
    r.status in {Done, Empty, Error}
  }

  /** Every row that a pass claims ends parsed, empty or failed, except when a negative batch size
      claims more than a positive limit lets it parse. */
  lemma ClaimsEnd(order: seq<Url>, was: Rows, outcome: Url -> Outcome, limit: int, batchSize: int)
    requires Distinct(order)
    ensures var pending := PendingIn(order, was);
            var n, claimed := Quota(|pending|, limit, batchSize), ClaimQuota(|pending|, limit, batchSize);
            var final := Midway(was, pending, outcome, n, claimed);
            && (forall u :: u in pending[..claimed] ==> u in final)
            && ((forall u :: u in pending[..claimed] ==> Ended(final[u])) <==> !(batchSize < 0 && 0 < limit < |pending|))
            && (limit > 0 ==> Tally(pending[..n], outcome).processed <= limit)
  {
    var pending := PendingIn(order, was);
    var n, claimed := Quota(|pending|, limit, batchSize), ClaimQuota(|pending|, limit, batchSize);
    PendingAre(order, was);
    TallySums(pending[..n], outcome);
    if batchSize < 0 && 0 < limit < |pending| {
      assert pending[n] in pending[..claimed] && pending[n] !in pending[..n];
    } else {
      assert n == claimed;
    }
  }

  class ParseQueue {
    /** The queued URLs by the time they were enqueued. */
    const order: seq<Url>
    var rows: Rows

    constructor (order: seq<Url>, rows: Rows)
      requires Distinct(order)
      ensures Valid() && this.order == order && this.rows == rows
    {
      this.order, this.rows := order, rows;
    }

    /** No URL is queued twice: the URL is the table's key. */
    ghost predicate Valid() {
      Distinct(order)
    }

    /** Claims the first pending rows. */
    method ClaimBatch(limit: int) returns (batch: seq<Url>)
      requires Valid()
      modifies this`rows
      ensures batch == FirstUpTo(PendingIn(order, old(rows)), limit)
      ensures rows == MarkedClaimed(old(rows), Elements(batch))
    {
      batch := [];
      var selected := FirstUpTo(PendingIn(order, rows), limit);
      ghost var was := rows;
      PendingAre(order, rows);
      for i := 0 to |selected|
        invariant batch == selected[..i] && rows == MarkedClaimed(was, Elements(selected[..i]))
      {
        var u := selected[i];
        assert u in PendingIn(order, was);
        assert Elements(selected[..i + 1]) == Elements(selected[..i]) + {u};
        rows := rows[u := rows[u].(status := Processing)];
        batch := batch + [u];
      }
    }

    method MarkDone(url: Url, row: Row)
      modifies this`rows
      ensures rows == if url in old(rows) then old(rows)[url := row] else old(rows)
    {
      if url in rows {
        rows := rows[url := row];
      }
    }

    /** Marks a parsed page by what it yielded, and counts it. */
    method RecordOutcome(url: Url, outcome: Outcome, before: Summary) returns (s: Summary)
      modifies this`rows
      ensures rows == if url in old(rows) then old(rows)[url := RowFor(outcome)] else old(rows)
      ensures s == Tallied(before, outcome)
    {
      match outcome {
        case NothingFound =>
          MarkDone(url, Row(Empty, 0, 0));
          s := before.(empties := before.empties + 1);
        case Identity =>
          MarkDone(url, Row(Done, 0, 0));
          s := before.(identities := before.identities + 1);
        case Parts(d, p) =>
          MarkDone(url, Row(Done, d, p));
          s := before.(diagrams := before.diagrams + d, parts := before.parts + p);
        case Fails =>
          MarkDone(url, Row(Error, 0, 0));
          s := before.(errors := before.errors + 1);
      }
      s := s.(processed := s.processed + 1);
    }

    /** Parses the next claimed page. */
    method ParseOne(url: Url, outcome: Url -> Outcome, before: Summary, ghost was: Rows, ghost pending: seq<Url>, ghost claimed: nat)
      returns (s: Summary)
      requires before.processed < claimed <= |pending| && url == pending[before.processed] && url in was
      requires InPass(was, pending, outcome, rows, before.processed, claimed) && Counted(pending, outcome, before, before.processed)
      modifies this`rows
      ensures s.processed == before.processed + 1
      ensures InPass(was, pending, outcome, rows, s.processed, claimed) && Counted(pending, outcome, s, s.processed)
    {
      PassParses(was, pending, outcome, rows, before.processed, claimed);
      CountsOne(pending, outcome, before, before.processed);
      s := RecordOutcome(url, outcome(url), before);
    }

    /** Parses the claimed batch, stopping at the limit. */
    method ParseBatch(batch: seq<Url>, limit: int, outcome: Url -> Outcome, before: Summary,
                      ghost was: Rows, ghost pending: seq<Url>, ghost claimed: nat) returns (s: Summary)
      requires forall u :: u in pending ==> u in was
      requires InPass(was, pending, outcome, rows, before.processed, claimed) && Counted(pending, outcome, before, before.processed)
      requires batch == pending[before.processed..claimed]
      requires limit > 0 ==> before.processed < limit
      modifies this`rows
      ensures InPass(was, pending, outcome, rows, s.processed, claimed) && Counted(pending, outcome, s, s.processed)
      ensures s.processed == if 0 < limit < claimed then limit else claimed
    {
      s := before;
      for i := 0 to |batch|
        invariant InPass(was, pending, outcome, rows, s.processed, claimed) && Counted(pending, outcome, s, s.processed)
        invariant s.processed == before.processed + i && (limit > 0 ==> s.processed < limit)
      {
        s := ParseOne(batch[i], outcome, s, was, pending, claimed);
        if limit > 0 && s.processed >= limit {
          break;
        }
      }
    }

    /** Claims the next pending rows of a pass. */
    method ClaimNext(take: int, ghost outcome: Url -> Outcome, ghost was: Rows, ghost pending: seq<Url>, ghost done: nat)
      returns (batch: seq<Url>)
      requires Valid() && pending == PendingIn(order, was) && Distinct(pending)
      requires InPass(was, pending, outcome, rows, done, done)
      modifies this`rows
      ensures |batch| == if 0 <= take < |pending| - done then take else |pending| - done
      ensures done + |batch| <= |pending| && batch == pending[done..done + |batch|]
      ensures InPass(was, pending, outcome, rows, done, done + |batch|)
    {
      ghost var now := rows;
      batch := ClaimBatch(take);
      BatchClaimed(order, was, pending, outcome, now, done, take, batch, rows);
    }

    /** Claims a batch and parses it. */
    method ParseMore(take: int, limit: int, outcome: Url -> Outcome, before: Summary, ghost was: Rows, ghost pending: seq<Url>)
      returns (s: Summary, taken: nat, ghost claimed: nat)
      requires Valid() && pending == PendingIn(order, was) && Distinct(pending) && forall u :: u in pending ==> u in was
      requires InPass(was, pending, outcome, rows, before.processed, before.processed)
      requires Counted(pending, outcome, before, before.processed)
      requires limit > 0 ==> before.processed < limit
      modifies this`rows
      ensures taken == if 0 <= take < |pending| - before.processed then take else |pending| - before.processed
      ensures claimed == before.processed + taken && s.processed == if 0 < limit < claimed then limit else claimed
      ensures InPass(was, pending, outcome, rows, s.processed, claimed) && Counted(pending, outcome, s, s.processed)
    {
      var batch := ClaimNext(take, outcome, was, pending, before.processed);
      taken := |batch|;
      claimed := before.processed + |batch|;
      s := ParseBatch(batch, limit, outcome, before, was, pending, claimed);
    }

    /** Parses pending rows, oldest first, until the limit or the end of the queue. */
    method RunPass(limit: int, batchSize: int, outcome: Url -> Outcome) returns (s: Summary)
      requires Valid()
      modifies this`rows
      ensures var pending := PendingIn(order, old(rows));
              var n, claimed := Quota(|pending|, limit, batchSize), ClaimQuota(|pending|, limit, batchSize);
              s == Tally(pending[..n], outcome) && rows == Midway(old(rows), pending, outcome, n, claimed)
    {
      s := Summary(0, 0, 0, 0, 0, 0);
      ghost var was, pending := rows, PendingIn(order, rows);
      ghost var claimed := 0;
      PassStarts(was, pending, outcome);
      PendingQueued(order, was);
      while true
        invariant InPass(was, pending, outcome, rows, s.processed, claimed) && Counted(pending, outcome, s, s.processed)
        invariant InStep(limit, batchSize, |pending|, s.processed, claimed)
        decreases |pending| - claimed
      {
        if limit > 0 && s.processed >= limit {
          break;
        }
        var take := if limit <= 0 || batchSize < limit - s.processed then batchSize else limit - s.processed;
        var taken;
        s, taken, claimed := ParseMore(take, limit, outcome, s, was, pending);
        if taken == 0 {
          break;
        }
      }
      QuotaReached(limit, batchSize, |pending|, s.processed, claimed);
    }
  }
}

/** What verification proves about history, and that recording makes it succeed. */
module TruthHistory {
  import opened Options
  import opened LedgerText
  import opened Sequences
  import opened TruthGuard

  // ----- What an accepted commit is -----

  /** The path is not the same in both: it was added, removed or edited. */
  predicate DiffersAt(a: Source, b: Source, p: Path) {
    (p in a && p !in b) || (p !in a && p in b) || (p in a && p in b && a[p] != b[p])
  }

  /** The listing has every path that differs once, and no other. */
  ghost predicate ListsEachOnce(files: seq<Path>, a: Source, b: Source) {
    forall p :: multiset(files)[p] == if DiffersAt(a, b, p) then 1 else 0
  }

  /** The evidence is an entry for this change, and the last-change file repeats it. */
  ghost predicate Proves(k: Codec, e: Evidence, parent: Sha, before: Tree, after: Tree) {
    var digest := k.digest(before.source, after.source);
    && e.Entry? && e.sourceParent == Some(parent) && e.digest == Some(digest)
    && e.changeId == Some(if |digest| <= 20 then digest else digest[..20])
    && ListsEachOnce(e.files, before.source, after.source)
    && after.last.Some? && k.decode(after.last.value) == e
  }

  /** The commit is a root, or changes neither source nor ledger files, or is recorded: its source
      differs, its ledger strictly extends the parent's, and the last ledger line that is not blank
      names its first parent, the digest, the change id and the files of its change. */
  ghost predicate Justified(k: Codec, repo: Repo, c: Sha)
    requires WellFormed(repo) && c in repo
  {
    repo[c].parents == [] ||
    var parent := repo[c].parents[0];
    var before, after := repo[parent].tree, repo[c].tree;
    || before == after
    || (&& before.source != after.source && LedgerLines(before) < LedgerLines(after)
        && exists line :: IsLastEntry(LedgerLines(after), line) && Proves(k, k.decode(line), parent, before, after))
  }

  lemma ChangedIs(a: Source, b: Source)
    ensures forall p :: p in Changed(a, b) <==> DiffersAt(a, b, p)
    ensures Changed(a, b) == {} <==> a == b
  {
    if Changed(a, b) == {} {
      forall p | p in a.Keys + b.Keys ensures p in a && p in b && a[p] == b[p] {
        assert p !in Changed(a, b);
      }
      assert a.Keys == b.Keys;
    }
  }

  lemma ListingIs(files: seq<Path>, a: Source, b: Source)
    ensures multiset(files) == multiset(Changed(a, b)) <==> ListsEachOnce(files, a, b)
  {
    ChangedIs(a, b);
    forall p ensures multiset(Changed(a, b))[p] == if DiffersAt(a, b, p) then 1 else 0 {
      assert p in Changed(a, b) <==> DiffersAt(a, b, p);
    }
    if ListsEachOnce(files, a, b) {
      assert forall p :: multiset(files)[p] == multiset(Changed(a, b))[p];
    }
  }

  /** A commit is accepted by its own record exactly when it is justified. */
  lemma AcceptedIsJustified(k: Codec, repo: Repo, c: Sha)
    requires WellFormed(repo) && c in repo
    ensures Examine(k, repo, c) == Accepted <==> Justified(k, repo, c)
  {
    if repo[c].parents != [] {
      var parent := repo[c].parents[0];
      var before, after := repo[parent].tree, repo[c].tree;
      var line := LastEntryLine(LedgerLines(after));
      ChangedIs(before.source, after.source);
      forall other ensures IsLastEntry(LedgerLines(after), other) <==> other == line && other != "" {
        LastEntryLineIs(LedgerLines(after), other);
      }
      if k.decode(line).Entry? {
        ListingIs(k.decode(line).files, before.source, after.source);
      }
    }
  }

  // ----- What else an examination finds -----

  /** The commit changes source and keeps the lines of its first parent's ledger. */
  ghost predicate ChangesSource(repo: Repo, c: Sha)
    requires WellFormed(repo) && c in repo
  {
    && repo[c].parents != []
    && repo[repo[c].parents[0]].tree.source != repo[c].tree.source
    && LedgerLines(repo[repo[c].parents[0]].tree) <= LedgerLines(repo[c].tree)
  }

  /** What the last ledger line that is not blank decodes to is of this kind. */
  ghost predicate EndsWith(k: Codec, t: Tree, kind: Evidence -> bool) {
    exists line :: IsLastEntry(LedgerLines(t), line) && kind(k.decode(line))
  }

  lemma LastEntryIs(k: Codec, t: Tree, kind: Evidence -> bool)
    ensures EndsWith(k, t, kind) <==> LastEntryLine(LedgerLines(t)) != "" && kind(LastEntry(k, t))
  {
    var last := LastEntryLine(LedgerLines(t));
    forall line ensures IsLastEntry(LedgerLines(t), line) <==> line == last && line != "" {
      LastEntryLineIs(LedgerLines(t), line);
    }
  }

  /** The findings of an examination, each exactly when the commit is such: the ledger lost lines, or
      the managed files changed alone (21); a source change without an entry at the end (20); one with a
      value on which the guard raises; one with an entry that does not justify it. */
  lemma ExamineIs(k: Codec, repo: Repo, c: Sha)
    requires WellFormed(repo) && c in repo
    ensures Examine(k, repo, c) == Accepted <==> Justified(k, repo, c)
    ensures Examine(k, repo, c) == Rejected(21)
       <==> && repo[c].parents != []
            && var before, after := repo[repo[c].parents[0]].tree, repo[c].tree;
               || !(LedgerLines(before) <= LedgerLines(after))
               || (before.source == after.source && before != after)
    ensures Examine(k, repo, c) == Rejected(20)
       <==> && ChangesSource(repo, c)
            && !EndsWith(k, repo[c].tree, (e: Evidence) => e.Foreign? || e.Entry?)
    ensures Examine(k, repo, c) == Raises <==> ChangesSource(repo, c) && EndsWith(k, repo[c].tree, (e: Evidence) => e.Foreign?)
    ensures Examine(k, repo, c) == Mismatch
       <==> ChangesSource(repo, c) && EndsWith(k, repo[c].tree, (e: Evidence) => e.Entry?) && !Justified(k, repo, c)
  {
    AcceptedIsJustified(k, repo, c);
    if repo[c].parents != [] {
      ChangedIs(repo[repo[c].parents[0]].tree.source, repo[c].tree.source);
      LastEntryIs(k, repo[c].tree, (e: Evidence) => e.Foreign? || e.Entry?);
      LastEntryIs(k, repo[c].tree, (e: Evidence) => e.Foreign?);
      LastEntryIs(k, repo[c].tree, (e: Evidence) => e.Entry?);
    }
  }

  // ----- Chains of merges that preserve a verified tree -----

  /** The commit is a merge of two parents, with the tree of the second, whose first parent is in
      the second one's history. */
  ghost predicate Preserves(isAncestor: Ancestry, repo: Repo, c: Sha, reviewed: Sha) {
    && c in repo && reviewed in repo && |repo[c].parents| == 2 && repo[c].parents[1] == reviewed
    && repo[c].tree == repo[reviewed].tree && isAncestor(repo[c].parents[0], reviewed)
  }

  /** Such a merge that changes source against its first parent, and whose last ledger entry does not
      justify that. */
  ghost predicate MergeLink(k: Codec, isAncestor: Ancestry, repo: Repo, c: Sha, reviewed: Sha)
    requires WellFormed(repo)
  {
    && Preserves(isAncestor, repo, c, reviewed)
    && ChangesSource(repo, c) && EndsWith(k, repo[c].tree, (e: Evidence) => e.Entry?) && !Justified(k, repo, c)
  }

  lemma MergeLinkIs(k: Codec, isAncestor: Ancestry, repo: Repo, c: Sha)
    requires WellFormed(repo) && c in repo
    ensures (exists reviewed :: MergeLink(k, isAncestor, repo, c, reviewed))
       <==> Examine(k, repo, c) == Mismatch && PreservesTree(isAncestor, repo, c)
    ensures forall reviewed :: MergeLink(k, isAncestor, repo, c, reviewed) ==> reviewed == repo[c].parents[1]
  {
    ExamineIs(k, repo, c);
    if Examine(k, repo, c) == Mismatch && PreservesTree(isAncestor, repo, c) {
      assert MergeLink(k, isAncestor, repo, c, repo[c].parents[1]);
    }
  }

  /** Such merges, each the second parent of the one before, that end in a justified commit. */
  ghost predicate Chain(k: Codec, isAncestor: Ancestry, repo: Repo, p: seq<Sha>)
    requires WellFormed(repo)
  {
    && p != [] && (forall i :: 0 <= i < |p| - 1 ==> MergeLink(k, isAncestor, repo, p[i], p[i + 1]))
    && p[|p| - 1] in repo && Justified(k, repo, p[|p| - 1])
  }

  lemma ChainCons(k: Codec, isAncestor: Ancestry, repo: Repo, c: Sha, p: seq<Sha>)
    requires WellFormed(repo) && Chain(k, isAncestor, repo, p) && MergeLink(k, isAncestor, repo, c, p[0])
    ensures Chain(k, isAncestor, repo, [c] + p)
  {
    var q := [c] + p;
    forall i | 0 <= i < |q| - 1 ensures MergeLink(k, isAncestor, repo, q[i], q[i + 1]) {
      if i > 0 {
        assert q[i] == p[i - 1] && q[i + 1] == p[i];
        assert MergeLink(k, isAncestor, repo, p[i - 1], p[i - 1 + 1]);
      }
    }
  }

  lemma {:induction false} VerifiedHasChain(k: Codec, isAncestor: Ancestry, repo: Repo, c: Sha, visited: set<Sha>) returns (p: seq<Sha>)
    requires WellFormed(repo) && c in repo && Verify(k, isAncestor, repo, c, visited) == Code(0)
    ensures Chain(k, isAncestor, repo, p) && p[0] == c
    decreases |repo.Keys - visited|
  {
    AcceptedIsJustified(k, repo, c);
    MergeLinkIs(k, isAncestor, repo, c);
    if Examine(k, repo, c) == Accepted {
      p := [c];
    } else {
      assert repo.Keys - visited == (repo.Keys - (visited + {c})) + {c};
      p := VerifiedHasChain(k, isAncestor, repo, repo[c].parents[1], visited + {c});
      ChainCons(k, isAncestor, repo, c, p);
      p := [c] + p;
    }
  }

  lemma {:induction false} ChainKeepsTree(k: Codec, isAncestor: Ancestry, repo: Repo, p: seq<Sha>, i: nat)
    requires WellFormed(repo) && Chain(k, isAncestor, repo, p) && i < |p|
    ensures p[i] in repo && p[0] in repo && repo[p[i]].tree == repo[p[0]].tree
  {
    if i > 0 {
      ChainKeepsTree(k, isAncestor, repo, p, i - 1);
      assert MergeLink(k, isAncestor, repo, p[i - 1], p[i - 1 + 1]);
    } else if |p| > 1 {
      assert MergeLink(k, isAncestor, repo, p[0], p[0 + 1]);
    }
  }

  /** A line of parents that leads from one commit back to another. */
  ghost predicate ParentLine(repo: Repo, p: seq<Sha>) {
    && p != [] && (forall i :: 0 <= i < |p| ==> p[i] in repo)
    && forall i :: 0 <= i < |p| - 1 ==> p[i + 1] in repo[p[i]].parents
  }

  /** The commit is in the history of the other, which is in its own history. */
  ghost predicate InHistory(repo: Repo, early: Sha, c: Sha) {
    exists p :: ParentLine(repo, p) && p[0] == c && p[|p| - 1] == early
  }

  /** git's answer about ancestry is the one that the commits' parents give. */
  ghost predicate Truthful(isAncestor: Ancestry, repo: Repo) {
    forall a, c :: c in repo ==> (isAncestor(a, c) <==> InHistory(repo, a, c))
  }

  /** What the merge was made into is in the history of what it merged. */
  ghost predicate TargetReviewed(repo: Repo, c: Sha, reviewed: Sha) {
    c in repo && repo[c].parents != [] && InHistory(repo, repo[c].parents[0], reviewed)
  }

  /** Soundness: a verified commit has the tree of a justified commit, which following second
      parents reaches, each time out of a merge whose target was in the reviewed history. */
  lemma VerifySound(k: Codec, isAncestor: Ancestry, repo: Repo, c: Sha) returns (p: seq<Sha>)
    requires WellFormed(repo) && c in repo && Verify(k, isAncestor, repo, c, {}) == Code(0)
    ensures p != [] && p[0] == c && forall i :: 0 <= i < |p| - 1 ==> Preserves(isAncestor, repo, p[i], p[i + 1])
    ensures p[|p| - 1] in repo && repo[p[|p| - 1]].tree == repo[c].tree && Justified(k, repo, p[|p| - 1])
    ensures Truthful(isAncestor, repo) ==> forall i :: 0 <= i < |p| - 1 ==> TargetReviewed(repo, p[i], p[i + 1])
  {
    p := VerifiedHasChain(k, isAncestor, repo, c, {});
    forall i | 0 <= i < |p| - 1
      ensures Preserves(isAncestor, repo, p[i], p[i + 1]) && (Truthful(isAncestor, repo) ==> TargetReviewed(repo, p[i], p[i + 1]))
    {
      assert MergeLink(k, isAncestor, repo, p[i], p[i + 1]);
    }
    ChainKeepsTree(k, isAncestor, repo, p, |p| - 1);
  }

  // ----- Completeness -----

  /** History has no cycle: every parent is older. */
  ghost predicate Acyclic(repo: Repo, age: Sha -> nat)
    requires WellFormed(repo)
  {
    forall c, i :: c in repo && 0 <= i < |repo[c].parents| ==> age(repo[c].parents[i]) < age(c)
  }

  /** On a history without cycles the cyclic-verification branch is never taken, and every chain
      is found. */
  lemma {:induction false} ChainIsVerified(k: Codec, isAncestor: Ancestry, repo: Repo, age: Sha -> nat, p: seq<Sha>, visited: set<Sha>)
    requires WellFormed(repo) && Acyclic(repo, age) && Chain(k, isAncestor, repo, p) && p[0] in repo
    requires forall v :: v in visited ==> age(v) > age(p[0])
    ensures Verify(k, isAncestor, repo, p[0], visited) == Code(0)
    decreases |p|
  {
    AcceptedIsJustified(k, repo, p[0]);
    MergeLinkIs(k, isAncestor, repo, p[0]);
    if |p| > 1 {
      var c, tail := p[0], p[1..];
      assert MergeLink(k, isAncestor, repo, p[0], p[0 + 1]);
      ChainKeepsTree(k, isAncestor, repo, p, 1);
      assert Chain(k, isAncestor, repo, tail) by {
        forall i | 0 <= i < |tail| - 1 ensures MergeLink(k, isAncestor, repo, tail[i], tail[i + 1]) {
          assert MergeLink(k, isAncestor, repo, p[i + 1], p[i + 1 + 1]);
        }
      }
      assert age(repo[c].parents[1]) < age(c);
      ChainIsVerified(k, isAncestor, repo, age, tail, visited + {c});
    }
  }

  lemma VerifyExact(k: Codec, isAncestor: Ancestry, repo: Repo, age: Sha -> nat, c: Sha)
    requires WellFormed(repo) && Acyclic(repo, age) && c in repo
    ensures Verify(k, isAncestor, repo, c, {}) == Code(0) <==> exists p :: Chain(k, isAncestor, repo, p) && p[0] == c
  {
    if Verify(k, isAncestor, repo, c, {}) == Code(0) {
      var p := VerifiedHasChain(k, isAncestor, repo, c, {});
    }
    if p :| Chain(k, isAncestor, repo, p) && p[0] == c {
      ChainIsVerified(k, isAncestor, repo, age, p, {});
    }
  }

  // ----- The ledger along a line of verified commits -----

  /** First parents, oldest first, each but the first one verified. */
  ghost predicate VerifiedLine(k: Codec, isAncestor: Ancestry, repo: Repo, line: seq<Sha>)
    requires WellFormed(repo)
  {
    && line != [] && (forall i :: 0 <= i < |line| ==> line[i] in repo)
    && forall i :: 0 < i < |line| ==>
         && repo[line[i]].parents != [] && repo[line[i]].parents[0] == line[i - 1]
         && Verify(k, isAncestor, repo, line[i], {}) == Code(0)
  }

  /** The places on the line of the commits that changed source and are justified by their own record. */
  ghost function RecordedOn(k: Codec, repo: Repo, line: seq<Sha>): set<nat>
    requires WellFormed(repo) && forall i :: 0 <= i < |line| ==> line[i] in repo
  {
    PlacesAfterFirst(line, c => c in repo && JustifiedChange(k, repo, c))
  }

  ghost predicate JustifiedChange(k: Codec, repo: Repo, c: Sha)
    requires WellFormed(repo) && c in repo
  {
    && repo[c].parents != [] && repo[repo[c].parents[0]].tree.source != repo[c].tree.source
    && Justified(k, repo, c)
  }

  lemma RecordedOneMore(k: Codec, repo: Repo, line: seq<Sha>, c: Sha)
    requires WellFormed(repo) && line != [] && c in repo && forall i :: 0 <= i < |line| ==> line[i] in repo
    ensures |RecordedOn(k, repo, line + [c])| == |RecordedOn(k, repo, line)| + if JustifiedChange(k, repo, c) then 1 else 0
  {
    PlacesOneMore(line, c, (c: Sha) => c in repo && JustifiedChange(k, repo, c));
  }

  lemma VerifiedInit(k: Codec, isAncestor: Ancestry, repo: Repo, line: seq<Sha>)
    requires WellFormed(repo) && VerifiedLine(k, isAncestor, repo, line) && |line| > 1
    ensures VerifiedLine(k, isAncestor, repo, line[..|line| - 1])
  {
  }

  lemma VerifiedKeepsLines(k: Codec, isAncestor: Ancestry, repo: Repo, c: Sha, visited: set<Sha>)
    requires WellFormed(repo) && c in repo && Verify(k, isAncestor, repo, c, visited) == Code(0) && repo[c].parents != []
    ensures var parent := repo[c].parents[0];
            && LedgerLines(repo[parent].tree) <= LedgerLines(repo[c].tree)
            && (JustifiedChange(k, repo, c) ==> |LedgerLines(repo[parent].tree)| < |LedgerLines(repo[c].tree)|)
  {
  }

  /** Along verified commits the ledger only grows by appending, by at least one line for every
      source change that its own record accepted. */
  lemma {:induction false} LedgerGrows(k: Codec, isAncestor: Ancestry, repo: Repo, line: seq<Sha>)
    requires WellFormed(repo) && VerifiedLine(k, isAncestor, repo, line)
    ensures var first, last := LedgerLines(repo[line[0]].tree), LedgerLines(repo[line[|line| - 1]].tree);
            first <= last && |last| >= |first| + |RecordedOn(k, repo, line)|
  {
    if |line| > 1 {
      var init, c := line[..|line| - 1], line[|line| - 1];
      VerifiedInit(k, isAncestor, repo, line);
      LedgerGrows(k, isAncestor, repo, init);
      VerifiedKeepsLines(k, isAncestor, repo, c, {});
      assert init + [c] == line;
      RecordedOneMore(k, repo, init, c);
    } else {
      NoPlaceAfterFirst(line, (c: Sha) => c in repo && JustifiedChange(k, repo, c));
    }
  }

  /** So the entry that any commit of the line ended with is still there, at its place. */
  lemma {:induction false} EntriesStay(k: Codec, isAncestor: Ancestry, repo: Repo, line: seq<Sha>, i: nat)
    requires WellFormed(repo) && VerifiedLine(k, isAncestor, repo, line) && i < |line|
    ensures LedgerLines(repo[line[i]].tree) <= LedgerLines(repo[line[|line| - 1]].tree)
    decreases |line|
  {
    if i < |line| - 1 {
      var init := line[..|line| - 1];
      VerifiedInit(k, isAncestor, repo, line);
      EntriesStay(k, isAncestor, repo, init, i);
      VerifiedKeepsLines(k, isAncestor, repo, line[|line| - 1], {});
    }
  }

  // ----- Recording -----

  /** A working copy: the commit it is on, the index, and the two managed files on disk. */
  datatype Copy = Copy(head: Sha, index: Tree, ledger: Option<string>, last: Option<string>)

  /** What `record` needs from outside: the listing of the changed files, and the fields of the
      entry that verification does not read. */
  datatype Note = Note(files: seq<Path>, rest: string)

  function TextOf(ledger: Option<string>): string {
    if ledger.Some? then ledger.value else ""
  }

  function NewEntry(k: Codec, repo: Repo, w: Copy, n: Note): Evidence
    requires w.head in repo
  {
    var digest := k.digest(repo[w.head].tree.source, w.index.source);
    Entry(Some(w.head), Some(digest), Some(Short(digest)), n.files, n.rest)
  }

  /** Recording writes both managed files and stages them; without a source change it does nothing. */
  function AfterRecord(k: Codec, repo: Repo, w: Copy, n: Note): Copy
    requires w.head in repo
  {
    if Changed(repo[w.head].tree.source, w.index.source) == {} then w
    else
      var e := NewEntry(k, repo, w, n);
      var ledger := Some(Appended(TextOf(w.ledger), k.compact(e)));
      var last := Some(k.indented(e) + "\n");
      Copy(w.head, Tree(w.index.source, ledger, last), ledger, last)
  }

  /** The listing names the changed files, each once. */
  ghost predicate ListsChanges(repo: Repo, w: Copy, n: Note)
    requires w.head in repo
  {
    ListsEachOnce(n.files, repo[w.head].tree.source, w.index.source)
  }

  class Recorder {
    const k: Codec
    var copy: Copy

    constructor (k: Codec, copy: Copy)
      ensures this.k == k && this.copy == copy
    {
      this.k, this.copy := k, copy;
    }

    method AppendLedger(e: Evidence)
      modifies this
      ensures var ledger := Some(Appended(TextOf(old(copy.ledger)), k.compact(e)));
              var last := Some(k.indented(e) + "\n");
              copy == Copy(old(copy.head), Tree(old(copy.index.source), ledger, last), ledger, last)
    {
      var existing := if copy.ledger.Some? then copy.ledger.value else "";
      var text := existing;
      if existing != "" && existing[|existing| - 1] != '\n' {
        text := text + "\n";
      }
      assert existing + "" == existing;
      text := text + k.compact(e);
      text := text + "\n";
      var last := k.indented(e) + "\n";
      copy := copy.(ledger := Some(text), last := Some(last));
      copy := copy.(index := copy.index.(ledger := copy.ledger, last := copy.last));
    }

    method Record(repo: Repo, n: Note)
      requires copy.head in repo
      modifies this
      ensures copy == AfterRecord(k, repo, old(copy), n)
    {
      if Changed(repo[copy.head].tree.source, copy.index.source) == {} {
        return;
      }
      var digest := k.digest(repo[copy.head].tree.source, copy.index.source);
      AppendLedger(Entry(Some(copy.head), Some(digest), Some(Short(digest)), n.files, n.rest));
    }
  }

  function Committed(repo: Repo, w: Copy, sha: Sha, merged: seq<Sha>): Repo {
    repo[sha := Commit([w.head] + merged, w.index)]
  }

  lemma AppendedLast(lines: seq<string>, line: string)
    requires !Blank(line)
    ensures LastEntryLine(lines + [line]) == line
  {
    assert (lines + [line])[|lines + [line]| - 1] == line;
  }

  /** The lines that come before an entry appended to this text: its own, and a blank one after a
      text that ends with a line break other than "\n". */
  function LinesBefore(text: string): seq<string> {
    Lines(text) + (if text != "" && EndsLine(text) && text[|text| - 1] != '\n' then [""] else [])
  }

  /** The staged ledger after recording is the one on disk with the entry as its last line. */
  lemma RecordedLedger(k: Codec, repo: Repo, w: Copy, n: Note)
    requires Lawful(k) && w.head in repo && repo[w.head].tree.source != w.index.source
    ensures var w', e := AfterRecord(k, repo, w, n), NewEntry(k, repo, w, n);
            && LedgerLines(w'.index) == LinesBefore(TextOf(w.ledger)) + [k.compact(e)]
            && LastEntry(k, w'.index) == e
            && w'.index.last.Some? && k.decode(w'.index.last.value) == e
            && LinesBefore(TextOf(w'.ledger)) == LedgerLines(w'.index)
  {
    var e := NewEntry(k, repo, w, n);
    var line := k.compact(e);
    ChangedIs(repo[w.head].tree.source, w.index.source);
    assert !Blank(line);
    AppendedLines(TextOf(w.ledger), line);
    AppendedLast(LinesBefore(TextOf(w.ledger)), line);
  }

  /** A source file is staged that differs from HEAD's. */
  predicate IsChanged(repo: Repo, w: Copy)
    requires w.head in repo
  {
    repo[w.head].tree.source != w.index.source
  }

  lemma CommitKeepsHistory(repo: Repo, w: Copy, sha: Sha, merged: seq<Sha>)
    requires WellFormed(repo) && w.head in repo && sha !in repo && forall m :: m in merged ==> m in repo
    ensures WellFormed(Committed(repo, w, sha, merged))
  {
    var parents := [w.head] + merged;
    forall i | 0 <= i < |parents| ensures parents[i] in repo {
      if i > 0 {
        assert parents[i] == merged[i - 1] && merged[i - 1] in merged;
      }
    }
  }

  /** Recording and committing a source change is verified when the ledger on disk keeps HEAD's
      lines; this holds for merge commits too. */
  lemma RecordedCommitVerifies(k: Codec, isAncestor: Ancestry, repo: Repo, w: Copy, n: Note, sha: Sha, merged: seq<Sha>)
    requires Lawful(k) && WellFormed(repo) && w.head in repo && sha !in repo && forall m :: m in merged ==> m in repo
    requires IsChanged(repo, w) && ListsChanges(repo, w, n)
    requires LedgerLines(repo[w.head].tree) <= LinesBefore(TextOf(w.ledger))
    ensures var after := Committed(repo, AfterRecord(k, repo, w, n), sha, merged);
            && WellFormed(after) && Verify(k, isAncestor, after, sha, {}) == Code(0)
            && after[sha].parents == [w.head] + merged && after[sha].tree == AfterRecord(k, repo, w, n).index
  {
    CommitKeepsHistory(repo, AfterRecord(k, repo, w, n), sha, merged);
    RecordedLedger(k, repo, w, n);
    ChangedIs(repo[w.head].tree.source, w.index.source);
    ListingIs(n.files, repo[w.head].tree.source, w.index.source);
    var after := Committed(repo, AfterRecord(k, repo, w, n), sha, merged);
    assert after[sha].parents[0] == w.head && after[w.head] == repo[w.head];
    assert Examine(k, after, sha) == Accepted;
  }

  /** Record, then an ordinary commit, is verified exactly when the ledger on disk keeps HEAD's
      lines or, without a source change, when neither managed file differs from HEAD's. */
  lemma RecordThenVerify(k: Codec, isAncestor: Ancestry, repo: Repo, w: Copy, n: Note, sha: Sha)
    requires Lawful(k) && WellFormed(repo) && w.head in repo && sha !in repo && ListsChanges(repo, w, n)
    ensures var after := Committed(repo, AfterRecord(k, repo, w, n), sha, []);
            && WellFormed(after)
            && (Verify(k, isAncestor, after, sha, {}) == Code(0) <==>
                  if IsChanged(repo, w) then LedgerLines(repo[w.head].tree) <= LinesBefore(TextOf(w.ledger))
                  else w.index.ledger == repo[w.head].tree.ledger && w.index.last == repo[w.head].tree.last)
  {
    var after := Committed(repo, AfterRecord(k, repo, w, n), sha, []);
    CommitKeepsHistory(repo, AfterRecord(k, repo, w, n), sha, []);
    assert after[sha].parents == [w.head] && after[w.head] == repo[w.head];
    ChangedIs(repo[w.head].tree.source, w.index.source);
    if IsChanged(repo, w) {
      RecordedLedger(k, repo, w, n);
      var before := LedgerLines(repo[w.head].tree);
      if before <= LinesBefore(TextOf(w.ledger)) {
        RecordedCommitVerifies(k, isAncestor, repo, w, n, sha, []);
      } else if before <= LedgerLines(after[sha].tree) {
        assert |before| == |LedgerLines(after[sha].tree)|;
      }
    }
  }

  // ----- Any number of records before the commit -----

  datatype Action = Stage(source: Source) | RecordNow(n: Note)

  function Acted(k: Codec, repo: Repo, w: Copy, actions: seq<Action>): Copy
    requires w.head in repo
    ensures Acted(k, repo, w, actions).head == w.head
  {
    if actions == [] then w
    else
      var before := Acted(k, repo, w, actions[..|actions| - 1]);
      match actions[|actions| - 1]
      case Stage(source) => before.(index := before.index.(source := source))
      case RecordNow(n) => AfterRecord(k, repo, before, n)
  }

  lemma {:induction false} ActionsKeepLines(k: Codec, repo: Repo, w: Copy, actions: seq<Action>, lines: seq<string>)
    requires Lawful(k) && w.head in repo && lines <= LinesBefore(TextOf(w.ledger))
    ensures lines <= LinesBefore(TextOf(Acted(k, repo, w, actions).ledger))
  {
    if actions != [] {
      var before := Acted(k, repo, w, actions[..|actions| - 1]);
      ActionsKeepLines(k, repo, w, actions[..|actions| - 1], lines);
      var a := actions[|actions| - 1];
      if a.RecordNow? && IsChanged(repo, before) {
        RecordedLedger(k, repo, before, a.n);
      }
    }
  }

  /** However often the change was restaged and recorded before, a record after the last staging
      makes the commit verify, if the ledger on disk started as an extension of HEAD's. */
  lemma ManyRecordsThenVerify(k: Codec, isAncestor: Ancestry, repo: Repo, w: Copy, actions: seq<Action>, n: Note, sha: Sha, merged: seq<Sha>)
    requires Lawful(k) && WellFormed(repo) && w.head in repo && sha !in repo && forall m :: m in merged ==> m in repo
    requires LedgerLines(repo[w.head].tree) <= Lines(TextOf(w.ledger))
    requires IsChanged(repo, Acted(k, repo, w, actions)) && ListsChanges(repo, Acted(k, repo, w, actions), n)
    ensures var after := Committed(repo, AfterRecord(k, repo, Acted(k, repo, w, actions), n), sha, merged);
            WellFormed(after) && Verify(k, isAncestor, after, sha, {}) == Code(0)
  {
    ActionsKeepLines(k, repo, w, actions, LedgerLines(repo[w.head].tree));
    RecordedCommitVerifies(k, isAncestor, repo, Acted(k, repo, w, actions), n, sha, merged);
  }

  /** A record that is not followed by a commit of its change is refused: recording, then staging
      the change back, leaves a ledger-only edit. */
  lemma StagedBackIsRefused(k: Codec, isAncestor: Ancestry, repo: Repo, w: Copy, n: Note, n': Note, sha: Sha)
    requires Lawful(k) && WellFormed(repo) && w.head in repo && sha !in repo && IsChanged(repo, w)
    requires LedgerLines(repo[w.head].tree) <= Lines(TextOf(w.ledger))
    requires n'.files == []
    ensures var back := Acted(k, repo, w, [RecordNow(n), Stage(repo[w.head].tree.source)]);
            var after := Committed(repo, AfterRecord(k, repo, back, n'), sha, []);
            WellFormed(after) && Verify(k, isAncestor, after, sha, {}) != Code(0)
  {
    var actions := [RecordNow(n), Stage(repo[w.head].tree.source)];
    assert actions[..1] == [RecordNow(n)] && [RecordNow(n)][..0] == [];
    assert Acted(k, repo, w, [RecordNow(n)]) == AfterRecord(k, repo, w, n);
    var recorded := AfterRecord(k, repo, w, n);
    var back := Acted(k, repo, w, actions);
    assert back == recorded.(index := recorded.index.(source := repo[w.head].tree.source));
    ChangedIs(repo[w.head].tree.source, back.index.source);
    RecordedLedger(k, repo, w, n);
    assert LedgerLines(back.index) == LedgerLines(recorded.index);
    RecordThenVerify(k, isAncestor, repo, back, n', sha);
  }

  // ----- The release gate -----

  datatype App = App(blocked: bool, required: Option<Sha>)

  /** The gate's exit code; `clean` is whether the working tree has no change. */
  function ReleaseCheck(k: Codec, isAncestor: Ancestry, repo: Repo, head: Sha, apps: map<string, App>, app: string,
                        requireClean: bool, clean: bool): Verdict
    requires WellFormed(repo) && head in repo
  {
    if app !in apps then Code(30)
    else if apps[app].blocked then Code(31)
    else if apps[app].required.None? || apps[app].required.value == "" then Code(32)
    else if !isAncestor(apps[app].required.value, head) then Code(33)
    else if requireClean && !clean then Code(34)
    else if requireClean then
      match Verify(k, isAncestor, repo, head, {})
      case Code(n) => if n == 0 then Code(0) else Code(35)
      case Raised => Raised
    else Code(0)
  }

  /** The gate as the script walks through it. */
  method CheckRelease(k: Codec, isAncestor: Ancestry, repo: Repo, head: Sha, apps: map<string, App>, app: string,
                      requireClean: bool, clean: bool) returns (v: Verdict)
    requires WellFormed(repo) && head in repo
    ensures v == ReleaseCheck(k, isAncestor, repo, head, apps, app, requireClean, clean)
  {
    if app !in apps {
      return Code(30);
    }
    if apps[app].blocked {
      return Code(31);
    }
    var required := apps[app].required;
    if required.None? || required.value == "" {
      return Code(32);
    }
    if !isAncestor(required.value, head) {
      return Code(33);
    }
    if requireClean {
      if !clean {
        return Code(34);
      }
      var guard := new Guard(k, isAncestor);
      v := guard.VerifyRef(repo, head);
      if v == Raised {
        return;
      }
      if v != Code(0) {
        return Code(35);
      }
    }
    return Code(0);
  }

  /** What the gate demands of an app: it is registered, not blocked, and its required ancestor is set
      and in the history of the head. */
  ghost predicate Lineage(isAncestor: Ancestry, head: Sha, apps: map<string, App>, app: string) {
    && app in apps && !apps[app].blocked
    && exists required :: apps[app].required == Some(required) && required != "" && isAncestor(required, head)
  }

  /** The gate opens exactly for such an app and, for a deliverable build, a clean tree on a verified
      head; each reason to refuse has its own exit code, the first that applies. */
  lemma ReleaseIs(k: Codec, isAncestor: Ancestry, repo: Repo, head: Sha, apps: map<string, App>, app: string,
                  requireClean: bool, clean: bool)
    requires WellFormed(repo) && head in repo
    ensures var v := ReleaseCheck(k, isAncestor, repo, head, apps, app, requireClean, clean);
            && (v == Code(0) <==>
                  && Lineage(isAncestor, head, apps, app)
                  && (requireClean ==> clean && Verify(k, isAncestor, repo, head, {}) == Code(0)))
            && (v == Code(30) <==> app !in apps)
            && (v == Code(31) <==> app in apps && apps[app].blocked)
            && (v == Code(32) <==> app in apps && !apps[app].blocked && apps[app].required in {None, Some("")})
            && (v == Code(33) <==>
                  && app in apps && !apps[app].blocked && apps[app].required !in {None, Some("")}
                  && !Lineage(isAncestor, head, apps, app))
            && (v == Code(34) <==> Lineage(isAncestor, head, apps, app) && requireClean && !clean)
            && (v == Code(35) || v == Raised <==>
                  && Lineage(isAncestor, head, apps, app) && requireClean && clean
                  && Verify(k, isAncestor, repo, head, {}) != Code(0))
  {
    if app in apps && apps[app].required.Some? {
      assert Lineage(isAncestor, head, apps, app)
        <==> !apps[app].blocked && apps[app].required.value != "" && isAncestor(apps[app].required.value, head);
    }
  }

  /** A deliverable build is released only from a clean tree whose content is that of a justified
      commit, with the app's required ancestor in its history. */
  lemma ReleasedIsJustified(k: Codec, isAncestor: Ancestry, repo: Repo, head: Sha, apps: map<string, App>, app: string, clean: bool)
    returns (c: Sha)
    requires WellFormed(repo) && head in repo && Truthful(isAncestor, repo)
    requires ReleaseCheck(k, isAncestor, repo, head, apps, app, true, clean) == Code(0)
    ensures clean && app in apps && !apps[app].blocked && apps[app].required.Some?
    ensures InHistory(repo, apps[app].required.value, head)
    ensures c in repo && repo[c].tree == repo[head].tree && Justified(k, repo, c)
  {
    var p := VerifySound(k, isAncestor, repo, head);
    c := p[|p| - 1];
  }
}

/** The repository truth guard: recording a staged change in an append-only ledger, and verifying
    that a commit is recorded, unchanged, or a merge that preserves a verified tree. */
module TruthGuard {
  import opened Options
  import opened LedgerText

  type Sha = string
  type Path = string
  type Source = map<Path, string>

  /** The content of a commit or of the index: the source files, and the two managed files. */
  datatype Tree = Tree(source: Source, ledger: Option<string>, last: Option<string>)
  datatype Commit = Commit(parents: seq<Sha>, tree: Tree)
  type Repo = map<Sha, Commit>

  /** What a ledger line or the last-change file decodes to: not JSON, a value that counts as
      empty, another value on which the guard's own reading raises, or an object. */
  datatype Evidence =
    | NotJson
    | Empty
    | Foreign
    | Entry(sourceParent: Option<Sha>, digest: Option<string>, changeId: Option<string>, files: seq<Path>, rest: string)

  /** JSON in its two layouts, and the digest of the diff between two source trees. */
  datatype Codec = Codec(
    decode: string -> Evidence,
    compact: Evidence -> string,
    indented: Evidence -> string,
    digest: (Source, Source) -> string)

  /** What JSON guarantees: an entry reads back from either layout, and its compact layout is one
      line that is not blank. */
  ghost predicate Lawful(k: Codec) {
    forall e: Evidence :: e.Entry? ==>
      && k.decode(k.compact(e)) == e && k.decode(k.indented(e) + "\n") == e
      && Plain(k.compact(e)) && !Blank(k.compact(e))
  }

  ghost predicate WellFormed(repo: Repo) {
    forall c, i :: c in repo && 0 <= i < |repo[c].parents| ==> repo[c].parents[i] in repo
  }

  function Changed(a: Source, b: Source): set<Path> {
    set p | p in a.Keys + b.Keys && !(p in a && p in b && a[p] == b[p])
  }

  function LedgerLines(t: Tree): seq<string> {
    if t.ledger.Some? then Lines(t.ledger.value) else []
  }

  function Short(digest: string): string {
    if |digest| > 20 then digest[..20] else digest
  }

  // ----- One commit -----

  datatype Finding = Accepted | Rejected(code: int) | Raises | Mismatch

  /** The last ledger entry, or why there is none. */
  function LastEntry(k: Codec, t: Tree): Evidence {
    var line := LastEntryLine(LedgerLines(t));
    if t.ledger.None? || line == "" then Empty else k.decode(line)
  }

  /** The entry names the parent and the change between the two source trees. */
  predicate Names(k: Codec, e: Evidence, parent: Sha, before: Source, after: Source) {
    && e.Entry?
    && e.sourceParent == Some(parent)
    && e.digest == Some(k.digest(before, after))
    && multiset(e.files) == multiset(Changed(before, after))
  }

  predicate RecordedIn(k: Codec, parent: Sha, before: Tree, after: Tree) {
    var e := LastEntry(k, after);
    && Names(k, e, parent, before.source, after.source)
    && e.changeId == Some(Short(k.digest(before.source, after.source)))
    && after.last.Some? && k.decode(after.last.value) == e
    && |LedgerLines(before)| < |LedgerLines(after)|
  }

  function Examine(k: Codec, repo: Repo, c: Sha): Finding
    requires WellFormed(repo) && c in repo
  {
    if repo[c].parents == [] then Accepted
    else
      var parent := repo[c].parents[0];
      var before, after := repo[parent].tree, repo[c].tree;
      if !(LedgerLines(before) <= LedgerLines(after)) then Rejected(21)
      else if Changed(before.source, after.source) == {} then
        if before.ledger != after.ledger || before.last != after.last then Rejected(21) else Accepted
      else
        match LastEntry(k, after)
        case NotJson => Rejected(20)
        case Empty => Rejected(20)
        case Foreign => Raises
        case Entry(_, _, _, _, _) => if RecordedIn(k, parent, before, after) then Accepted else Mismatch
  }

  // ----- Verification -----

  datatype Verdict = Code(n: int) | Raised

  /** What the guard asks of git: whether one commit is in the history of another. */
  type Ancestry = (Sha, Sha) -> bool

  predicate PreservesTree(isAncestor: Ancestry, repo: Repo, c: Sha)
    requires c in repo
  {
    && |repo[c].parents| == 2 && repo[c].parents[1] in repo
    && repo[repo[c].parents[1]].tree == repo[c].tree
    && isAncestor(repo[c].parents[0], repo[c].parents[1])
  }

  function Verify(k: Codec, isAncestor: Ancestry, repo: Repo, c: Sha, visited: set<Sha>): Verdict
    requires WellFormed(repo) && c in repo
    decreases |repo.Keys - visited|
  {
    if c in visited then Code(21)
    else
      match Examine(k, repo, c)
      case Accepted => Code(0)
      case Rejected(n) => Code(n)
      case Raises => Raised
      case Mismatch =>
        if PreservesTree(isAncestor, repo, c) then
          assert repo.Keys - visited == (repo.Keys - (visited + {c})) + {c};
          match Verify(k, isAncestor, repo, repo[c].parents[1], visited + {c})
          case Code(n) => if n == 0 then Code(0) else Code(21)
          case Raised => Raised
        else Code(21)
  }

  datatype Failure = WrongParent | WrongDigest | WrongFiles | WrongLastChange | NoNewRecord

  class Guard {
    const k: Codec
    const isAncestor: Ancestry
    var visited: set<Sha>

    constructor (k: Codec, isAncestor: Ancestry)
      ensures this.k == k && this.isAncestor == isAncestor && visited == {}
    {
      this.k, this.isAncestor, visited := k, isAncestor, {};
    }

    /** The failures of a changed commit whose last entry is `e`. */
    method Compare(parent: Sha, before: Tree, after: Tree, e: Evidence) returns (failures: seq<Failure>)
      requires e.Entry? && e == LastEntry(k, after)
      ensures failures == [] <==> RecordedIn(k, parent, before, after)
    {
      failures := [];
      var digest := k.digest(before.source, after.source);
      if e.sourceParent != Some(parent) {
        failures := failures + [WrongParent];
      }
      if e.digest != Some(digest) {
        failures := failures + [WrongDigest];
      }
      if multiset(e.files) != multiset(Changed(before.source, after.source)) {
        failures := failures + [WrongFiles];
      }
      if after.last.None? || k.decode(after.last.value) != e {
        failures := failures + [WrongLastChange];
      }
      if failures == [] && (|LedgerLines(after)| <= |LedgerLines(before)| || e.changeId != Some(Short(digest))) {
        failures := failures + [NoNewRecord];
      }
    }

    method VerifyRef(repo: Repo, c: Sha) returns (v: Verdict)
      requires WellFormed(repo) && c in repo
      modifies this
      ensures v == Verify(k, isAncestor, repo, c, old(visited))
      ensures old(visited) + {c} <= visited
      decreases |repo.Keys - visited|
    {
      if c in visited {
        return Code(21);
      }
      ghost var visited0 := visited;
      visited := visited + {c};
      if repo[c].parents == [] {
        return Code(0);
      }
      var parent := repo[c].parents[0];
      var before, after := LedgerLines(repo[parent].tree), LedgerLines(repo[c].tree);
      if |after| < |before| || after[..|before|] != before {
        return Code(21);
      }
      if Changed(repo[parent].tree.source, repo[c].tree.source) == {} {
        if repo[parent].tree.ledger != repo[c].tree.ledger || repo[parent].tree.last != repo[c].tree.last {
          return Code(21);
        }
        return Code(0);
      }
      var e := LastEntry(k, repo[c].tree);
      if e.NotJson? || e.Empty? {
        return Code(20);
      }
      if e.Foreign? {
        return Raised;
      }
      var failures := Compare(parent, repo[parent].tree, repo[c].tree, e);
      if failures == [] {
        return Code(0);
      }
      if |repo[c].parents| == 2 {
        var reviewed := repo[c].parents[1];
        if repo[reviewed].tree == repo[c].tree && isAncestor(parent, reviewed) {
          assert repo.Keys - visited0 == (repo.Keys - visited) + {c};
          v := VerifyRef(repo, reviewed);
          if v == Code(0) || v == Raised {
            return;
          }
        }
      }
      return Code(21);
    }
  }
}

/** How stored objects are laid out in size-limited packs, as a function of the list of keys
    still to pack, and what that layout guarantees. */
module Packing {
  import opened Sequences

  type Key = string
  type Bytes = seq<bv8>
  type Digest = string

  /** What a build reads from outside: the stored bytes of each key, a digest, and how large a pack may get. */
  datatype Shelf = Shelf(get: Key -> Bytes, sha: Bytes -> Digest, target: int)

  datatype Entry = Entry(key: Key, off: nat, len: nat)
  datatype Pack = Pack(index: nat, bytes: nat, sha: Digest, entries: seq<Entry>)

  // ----- Layout of one pack -----

  function Body(s: Shelf, keys: seq<Key>): Bytes {
    if keys == [] then [] else Body(s, keys[..|keys| - 1]) + s.get(keys[|keys| - 1])
  }

  function Size(s: Shelf, keys: seq<Key>): nat {
    |Body(s, keys)|
  }

  function EntriesOf(s: Shelf, keys: seq<Key>): (es: seq<Entry>)
    ensures |es| == |keys|
  {
    if keys == [] then []
    else
      var rest := keys[..|keys| - 1];
      EntriesOf(s, rest) + [Entry(keys[|keys| - 1], Size(s, rest), |s.get(keys[|keys| - 1])|)]
  }

  function PackOf(s: Shelf, index: nat, keys: seq<Key>): Pack {
    Pack(index, Size(s, keys), s.sha(Body(s, keys)), EntriesOf(s, keys))
  }

  function KeysOfPack(p: Pack): (keys: seq<Key>)
    ensures |keys| == |p.entries|
  {
    seq(|p.entries|, i requires 0 <= i < |p.entries| => p.entries[i].key)
  }

  function KeysOf(packs: seq<Pack>): seq<Key> {
    if packs == [] then [] else KeysOfPack(packs[0]) + KeysOf(packs[1..])
  }

  /** The entries of a pack cover its bytes from first to last, without gap or overlap, and
      each one selects exactly its object's bytes. */
  ghost predicate Tiles(s: Shelf, entries: seq<Entry>, body: Bytes) {
    && (forall i :: 0 <= i < |entries| ==>
          && entries[i].off == (if i == 0 then 0 else entries[i - 1].off + entries[i - 1].len)
          && entries[i].off + entries[i].len <= |body|
          && body[entries[i].off..entries[i].off + entries[i].len] == s.get(entries[i].key))
    && |body| == (if entries == [] then 0 else entries[|entries| - 1].off + entries[|entries| - 1].len)
  }

  lemma TilesOneMore(s: Shelf, es: seq<Entry>, body: Bytes, k: Key)
    requires Tiles(s, es, body)
    ensures Tiles(s, es + [Entry(k, |body|, |s.get(k)|)], body + s.get(k))
  {
    var more := es + [Entry(k, |body|, |s.get(k)|)];
    forall i | 0 <= i < |more|
      ensures more[i].off == (if i == 0 then 0 else more[i - 1].off + more[i - 1].len)
      ensures more[i].off + more[i].len <= |body + s.get(k)|
      ensures (body + s.get(k))[more[i].off..more[i].off + more[i].len] == s.get(more[i].key)
    {
      if i < |es| {
        assert more[i] == es[i];
        assert (body + s.get(k))[es[i].off..es[i].off + es[i].len] == body[es[i].off..es[i].off + es[i].len];
      }
    }
  }

  lemma {:induction false} EntriesTile(s: Shelf, keys: seq<Key>)
    ensures Tiles(s, EntriesOf(s, keys), Body(s, keys))
  {
    if keys != [] {
      EntriesTile(s, keys[..|keys| - 1]);
      TilesOneMore(s, EntriesOf(s, keys[..|keys| - 1]), Body(s, keys[..|keys| - 1]), keys[|keys| - 1]);
    }
  }

  lemma {:induction false} EntriesInOrder(s: Shelf, keys: seq<Key>)
    ensures forall i :: 0 <= i < |keys| ==> EntriesOf(s, keys)[i].key == keys[i]
  {
    if keys != [] {
      EntriesInOrder(s, keys[..|keys| - 1]);
    }
  }

  lemma KeysOfPackOf(s: Shelf, index: nat, keys: seq<Key>)
    ensures KeysOfPack(PackOf(s, index, keys)) == keys
  {
    EntriesInOrder(s, keys);
  }

  // ----- The greedy packing loop -----

  /** A pack that already holds `cur` is closed before `next` is added. */
  predicate Closes(s: Shelf, cur: seq<Key>, next: Key) {
    Size(s, cur) > 0 && Size(s, cur) + |s.get(next)| > s.target
  }

  /** The packs written from here on, when the open pack `index` holds `cur`. */
  function Drain(s: Shelf, index: nat, cur: seq<Key>, rest: seq<Key>): seq<Pack>
    decreases |rest|
  {
    if rest == [] then
      if cur == [] then [] else [PackOf(s, index, cur)]
    else if Closes(s, cur, rest[0]) then
      [PackOf(s, index, cur)] + Drain(s, index + 1, [rest[0]], rest[1..])
    else
      Drain(s, index, cur + [rest[0]], rest[1..])
  }

  lemma BodyConcat(s: Shelf, a: seq<Key>, b: seq<Key>)
    ensures Body(s, a + b) == Body(s, a) + Body(s, b)
    decreases |b|
  {
    if b == [] {
      assert a + b == a;
    } else {
      var b' := b[..|b| - 1];
      assert (a + b)[..|a + b| - 1] == a + b';
      BodyConcat(s, a, b');
    }
  }

  lemma SingleBody(s: Shelf, k: Key)
    ensures Body(s, [k]) == s.get(k)
  {
    assert [k][..0] == [];
  }

  lemma KeysOfConcat(a: seq<Pack>, b: seq<Pack>)
    ensures KeysOf(a + b) == KeysOf(a) + KeysOf(b)
  {
    if a == [] {
      assert a + b == b;
    } else {
      assert (a + b)[1..] == a[1..] + b;
      KeysOfConcat(a[1..], b);
    }
  }

  /** How many of the keys to come join the open pack, which already holds `cur`. */
  function Taken(s: Shelf, cur: seq<Key>, rest: seq<Key>): (n: nat)
    ensures n <= |rest|
    decreases |rest|
  {
    if rest == [] || Closes(s, cur, rest[0]) then 0 else 1 + Taken(s, cur + [rest[0]], rest[1..])
  }

  lemma {:induction false} TakenUntilClosed(s: Shelf, cur: seq<Key>, rest: seq<Key>)
    ensures var n := Taken(s, cur, rest);
            && (n < |rest| ==> Closes(s, cur + rest[..n], rest[n]))
            && (n > 0 ==> !Closes(s, cur + rest[..n - 1], rest[n - 1]))
    decreases |rest|
  {
    var n := Taken(s, cur, rest);
    if n == 0 {
      assert cur + rest[..0] == cur;
    } else {
      var m := n - 1;
      TakenUntilClosed(s, cur + [rest[0]], rest[1..]);
      assert (cur + [rest[0]]) + rest[1..][..m] == cur + rest[..n];
      if m == 0 {
        assert cur + rest[..0] == cur;
      } else {
        assert (cur + [rest[0]]) + rest[1..][..m - 1] == cur + rest[..m];
      }
    }
  }

  /** The first pack takes `cur` and a prefix of `rest`; the others are what packing the
      remaining keys from an empty pack gives. */
  lemma {:induction false} FirstPack(s: Shelf, index: nat, cur: seq<Key>, rest: seq<Key>)
    requires cur != [] || rest != []
    ensures var n := Taken(s, cur, rest);
            Drain(s, index, cur, rest)
            == [PackOf(s, index, cur + rest[..n])] + Drain(s, index + 1, [], rest[n..])
    decreases |rest|
  {
    var n := Taken(s, cur, rest);
    if n == 0 {
      assert cur + rest[..0] == cur && rest[0..] == rest;
      if rest != [] {
        assert [] + [rest[0]] == [rest[0]];
      }
    } else {
      FirstPack(s, index, cur + [rest[0]], rest[1..]);
      assert (cur + [rest[0]]) + rest[1..][..n - 1] == cur + rest[..n];
      assert rest[1..][n - 1..] == rest[n..];
    }
  }

  lemma DrainSplit(s: Shelf, index: nat, keys: seq<Key>) returns (n: nat)
    requires keys != []
    ensures 0 < n <= |keys|
    ensures Drain(s, index, [], keys) == [PackOf(s, index, keys[..n])] + Drain(s, index + 1, [], keys[n..])
    ensures n < |keys| ==> Closes(s, keys[..n], keys[n])
    ensures !Closes(s, keys[..n - 1], keys[n - 1])
  {
    n := Taken(s, [], keys);
    FirstPack(s, index, [], keys);
    TakenUntilClosed(s, [], keys);
    assert [] + keys[..n] == keys[..n];
    assert n > 0 by {
      assert Size(s, []) == 0;
    }
    assert [] + keys[..n - 1] == keys[..n - 1];
  }

  ghost predicate NumberedFrom(s: Shelf, index: nat, packs: seq<Pack>) {
    forall i :: 0 <= i < |packs| ==>
      packs[i] == PackOf(s, index + i, KeysOfPack(packs[i])) && packs[i].entries != []
  }

  lemma NumberedCons(s: Shelf, index: nat, keys: seq<Key>, packs: seq<Pack>)
    requires keys != [] && NumberedFrom(s, index + 1, packs)
    ensures NumberedFrom(s, index, [PackOf(s, index, keys)] + packs)
  {
    KeysOfPackOf(s, index, keys);
    var all := [PackOf(s, index, keys)] + packs;
    forall i | 0 <= i < |all|
      ensures all[i] == PackOf(s, index + i, KeysOfPack(all[i])) && all[i].entries != []
    {
      if i > 0 {
        assert all[i] == packs[i - 1];
      }
    }
  }

  /** Every key is packed exactly once, in order, and packs are numbered from `index`. */
  lemma {:induction false} DrainKeepsKeys(s: Shelf, index: nat, keys: seq<Key>)
    ensures KeysOf(Drain(s, index, [], keys)) == keys
    ensures NumberedFrom(s, index, Drain(s, index, [], keys))
    decreases |keys|
  {
    if keys != [] {
      var n := DrainSplit(s, index, keys);
      DrainKeepsKeys(s, index + 1, keys[n..]);
      NumberedCons(s, index, keys[..n], Drain(s, index + 1, [], keys[n..]));
      KeysOfPackOf(s, index, keys[..n]);
      KeysOfCons(PackOf(s, index, keys[..n]), Drain(s, index + 1, [], keys[n..]));
      assert keys[..n] + keys[n..] == keys;
    }
  }

  lemma KeysOfCons(p: Pack, packs: seq<Pack>)
    ensures KeysOf([p] + packs) == KeysOfPack(p) + KeysOf(packs)
  {
    assert ([p] + packs)[1..] == packs;
  }

  // ----- Size of a pack and number of packs -----

  /** A pack fits when it keeps the target, or when nothing precedes its last object. */
  predicate Fits(s: Shelf, keys: seq<Key>) {
    || Size(s, keys) <= s.target
    || keys == []
    || Size(s, keys[..|keys| - 1]) == 0
  }

  lemma OpenPackFits(s: Shelf, cur: seq<Key>, next: Key)
    requires !Closes(s, cur, next)
    ensures Fits(s, cur + [next])
  {
    assert (cur + [next])[..|cur|] == cur;
  }

  lemma FittingPackStaysOpen(s: Shelf, cur: seq<Key>, next: Key)
    requires Fits(s, cur + [next])
    ensures !Closes(s, cur, next)
  {
    assert (cur + [next])[..|cur|] == cur;
  }

  /** Bytes of a part of some keys. */
  lemma PartSize(s: Shelf, keys: seq<Key>, lo: nat, hi: nat)
    requires lo <= hi <= |keys|
    ensures Size(s, keys[lo..hi]) <= Size(s, keys)
  {
    assert keys == keys[..lo] + (keys[lo..hi] + keys[hi..]);
    BodyConcat(s, keys[..lo], keys[lo..hi] + keys[hi..]);
    BodyConcat(s, keys[lo..hi], keys[hi..]);
  }

  /** Every part of a pack that fits, fits. */
  lemma PartFits(s: Shelf, keys: seq<Key>, lo: nat, hi: nat)
    requires s.target >= 0
    requires lo <= hi <= |keys|
    requires Fits(s, keys)
    ensures Fits(s, keys[lo..hi])
  {
    var part := keys[lo..hi];
    PartSize(s, keys, lo, hi);
    if part != [] && Size(s, keys) > s.target {
      var init := keys[..|keys| - 1];
      assert part[..|part| - 1] == init[lo..hi - 1];
      PartSize(s, init, lo, hi - 1);
    }
  }

  /** No pack exceeds the target unless it is one object larger than the target. */
  lemma {:induction false} PacksFit(s: Shelf, index: nat, keys: seq<Key>)
    ensures forall p :: p in Drain(s, index, [], keys) ==>
              Fits(s, KeysOfPack(p)) &&
              (p.bytes <= s.target || exists e :: e in p.entries && e.len == p.bytes)
    decreases |keys|
  {
    if keys != [] {
      var n := DrainSplit(s, index, keys);
      var first := PackOf(s, index, keys[..n]);
      PacksFit(s, index + 1, keys[n..]);
      KeysOfPackOf(s, index, keys[..n]);
      assert keys[..n] == keys[..n - 1] + [keys[n - 1]];
      OpenPackFits(s, keys[..n - 1], keys[n - 1]);
      if first.bytes > s.target {
        assert keys[..n][..n - 1] == keys[..n - 1];
        var e := first.entries[n - 1];
        assert e in first.entries && e.len == first.bytes;
      }
    }
  }

  function Total(packs: seq<Pack>): nat {
    if packs == [] then 0 else packs[0].bytes + Total(packs[1..])
  }

  /** Packing neither loses nor adds a byte. */
  lemma {:induction false} DrainKeepsBytes(s: Shelf, index: nat, keys: seq<Key>)
    ensures Total(Drain(s, index, [], keys)) == Size(s, keys)
    decreases |keys|
  {
    if keys != [] {
      var n := DrainSplit(s, index, keys);
      DrainKeepsBytes(s, index + 1, keys[n..]);
      assert keys == keys[..n] + keys[n..];
      BodyConcat(s, keys[..n], keys[n..]);
    }
  }

  ghost predicate NeighboursExceed(packs: seq<Pack>, t: int) {
    forall i :: 0 <= i < |packs| - 1 ==> packs[i].bytes + packs[i + 1].bytes > t
  }

  /** Any two consecutive packs together exceed the target. */
  lemma {:induction false} NeighboursExceedTarget(s: Shelf, index: nat, keys: seq<Key>)
    ensures NeighboursExceed(Drain(s, index, [], keys), s.target)
    decreases |keys|
  {
    if keys != [] {
      var d := Drain(s, index, [], keys);
      var n := DrainSplit(s, index, keys);
      var tail := keys[n..];
      NeighboursExceedTarget(s, index + 1, tail);
      if tail != [] {
        var m := DrainSplit(s, index + 1, tail);
        assert tail[..m] == [tail[0]] + tail[1..m];
        BodyConcat(s, [tail[0]], tail[1..m]);
        SingleBody(s, tail[0]);
        assert d[0].bytes + d[1].bytes > s.target;
      }
      forall i | 0 <= i < |d| - 1 ensures d[i].bytes + d[i + 1].bytes > s.target {
        if i > 0 {
          assert d[i] == d[1..][i - 1] && d[i + 1] == d[1..][i];
        }
      }
    }
  }

  lemma {:induction false} NeighboursBoundTotal(packs: seq<Pack>, t: nat)
    requires packs != []
    requires NeighboursExceed(packs, t)
    ensures (|packs| - 1) * (t + 1) + packs[0].bytes + packs[|packs| - 1].bytes <= 2 * Total(packs)
  {
    if |packs| > 1 {
      var tail := packs[1..];
      forall i | 0 <= i < |tail| - 1 ensures tail[i].bytes + tail[i + 1].bytes > t {
        assert tail[i] == packs[i + 1] && tail[i + 1] == packs[(i + 1) + 1];
      }
      NeighboursBoundTotal(tail, t);
      assert (|packs| - 1) * (t + 1) == (|tail| - 1) * (t + 1) + (t + 1);
    }
  }

  /** The number of packs is at most twice the bytes over the target, plus one. */
  lemma PackCount(s: Shelf, index: nat, keys: seq<Key>)
    requires s.target >= 0
    ensures |Drain(s, index, [], keys)| <= 2 * Size(s, keys) / (s.target + 1) + 1
  {
    var d := Drain(s, index, [], keys);
    if d != [] {
      NeighboursExceedTarget(s, index, keys);
      NeighboursBoundTotal(d, s.target);
      DrainKeepsBytes(s, index, keys);
      QuotientBound(|d| - 1, s.target + 1, 2 * Size(s, keys));
    }
  }

  lemma QuotientBound(n: nat, d: nat, x: nat)
    requires d > 0 && n * d <= x
    ensures n <= x / d
  {
    var q := x / d;
    assert x < q * d + d;
    assert (q + 1) * d == q * d + d;
    assert n >= q + 1 ==> n * d >= (q + 1) * d;
  }

  // ----- Greedy packing is optimal -----

  function Flatten(groups: seq<seq<Key>>): seq<Key> {
    if groups == [] then [] else groups[0] + Flatten(groups[1..])
  }

  /** While the first keys of `rest` still fit beside `cur`, the first pack takes them. */
  lemma FirstPackTakes(s: Shelf, index: nat, rest: seq<Key>, h: nat, n: nat)
    requires s.target >= 0
    requires h <= |rest| && n <= |rest|
    requires Fits(s, rest[..h])
    requires n < |rest| ==> Closes(s, rest[..n], rest[n])
    ensures h <= n
  {
    if n < h {
      assert rest[..h][0..n + 1] == rest[..n] + [rest[n]];
      PartFits(s, rest[..h], 0, n + 1);
      FittingPackStaysOpen(s, rest[..n], rest[n]);
    }
  }

  ghost predicate EndsWith(whole: seq<Key>, part: seq<Key>) {
    |part| <= |whole| && whole[|whole| - |part|..] == part
  }

  /** A rest that reaches into the first group is a last part of it, then the other groups. */
  lemma SplitAtGroup(g: seq<Key>, tail: seq<Key>, rest: seq<Key>) returns (h: nat)
    requires EndsWith(g + tail, rest) && |tail| < |rest|
    ensures h == |rest| - |tail| && h <= |g|
    ensures rest[..h] == g[|g| - h..|g|] && rest[h..] == tail
  {
    h := |rest| - |tail|;
    assert rest == (g + tail)[|g| - h..];
  }

  lemma EndsWithRest(tail: seq<Key>, rest: seq<Key>, h: nat, n: nat)
    requires h <= n <= |rest| && rest[h..] == tail
    ensures EndsWith(tail, rest[n..])
  {
    assert rest[n..] == rest[h..][n - h..];
  }

  /** No division of the keys, in their order, into packs that fit uses fewer packs. */
  lemma {:induction false} GreedyIsOptimal(s: Shelf, index: nat, groups: seq<seq<Key>>, rest: seq<Key>)
    requires s.target >= 0
    requires forall g :: g in groups ==> Fits(s, g)
    requires EndsWith(Flatten(groups), rest)
    ensures |Drain(s, index, [], rest)| <= |groups|
    decreases |groups|
  {
    if groups != [] && rest != [] {
      var g, tail := groups[0], Flatten(groups[1..]);
      assert Fits(s, g);
      if |rest| <= |tail| {
        assert Flatten(groups)[|g| + |tail| - |rest|..] == tail[|tail| - |rest|..];
        GreedyIsOptimal(s, index, groups[1..], rest);
      } else {
        var h := SplitAtGroup(g, tail, rest);
        PartFits(s, g, |g| - h, |g|);
        var n := DrainSplit(s, index, rest);
        FirstPackTakes(s, index, rest, h, n);
        EndsWithRest(tail, rest, h, n);
        GreedyIsOptimal(s, index + 1, groups[1..], rest[n..]);
      }
    }
  }

  // ----- Resuming -----

  /** The keys a rerun still has to pack: those no recorded pack holds, in order. */
  function Todo(ordered: seq<Key>, packed: seq<Key>): seq<Key> {
    if ordered == [] then []
    else if ordered[0] in packed then Todo(ordered[1..], packed)
    else [ordered[0]] + Todo(ordered[1..], packed)
  }

  lemma TodoMembers(ordered: seq<Key>, packed: seq<Key>)
    ensures forall k :: k in Todo(ordered, packed) <==> k in ordered && k !in packed
    ensures Distinct(ordered) ==> Distinct(Todo(ordered, packed))
  {
    if ordered != [] {
      TodoMembers(ordered[1..], packed);
      var t, tail := Todo(ordered, packed), Todo(ordered[1..], packed);
      assert forall k :: k in ordered <==> k == ordered[0] || k in ordered[1..];
      if Distinct(ordered) && ordered[0] !in packed {
        assert Distinct(ordered[1..]);
        assert ordered[0] !in ordered[1..];
        assert t[0] !in t[1..];
      }
    }
  }

  lemma TodoOfUnpacked(rest: seq<Key>, packed: seq<Key>)
    requires forall k :: k in rest ==> k !in packed
    ensures Todo(rest, packed) == rest
  {
    if rest != [] {
      TodoOfUnpacked(rest[1..], packed);
    }
  }

  lemma TodoOfRest(done: seq<Key>, rest: seq<Key>, packed: seq<Key>)
    requires forall k :: k in done ==> k in packed
    requires forall k :: k in rest ==> k !in packed
    ensures Todo(done + rest, packed) == rest
  {
    if done == [] {
      assert done + rest == rest;
      TodoOfUnpacked(rest, packed);
    } else {
      assert (done + rest)[1..] == done[1..] + rest;
      TodoOfRest(done[1..], rest, packed);
    }
  }

  /** `rest` is what the first packs `packs` of the packing of `keys` leave over. */
  ghost predicate LeftOver(s: Shelf, index: nat, keys: seq<Key>, packs: seq<Pack>, rest: seq<Key>) {
    && KeysOf(packs) + rest == keys
    && packs + Drain(s, index + |packs|, [], rest) == Drain(s, index, [], keys)
  }

  lemma ConcatAssociates<T>(a: seq<T>, b: seq<T>, c: seq<T>)
    ensures a + b + c == a + (b + c)
  {
  }

  lemma Rejoined(keys: seq<Key>, n: nat, b: seq<Key>, c: seq<Key>)
    requires n <= |keys| && b + c == keys[n..]
    ensures keys[..n] + b + c == keys
  {
    ConcatAssociates(keys[..n], b, c);
  }

  lemma LeftOverCons(s: Shelf, index: nat, keys: seq<Key>, n: nat, packs: seq<Pack>, rest: seq<Key>)
    requires n <= |keys|
    requires Drain(s, index, [], keys) == [PackOf(s, index, keys[..n])] + Drain(s, index + 1, [], keys[n..])
    requires LeftOver(s, index + 1, keys[n..], packs, rest)
    ensures LeftOver(s, index, keys, [PackOf(s, index, keys[..n])] + packs, rest)
  {
    var p := PackOf(s, index, keys[..n]);
    KeysOfCons(p, packs);
    KeysOfPackOf(s, index, keys[..n]);
    Rejoined(keys, n, KeysOf(packs), rest);
    ConcatAssociates([p], packs, Drain(s, index + 1 + |packs|, [], rest));
  }

  /** Packing what the first j packs left over gives the other packs. */
  lemma {:induction false} DrainFromHere(s: Shelf, index: nat, keys: seq<Key>, j: nat) returns (packs: seq<Pack>, rest: seq<Key>)
    requires j <= |Drain(s, index, [], keys)|
    ensures |packs| == j && LeftOver(s, index, keys, packs, rest)
    decreases j
  {
    if j == 0 {
      packs, rest := [], keys;
    } else {
      var n := DrainSplit(s, index, keys);
      packs, rest := DrainFromHere(s, index + 1, keys[n..], j - 1);
      LeftOverCons(s, index, keys, n, packs, rest);
      packs := [PackOf(s, index, keys[..n])] + packs;
    }
  }

  /** The packs recorded after a run that recorded at most `flushed` of them before it died. */
  function AfterRun(s: Shelf, recorded: seq<Pack>, ordered: seq<Key>, flushed: nat): seq<Pack> {
    var d := Drain(s, |recorded|, [], Todo(ordered, KeysOf(recorded)));
    recorded + d[..if flushed < |d| then flushed else |d|]
  }

  function AfterRuns(s: Shelf, ordered: seq<Key>, runs: seq<nat>): seq<Pack> {
    if runs == [] then []
    else AfterRun(s, AfterRuns(s, ordered, runs[..|runs| - 1]), ordered, runs[|runs| - 1])
  }

  /** A rerun continues exactly where the packs of an uninterrupted run would go on. */
  lemma ResumeFrom(s: Shelf, ordered: seq<Key>, j: nat)
    requires Distinct(ordered)
    requires j <= |Drain(s, 0, [], ordered)|
    ensures var d := Drain(s, 0, [], ordered);
            Drain(s, j, [], Todo(ordered, KeysOf(d[..j]))) == d[j..]
  {
    var d := Drain(s, 0, [], ordered);
    var packs, rest := DrainFromHere(s, 0, ordered, j);
    assert packs == d[..j] && d[j..] == Drain(s, j, [], rest);
    var done := KeysOf(packs);
    forall k | k in rest ensures k !in done {
      var i :| 0 <= i < |rest| && rest[i] == k;
      assert ordered[|done| + i] == k;
      assert forall m :: 0 <= m < |done| ==> ordered[m] == done[m];
    }
    TodoOfRest(done, rest, done);
  }

  /** Whatever the number of crashes, and wherever they fall, the packs recorded so far are the
      first packs of one uninterrupted run, and a run that ends records all of them. */
  lemma {:induction false} CrashResumeEquivalence(s: Shelf, ordered: seq<Key>, runs: seq<nat>)
    requires Distinct(ordered)
    ensures var d, packs := Drain(s, 0, [], ordered), AfterRuns(s, ordered, runs);
            && |packs| <= |d| && packs == d[..|packs|]
            && (runs != [] && runs[|runs| - 1] >= |d| ==> packs == d)
  {
    var d := Drain(s, 0, [], ordered);
    if runs != [] {
      CrashResumeEquivalence(s, ordered, runs[..|runs| - 1]);
      var before := AfterRuns(s, ordered, runs[..|runs| - 1]);
      ResumeFrom(s, ordered, |before|);
    }
  }

  lemma DistinctConcat(a: seq<Key>, b: seq<Key>)
    requires Distinct(a) && Distinct(b) && forall k :: k in b ==> k !in a
    ensures Distinct(a + b)
  {
    forall i, j | 0 <= i < j < |a + b| ensures (a + b)[i] != (a + b)[j] {
      if j >= |a| {
        assert (a + b)[j] == b[j - |a|] && b[j - |a|] in b;
        if i < |a| {
          assert (a + b)[i] == a[i] && a[i] in a;
        } else {
          assert (a + b)[i] == b[i - |a|];
        }
      }
    }
  }

  /** Whatever packs were recorded before, by this catalogue or another: a run keeps them, packs no
      key twice, and when it ends has packed every object of its catalogue. */
  lemma EachKeyPackedOnce(s: Shelf, recorded: seq<Pack>, ordered: seq<Key>, flushed: nat)
    requires Distinct(KeysOf(recorded)) && Distinct(ordered)
    ensures var after := AfterRun(s, recorded, ordered, flushed);
            && Distinct(KeysOf(after)) && KeysOf(recorded) <= KeysOf(after)
            && (forall k :: k in KeysOf(after) ==> k in KeysOf(recorded) || k in ordered)
            && (flushed >= |Drain(s, |recorded|, [], Todo(ordered, KeysOf(recorded)))| ==>
                  forall k :: k in ordered ==> k in KeysOf(after))
  {
    var todo := Todo(ordered, KeysOf(recorded));
    var d := Drain(s, |recorded|, [], todo);
    var j := if flushed < |d| then flushed else |d|;
    var packs, rest := DrainFromHere(s, |recorded|, todo, j);
    assert packs == d[..j];
    TodoMembers(ordered, KeysOf(recorded));
    KeysOfConcat(recorded, packs);
    var added := KeysOf(packs);
    assert added == todo[..|added|];
    forall k | k in added ensures k in todo {
    }
    DistinctConcat(KeysOf(recorded), added);
    if j == |d| {
      DrainKeepsKeys(s, |recorded|, todo);
      assert d[..j] == d;
    }
  }
}

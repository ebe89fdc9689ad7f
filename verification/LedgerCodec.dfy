/** A codec that keeps the promises the guard relies on: the laws of `Lawful` can be met. */
module LedgerCodec {
  import opened Options
  import opened LedgerText
  import opened TruthGuard

  // A number is so many dashes and a bar; a text its characters' numbers and a semicolon. No
  // encoding is a first part of another one, so that they can follow each other.

  function Number(n: nat): string {
    if n == 0 then "|" else "-" + Number(n - 1)
  }

  function Chars(s: string): string {
    if s == "" then ";" else Number(s[0] as int) + Chars(s[1..])
  }

  function Optional(o: Option<string>): string {
    if o.None? then ";" else "+" + Chars(o.value)
  }

  function List(l: seq<string>): string {
    if l == [] then ";" else "+" + Chars(l[0]) + List(l[1..])
  }

  predicate Written(s: string) {
    forall i :: 0 <= i < |s| ==> s[i] in {'|', '-', ';', '+'}
  }

  lemma {:induction false} NumberReads(m: nat, n: nat, x: string, y: string)
    requires Number(m) + x == Number(n) + y
    ensures m == n && x == y
  {
    assert (Number(m) + x)[0] == Number(m)[0] && (Number(n) + y)[0] == Number(n)[0];
    assert (Number(m) + x)[1..] == Number(m)[1..] + x && (Number(n) + y)[1..] == Number(n)[1..] + y;
    if m > 0 && n > 0 {
      assert Number(m)[1..] == Number(m - 1) && Number(n)[1..] == Number(n - 1);
      NumberReads(m - 1, n - 1, x, y);
    } else {
      assert m == n == 0;
      assert Number(0)[1..] + x == x && Number(0)[1..] + y == y;
    }
  }

  lemma {:induction false} CharsReads(a: string, b: string, x: string, y: string)
    requires Chars(a) + x == Chars(b) + y
    ensures a == b && x == y
  {
    CharsStarts(a);
    CharsStarts(b);
    assert (Chars(a) + x)[0] == Chars(a)[0] && (Chars(b) + y)[0] == Chars(b)[0];
    if a == "" {
      assert b == "";
      assert (Chars(a) + x)[1..] == x && (Chars(b) + y)[1..] == y;
    } else {
      assert b != "";
      assert Chars(a) + x == Number(a[0] as int) + (Chars(a[1..]) + x);
      assert Chars(b) + y == Number(b[0] as int) + (Chars(b[1..]) + y);
      NumberReads(a[0] as int, b[0] as int, Chars(a[1..]) + x, Chars(b[1..]) + y);
      CharsReads(a[1..], b[1..], x, y);
      assert a == [a[0]] + a[1..] && b == [b[0]] + b[1..];
    }
  }

  lemma CharsStarts(a: string)
    ensures Chars(a) != "" && (Chars(a)[0] == ';' <==> a == "")
  {
    if a != "" {
      assert Chars(a)[0] == Number(a[0] as int)[0];
    }
  }

  lemma SameRest(a: char, b: char, x: string, y: string)
    requires [a] + x == [b] + y
    ensures a == b && x == y
  {
    assert ([a] + x)[0] == a && ([b] + y)[0] == b;
    assert ([a] + x)[1..] == x && ([b] + y)[1..] == y;
  }

  lemma OptionalSplits(o: Option<string>, x: string)
    ensures Optional(o) + x == if o.None? then [';'] + x else ['+'] + (Chars(o.value) + x)
  {
  }

  lemma OptionalReads(a: Option<string>, b: Option<string>, x: string, y: string)
    requires Optional(a) + x == Optional(b) + y
    ensures a == b && x == y
  {
    OptionalSplits(a, x);
    OptionalSplits(b, y);
    SameRest(if a.None? then ';' else '+', if b.None? then ';' else '+',
             if a.None? then x else Chars(a.value) + x, if b.None? then y else Chars(b.value) + y);
    if a.Some? {
      CharsReads(a.value, b.value, x, y);
    }
  }

  lemma ListSplits(l: seq<string>, x: string)
    ensures List(l) + x == if l == [] then [';'] + x else ['+'] + (Chars(l[0]) + (List(l[1..]) + x))
  {
    if l != [] {
      assert List(l) == ['+'] + (Chars(l[0]) + List(l[1..]));
      assert (Chars(l[0]) + List(l[1..])) + x == Chars(l[0]) + (List(l[1..]) + x);
    }
  }

  lemma {:induction false} ListReads(a: seq<string>, b: seq<string>, x: string, y: string)
    requires List(a) + x == List(b) + y
    ensures a == b && x == y
  {
    ListSplits(a, x);
    ListSplits(b, y);
    SameRest(if a == [] then ';' else '+', if b == [] then ';' else '+',
             if a == [] then x else Chars(a[0]) + (List(a[1..]) + x), if b == [] then y else Chars(b[0]) + (List(b[1..]) + y));
    if a != [] {
      CharsReads(a[0], b[0], List(a[1..]) + x, List(b[1..]) + y);
      ListReads(a[1..], b[1..], x, y);
      assert a == [a[0]] + a[1..] && b == [b[0]] + b[1..];
    }
  }

  /** An entry as text. */
  function Encoded(e: Evidence): string {
    if e.Entry? then Optional(e.sourceParent) + (Optional(e.digest) + (Optional(e.changeId) + (List(e.files) + Chars(e.rest)))) else ""
  }

  lemma EncodedReads(d: Evidence, e: Evidence)
    requires d.Entry? && e.Entry? && Encoded(d) == Encoded(e)
    ensures d == e
  {
    OptionalReads(d.sourceParent, e.sourceParent, Optional(d.digest) + (Optional(d.changeId) + (List(d.files) + Chars(d.rest))),
                  Optional(e.digest) + (Optional(e.changeId) + (List(e.files) + Chars(e.rest))));
    OptionalReads(d.digest, e.digest, Optional(d.changeId) + (List(d.files) + Chars(d.rest)), Optional(e.changeId) + (List(e.files) + Chars(e.rest)));
    OptionalReads(d.changeId, e.changeId, List(d.files) + Chars(d.rest), List(e.files) + Chars(e.rest));
    ListReads(d.files, e.files, Chars(d.rest), Chars(e.rest));
    assert Chars(d.rest) + "" == Chars(d.rest) && Chars(e.rest) + "" == Chars(e.rest);
    CharsReads(d.rest, e.rest, "", "");
  }

  lemma {:induction false} NumberWritten(n: nat)
    ensures Written(Number(n))
  {
    if n > 0 {
      NumberWritten(n - 1);
    }
  }

  lemma {:induction false} CharsWritten(s: string)
    ensures Written(Chars(s))
  {
    if s != "" {
      NumberWritten(s[0] as int);
      CharsWritten(s[1..]);
    }
  }

  lemma OptionalWritten(o: Option<string>)
    ensures Written(Optional(o)) && Optional(o) != ""
  {
    if o.Some? {
      CharsWritten(o.value);
    }
  }

  lemma {:induction false} ListWritten(l: seq<string>)
    ensures Written(List(l))
  {
    if l != [] {
      CharsWritten(l[0]);
      ListWritten(l[1..]);
    }
  }

  lemma WrittenJoin(a: string, b: string)
    requires Written(a) && Written(b)
    ensures Written(a + b)
  {
  }

  lemma EncodedWritten(e: Evidence)
    requires e.Entry?
    ensures Written(Encoded(e)) && Encoded(e) != ""
  {
    OptionalWritten(e.sourceParent);
    OptionalWritten(e.digest);
    OptionalWritten(e.changeId);
    ListWritten(e.files);
    CharsWritten(e.rest);
    WrittenJoin(List(e.files), Chars(e.rest));
    WrittenJoin(Optional(e.changeId), List(e.files) + Chars(e.rest));
    WrittenJoin(Optional(e.digest), Optional(e.changeId) + (List(e.files) + Chars(e.rest)));
    WrittenJoin(Optional(e.sourceParent), Optional(e.digest) + (Optional(e.changeId) + (List(e.files) + Chars(e.rest))));
  }

  function Trimmed(line: string): string {
    if line != "" && line[|line| - 1] == '\n' then line[..|line| - 1] else line
  }

  /** What was written is one line, not a blank one, and is found again with or without its end. */
  lemma WrittenIsLine(text: string)
    requires Written(text) && text != ""
    ensures Plain(text) && !Blank(text)
    ensures Trimmed(text) == text && Trimmed(text + "\n") == text
  {
    assert text[0] in {'|', '-', ';', '+'} && text[|text| - 1] in {'|', '-', ';', '+'};
    assert !IsSpace(text[0]);
  }

  /** The entry that a text, with or without a last line break, encodes. */
  ghost function Decoded(text: string): Evidence {
    if exists e: Evidence :: e.Entry? && Encoded(e) == Trimmed(text) then
      var e: Evidence :| e.Entry? && Encoded(e) == Trimmed(text);
      e
    else NotJson
  }

  lemma DecodedIs(e: Evidence, text: string)
    requires e.Entry? && Trimmed(text) == Encoded(e)
    ensures Decoded(text) == e
  {
    EncodedReads(Decoded(text), e);
  }

  lemma DecodedReads(e: Evidence)
    requires e.Entry?
    ensures Decoded(Encoded(e)) == e && Decoded(Encoded(e) + "\n") == e
    ensures Plain(Encoded(e)) && !Blank(Encoded(e))
  {
    EncodedWritten(e);
    WrittenIsLine(Encoded(e));
    DecodedIs(e, Encoded(e));
    DecodedIs(e, Encoded(e) + "\n");
  }

  /** Some codec meets the laws, with any digest. */
  lemma LawfulCodecExists(digest: (Source, Source) -> string) returns (k: Codec)
    ensures Lawful(k) && k.digest == digest
  {
    k := Codec(text => Decoded(text), e => Encoded(e), e => Encoded(e), digest);
    forall e: Evidence | e.Entry?
      ensures k.decode(k.compact(e)) == e && k.decode(k.indented(e) + "\n") == e
      ensures Plain(k.compact(e)) && !Blank(k.compact(e))
    {
      DecodedReads(e);
    }
  }
}

/**
  Batched querying, shared by every query function of the part-history
  checker and by the part-data query: the part-number list is cut into
  contiguous chunks of at most `BATCH_SIZE`, each chunk becomes a quoted,
  comma-separated `IN (...)` list, one query runs per chunk, and the rows are
  concatenated in chunk order. The database itself is the parameter `run`,
  a function from a chunk's part numbers to the rows the query returns.
*/
module Batching {
  import opened Sequences
  import opened Text

  /** The default `size` of `chunk`, used by every caller. */
  const BATCH_SIZE: nat := 1000

  function Min(a: int, b: int): int {
    if a <= b then a else b
  }

  /** `list(chunk(s, size))`: the slices `s[i:i+size]` for i = 0, size, 2*size, ... */
  function Chunks<T>(s: seq<T>, size: nat): seq<seq<T>>
    requires size > 0
    decreases |s|
  {
    if s == [] then [] else [s[..Min(size, |s|)]] + Chunks(s[Min(size, |s|)..], size)
  }

  /** Chunking is lossless and keeps the order of the list. */
  lemma {:induction false} ChunksFlatten<T>(s: seq<T>, size: nat)
    requires size > 0
    ensures Flatten(Chunks(s, size)) == s
  {
    if s != [] {
      var n := Min(size, |s|);
      ChunksFlatten(s[n..], size);
      assert s == s[..n] + s[n..];
    }
  }

  /**
    There are ceil(|s| / size) chunks: none for an empty list, otherwise the
    fewest whose `size`-element capacity covers the list.
  */
  lemma {:induction false} ChunksCount<T>(s: seq<T>, size: nat)
    requires size > 0
    ensures |Chunks(s, size)| == 0 <==> s == []
    ensures |s| <= |Chunks(s, size)| * size
    ensures |Chunks(s, size)| > 0 ==> (|Chunks(s, size)| - 1) * size < |s|
  {
    if s != [] {
      var n := Min(size, |s|);
      ChunksCount(s[n..], size);
      var m := |Chunks(s[n..], size)|;
      MulStep(m, size);
      if m > 0 {
        MulStep(m - 1, size);
      }
    }
  }

  /** Every chunk is non-empty and holds at most `size` items; all but the last hold exactly `size`. */
  lemma {:induction false} ChunksSizes<T>(s: seq<T>, size: nat)
    requires size > 0
    ensures forall k :: 0 <= k < |Chunks(s, size)| ==> 0 < |Chunks(s, size)[k]| <= size
    ensures forall k :: 0 <= k < |Chunks(s, size)| - 1 ==> |Chunks(s, size)[k]| == size
  {
    if s != [] {
      var n := Min(size, |s|);
      ChunksSizes(s[n..], size);
      var cs := Chunks(s, size);
      assert cs == [s[..n]] + Chunks(s[n..], size);
      if |s| <= size {
        assert Chunks(s[n..], size) == [];
      }
    }
  }

  lemma MulStep(j: nat, size: nat)
    ensures (j + 1) * size == j * size + size
  {
  }

  /** Chunk k is the slice `s[k*size : k*size + size]` (clamped at the end, as Python slices are). */
  lemma ChunksSlice<T>(s: seq<T>, size: nat)
    requires size > 0
    ensures forall k :: 0 <= k < |Chunks(s, size)| ==>
      k * size <= |s| && Chunks(s, size)[k] == s[k * size .. Min(k * size + size, |s|)]
  {
    forall k | 0 <= k < |Chunks(s, size)|
      ensures k * size <= |s| && Chunks(s, size)[k] == s[k * size .. Min(k * size + size, |s|)]
    {
      ChunkAt(s, size, k);
    }
  }

  lemma {:induction false} ChunkAt<T>(s: seq<T>, size: nat, k: nat)
    requires size > 0
    requires k < |Chunks(s, size)|
    ensures k * size <= |s| && Chunks(s, size)[k] == s[k * size .. Min(k * size + size, |s|)]
  {
    var n := Min(size, |s|);
    var rest := Chunks(s[n..], size);
    assert Chunks(s, size) == [s[..n]] + rest;
    if k > 0 {
      var j := k - 1;
      assert rest != [] && n == size;
      ChunkAt(s[n..], size, j);
      var lo := j * size;
      var hi := Min(lo + size, |s| - n);
      MulStep(j, size);
      assert k * size == n + lo;
      assert n + hi == Min(k * size + size, |s|);
      SliceShift(s, n, lo, hi);
    }
  }

  lemma SliceShift<T>(s: seq<T>, n: nat, lo: nat, hi: nat)
    requires lo <= hi && n + hi <= |s|
    ensures s[n..][lo..hi] == s[n + lo .. n + hi]
  {
  }

  /** A one-element list is one chunk. */
  lemma ChunksSingle<T>(x: T, size: nat)
    requires size > 0
    ensures Chunks([x], size) == [[x]]
  {
    assert [x][..1] == [x];
    assert [x][1..] == [];
  }

  /**
    The imperative `chunk`: an index steps through 0, size, 2*size, ... below
    `|s|` and each step yields the slice starting there.
  */
  method Chunk<T>(s: seq<T>, size: nat) returns (chunks: seq<seq<T>>)
    requires size > 0
    ensures chunks == Chunks(s, size)
  {
    chunks := [];
    var i := 0;
    while i < |s|
      invariant 0 <= i
      invariant chunks + Chunks(s[Min(i, |s|)..], size) == Chunks(s, size)
      decreases |s| - i
    {
      var end := Min(i + size, |s|);
      assert s[i..][..Min(size, |s| - i)] == s[i..end];
      assert s[i..][Min(size, |s| - i)..] == s[end..];
      chunks := chunks + [s[i..end]];
      i := i + size;
    }
  }

  /** `f"'{p}'"`: a part number as a SQL string literal, without escaping. */
  function Quote(p: string): string {
    "'" + p + "'"
  }

  /** `",".join(f"'{p}'" for p in chunk)`: the text inside `IN (...)`. */
  function InList(chunk: seq<string>): string {
    Join(Map(chunk, Quote), ',')
  }

  /**
    The body of a string literal up to its closing quote, and what follows that
    quote. As in T-SQL, a doubled quote `''` inside the literal stands for one
    quote; a single quote closes it.
  */
  function ReadBody(s: string): (r: Option<(string, string)>)
    ensures r.Some? ==> |r.value.1| < |s|
    decreases |s|
  {
    if s == [] then None
    else if s[0] != '\'' then
      match ReadBody(s[1..])
      case None => None
      case Some((body, rest)) => Some(([s[0]] + body, rest))
    else if |s| >= 2 && s[1] == '\'' then
      match ReadBody(s[2..])
      case None => None
      case Some((body, rest)) => Some(("'" + body, rest))
    else Some(("", s[1..]))
  }

  /** Reads one literal `'...'` at the front of `s`: its text and what follows. */
  function ReadLiteral(s: string): (r: Option<(string, string)>)
    ensures r.Some? ==> |r.value.1| < |s|
  {
    if s == [] || s[0] != '\'' then None else ReadBody(s[1..])
  }

  /**
    Reads a text as a plain `IN (...)` list of string literals, with T-SQL's
    literal syntax. `None` means only that the text is not such a list: SQL
    Server may still run it as other SQL.
  */
  function ParseInList(s: string): Option<seq<string>>
    decreases |s|
  {
    match ReadLiteral(s)
    case None => None
    case Some((item, rest)) =>
      if rest == [] then Some([item])
      else if rest[0] != ',' then None
      else match ParseInList(rest[1..])
        case None => None
        case Some(items) => Some([item] + items)
  }

  lemma {:induction false} ReadPlainBody(p: string, rest: string)
    requires '\'' !in p
    requires rest == [] || rest[0] != '\''
    ensures ReadBody(p + "'" + rest) == Some((p, rest))
  {
    var s := p + "'" + rest;
    if p == [] {
      assert s == "'" + rest;
      assert s[1..] == rest;
    } else {
      assert s[0] == p[0];
      assert s[1..] == p[1..] + "'" + rest;
      ReadPlainBody(p[1..], rest);
      assert [p[0]] + p[1..] == p;
    }
  }

  lemma ReadQuoted(p: string, rest: string)
    requires '\'' !in p
    requires rest == [] || rest[0] != '\''
    ensures ReadLiteral(Quote(p) + rest) == Some((p, rest))
  {
    var s := Quote(p) + rest;
    assert s[1..] == p + "'" + rest;
    ReadPlainBody(p, rest);
  }

  /**
    When no part number holds a single quote, the database reads back from the
    IN list exactly the chunk's part numbers, in order.
  */
  lemma {:induction false} InListRoundTrip(chunk: seq<string>)
    requires chunk != []
    requires forall k :: 0 <= k < |chunk| ==> '\'' !in chunk[k]
    ensures ParseInList(InList(chunk)) == Some(chunk)
  {
    if |chunk| == 1 {
      InListSingle(chunk[0]);
      assert chunk == [chunk[0]];
    } else {
      var tail := InList(chunk[1..]);
      InListCons(chunk);
      InListRoundTrip(chunk[1..]);
      ParseStep(chunk[0], tail);
      assert chunk == [chunk[0]] + chunk[1..];
    }
  }

  lemma ParseStep(p: string, tail: string)
    requires '\'' !in p
    ensures ParseInList(tail).Some? ==> ParseInList(Quote(p) + ("," + tail)) == Some([p] + ParseInList(tail).value)
  {
    ReadQuoted(p, "," + tail);
    assert ("," + tail)[1..] == tail;
  }

  lemma InListSingle(p: string)
    requires '\'' !in p
    ensures ParseInList(InList([p])) == Some([p])
  {
    ReadQuoted(p, "");
    assert Map([p], Quote) == [Quote(p)];
    assert Quote(p) + "" == Quote(p);
  }

  lemma InListCons(chunk: seq<string>)
    requires |chunk| >= 2
    ensures InList(chunk) == Quote(chunk[0]) + ("," + InList(chunk[1..]))
  {
    assert Map(chunk[1..], Quote) == Map(chunk, Quote)[1..];
  }

  /** The number of single quotes in `s`. */
  function Quotes(s: string): nat {
    if s == [] then 0 else (if s[0] == '\'' then 1 else 0) + Quotes(s[1..])
  }

  /** The number of single quotes in all of `items`. */
  function QuotesIn(items: seq<string>): nat {
    if items == [] then 0 else Quotes(items[0]) + QuotesIn(items[1..])
  }

  lemma {:induction false} QuotesAppend(a: string, b: string)
    ensures Quotes(a + b) == Quotes(a) + Quotes(b)
  {
    if a == [] {
      assert a + b == b;
    } else {
      assert (a + b)[1..] == a[1..] + b;
      QuotesAppend(a[1..], b);
    }
  }

  lemma {:induction false} QuoteFree(s: string)
    ensures Quotes(s) == 0 <==> '\'' !in s
  {
    if s != [] {
      QuoteFree(s[1..]);
      assert s == [s[0]] + s[1..];
    }
  }

  lemma {:induction false} QuoteFreeAll(items: seq<string>)
    ensures QuotesIn(items) == 0 <==> forall k :: 0 <= k < |items| ==> '\'' !in items[k]
  {
    if items != [] {
      QuoteFree(items[0]);
      QuoteFreeAll(items[1..]);
      assert forall k :: 1 <= k < |items| ==> items[k] == items[1..][k - 1];
    }
  }

  /** A literal's body takes two quotes of the text per quote it holds, and one more closes it. */
  lemma {:induction false} ReadBodyQuotes(s: string)
    ensures ReadBody(s).Some? ==>
      Quotes(s) == 2 * Quotes(ReadBody(s).value.0) + 1 + Quotes(ReadBody(s).value.1)
    decreases |s|
  {
    if s == [] {
    } else if s[0] != '\'' {
      ReadBodyQuotes(s[1..]);
      if ReadBody(s[1..]).Some? {
        var body := ReadBody(s[1..]).value.0;
        assert ([s[0]] + body)[1..] == body;
      }
    } else if |s| >= 2 && s[1] == '\'' {
      ReadBodyQuotes(s[2..]);
      assert s[1..][1..] == s[2..];
      if ReadBody(s[2..]).Some? {
        var body := ReadBody(s[2..]).value.0;
        assert ("'" + body)[1..] == body;
      }
    }
  }

  /**
    The text of an `IN` list read as n items holding q quotes in all holds
    2q + 2n quotes: each quote of an item is written doubled, and each literal
    has its two delimiters.
  */
  lemma {:induction false} ParsedQuotes(s: string)
    ensures ParseInList(s).Some? ==>
      Quotes(s) == 2 * QuotesIn(ParseInList(s).value) + 2 * |ParseInList(s).value|
    decreases |s|
  {
    match ReadLiteral(s)
    case None =>
    case Some((item, rest)) =>
      ReadBodyQuotes(s[1..]);
      if rest != [] && rest[0] == ',' {
        ParsedQuotes(rest[1..]);
        if ParseInList(rest[1..]).Some? {
          var items := ParseInList(rest[1..]).value;
          assert ([item] + items)[1..] == items;
        }
      }
  }

  /** The `IN` list holds each part number's quotes once, and two more per part number. */
  lemma {:induction false} InListQuotes(chunk: seq<string>)
    ensures Quotes(InList(chunk)) == QuotesIn(chunk) + 2 * |chunk|
  {
    if |chunk| == 1 {
      assert Map(chunk, Quote) == [Quote(chunk[0])];
      QuotesAppend("'" + chunk[0], "'");
      QuotesAppend("'", chunk[0]);
    } else if |chunk| >= 2 {
      InListCons(chunk);
      InListQuotes(chunk[1..]);
      QuotesAppend(Quote(chunk[0]), "," + InList(chunk[1..]));
      QuotesAppend("'" + chunk[0], "'");
      QuotesAppend("'", chunk[0]);
      assert ("," + InList(chunk[1..]))[1..] == InList(chunk[1..]);
    }
  }

  /**
    A part number holding a quote (`O'B`) is not read back: the database does
    not see the chunk's part numbers in the `IN` list.
  */
  lemma UnescapedQuote(chunk: seq<string>)
    ensures (exists k :: 0 <= k < |chunk| && '\'' in chunk[k]) ==> ParseInList(InList(chunk)) != Some(chunk)
  {
    InListQuotes(chunk);
    ParsedQuotes(InList(chunk));
    QuoteFreeAll(chunk);
  }

  /** SQL Server reads a doubled quote inside a literal as one quote. */
  lemma DoubledQuote()
    ensures ParseInList("'O''B'") == Some(["O'B"])
  {
    var s := "'O''B'";
    var t := s[1..][1..];
    assert t[0] == '\'' && t[1] == '\'';
    ReadPlainBody("B", "");
    assert t[2..] == "B" + "'" + "";
    assert ReadBody(t) == Some(("'" + "B", ""));
    assert ReadBody(s[1..]) == Some((['O'] + ("'" + "B"), ""));
    assert ['O'] + ("'" + "B") == "O'B";
  }

  /** An unescaped quote that closes the literal early: the query cannot be read. */
  lemma QuoteBreaksQuery()
    ensures InList(["O'B"]) == "'O'B'"
    ensures ParseInList(InList(["O'B"])) == None
  {
    var s := "'O'B'";
    assert Map(["O'B"], Quote) == [Quote("O'B")];
    assert Quote("O'B") == s;
    ReadPlainBody("O", "B'");
    assert s[1..] == "O" + "'" + "B'";
  }

  /** An unescaped quote that makes one part number read as two other ones. */
  lemma QuoteSelectsOthers()
    ensures InList(["a','b"]) == "'a','b'"
    ensures ParseInList(InList(["a','b"])) == Some(["a", "b"])
  {
    var s := "'a','b'";
    assert Map(["a','b"], Quote) == [Quote("a','b")];
    assert Quote("a','b") == s;
    ReadPlainBody("a", ",'b'");
    assert s[1..] == "a" + "'" + ",'b'";
    assert ReadLiteral(s) == Some(("a", ",'b'"));
    var tail := ",'b'"[1..];
    ReadQuoted("b", "");
    assert tail == Quote("b") + "";
    assert ParseInList(tail) == Some(["b"]);
    assert ParseInList(s) == Some(["a"] + ["b"]);
    assert ["a"] + ["b"] == ["a", "b"];
    assert InList(["a','b"]) == s;
  }

  /** The rows of the batched query, as the query functions promise them. */
  function BatchedRows<R>(parts: seq<string>, run: seq<string> -> seq<R>): seq<R> {
    FlatMap(Chunks(parts, BATCH_SIZE), run)
  }

  /** A one-part list runs one query, on that part alone. */
  lemma BatchedSingle<R>(p: string, run: seq<string> -> seq<R>)
    ensures BatchedRows([p], run) == run([p])
  {
    ChunksSingle(p, BATCH_SIZE);
    FlatMapSingle([p], run);
  }

  /**
    The loop shared by the `query_*` functions and `query_part_data`: an empty
    list returns no rows and issues no query; otherwise one query per chunk,
    with that chunk's IN list, and the rows concatenated in chunk order.
  */
  method BatchedQuery<R>(parts: seq<string>, run: seq<string> -> seq<R>)
    returns (rows: seq<R>, issued: seq<string>)
    ensures rows == BatchedRows(parts, run)
    ensures |issued| == |Chunks(parts, BATCH_SIZE)|
    ensures forall k :: 0 <= k < |issued| ==> issued[k] == InList(Chunks(parts, BATCH_SIZE)[k])
    ensures parts == [] ==> rows == [] && issued == []
  {
    if parts == [] {
      return [], [];
    }
    var results: seq<seq<R>> := [];
    issued := [];
    var chunks := Chunk(parts, BATCH_SIZE);
    var k := 0;
    while k < |chunks|
      invariant 0 <= k <= |chunks|
      invariant results == Map(chunks[..k], run)
      invariant issued == Map(chunks[..k], InList)
    {
      var partList := InList(chunks[k]);
      issued := issued + [partList];
      results := results + [run(chunks[k])];
      assert chunks[..k + 1] == chunks[..k] + [chunks[k]];
      k := k + 1;
    }
    assert chunks[..k] == chunks;
    rows := if results != [] then Flatten(results) else [];
  }

  /**
    For a query that keeps the rows of `base` whose part is in the chunk, the
    batched result holds exactly the rows of one unbatched query.
  */
  lemma BatchedMember<R>(
    parts: seq<string>, base: seq<R>, part: R -> string, run: seq<string> -> seq<R>, x: R)
    requires forall c :: multiset(run(c)) == multiset(FilterIn(base, part, c))
    ensures x in BatchedRows(parts, run) <==> x in FilterIn(base, part, parts)
  {
    ChunksFlatten(parts, BATCH_SIZE);
    RunPerPieceMember(Chunks(parts, BATCH_SIZE), base, part, run, x);
  }

  /** ... and, when the list has no duplicates, each row as often. */
  lemma BatchedMultiset<R>(
    parts: seq<string>, base: seq<R>, part: R -> string, run: seq<string> -> seq<R>)
    requires forall c :: multiset(run(c)) == multiset(FilterIn(base, part, c))
    requires Distinct(parts)
    ensures multiset(BatchedRows(parts, run)) == multiset(FilterIn(base, part, parts))
  {
    ChunksFlatten(parts, BATCH_SIZE);
    RunPerPieceMultiset(Chunks(parts, BATCH_SIZE), base, part, run);
  }
}

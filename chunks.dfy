/**
 * What the two chunking programs share: the chunk record they emit, the
 * splitter they call (left uninterpreted), the ways a run can fail, and the
 * loop that turns the pieces of one transcript into indexed chunks.
 */
module Chunks {
  import opened Wrappers
  import opened Json

  datatype Source = LinkedIn | YouTube

  const LennyAuthor: string := "Lenny Rachitsky"

  /** One entry of the chunk list: `chunk_id`, `source`, `content` and the
      `metadata` fields `url`, `author` and (for transcripts) `chunk_index`. */
  datatype Chunk = Chunk(
    chunkId: string,
    source: Source,
    content: Json,
    url: Json,
    author: Json,
    chunkIndex: Option<nat>)

  /** `RecursiveCharacterTextSplitter.split_text` with its fixed configuration. */
  type Splitter = string -> seq<string>

  /** Why a run stops: the existence check failed with another code than 404,
      a file is not valid JSON, its JSON is not an object (so `.get` raises), or a
      transcript text that is not a string was handed to the splitter. */
  datatype Failure =
    | LookupFailed(message: string)
    | Unparsable(key: string)
    | NotAnObject(key: string)
    | NotSplittable(key: string)

  /** The chunks built so far, or the exception that ended the run. */
  datatype Outcome = Ok(chunks: seq<Chunk>) | Fail(reason: Failure)

  /** Running `first` and then `next`: the first failure wins, and otherwise
      the chunk lists are concatenated. */
  function Then(first: Outcome, next: Outcome): Outcome {
    if first.Fail? then first
    else if next.Fail? then next
    else Ok(first.chunks + next.chunks)
  }

  lemma ThenAssociative(a: Outcome, b: Outcome, c: Outcome)
    ensures Then(Then(a, b), c) == Then(a, Then(b, c))
  {
    if a.Ok? && b.Ok? && c.Ok? {
      assert (a.chunks + b.chunks) + c.chunks == a.chunks + (b.chunks + c.chunks);
    }
  }

  /** A loop over `items` that appends each item's chunks in turn and stops at
      the first exception; defined from the last item so that it follows the
      loop one step at a time. */
  function Gather<T>(items: seq<T>, step: T -> Outcome): Outcome
    decreases |items|
  {
    if items == [] then Ok([])
    else Then(Gather(items[..|items| - 1], step), step(items[|items| - 1]))
  }

  /** Once the loop has raised, the remaining items change nothing. */
  lemma {:induction false} GatherFailureStays<T>(items: seq<T>, step: T -> Outcome, n: nat)
    requires n <= |items|
    requires Gather(items[..n], step).Fail?
    ensures Gather(items, step) == Gather(items[..n], step)
    decreases |items|
  {
    if n < |items| {
      var m := |items| - 1;
      assert items[..m][..n] == items[..n];
      GatherFailureStays(items[..m], step, n);
    } else {
      assert items[..n] == items;
    }
  }

  /** Looping over `a + b` is looping over `a` and then over `b`: the chunks keep
      the order of the items. */
  lemma {:induction false} GatherConcat<T>(a: seq<T>, b: seq<T>, step: T -> Outcome)
    ensures Gather(a + b, step) == Then(Gather(a, step), Gather(b, step))
    decreases |b|
  {
    if b == [] {
      assert a + b == a;
      var g := Gather(a, step);
      if g.Ok? { assert g.chunks + [] == g.chunks; }
    } else {
      var m := |b| - 1;
      assert (a + b)[..|a + b| - 1] == a + b[..m];
      assert (a + b)[|a + b| - 1] == b[m];
      GatherConcat(a, b[..m], step);
      ThenAssociative(Gather(a, step), Gather(b[..m], step), step(b[m]));
    }
  }

  /** Every chunk of a successful loop comes from some item's chunks. */
  lemma {:induction false} GatherSource<T>(items: seq<T>, step: T -> Outcome, c: Chunk)
    requires Gather(items, step).Ok?
    requires c in Gather(items, step).chunks
    ensures exists k :: 0 <= k < |items| && step(items[k]).Ok? && c in step(items[k]).chunks
    decreases |items|
  {
    var m := |items| - 1;
    var head := Gather(items[..m], step);
    var last := step(items[m]);
    assert Gather(items, step).chunks == head.chunks + last.chunks;
    if c in head.chunks {
      GatherSource(items[..m], step, c);
      var k :| 0 <= k < m && step(items[..m][k]).Ok? && c in step(items[..m][k]).chunks;
      assert items[..m][k] == items[k];
    } else {
      assert c in last.chunks;
    }
  }

  /** Items that each contribute nothing make a loop that contributes nothing. */
  lemma {:induction false} GatherNothing<T>(items: seq<T>, step: T -> Outcome)
    requires forall k :: 0 <= k < |items| ==> step(items[k]) == Ok([])
    ensures Gather(items, step) == Ok([])
    decreases |items|
  {
    if items != [] {
      var m := |items| - 1;
      assert forall k :: 0 <= k < m ==> items[..m][k] == items[k];
      GatherNothing(items[..m], step);
    }
  }

  /** An item that raises makes the whole loop raise. */
  lemma {:induction false} GatherOkOnlyIfAllOk<T>(items: seq<T>, step: T -> Outcome)
    ensures Gather(items, step).Ok? <==> forall k :: 0 <= k < |items| ==> step(items[k]).Ok?
    decreases |items|
  {
    if items != [] {
      var m := |items| - 1;
      GatherOkOnlyIfAllOk(items[..m], step);
      assert forall k :: 0 <= k < m ==> items[..m][k] == items[k];
    }
  }

  /** The chunks of one transcript: piece `i` becomes chunk `i` with ID
      `base + "_" + i`. */
  function PieceChunks(base: string, pieces: seq<string>, url: Json, author: Json): seq<Chunk> {
    seq(|pieces|, i requires 0 <= i < |pieces| =>
      Chunk(base + "_" + NatToString(i), YouTube, Str(pieces[i]), url, author, Some(i)))
  }

  /** One chunk per piece, in order, with indices 0..n-1, IDs derived from the
      index, the given URL and author, and the piece as content. */
  lemma PieceChunksShape(base: string, pieces: seq<string>, url: Json, author: Json)
    ensures var cs := PieceChunks(base, pieces, url, author);
      |cs| == |pieces| &&
      forall i :: 0 <= i < |cs| ==>
        cs[i].chunkIndex == Some(i) && cs[i].source == YouTube &&
        cs[i].content == Str(pieces[i]) && cs[i].chunkId == base + "_" + NatToString(i) &&
        cs[i].url == url && cs[i].author == author
  {
  }

  /** The `for i, chunk_text in enumerate(chunks)` loop appending to `all_chunks`. */
  method AppendPieces(all: seq<Chunk>, base: string, pieces: seq<string>, url: Json, author: Json)
    returns (out: seq<Chunk>)
    ensures out == all + PieceChunks(base, pieces, url, author)
  {
    out := all;
    var i := 0;
    while i < |pieces|
      invariant 0 <= i <= |pieces|
      invariant out == all + PieceChunks(base, pieces[..i], url, author)
    {
      ghost var before := PieceChunks(base, pieces[..i], url, author);
      var chunk := Chunk(base + "_" + NatToString(i), YouTube, Str(pieces[i]), url, author, Some(i));
      assert PieceChunks(base, pieces[..i + 1], url, author) == before + [chunk];
      out := out + [chunk];
      i := i + 1;
    }
    assert pieces[..|pieces|] == pieces;
  }

  /** Decimal renderings of different numbers differ, so the chunk IDs of one
      transcript are pairwise distinct. */
  lemma {:induction false} NatToStringInjective(m: nat, n: nat)
    requires NatToString(m) == NatToString(n)
    ensures m == n
  {
    var r := NatToString(m);
    if m < 10 && n < 10 {
      assert DigitChar(m) == r[0] == DigitChar(n);
    } else if m >= 10 && n >= 10 {
      var a := NatToString(m / 10);
      var b := NatToString(n / 10);
      assert a == r[..|r| - 1] == b;
      assert DigitChar(m % 10) == r[|r| - 1] == DigitChar(n % 10);
      NatToStringInjective(m / 10, n / 10);
    }
  }

  lemma PieceIdsDistinct(base: string, pieces: seq<string>, url: Json, author: Json, i: nat, j: nat)
    requires i < j < |pieces|
    ensures PieceChunks(base, pieces, url, author)[i].chunkId != PieceChunks(base, pieces, url, author)[j].chunkId
  {
    var cs := PieceChunks(base, pieces, url, author);
    if cs[i].chunkId == cs[j].chunkId {
      var p := base + "_";
      assert cs[i].chunkId == p + NatToString(i);
      assert cs[j].chunkId == p + NatToString(j);
      assert NatToString(i) == cs[i].chunkId[|p|..];
      assert NatToString(j) == cs[j].chunkId[|p|..];
      NatToStringInjective(i, j);
    }
  }
}

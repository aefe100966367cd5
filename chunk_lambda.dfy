/**
 * The chunking Lambda: unless the output object already exists, it lists each
 * input prefix, reads every `.json` object under it and appends one chunk per
 * LinkedIn post, or one per splitter piece of a YouTube transcript, to a flat
 * list that it writes out. The store is seen through three inputs: the outcome
 * of the existence check, a listing function (None when the listing has no
 * `Contents`) and the parsed body of each listed object.
 */
module ChunkLambda {
  import opened Wrappers
  import opened Json
  import opened PyText
  import opened Chunks

  /** A listed object: its key and its body as parsed JSON (None when it does not parse). */
  datatype StoredFile = StoredFile(key: string, body: Option<Json>)

  /** `list_objects_v2(Prefix=prefix)['Contents']`, or None when the key is missing. */
  type Listing = string -> Option<seq<StoredFile>>

  /** `head_object` on the output key: the object is there, or a `ClientError`. */
  datatype HeadOutcome = Found | ClientError(code: string, message: string)

  datatype Body =
    | Skipped(totalChunks: nat, message: string)
    | Created(totalChunks: nat, outputLocation: string)
    | Failed(error: Failure)

  datatype Response = Response(statusCode: int, body: Body)

  const AlreadyExists: Response := Response(200, Skipped(0, "Output already exists"))

  /** `'linkedin' if 'linkedin' in prefix else 'youtube'` */
  function SourceOf(prefix: string): (s: Source)
    ensures s == LinkedIn <==> Contains(prefix, "linkedin")
  {
    if Contains(prefix, "linkedin") then LinkedIn else YouTube
  }

  /** The chunks one listed object contributes, or the exception it raises. */
  function FileChunks(source: Source, f: StoredFile, split: Splitter): Outcome {
    if !EndsWith(f.key, ".json") then Ok([])
    else if f.body.None? then Fail(Unparsable(f.key))
    else if !f.body.value.Object? then Fail(NotAnObject(f.key))
    else
      var data := f.body.value.fields;
      var text := GetOr(data, "text", Str(""));
      var url := Get(data, "url");
      if !Truthy(text) then Ok([])
      else if source == LinkedIn then
        Ok([Chunk("li_" + Display(Get(data, "post_id")), LinkedIn, text, url,
                  GetOr(data, "author", Str(LennyAuthor)), None)])
      else if !text.Str? then Fail(NotSplittable(f.key))
      else Ok(PieceChunks("yt_" + Display(Get(data, "video_id")), split(text.s), url, Str(LennyAuthor)))
  }

  function FileStep(source: Source, split: Splitter): StoredFile -> Outcome {
    f => FileChunks(source, f, split)
  }

  /** The objects of one listing, in listing order. */
  function ListingChunks(source: Source, files: seq<StoredFile>, split: Splitter): Outcome {
    Gather(files, FileStep(source, split))
  }

  function PrefixChunks(prefix: string, list: Listing, split: Splitter): Outcome {
    match list(prefix)
    case None => Ok([])
    case Some(files) => ListingChunks(SourceOf(prefix), files, split)
  }

  function PrefixStep(list: Listing, split: Splitter): string -> Outcome {
    p => PrefixChunks(p, list, split)
  }

  /** All prefixes, in the order of `input_prefixes`. */
  function AllChunks(prefixes: seq<string>, list: Listing, split: Splitter): Outcome {
    Gather(prefixes, PrefixStep(list, split))
  }

  /** The body of the inner loop for one object: `all` extended by its chunks. */
  method AppendFile(all: seq<Chunk>, source: Source, f: StoredFile, split: Splitter) returns (out: Outcome)
    ensures out == Then(Ok(all), FileChunks(source, f, split))
  {
    if !EndsWith(f.key, ".json") {
      return Ok(all);
    }
    if f.body.None? {
      return Fail(Unparsable(f.key));
    }
    if !f.body.value.Object? {
      return Fail(NotAnObject(f.key));
    }
    var data := f.body.value.fields;
    var text := GetOr(data, "text", Str(""));
    if !Truthy(text) {
      return Ok(all);
    }
    var url := Get(data, "url");
    if source == LinkedIn {
      var chunk := Chunk("li_" + Display(Get(data, "post_id")), LinkedIn, text, url,
                         GetOr(data, "author", Str(LennyAuthor)), None);
      return Ok(all + [chunk]);
    }
    if !text.Str? {
      return Fail(NotSplittable(f.key));
    }
    var pieces := split(text.s);
    var extended := AppendPieces(all, "yt_" + Display(Get(data, "video_id")), pieces, url, Str(LennyAuthor));
    return Ok(extended);
  }

  /** The `for obj in response['Contents']` loop of one listed prefix. */
  method AppendListing(all: seq<Chunk>, source: Source, files: seq<StoredFile>, split: Splitter) returns (out: Outcome)
    ensures out == Then(Ok(all), ListingChunks(source, files, split))
  {
    var acc := all;
    var j := 0;
    while j < |files|
      invariant 0 <= j <= |files|
      invariant Then(Ok(all), ListingChunks(source, files[..j], split)) == Ok(acc)
    {
      assert files[..j + 1][..j] == files[..j];
      ThenAssociative(Ok(all), ListingChunks(source, files[..j], split), FileChunks(source, files[j], split));
      var step := AppendFile(acc, source, files[j], split);
      if step.Fail? {
        GatherFailureStays(files, FileStep(source, split), j + 1);
        return step;
      }
      acc := step.chunks;
      j := j + 1;
    }
    assert files[..|files|] == files;
    return Ok(acc);
  }

  /** `lambda_handler`. It returns the response and the chunk list written to
      the output key (None when nothing is written). */
  method Handle(head: HeadOutcome, prefixes: seq<string>, list: Listing, split: Splitter,
                outputBucket: string, outputKey: string)
    returns (resp: Response, written: Option<seq<Chunk>>)
    ensures head.Found? ==> resp == AlreadyExists && written == None
    ensures head.ClientError? && head.code != "404" ==>
      resp == Response(500, Failed(LookupFailed(head.message))) && written == None
    ensures head.ClientError? && head.code == "404" ==>
      match AllChunks(prefixes, list, split)
      case Ok(cs) =>
        written == Some(cs) &&
        resp == Response(200, Created(|cs|, "s3://" + outputBucket + "/" + outputKey))
      case Fail(reason) =>
        written == None && resp == Response(500, Failed(reason))
  {
    if head.Found? {
      return AlreadyExists, None;
    }
    if head.code != "404" {
      return Response(500, Failed(LookupFailed(head.message))), None;
    }
    var all: seq<Chunk> := [];
    var i := 0;
    while i < |prefixes|
      invariant 0 <= i <= |prefixes|
      invariant AllChunks(prefixes[..i], list, split) == Ok(all)
    {
      var prefix := prefixes[i];
      assert prefixes[..i + 1][..i] == prefixes[..i];
      assert AllChunks(prefixes[..i + 1], list, split) == Then(Ok(all), PrefixChunks(prefix, list, split));
      var source := SourceOf(prefix);
      var listing := list(prefix);
      if listing.Some? {
        var step := AppendListing(all, source, listing.value, split);
        if step.Fail? {
          GatherFailureStays(prefixes, PrefixStep(list, split), i + 1);
          return Response(500, Failed(step.reason)), None;
        }
        all := step.chunks;
      } else {
        assert all + [] == all;
      }
      i := i + 1;
    }
    assert prefixes[..|prefixes|] == prefixes;
    return Response(200, Created(|all|, "s3://" + outputBucket + "/" + outputKey)), Some(all);
  }

  /** An object that yields chunks: a `.json` key whose body is an object with a
      truthy `text`. */
  predicate Kept(f: StoredFile) {
    EndsWith(f.key, ".json") && f.body.Some? && f.body.value.Object? &&
    Truthy(GetOr(f.body.value.fields, "text", Str("")))
  }

  function TextOf(f: StoredFile): Json
    requires Kept(f)
  {
    GetOr(f.body.value.fields, "text", Str(""))
  }

  /** Only kept objects produce chunks, and only `.json` objects can raise; a kept
      LinkedIn object is exactly one chunk holding its text under `li_<post_id>`;
      a kept YouTube transcript is one chunk per splitter piece, in order, with
      indices 0..n-1, IDs `yt_<video_id>_<i>` and the fixed author. */
  lemma FileChunksShape(source: Source, f: StoredFile, split: Splitter)
    ensures var out := FileChunks(source, f, split);
      (out.Ok? && out.chunks != [] ==> Kept(f)) &&
      (out.Fail? ==> EndsWith(f.key, ".json")) &&
      (source == LinkedIn && Kept(f) ==>
        out.Ok? && |out.chunks| == 1 &&
        out.chunks[0].content == TextOf(f) &&
        out.chunks[0].chunkId == "li_" + Display(Get(f.body.value.fields, "post_id")) &&
        out.chunks[0].source == LinkedIn && out.chunks[0].chunkIndex == None) &&
      (source == YouTube && Kept(f) && TextOf(f).Str? ==>
        var pieces := split(TextOf(f).s);
        var base := "yt_" + Display(Get(f.body.value.fields, "video_id"));
        out.Ok? && |out.chunks| == |pieces| &&
        forall i :: 0 <= i < |pieces| ==>
          out.chunks[i].content == Str(pieces[i]) &&
          out.chunks[i].chunkId == base + "_" + NatToString(i) &&
          out.chunks[i].chunkIndex == Some(i) &&
          out.chunks[i].author == Str(LennyAuthor) &&
          out.chunks[i].source == YouTube)
  {
    if source == YouTube && Kept(f) && TextOf(f).Str? {
      PieceChunksShape("yt_" + Display(Get(f.body.value.fields, "video_id")), split(TextOf(f).s),
                       Get(f.body.value.fields, "url"), Str(LennyAuthor));
    }
  }

  /** A listing none of whose objects is kept, and none of whose `.json` objects
      is malformed, contributes nothing. */
  lemma ListingSkipsUnkept(source: Source, files: seq<StoredFile>, split: Splitter)
    requires forall k :: 0 <= k < |files| ==>
      !Kept(files[k]) && (EndsWith(files[k].key, ".json") ==> files[k].body.Some? && files[k].body.value.Object?)
    ensures ListingChunks(source, files, split) == Ok([])
  {
    GatherNothing(files, FileStep(source, split));
  }

  /** Every chunk is one of the chunks of some input prefix and carries that
      prefix's classification; transcript chunks always carry the fixed author. */
  lemma AllSourcesMatch(prefixes: seq<string>, list: Listing, split: Splitter, c: Chunk)
    requires AllChunks(prefixes, list, split).Ok?
    requires c in AllChunks(prefixes, list, split).chunks
    ensures exists k ::
              && 0 <= k < |prefixes|
              && PrefixChunks(prefixes[k], list, split).Ok?
              && c in PrefixChunks(prefixes[k], list, split).chunks
              && c.source == SourceOf(prefixes[k])
    ensures c.source == YouTube ==> c.author == Str(LennyAuthor)
  {
    GatherSource(prefixes, PrefixStep(list, split), c);
    var k :| 0 <= k < |prefixes| && PrefixChunks(prefixes[k], list, split).Ok? && c in PrefixChunks(prefixes[k], list, split).chunks;
    var p := prefixes[k];
    var files := list(p).value;
    GatherSource(files, FileStep(SourceOf(p), split), c);
    var j :| 0 <= j < |files| && FileChunks(SourceOf(p), files[j], split).Ok? && c in FileChunks(SourceOf(p), files[j], split).chunks;
    FileChunksShape(SourceOf(p), files[j], split);
    var i :| 0 <= i < |FileChunks(SourceOf(p), files[j], split).chunks| && FileChunks(SourceOf(p), files[j], split).chunks[i] == c;
  }

  /** Chunks appear in prefix order: handling `p + q` builds the chunks of `p`
      followed by those of `q`, and a prefix whose listing has no `Contents`
      adds nothing. */
  lemma AllChunksConcat(p: seq<string>, q: seq<string>, list: Listing, split: Splitter)
    ensures AllChunks(p + q, list, split) == Then(AllChunks(p, list, split), AllChunks(q, list, split))
    ensures forall r :: r in q && list(r).None? ==> PrefixChunks(r, list, split) == Ok([])
  {
    GatherConcat(p, q, PrefixStep(list, split));
  }
}

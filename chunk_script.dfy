/**
 * The offline chunking script: it walks the processed-data directory, takes
 * only the folders named `youtube` or `linkedin`, and builds the same flat
 * chunk list as the Lambda, except that a missing ID falls back to the file
 * name and transcript chunks keep the file's author. The directory walk is an
 * input: one entry per folder, with its files and their parsed bodies.
 */
module ChunkScript {
  import opened Wrappers
  import opened Json
  import opened PyText
  import opened Chunks

  /** A file in a walked folder: its name and its parsed JSON (None when it does not parse). */
  datatype LocalFile = LocalFile(name: string, body: Option<Json>)

  /** One `(root, dirs, files)` entry of `os.walk`, without the sub-directories. */
  datatype Folder = Folder(root: string, files: seq<LocalFile>)

  /** `os.path.basename`: the part of the path after its last `/`. */
  function Basename(path: string): (r: string)
    ensures '/' !in r
    ensures EndsWith(path, r)
    ensures |r| < |path| ==> path[|path| - |r| - 1] == '/'
    decreases |path|
  {
    if path == [] || path[|path| - 1] == '/' then []
    else Basename(path[..|path| - 1]) + [path[|path| - 1]]
  }

  /** The folders processed, and as which source. */
  function FolderSource(root: string): Option<Source> {
    var name := Basename(root);
    if name == "youtube" then Some(YouTube)
    else if name == "linkedin" then Some(LinkedIn)
    else None
  }

  /** The chunks one file contributes, or the exception that stops the script. */
  function FileChunks(source: Source, f: LocalFile, split: Splitter): Outcome {
    if !EndsWith(f.name, ".json") then Ok([])
    else if f.body.None? then Fail(Unparsable(f.name))
    else if !f.body.value.Object? then Fail(NotAnObject(f.name))
    else
      var data := f.body.value.fields;
      var text := GetOr(data, "text", Str(""));
      var url := Get(data, "url");
      var author := GetOr(data, "author", Str(LennyAuthor));
      if !Truthy(text) then Ok([])
      else if source == LinkedIn then
        Ok([Chunk("li_" + Display(GetOr(data, "post_id", Str(f.name))), LinkedIn, text, url, author, None)])
      else if !text.Str? then Fail(NotSplittable(f.name))
      else Ok(PieceChunks("yt_" + Display(GetOr(data, "video_id", Str(f.name))), split(text.s), url, author))
  }

  function FileStep(source: Source, split: Splitter): LocalFile -> Outcome {
    f => FileChunks(source, f, split)
  }

  /** The files of one folder, in listing order. */
  function FilesChunks(source: Source, files: seq<LocalFile>, split: Splitter): Outcome {
    Gather(files, FileStep(source, split))
  }

  function FolderChunks(folder: Folder, split: Splitter): Outcome {
    match FolderSource(folder.root)
    case None => Ok([])
    case Some(source) => FilesChunks(source, folder.files, split)
  }

  function FolderStep(split: Splitter): Folder -> Outcome {
    folder => FolderChunks(folder, split)
  }

  /** The whole walk, in walk order. */
  function WalkChunks(walk: seq<Folder>, split: Splitter): Outcome {
    Gather(walk, FolderStep(split))
  }

  /** The body of the file loop for one file: `all` extended by its chunks. */
  method AppendFile(all: seq<Chunk>, source: Source, f: LocalFile, split: Splitter) returns (out: Outcome)
    ensures out == Then(Ok(all), FileChunks(source, f, split))
  {
    if !EndsWith(f.name, ".json") {
      return Ok(all);
    }
    if f.body.None? {
      return Fail(Unparsable(f.name));
    }
    if !f.body.value.Object? {
      return Fail(NotAnObject(f.name));
    }
    var data := f.body.value.fields;
    var text := GetOr(data, "text", Str(""));
    if !Truthy(text) {
      return Ok(all);
    }
    var url := Get(data, "url");
    var author := GetOr(data, "author", Str(LennyAuthor));
    if source == LinkedIn {
      var chunk := Chunk("li_" + Display(GetOr(data, "post_id", Str(f.name))), LinkedIn, text, url, author, None);
      return Ok(all + [chunk]);
    }
    if !text.Str? {
      return Fail(NotSplittable(f.name));
    }
    var pieces := split(text.s);
    var extended := AppendPieces(all, "yt_" + Display(GetOr(data, "video_id", Str(f.name))), pieces, url, author);
    return Ok(extended);
  }

  /** The `for filename in files` loop of one processed folder. */
  method AppendFolder(all: seq<Chunk>, source: Source, files: seq<LocalFile>, split: Splitter) returns (out: Outcome)
    ensures out == Then(Ok(all), FilesChunks(source, files, split))
  {
    var acc := all;
    var j := 0;
    while j < |files|
      invariant 0 <= j <= |files|
      invariant Then(Ok(all), FilesChunks(source, files[..j], split)) == Ok(acc)
    {
      assert files[..j + 1][..j] == files[..j];
      ThenAssociative(Ok(all), FilesChunks(source, files[..j], split), FileChunks(source, files[j], split));
      var step := AppendFile(acc, source, files[j], split);
      if step.Fail? {
        GatherFailureStays(files, FileStep(source, split), j + 1);
        return step;
      }
      acc := step.chunks;
      j := j + 1;
    }
    assert files[..|files|] == files;
    return Ok(acc);
  }

  /** `process_data`: the chunk list written to `final_chunks.json`, or the
      exception that stops the script before anything is written. */
  method ProcessData(walk: seq<Folder>, split: Splitter) returns (result: Outcome)
    ensures result == WalkChunks(walk, split)
  {
    var all: seq<Chunk> := [];
    var i := 0;
    while i < |walk|
      invariant 0 <= i <= |walk|
      invariant WalkChunks(walk[..i], split) == Ok(all)
    {
      var folder := walk[i];
      assert walk[..i + 1][..i] == walk[..i];
      assert WalkChunks(walk[..i + 1], split) == Then(Ok(all), FolderChunks(folder, split));
      var source := FolderSource(folder.root);
      if source.Some? {
        var step := AppendFolder(all, source.value, folder.files, split);
        if step.Fail? {
          GatherFailureStays(walk, FolderStep(split), i + 1);
          return step;
        }
        all := step.chunks;
      } else {
        assert all + [] == all;
      }
      i := i + 1;
    }
    assert walk[..|walk|] == walk;
    return Ok(all);
  }

  /** A file that yields chunks: a `.json` name whose body is an object with a truthy `text`. */
  predicate Kept(f: LocalFile) {
    EndsWith(f.name, ".json") && f.body.Some? && f.body.value.Object? &&
    Truthy(GetOr(f.body.value.fields, "text", Str("")))
  }

  function TextOf(f: LocalFile): Json
    requires Kept(f)
  {
    GetOr(f.body.value.fields, "text", Str(""))
  }

  /** Only kept files produce chunks. A kept LinkedIn file is exactly one chunk
      holding its text, whose ID is `li_` and the `post_id`, or the file name
      when that key is absent. A kept transcript is one chunk per splitter piece,
      in order, indexed 0..n-1, with ID `yt_<video_id or file name>_<i>` and the
      file's author, defaulting to Lenny. */
  lemma FileChunksShape(source: Source, f: LocalFile, split: Splitter)
    ensures var out := FileChunks(source, f, split);
      (out.Ok? && out.chunks != [] ==> Kept(f)) &&
      (out.Fail? ==> EndsWith(f.name, ".json")) &&
      (source == LinkedIn && Kept(f) ==>
        var data := f.body.value.fields;
        out.Ok? && |out.chunks| == 1 &&
        out.chunks[0].content == TextOf(f) &&
        out.chunks[0].chunkId == "li_" + (if "post_id" in data then Display(data["post_id"]) else f.name) &&
        out.chunks[0].source == LinkedIn) &&
      (source == YouTube && Kept(f) && TextOf(f).Str? ==>
        var data := f.body.value.fields;
        var pieces := split(TextOf(f).s);
        var base := "yt_" + (if "video_id" in data then Display(data["video_id"]) else f.name);
        out.Ok? && |out.chunks| == |pieces| &&
        forall i :: 0 <= i < |pieces| ==>
          out.chunks[i].content == Str(pieces[i]) &&
          out.chunks[i].chunkId == base + "_" + NatToString(i) &&
          out.chunks[i].chunkIndex == Some(i) &&
          out.chunks[i].author == (if "author" in data then data["author"] else Str(LennyAuthor)))
  {
    if source == YouTube && Kept(f) && TextOf(f).Str? {
      var data := f.body.value.fields;
      PieceChunksShape("yt_" + Display(GetOr(data, "video_id", Str(f.name))), split(TextOf(f).s),
                       Get(data, "url"), GetOr(data, "author", Str(LennyAuthor)));
    }
  }

  /** Folders whose base name is neither `youtube` nor `linkedin` contribute nothing. */
  lemma OtherFoldersIgnored(walk: seq<Folder>, split: Splitter)
    requires forall k :: 0 <= k < |walk| ==> Basename(walk[k].root) != "youtube" && Basename(walk[k].root) != "linkedin"
    ensures WalkChunks(walk, split) == Ok([])
  {
    GatherNothing(walk, FolderStep(split));
  }

  /** The chunk count of one file, stated from the file alone: one for a kept
      post, the number of pieces for a kept transcript, zero otherwise. */
  function FileCount(source: Source, f: LocalFile, split: Splitter): nat {
    if !Kept(f) then 0
    else if source == LinkedIn then 1
    else if TextOf(f).Str? then |split(TextOf(f).s)|
    else 0
  }

  /** Kept LinkedIn files of the walk. */
  function LinkedInKept(walk: seq<Folder>): nat
    decreases |walk|
  {
    if walk == [] then 0
    else
      var folder := walk[|walk| - 1];
      LinkedInKept(walk[..|walk| - 1]) +
      (if FolderSource(folder.root) == Some(LinkedIn) then KeptCount(folder.files) else 0)
  }

  /** Splitter pieces over the kept YouTube files of the walk. */
  function YouTubePieces(walk: seq<Folder>, split: Splitter): nat
    decreases |walk|
  {
    if walk == [] then 0
    else
      var folder := walk[|walk| - 1];
      YouTubePieces(walk[..|walk| - 1], split) +
      (if FolderSource(folder.root) == Some(YouTube) then PieceTotal(folder.files, split) else 0)
  }

  /** The number of kept files of a folder. */
  function KeptCount(files: seq<LocalFile>): nat
    decreases |files|
  {
    if files == [] then 0
    else KeptCount(files[..|files| - 1]) + (if Kept(files[|files| - 1]) then 1 else 0)
  }

  function PieceTotal(files: seq<LocalFile>, split: Splitter): nat
    decreases |files|
  {
    if files == [] then 0
    else PieceTotal(files[..|files| - 1], split) + FileCount(YouTube, files[|files| - 1], split)
  }

  /** A successful file loop yields the sum of the per-file counts. */
  lemma {:induction false} FilesCount(source: Source, files: seq<LocalFile>, split: Splitter)
    ensures var out := FilesChunks(source, files, split);
      out.Ok? ==> |out.chunks| == (if source == LinkedIn then KeptCount(files) else PieceTotal(files, split))
    decreases |files|
  {
    if files != [] {
      var m := |files| - 1;
      assert FilesChunks(source, files, split) ==
        Then(FilesChunks(source, files[..m], split), FileChunks(source, files[m], split));
      FilesCount(source, files[..m], split);
      FileChunksShape(source, files[m], split);
    }
  }

  /** The number of chunks written is the number of kept LinkedIn files plus the
      number of splitter pieces over the kept YouTube files. */
  lemma {:induction false} TotalChunkCount(walk: seq<Folder>, split: Splitter)
    ensures var out := WalkChunks(walk, split);
      out.Ok? ==> |out.chunks| == LinkedInKept(walk) + YouTubePieces(walk, split)
    decreases |walk|
  {
    if walk != [] {
      var m := |walk| - 1;
      TotalChunkCount(walk[..m], split);
      var folder := walk[m];
      if FolderSource(folder.root).Some? {
        FilesCount(FolderSource(folder.root).value, folder.files, split);
      }
    }
  }
}

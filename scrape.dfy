/**
 * The LinkedIn scraping lambda: the mapping of each raw scraped item to a fixed
 * post record (through `or`-fallbacks and dict-or-not branches), the loop that
 * builds the record list, and the save loop that writes a record under
 * `prefix + post_id + ".json"` only when that key is absent from the bucket.
 */
module Scrape {
  import opened Json
  import opened PyText

  /** A raw item of the scraper's dataset: a JSON object. */
  type Item = map<string, Json>

  /** The record saved for one post. */
  datatype Record = Record(
    source: string,
    postId: Json,
    url: Json,
    text: Json,
    postedAt: Json,
    likes: Json,
    author: Json)

  const DefaultAuthor: string := "Lenny Rachitsky"

  /** The fallback id built from the item's position. */
  function FallbackId(index: nat): string {
    "post_" + IntToString(index)
  }

  /** The post id: from a dict, `activity_urn` or else `ugcPost_urn`; otherwise the
      raw value; falling back to `post_<index>`. */
  function PostId(item: Item, index: nat): Json {
    var raw := Get(item, "post_id");
    match raw
    case Object(d) => Or(Or(Get(d, "activity_urn"), Get(d, "ugcPost_urn")), Str(FallbackId(index)))
    case _ => Or(raw, Str(FallbackId(index)))
  }

  /** The posting date: from a dict, `date` or else `relative`; otherwise the raw value; else "". */
  function PostedAt(item: Item): Json {
    var info := GetOr(item, "posted_at", Object(map[]));
    match info
    case Object(d) => Or(Or(Get(d, "date"), Get(d, "relative")), Str(""))
    case _ => Or(info, Str(""))
  }

  /** The like count: from a `stats` dict (a missing `stats` is an empty dict),
      `likes` or else `total_reactions`; when `stats` is not a dict, the item's own
      `likes` or else `numLikes`; else 0. */
  function Likes(item: Item): Json {
    var stats := GetOr(item, "stats", Object(map[]));
    match stats
    case Object(d) => Or(Or(Get(d, "likes"), Get(d, "total_reactions")), Int(0))
    case _ => Or(Or(Get(item, "likes"), Get(item, "numLikes")), Int(0))
  }

  /** The author name: from a dict, `name` or else the stripped "first last";
      anything falsy becomes the default author. */
  function Author(item: Item): Json {
    var info := GetOr(item, "author", Object(map[]));
    var name := match info
      case Object(d) =>
        Or(Get(d, "name"),
           Str(Strip(Display(GetOr(d, "firstName", Str(""))) + " " + Display(GetOr(d, "lastName", Str(""))))))
      case _ => Str("");
    if Truthy(name) then name else Str(DefaultAuthor)
  }

  /** The record built for the item at position `index`. */
  function NormalizeItem(item: Item, index: nat): Record {
    Record(
      "linkedin",
      PostId(item, index),
      GetOr(item, "url", Str("")),
      GetOr(item, "text", Str("")),
      PostedAt(item),
      Likes(item),
      Author(item))
  }

  /** The post id is never falsy. From a dict it is the first truthy of
      `activity_urn` and `ugcPost_urn`, otherwise the raw value when truthy, and
      `post_<index>` exactly when every candidate is falsy. */
  lemma PostIdResolution(item: Item, index: nat)
    ensures Truthy(PostId(item, index))
    ensures var raw := Get(item, "post_id");
      raw.Object? ==>
        var a := Get(raw.fields, "activity_urn"); var u := Get(raw.fields, "ugcPost_urn");
        PostId(item, index) == (if Truthy(a) then a else if Truthy(u) then u else Str(FallbackId(index)))
    ensures var raw := Get(item, "post_id");
      !raw.Object? ==> PostId(item, index) == (if Truthy(raw) then raw else Str(FallbackId(index)))
  {
    assert FallbackId(index) != "";
  }

  /** The date is `date`, `relative` or "" for a dict, the raw value or "" otherwise;
      a missing `posted_at` gives "". */
  lemma PostedAtResolution(item: Item)
    ensures var info := GetOr(item, "posted_at", Object(map[]));
      info.Object? ==>
        var dt := Get(info.fields, "date"); var rel := Get(info.fields, "relative");
        PostedAt(item) == (if Truthy(dt) then dt else if Truthy(rel) then rel else Str(""))
    ensures var info := GetOr(item, "posted_at", Object(map[]));
      !info.Object? ==> PostedAt(item) == (if Truthy(info) then info else Str(""))
    ensures "posted_at" !in item ==> PostedAt(item) == Str("")
  {
  }

  /** The top-level `likes`/`numLikes` fields matter only when `stats` is present
      and not a dict; a missing `stats` gives 0 likes. */
  lemma LikesResolution(item: Item)
    ensures "stats" !in item ==> Likes(item) == Int(0)
    ensures "stats" in item && item["stats"].Object? ==>
      var d := item["stats"].fields;
      Likes(item) == (if Truthy(Get(d, "likes")) then Get(d, "likes")
                      else if Truthy(Get(d, "total_reactions")) then Get(d, "total_reactions")
                      else Int(0))
    ensures "stats" in item && !item["stats"].Object? ==>
      Likes(item) == (if Truthy(Get(item, "likes")) then Get(item, "likes")
                      else if Truthy(Get(item, "numLikes")) then Get(item, "numLikes")
                      else Int(0))
  {
  }

  /** The author is never empty: the `name` when truthy, otherwise the stripped
      "first last" when not empty, otherwise the default author; an `author`
      that is not a dict gives the default author. */
  lemma AuthorNeverEmpty(item: Item)
    ensures Truthy(Author(item))
    ensures var info := GetOr(item, "author", Object(map[]));
      !info.Object? ==> Author(item) == Str(DefaultAuthor)
    ensures var info := GetOr(item, "author", Object(map[]));
      info.Object? && Truthy(Get(info.fields, "name")) ==> Author(item) == Get(info.fields, "name")
    ensures var info := GetOr(item, "author", Object(map[]));
      info.Object? && !Truthy(Get(info.fields, "name")) ==>
        var full := Strip(Display(GetOr(info.fields, "firstName", Str(""))) + " " +
                          Display(GetOr(info.fields, "lastName", Str(""))));
        Author(item) == (if full != "" then Str(full) else Str(DefaultAuthor))
  {
  }

  /** Every record is tagged `linkedin`, and a missing `url` or `text` becomes "". */
  lemma RecordDefaults(item: Item, index: nat)
    ensures NormalizeItem(item, index).source == "linkedin"
    ensures "url" !in item ==> NormalizeItem(item, index).url == Str("")
    ensures "text" !in item ==> NormalizeItem(item, index).text == Str("")
    ensures "url" in item ==> NormalizeItem(item, index).url == item["url"]
    ensures "text" in item ==> NormalizeItem(item, index).text == item["text"]
  {
  }

  /** The item loop of `scrape_linkedin_posts`: one record per item, same order,
      the fallback id built from the item's position. */
  method ProcessItems(items: seq<Item>) returns (records: seq<Record>)
    ensures |records| == |items|
    ensures forall i :: 0 <= i < |items| ==> records[i] == NormalizeItem(items[i], i)
  {
    records := [];
    var index := 0;
    while index < |items|
      invariant 0 <= index <= |items|
      invariant |records| == index
      invariant forall i :: 0 <= i < index ==> records[i] == NormalizeItem(items[i], i)
    {
      var record := NormalizeItem(items[index], index);
      assert (records + [record])[index] == record;
      records := records + [record];
      index := index + 1;
    }
  }

  /** The object key of a record. */
  function ObjectKey(prefix: string, r: Record): string {
    prefix + Display(r.postId) + ".json"
  }

  /** The keys of the first `n` records. */
  function KeysOf(prefix: string, records: seq<Record>, n: nat): set<string>
    requires n <= |records|
  {
    set i | 0 <= i < n :: ObjectKey(prefix, records[i])
  }

  /** No earlier record has the same key as the record at `i`. */
  predicate FirstWithKey(prefix: string, records: seq<Record>, i: nat)
    requires i < |records|
  {
    forall j :: 0 <= j < i ==> ObjectKey(prefix, records[j]) != ObjectKey(prefix, records[i])
  }

  /** The bucket after the save loop and the number of objects it wrote. */
  datatype SaveOutcome = SaveOutcome(bucket: map<string, Record>, savedCount: nat)

  /** The save loop as a fold over the records, last record last: a record is
      written only when its key is absent. */
  function SaveAll(bucket: map<string, Record>, prefix: string, records: seq<Record>): SaveOutcome
    decreases |records|
  {
    if records == [] then SaveOutcome(bucket, 0)
    else
      var before := SaveAll(bucket, prefix, records[..|records| - 1]);
      var r := records[|records| - 1];
      var key := ObjectKey(prefix, r);
      if key in before.bucket then before
      else SaveOutcome(before.bucket[key := r], before.savedCount + 1)
  }

  /** The save loop of `lambda_handler`. */
  method SavePosts(bucket: map<string, Record>, prefix: string, records: seq<Record>)
    returns (saved: map<string, Record>, savedCount: nat)
    ensures SaveOutcome(saved, savedCount) == SaveAll(bucket, prefix, records)
  {
    saved := bucket;
    savedCount := 0;
    var i := 0;
    while i < |records|
      invariant 0 <= i <= |records|
      invariant SaveOutcome(saved, savedCount) == SaveAll(bucket, prefix, records[..i])
    {
      assert records[..i + 1][..i] == records[..i];
      var key := ObjectKey(prefix, records[i]);
      if key !in saved {
        saved := saved[key := records[i]];
        savedCount := savedCount + 1;
      }
      i := i + 1;
    }
    assert records[..|records|] == records;
  }

  /** The keys of a batch are those of all but its last record plus the last one's. */
  lemma KeysOfExtend(prefix: string, records: seq<Record>)
    requires records != []
    ensures var n := |records| - 1;
      KeysOf(prefix, records, n + 1) == KeysOf(prefix, records[..n], n) + {ObjectKey(prefix, records[n])}
  {
    var n := |records| - 1;
    forall j | 0 <= j < n ensures records[..n][j] == records[j] {
    }
    var lhs := KeysOf(prefix, records, n + 1);
    var rhs := KeysOf(prefix, records[..n], n) + {ObjectKey(prefix, records[n])};
    forall k | k in lhs ensures k in rhs {
      var j :| 0 <= j < n + 1 && k == ObjectKey(prefix, records[j]);
      if j < n {
        assert k == ObjectKey(prefix, records[..n][j]);
      }
    }
    forall k | k in rhs ensures k in lhs {
      if k != ObjectKey(prefix, records[n]) {
        var j :| 0 <= j < n && k == ObjectKey(prefix, records[..n][j]);
        assert k == ObjectKey(prefix, records[j]);
      }
    }
  }

  /** The keys after saving are the old keys plus the records' keys, and no
      existing object is overwritten. */
  lemma {:induction false} SaveKeepsExisting(bucket: map<string, Record>, prefix: string, records: seq<Record>)
    ensures var out := SaveAll(bucket, prefix, records).bucket;
      out.Keys == bucket.Keys + KeysOf(prefix, records, |records|) &&
      forall k :: k in bucket ==> out[k] == bucket[k]
    decreases |records|
  {
    if records == [] {
      assert KeysOf(prefix, records, 0) == {};
    } else {
      var n := |records| - 1;
      SaveKeepsExisting(bucket, prefix, records[..n]);
      KeysOfExtend(prefix, records);
      var before := SaveAll(bucket, prefix, records[..n]);
      var key := ObjectKey(prefix, records[n]);
      if key !in before.bucket {
        assert SaveAll(bucket, prefix, records).bucket == before.bucket[key := records[n]];
      } else {
        assert SaveAll(bucket, prefix, records) == before;
      }
    }
  }

  /** Writing a key absent from `m` adds one key to those not in `initial`. */
  lemma AddNewKey(initial: set<string>, m: map<string, Record>, key: string, r: Record)
    requires initial <= m.Keys && key !in m
    ensures |m[key := r].Keys - initial| == |m.Keys - initial| + 1
  {
    assert m[key := r].Keys - initial == (m.Keys - initial) + {key};
  }

  /** The number written is the number of new keys, so at most the number of records. */
  lemma {:induction false} SaveCountsNewKeys(bucket: map<string, Record>, prefix: string, records: seq<Record>)
    ensures var out := SaveAll(bucket, prefix, records);
      out.savedCount == |out.bucket.Keys - bucket.Keys| &&
      out.savedCount <= |records|
    decreases |records|
  {
    if records == [] {
      assert bucket.Keys - bucket.Keys == {};
    } else {
      var n := |records| - 1;
      SaveCountsNewKeys(bucket, prefix, records[..n]);
      var before := SaveAll(bucket, prefix, records[..n]);
      var key := ObjectKey(prefix, records[n]);
      if key !in before.bucket {
        var after := before.bucket[key := records[n]];
        assert SaveAll(bucket, prefix, records) == SaveOutcome(after, before.savedCount + 1);
        SaveKeepsExisting(bucket, prefix, records[..n]);
        AddNewKey(bucket.Keys, before.bucket, key, records[n]);
      } else {
        assert SaveAll(bucket, prefix, records) == before;
      }
    }
  }

  /** A new key holds the first record of the batch that has it: a key repeated
      within the batch is written once. */
  lemma {:induction false} SaveFirstWins(bucket: map<string, Record>, prefix: string, records: seq<Record>, i: nat)
    requires i < |records|
    requires ObjectKey(prefix, records[i]) !in bucket
    requires FirstWithKey(prefix, records, i)
    ensures var out := SaveAll(bucket, prefix, records).bucket;
      ObjectKey(prefix, records[i]) in out && out[ObjectKey(prefix, records[i])] == records[i]
    decreases |records|
  {
    var n := |records| - 1;
    var key := ObjectKey(prefix, records[i]);
    var before := SaveAll(bucket, prefix, records[..n]);
    if i < n {
      assert FirstWithKey(prefix, records[..n], i) by {
        forall j | 0 <= j < i ensures ObjectKey(prefix, records[..n][j]) != ObjectKey(prefix, records[..n][i]) {
          assert records[..n][j] == records[j];
        }
      }
      SaveFirstWins(bucket, prefix, records[..n], i);
    } else {
      SaveKeepsExisting(bucket, prefix, records[..n]);
      assert key !in KeysOf(prefix, records[..n], n) by {
        forall j | 0 <= j < n ensures ObjectKey(prefix, records[..n][j]) != key {
          assert records[..n][j] == records[j];
        }
      }
    }
  }
}

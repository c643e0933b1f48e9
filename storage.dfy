/**
 * riley-cms-core's asset storage (`storage.rs`): the page size and continuation token of
 * `list_assets`, the public URL of an asset, and the object key `upload_asset` builds.
 *
 * The S3 `ListObjectsV2` response is given as a value; the calls themselves are not modelled.
 */
module Storage {
  import opened Wrappers
  import opened Text
  import opened Types

  const DefaultAssetPageSize: nat := 100
  const MaxAssetPageSize: nat := 1000

  /** `opts.limit.unwrap_or(100).min(MAX_PAGE_SIZE)`. */
  function AssetLimit(opts: AssetListOptions): (limit: nat)
    ensures limit <= MaxAssetPageSize
    ensures opts.limit.None? ==> limit == DefaultAssetPageSize
    ensures opts.limit.Some? ==> limit == if opts.limit.value <= MaxAssetPageSize then opts.limit.value else MaxAssetPageSize
  {
    var requested := opts.limit.GetOr(DefaultAssetPageSize);
    if requested < MaxAssetPageSize then requested else MaxAssetPageSize
  }

  /** The `ListObjectsV2` request: the bucket, `max_keys` and the caller's continuation token. */
  datatype ListRequest = ListRequest(bucket: string, maxKeys: nat, continuationToken: Option<string>)

  /**
   * The request `list_assets` sends: never more than 1000 keys, 100 when the caller gives no
   * limit, the caller's own limit when it is within the cap, and the caller's token passed on.
   */
  function ListRequestFor(bucket: string, opts: AssetListOptions): (r: ListRequest)
    ensures r.bucket == bucket && r.continuationToken == opts.continuation_token
    ensures 0 <= r.maxKeys <= MaxAssetPageSize
    ensures opts.limit.None? ==> r.maxKeys == DefaultAssetPageSize
    ensures opts.limit.Some? && opts.limit.value <= MaxAssetPageSize ==> r.maxKeys == opts.limit.value
    ensures opts.limit.Some? && opts.limit.value > MaxAssetPageSize ==> r.maxKeys == MaxAssetPageSize
  {
    ListRequest(bucket, AssetLimit(opts), opts.continuation_token)
  }

  /** One listed object: each field may be absent; `size` is the SDK's signed 64-bit integer. */
  datatype S3Object = S3Object(key: Option<string>, size: Option<int>, lastModified: Option<Timestamp>)

  datatype ListResponse = ListResponse(contents: Option<seq<S3Object>>, isTruncated: Option<bool>,
                                       nextContinuationToken: Option<string>)

  const TwoTo64: int := 0x1_0000_0000_0000_0000

  /** `size.unwrap_or(0) as u64`: a negative `i64` wraps around to the upper half of the `u64` range. */
  function AssetSize(size: Option<int>): (r: nat)
    requires size.Some? ==> -TwoTo64 / 2 <= size.value < TwoTo64 / 2
    ensures r < TwoTo64
    ensures size.Some? && size.value >= 0 ==> r == size.value
    ensures size.Some? && size.value < 0 ==> r == size.value + TwoTo64
  {
    match size
    case None => 0
    case Some(s) => if s < 0 then s + TwoTo64 else s
  }

  /** An asset's public URL: the base without its trailing slashes, a slash, then the key. */
  function AssetUrl(publicUrlBase: string, key: string): (url: string)
    ensures |url| > |key| && url[|url| - |key| - 1..] == "/" + key
    ensures var stem := url[..|url| - |key| - 1];
      |stem| <= |publicUrlBase| && publicUrlBase[..|stem|] == stem
      && (stem == [] || stem[|stem| - 1] != '/')
      && forall i :: |stem| <= i < |publicUrlBase| ==> publicUrlBase[i] == '/'
  {
    TrimEndWhile(publicUrlBase, IsSlash) + "/" + key
  }

  /** Slashes at the end of the configured base do not change any URL. */
  lemma AssetUrlIgnoresTrailingSlash(publicUrlBase: string, key: string)
    ensures AssetUrl(publicUrlBase + "/", key) == AssetUrl(publicUrlBase, key)
  {
    var b := publicUrlBase + "/";
    assert b[..|b| - 1] == publicUrlBase;
  }

  /** A base with no trailing slash is used as it is. */
  lemma AssetUrlOfCleanBase(publicUrlBase: string, key: string)
    requires publicUrlBase == [] || publicUrlBase[|publicUrlBase| - 1] != '/'
    ensures AssetUrl(publicUrlBase, key) == publicUrlBase + "/" + key
  {
  }

  /** One listed object as an `Asset`; a missing key is empty, a missing time is `now`. */
  function AssetOf(publicUrlBase: string, obj: S3Object, now: Timestamp): (a: Asset)
    requires obj.size.Some? ==> -TwoTo64 / 2 <= obj.size.value < TwoTo64 / 2
    ensures obj.key.Some? ==> a.key == obj.key.value
    ensures obj.key.None? ==> a.key == "" && a.url != [] && a.url[|a.url| - 1] == '/'
    ensures a.url == AssetUrl(publicUrlBase, a.key) && a.url[|a.url| - |a.key| - 1..] == "/" + a.key
    ensures a.size < TwoTo64 && (obj.size.None? ==> a.size == 0)
    ensures obj.size.Some? && obj.size.value >= 0 ==> a.size == obj.size.value
    ensures obj.lastModified.Some? ==> a.last_modified == obj.lastModified.value
    ensures obj.lastModified.None? ==> a.last_modified == now
  {
    var key := obj.key.GetOr("");
    Asset(key, AssetUrl(publicUrlBase, key), AssetSize(obj.size), obj.lastModified.GetOr(now))
  }

  predicate SizesFit(objs: seq<S3Object>) {
    forall i :: 0 <= i < |objs| ==> objs[i].size.Some? ==> -TwoTo64 / 2 <= objs[i].size.value < TwoTo64 / 2
  }

  /**
   * `list_assets` after the S3 call: one asset per listed object, in order, and a continuation
   * token only when S3 says the listing is truncated.
   */
  method ListAssets(publicUrlBase: string, response: ListResponse, now: Timestamp) returns (r: AssetListResult)
    requires response.contents.Some? ==> SizesFit(response.contents.value)
    ensures response.contents.None? ==> r.assets == []
    ensures response.contents.Some? ==> |r.assets| == |response.contents.value|
    ensures response.contents.Some? ==> forall i :: 0 <= i < |r.assets| ==>
      r.assets[i] == AssetOf(publicUrlBase, response.contents.value[i], now)
    ensures r.next_continuation_token == if response.isTruncated == Some(true) then response.nextContinuationToken else None
  {
    var assets: seq<Asset> := [];
    if response.contents.Some? {
      var contents := response.contents.value;
      for i := 0 to |contents|
        invariant |assets| == i
        invariant forall j :: 0 <= j < i ==> assets[j] == AssetOf(publicUrlBase, contents[j], now)
      {
        assets := assets + [AssetOf(publicUrlBase, contents[i], now)];
      }
    }
    var next := if response.isTruncated == Some(true) then response.nextContinuationToken else None;
    r := AssetListResult(assets, next);
  }

  // ---------------------------------------------------------------- upload key

  const TraversalRejected := "Invalid destination: path traversal not allowed"
  const InvalidFileName := "Invalid file name"

  /** Some '/'-separated segment of `s` is exactly `..`. */
  predicate HasParentSegment(s: string) {
    exists i :: 0 <= i < |Split(s, '/')| && Split(s, '/')[i] == ".."
  }

  /**
   * The key `upload_asset` uploads under: the file name, or the destination trimmed of '/' at
   * both ends, a '/', and the file name. A destination with a `..` segment is refused (before
   * the file is read or anything is uploaded), and so is a path without a UTF-8 file name.
   */
  function UploadKey(fileName: Option<string>, dest: Option<string>): (r: Result<string, string>)
    ensures fileName.None? ==> r == Err(InvalidFileName)
    ensures fileName.Some? && dest.None? ==> r == Ok(fileName.value)
    ensures fileName.Some? && dest.Some? ==>
      var sanitized := TrimMatches(dest.value, IsSlash);
      r == if HasParentSegment(sanitized) then Err(TraversalRejected) else Ok(sanitized + "/" + fileName.value)
  {
    match fileName
    case None => Err(InvalidFileName)
    case Some(name) =>
      match dest
      case None => Ok(name)
      case Some(prefix) =>
        var sanitized := TrimMatches(prefix, IsSlash);
        if HasParentSegment(sanitized) then Err(TraversalRejected) else Ok(sanitized + "/" + name)
  }

  lemma {:induction false} SplitAround(a: string, b: string, c: char)
    ensures Split(a + [c] + b, c) == Split(a, c) + Split(b, c)
    decreases |a|
  {
    var s := a + [c] + b;
    match SplitOnce(a, c)
    case None =>
      SplitOnceAtFirst(s, a, b, c);
    case Some((x, y)) =>
      assert s == x + [c] + (y + [c] + b);
      SplitOnceAtFirst(s, x, y + [c] + b, c);
      SplitAround(y, b, c);
  }

  /**
   * The segments of an accepted key are the destination's segments followed by the file name,
   * so when the file name is not `..` no segment of the key is: the key cannot climb out of
   * the destination.
   */
  lemma UploadKeyCannotTraverse(fileName: string, dest: string)
    requires '/' !in fileName && UploadKey(Some(fileName), Some(dest)).Ok?
    ensures var key := UploadKey(Some(fileName), Some(dest)).value;
      Split(key, '/') == Split(TrimMatches(dest, IsSlash), '/') + [fileName]
      && (fileName != ".." ==> forall i :: 0 <= i < |Split(key, '/')| ==> Split(key, '/')[i] != "..")
  {
    var sanitized := TrimMatches(dest, IsSlash);
    var key := sanitized + "/" + fileName;
    assert UploadKey(Some(fileName), Some(dest)) == Ok(key) && !HasParentSegment(sanitized);
    SplitAround(sanitized, fileName, '/');
    assert key == sanitized + ['/'] + fileName;
    assert Split(fileName, '/') == [fileName];
    var segments := Split(key, '/');
    assert segments == Split(sanitized, '/') + [fileName];
    forall i | 0 <= i < |segments| && fileName != ".." ensures segments[i] != ".." {
      if i < |Split(sanitized, '/')| {
        assert segments[i] == Split(sanitized, '/')[i];
      }
    }
  }
}

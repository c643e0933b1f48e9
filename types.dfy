/**
 * The domain records of riley-cms-core (`types.rs`): configuration read from TOML, posts and
 * series with their summaries, assets, list options and results, validation errors.
 * Timestamps (`DateTime<Utc>`) are instants on an integer time line.
 */
module Types {
  import opened Wrappers

  type Timestamp = int

  newtype i32 = x: int | -0x8000_0000 <= x < 0x8000_0000

  /** `config.toml` of a post. `goes_live_at`: None is a draft, a past instant is live, a future one scheduled. */
  datatype PostConfig = PostConfig(
    title: string,
    subtitle: Option<string>,
    preview_text: string,
    preview_image: Option<string>,
    tags: Option<seq<string>>,
    goes_live_at: Option<Timestamp>,
    order: Option<i32>)

  /** `series.toml` of a series. */
  datatype SeriesConfig = SeriesConfig(
    title: string,
    description: Option<string>,
    preview_image: Option<string>,
    goes_live_at: Option<Timestamp>)

  datatype Post = Post(
    slug: string,
    title: string,
    subtitle: Option<string>,
    preview_text: string,
    preview_image: Option<string>,
    tags: Option<seq<string>>,
    goes_live_at: Option<Timestamp>,
    series_slug: Option<string>,
    content: string,
    order: Option<i32>)

  datatype PostSummary = PostSummary(
    slug: string,
    title: string,
    subtitle: Option<string>,
    preview_text: string,
    preview_image: Option<string>,
    tags: Option<seq<string>>,
    goes_live_at: Option<Timestamp>,
    series_slug: Option<string>)

  datatype Series = Series(
    slug: string,
    title: string,
    description: Option<string>,
    preview_image: Option<string>,
    goes_live_at: Option<Timestamp>,
    posts: seq<SeriesPostSummary>)

  datatype SeriesSummary = SeriesSummary(
    slug: string,
    title: string,
    description: Option<string>,
    preview_image: Option<string>,
    goes_live_at: Option<Timestamp>,
    post_count: nat)

  datatype SeriesPostSummary = SeriesPostSummary(
    slug: string,
    title: string,
    subtitle: Option<string>,
    preview_text: string,
    preview_image: Option<string>,
    tags: Option<seq<string>>,
    goes_live_at: Option<Timestamp>,
    order: Option<i32>)

  datatype Asset = Asset(key: string, url: string, size: nat, last_modified: Timestamp)

  /** `ListOptions`; its derived `Default` is every flag false and no limit or offset. */
  datatype ListOptions = ListOptions(
    include_drafts: bool,
    include_scheduled: bool,
    limit: Option<nat>,
    offset: Option<nat>)

  const DefaultListOptions := ListOptions(false, false, None, None)

  datatype ListResult<T> = ListResult(items: seq<T>, total: nat, limit: nat, offset: nat)

  datatype AssetListOptions = AssetListOptions(limit: Option<nat>, continuation_token: Option<string>)

  datatype AssetListResult = AssetListResult(assets: seq<Asset>, next_continuation_token: Option<string>)

  datatype ValidationError = ValidationError(path: string, message: string)

  /** `From<&Post> for PostSummary`: everything but the content and the series order. */
  function ToSummary(p: Post): PostSummary {
    PostSummary(p.slug, p.title, p.subtitle, p.preview_text, p.preview_image, p.tags,
                p.goes_live_at, p.series_slug)
  }

  /** The post a summary was taken from, given back its content and order. */
  function WithBody(s: PostSummary, content: string, order: Option<i32>): Post {
    Post(s.slug, s.title, s.subtitle, s.preview_text, s.preview_image, s.tags,
         s.goes_live_at, s.series_slug, content, order)
  }

  /** A summary loses exactly the content and the order: both are all that is needed to get the post back. */
  lemma SummaryKeepsAllButBody(p: Post, s: PostSummary, content: string, order: Option<i32>)
    ensures WithBody(ToSummary(p), p.content, p.order) == p
    ensures ToSummary(WithBody(s, content, order)) == s
  {
  }

  /** The JSON keys `Serialize for Post` writes, in declaration order; `order` is skipped when it is None. */
  function PostJsonKeys(p: Post): (keys: seq<string>)
    ensures "order" in keys <==> p.order.Some?
    ensures "content" in keys && "slug" in keys
  {
    ["slug", "title", "subtitle", "preview_text", "preview_image", "tags", "goes_live_at", "series_slug", "content"]
    + (if p.order.Some? then ["order"] else [])
  }
}

/**
 * riley-core's content cache (`content.rs`): loading posts and series from the content
 * directory, the ETag over the loaded content, the list/get queries with visibility,
 * ordering and pagination, and validation.
 *
 * The directory tree is a value: an entry that `read_dir` could not read is `Unreadable`,
 * a name that is not valid UTF-8 is `None`, and the order of a directory's entries is the
 * order `read_dir` yields them in. TOML deserialisation and SHA-256 are parameters.
 * `HashMap` iteration order, which Rust leaves unspecified, is an explicit `order` argument.
 */
module Content {
  import opened Wrappers
  import opened Text
  import opened Types
  import opened Sorting

  // ---------------------------------------------------------------- file tree

  datatype Node = File(text: Option<string>) | Dir(entries: seq<Entry>)

  datatype Entry = Entry(name: Option<string>, node: Node) | Unreadable

  /** The deserialisers `toml::from_str` stands for; None is a parse error. */
  datatype Toml = Toml(post: string -> Option<PostConfig>, series: string -> Option<SeriesConfig>)

  datatype ContentError = Io(path: string) | Parse(path: string) | InvalidName(path: string)

  const ConfigToml := "config.toml"
  const ContentMdx := "content.mdx"
  const SeriesToml := "series.toml"

  function Lookup(entries: seq<Entry>, name: string): (r: Option<Node>)
    ensures r.Some? ==> exists i :: 0 <= i < |entries| && entries[i] == Entry(Some(name), r.value)
  {
    if entries == [] then None
    else if entries[0].Entry? && entries[0].name == Some(name) then Some(entries[0].node)
    else
      var r := Lookup(entries[1..], name);
      assert r.Some? ==> exists i :: 0 < i < |entries| && entries[i] == Entry(Some(name), r.value) by {
        if r.Some? {
          var i :| 0 <= i < |entries[1..]| && entries[1..][i] == Entry(Some(name), r.value);
          assert entries[i + 1] == entries[1..][i];
        }
      }
      r
  }

  /** `path.join(name).exists()`. */
  predicate Exists(entries: seq<Entry>, name: string) { Lookup(entries, name).Some? }

  /** `fs::read_to_string(path.join(name))`: fails on a missing file, a directory or invalid UTF-8. */
  function ReadToString(entries: seq<Entry>, name: string): Option<string> {
    match Lookup(entries, name)
    case Some(File(Some(text))) => Some(text)
    case _ => None
  }

  // ---------------------------------------------------------------- loading a post

  /** `load_post`: read and parse `config.toml`, then read `content.mdx`. */
  function LoadPost(dir: string, entries: seq<Entry>, slug: string, seriesSlug: Option<string>, toml: Toml)
    : (r: Result<Post, ContentError>)
    ensures r.Ok? <==>
      ReadToString(entries, ConfigToml).Some? && toml.post(ReadToString(entries, ConfigToml).value).Some?
      && ReadToString(entries, ContentMdx).Some?
    ensures r.Ok? ==>
      r.value.slug == slug && r.value.series_slug == seriesSlug
      && r.value.content == ReadToString(entries, ContentMdx).value
      && r.value.title == toml.post(ReadToString(entries, ConfigToml).value).value.title
      && r.value.order == toml.post(ReadToString(entries, ConfigToml).value).value.order
  {
    match ReadToString(entries, ConfigToml)
    case None => Err(Io(dir + "/" + ConfigToml))
    case Some(configText) =>
      match toml.post(configText)
      case None => Err(Parse(dir + "/" + ConfigToml))
      case Some(c) =>
        match ReadToString(entries, ContentMdx)
        case None => Err(Io(dir + "/" + ContentMdx))
        case Some(content) =>
          Ok(Post(slug, c.title, c.subtitle, c.preview_text, c.preview_image, c.tags, c.goes_live_at,
                  seriesSlug, content, c.order))
  }

  predicate HasPostFiles(entries: seq<Entry>) { Exists(entries, ConfigToml) && Exists(entries, ContentMdx) }

  // ---------------------------------------------------------------- loading a series

  datatype SeriesData = SeriesData(slug: string, config: SeriesConfig, post_slugs: seq<string>)

  datatype MemberOutcome = Skip | Member(post: Post) | Fail(error: ContentError)

  /** What one entry of a series directory contributes: `entry?`, the name check and `load_post(..)?` fail the series. */
  function MemberStep(e: Entry, seriesSlug: string, toml: Toml): (r: MemberOutcome)
    ensures r.Member? ==> r.post.series_slug == Some(seriesSlug) && e.Entry? && e.name == Some(r.post.slug)
  {
    match e
    case Unreadable => Fail(Io(seriesSlug))
    case Entry(name, node) =>
      if !node.Dir? then Skip
      else if name.None? then Fail(InvalidName(seriesSlug))
      else if HasPostFiles(node.entries) then
        match LoadPost(seriesSlug + "/" + name.value, node.entries, name.value, Some(seriesSlug), toml)
        case Ok(p) => Member(p)
        case Err(err) => Fail(err)
      else Skip
  }

  function Prepend(ps: seq<Post>, r: Result<seq<Post>, ContentError>): Result<seq<Post>, ContentError> {
    match r
    case Ok(qs) => Ok(ps + qs)
    case Err(e) => Err(e)
  }

  /** The member posts of a series directory in `read_dir` order, or the first failure among them. */
  function Members(es: seq<Entry>, seriesSlug: string, toml: Toml): Result<seq<Post>, ContentError>
    decreases |es|
  {
    if es == [] then Ok([])
    else match MemberStep(es[0], seriesSlug, toml)
      case Fail(e) => Err(e)
      case Skip => Members(es[1..], seriesSlug, toml)
      case Member(p) => Prepend([p], Members(es[1..], seriesSlug, toml))
  }

  /** The series comparator: explicit `order` first and ascending, then unordered members by slug. */
  predicate MemberBefore(a: Post, b: Post) {
    match (a.order, b.order)
    case (Some(oa), Some(ob)) => oa <= ob
    case (Some(_), None) => true
    case (None, Some(_)) => false
    case (None, None) => LexLe(a.slug, b.slug)
  }

  lemma MemberBeforeIsPreorder()
    ensures TotalPreorder(MemberBefore)
  {
    forall a: Post, b: Post ensures MemberBefore(a, b) || MemberBefore(b, a) {
      LexLeTotal(a.slug, b.slug);
    }
    forall a: Post, b: Post, c: Post | MemberBefore(a, b) && MemberBefore(b, c) ensures MemberBefore(a, c) {
      if a.order.None? && b.order.None? && c.order.None? { LexLeTransitive(a.slug, b.slug, c.slug); }
    }
  }

  function Slugs(ps: seq<Post>): (r: seq<string>)
    ensures |r| == |ps| && forall i :: 0 <= i < |ps| ==> r[i] == ps[i].slug
  {
    if ps == [] then [] else [ps[0].slug] + Slugs(ps[1..])
  }

  /** What `load_series` returns: the series record and its members sorted by `MemberBefore`. */
  function LoadSeriesSpec(entries: seq<Entry>, slug: string, toml: Toml): Result<(SeriesData, seq<Post>), ContentError> {
    match ReadToString(entries, SeriesToml)
    case None => Err(Io(slug + "/" + SeriesToml))
    case Some(text) =>
      match toml.series(text)
      case None => Err(Parse(slug + "/" + SeriesToml))
      case Some(c) =>
        match Members(entries, slug, toml)
        case Err(e) => Err(e)
        case Ok(ps) =>
          MemberBeforeIsPreorder();
          var sorted := SortBy(ps, MemberBefore);
          Ok((SeriesData(slug, c, Slugs(sorted)), sorted))
  }

  /** `load_series`: any failing member aborts the whole series. */
  method LoadSeries(entries: seq<Entry>, slug: string, toml: Toml) returns (r: Result<(SeriesData, seq<Post>), ContentError>)
    ensures r == LoadSeriesSpec(entries, slug, toml)
  {
    var text := ReadToString(entries, SeriesToml);
    if text.None? {
      return Err(Io(slug + "/" + SeriesToml));
    }
    var config := toml.series(text.value);
    if config.None? {
      return Err(Parse(slug + "/" + SeriesToml));
    }
    var members := CollectMembers(entries, slug, toml);
    if members.Err? {
      return Err(members.error);
    }
    MemberBeforeIsPreorder();
    var sorted := SortBy(members.value, MemberBefore);
    var postSlugs := Slugs(sorted);
    return Ok((SeriesData(slug, config.value, postSlugs), sorted));
  }

  /** The loop of `load_series` over the series directory: the member posts in `read_dir` order, or the first failure. */
  method CollectMembers(entries: seq<Entry>, slug: string, toml: Toml) returns (r: Result<seq<Post>, ContentError>)
    ensures r == Members(entries, slug, toml)
  {
    var posts: seq<Post> := [];
    var i := 0;
    assert entries[0..] == entries;
    PrependNothing(Members(entries, slug, toml));
    while i < |entries|
      invariant 0 <= i <= |entries|
      invariant Members(entries, slug, toml) == Prepend(posts, Members(entries[i..], slug, toml))
    {
      MembersAt(entries, i, slug, toml);
      match MemberStep(entries[i], slug, toml) {
        case Fail(e) =>
          return Err(e);
        case Skip =>
        case Member(p) =>
          PrependTwice(posts, p, Members(entries[i + 1..], slug, toml));
          posts := posts + [p];
      }
      i := i + 1;
    }
    assert entries[|entries|..] == [];
    assert posts + [] == posts;
    return Ok(posts);
  }

  lemma PrependNothing(r: Result<seq<Post>, ContentError>)
    ensures Prepend([], r) == r
  {
    if r.Ok? { assert [] + r.value == r.value; }
  }

  lemma PrependTwice(ps: seq<Post>, p: Post, r: Result<seq<Post>, ContentError>)
    ensures Prepend(ps, Prepend([p], r)) == Prepend(ps + [p], r)
  {
    if r.Ok? { assert ps + ([p] + r.value) == (ps + [p]) + r.value; }
  }

  /** `Members` of a suffix, unfolded once. */
  lemma MembersAt(es: seq<Entry>, i: nat, seriesSlug: string, toml: Toml)
    requires i < |es|
    ensures Members(es[i..], seriesSlug, toml) ==
      match MemberStep(es[i], seriesSlug, toml)
      case Fail(e) => Err(e)
      case Skip => Members(es[i + 1..], seriesSlug, toml)
      case Member(p) => Prepend([p], Members(es[i + 1..], seriesSlug, toml))
  {
    assert es[i..][0] == es[i] && es[i..][1..] == es[i + 1..];
  }

  lemma {:induction false} MembersFailure(es: seq<Entry>, seriesSlug: string, toml: Toml, i: nat)
    requires i < |es| && MemberStep(es[i], seriesSlug, toml).Fail?
    ensures Members(es, seriesSlug, toml).Err?
    decreases |es|
  {
    if i > 0 {
      assert es[1..][i - 1] == es[i];
      MembersFailure(es[1..], seriesSlug, toml, i - 1);
    }
  }

  /** One unreadable entry, nameless directory or failing member post makes the whole series fail to load. */
  lemma MemberFailureAbortsSeries(entries: seq<Entry>, slug: string, toml: Toml, i: nat)
    requires i < |entries| && MemberStep(entries[i], slug, toml).Fail?
    ensures LoadSeriesSpec(entries, slug, toml).Err?
  {
    MembersFailure(entries, slug, toml, i);
  }

  lemma {:induction false} MembersAreOfSeries(es: seq<Entry>, seriesSlug: string, toml: Toml)
    ensures Members(es, seriesSlug, toml).Ok? ==>
      forall p :: p in Members(es, seriesSlug, toml).value ==> p.series_slug == Some(seriesSlug)
    decreases |es|
  {
    if es != [] {
      MembersAreOfSeries(es[1..], seriesSlug, toml);
    }
  }

  /** A loaded series is keyed by its slug, lists its members in member order, and every member points back to it. */
  lemma LoadedSeriesShape(entries: seq<Entry>, slug: string, toml: Toml)
    requires LoadSeriesSpec(entries, slug, toml).Ok?
    ensures var (data, posts) := LoadSeriesSpec(entries, slug, toml).value;
      data.slug == slug
      && |data.post_slugs| == |posts|
      && (forall i :: 0 <= i < |posts| ==> data.post_slugs[i] == posts[i].slug && posts[i].series_slug == Some(slug))
      && Sorted(posts, MemberBefore)
      && multiset(posts) == multiset(Members(entries, slug, toml).value)
  {
    var (data, posts) := LoadSeriesSpec(entries, slug, toml).value;
    MembersAreOfSeries(entries, slug, toml);
    forall i | 0 <= i < |posts| ensures posts[i].series_slug == Some(slug) {
      assert posts[i] in multiset(posts);
    }
  }

  // ---------------------------------------------------------------- loading the content directory

  datatype LoadState = LoadState(posts: map<string, Post>, series: map<string, SeriesData>, errors: nat)

  const Initial := LoadState(map[], map[], 0)

  /** Every post of `ps` inserted in turn, later ones replacing earlier ones with the same slug. */
  function InsertAll(m: map<string, Post>, ps: seq<Post>): map<string, Post>
    decreases |ps|
  {
    if ps == [] then m else InsertAll(m[ps[0].slug := ps[0]], ps[1..])
  }

  /** What one entry of the content directory does to the maps being built and the error count. */
  function LoadStep(st: LoadState, e: Entry, toml: Toml): LoadState {
    match e
    case Unreadable => st.(errors := st.errors + 1)
    case Entry(name, node) =>
      if !node.Dir? then st
      else if name.None? then st.(errors := st.errors + 1)
      else if Exists(node.entries, SeriesToml) then
        match LoadSeriesSpec(node.entries, name.value, toml)
        case Ok((data, members)) =>
          st.(series := st.series[name.value := data], posts := InsertAll(st.posts, members))
        case Err(_) => st.(errors := st.errors + 1)
      else if HasPostFiles(node.entries) then
        match LoadPost(name.value, node.entries, name.value, None, toml)
        case Ok(p) => st.(posts := st.posts[name.value := p])
        case Err(_) => st.(errors := st.errors + 1)
      else st
  }

  function LoadFold(st: LoadState, es: seq<Entry>, toml: Toml): LoadState
    decreases |es|
  {
    if es == [] then st else LoadFold(LoadStep(st, es[0], toml), es[1..], toml)
  }

  datatype ContentCache = ContentCache(posts: map<string, Post>, series: map<string, SeriesData>, etag: string)

  /** What `ContentCache::load` yields for the content directory `root` (None when it does not exist). */
  ghost function LoadSpec(root: Option<Node>, toml: Toml, sha: string -> seq<byte>): Result<ContentCache, ContentError> {
    match root
    case None => Ok(ContentCache(map[], map[], EtagOf(map[], map[], sha)))
    case Some(File(_)) => Err(Io("."))
    case Some(Dir(entries)) =>
      var st := LoadFold(Initial, entries, toml);
      Ok(ContentCache(st.posts, st.series, EtagOf(st.posts, st.series, sha)))
  }

  /** `ContentCache::load`. */
  method Load(root: Option<Node>, toml: Toml, sha: string -> seq<byte>) returns (r: Result<ContentCache, ContentError>)
    ensures r == LoadSpec(root, toml, sha)
  {
    if root.None? {
      var etag := ComputeEtag(map[], map[], sha);
      return Ok(ContentCache(map[], map[], etag));
    }
    if root.value.File? {
      return Err(Io("."));
    }
    var entries := root.value.entries;
    var posts: map<string, Post> := map[];
    var series: map<string, SeriesData> := map[];
    var errors: nat := 0;
    var i := 0;
    while i < |entries|
      invariant 0 <= i <= |entries|
      invariant LoadFold(Initial, entries, toml) == LoadFold(LoadState(posts, series, errors), entries[i..], toml)
    {
      assert entries[i..][1..] == entries[i + 1..];
      ghost var before := LoadState(posts, series, errors);
      match entries[i] {
        case Unreadable =>
          errors := errors + 1;
        case Entry(name, node) =>
          if node.Dir? {
            if name.None? {
              errors := errors + 1;
            } else if Exists(node.entries, SeriesToml) {
              var loaded := LoadSeries(node.entries, name.value, toml);
              match loaded {
                case Ok((data, members)) =>
                  series := series[name.value := data];
                  ghost var start := posts;
                  var j := 0;
                  while j < |members|
                    invariant 0 <= j <= |members|
                    invariant InsertAll(start, members) == InsertAll(posts, members[j..])
                  {
                    assert members[j..][1..] == members[j + 1..];
                    posts := posts[members[j].slug := members[j]];
                    j := j + 1;
                  }
                case Err(_) =>
                  errors := errors + 1;
              }
            } else if Exists(node.entries, ConfigToml) && Exists(node.entries, ContentMdx) {
              var p := LoadPost(name.value, node.entries, name.value, None, toml);
              if p.Ok? {
                posts := posts[name.value := p.value];
              } else {
                errors := errors + 1;
              }
            }
          }
      }
      assert LoadState(posts, series, errors) == LoadStep(before, entries[i], toml);
      i := i + 1;
    }
    var etag := ComputeEtag(posts, series, sha);
    return Ok(ContentCache(posts, series, etag));
  }

  // ---------------------------------------------------------------- properties of loading

  /**
   * What holds of every loaded cache: posts and series are keyed by their own slug, a post that
   * names a series names a loaded one, and every slug a series lists is a loaded post.
   */
  ghost predicate Consistent(posts: map<string, Post>, series: map<string, SeriesData>) {
    (forall k :: k in posts ==> posts[k].slug == k)
    && (forall k :: k in series ==> series[k].slug == k)
    && (forall k :: k in posts && posts[k].series_slug.Some? ==> posts[k].series_slug.value in series)
    && (forall s, i :: s in series && 0 <= i < |series[s].post_slugs| ==> series[s].post_slugs[i] in posts)
  }

  lemma {:induction false} InsertAllEntries(m: map<string, Post>, ps: seq<Post>)
    ensures forall p :: p in ps ==> p.slug in InsertAll(m, ps)
    ensures forall k :: k in m ==> k in InsertAll(m, ps)
    ensures forall k :: k in InsertAll(m, ps) ==>
      (k in m && InsertAll(m, ps)[k] == m[k]) || (exists p :: p in ps && p.slug == k && InsertAll(m, ps)[k] == p)
    decreases |ps|
  {
    if ps != [] {
      var m' := m[ps[0].slug := ps[0]];
      InsertAllEntries(m', ps[1..]);
      assert InsertAll(m, ps) == InsertAll(m', ps[1..]);
      forall k | k in InsertAll(m, ps)
        ensures (k in m && InsertAll(m, ps)[k] == m[k]) || (exists p :: p in ps && p.slug == k && InsertAll(m, ps)[k] == p)
      {
        if exists p :: p in ps[1..] && p.slug == k && InsertAll(m', ps[1..])[k] == p {
          var p :| p in ps[1..] && p.slug == k && InsertAll(m', ps[1..])[k] == p;
          assert p in ps;
        } else if k == ps[0].slug {
          assert InsertAll(m, ps)[k] == ps[0] && ps[0] in ps;
        } else {
          assert k in m && InsertAll(m, ps)[k] == m[k];
        }
      }
    }
  }

  /** Adding a loaded series and its members keeps the cache consistent. */
  lemma AddSeriesConsistent(posts: map<string, Post>, series: map<string, SeriesData>, name: string,
                            data: SeriesData, members: seq<Post>)
    requires Consistent(posts, series)
    requires data.slug == name && |data.post_slugs| == |members|
    requires forall i :: 0 <= i < |members| ==> data.post_slugs[i] == members[i].slug && members[i].series_slug == Some(name)
    ensures Consistent(InsertAll(posts, members), series[name := data])
  {
    InsertAllEntries(posts, members);
    var posts' := InsertAll(posts, members);
    var series' := series[name := data];
    forall k | k in posts' ensures posts'[k].slug == k && (posts'[k].series_slug.Some? ==> posts'[k].series_slug.value in series') {
      if !(k in posts && posts'[k] == posts[k]) {
        var p :| p in members && p.slug == k && posts'[k] == p;
        var j :| 0 <= j < |members| && members[j] == p;
      }
    }
    forall s, i | s in series' && 0 <= i < |series'[s].post_slugs| ensures series'[s].post_slugs[i] in posts' {
      if s == name {
        assert members[i] in members;
      }
    }
  }

  lemma LoadStepConsistent(st: LoadState, e: Entry, toml: Toml)
    requires Consistent(st.posts, st.series)
    ensures Consistent(LoadStep(st, e, toml).posts, LoadStep(st, e, toml).series)
    ensures st.series.Keys <= LoadStep(st, e, toml).series.Keys && st.posts.Keys <= LoadStep(st, e, toml).posts.Keys
  {
    if e.Entry? && e.node.Dir? && e.name.Some? && Exists(e.node.entries, SeriesToml)
       && LoadSeriesSpec(e.node.entries, e.name.value, toml).Ok? {
      var name := e.name.value;
      var (data, members) := LoadSeriesSpec(e.node.entries, name, toml).value;
      LoadedSeriesShape(e.node.entries, name, toml);
      InsertAllEntries(st.posts, members);
      AddSeriesConsistent(st.posts, st.series, name, data, members);
    }
  }

  lemma {:induction false} LoadFoldConsistent(st: LoadState, es: seq<Entry>, toml: Toml)
    requires Consistent(st.posts, st.series)
    ensures Consistent(LoadFold(st, es, toml).posts, LoadFold(st, es, toml).series)
    decreases |es|
  {
    if es != [] {
      LoadStepConsistent(st, es[0], toml);
      LoadFoldConsistent(LoadStep(st, es[0], toml), es[1..], toml);
    }
  }

  /** Every cache `load` produces is `Consistent`. */
  lemma LoadedCacheConsistent(root: Option<Node>, toml: Toml, sha: string -> seq<byte>)
    requires LoadSpec(root, toml, sha).Ok?
    ensures Consistent(LoadSpec(root, toml, sha).value.posts, LoadSpec(root, toml, sha).value.series)
  {
    if root.Some? {
      LoadFoldConsistent(Initial, root.value.entries, toml);
    }
  }

  /** An entry of the content directory that is a series directory whose series loads. */
  predicate SeriesLoads(e: Entry, toml: Toml) {
    e.Entry? && e.node.Dir? && e.name.Some? && Exists(e.node.entries, SeriesToml)
    && LoadSeriesSpec(e.node.entries, e.name.value, toml).Ok?
  }

  /** One entry adds a series exactly when it is a series directory whose series loads. */
  lemma SeriesLoadedStep(st: LoadState, e: Entry, toml: Toml, s: string)
    ensures s in LoadStep(st, e, toml).series <==> s in st.series || (SeriesLoads(e, toml) && e.name.value == s)
  {
  }

  /** The series of the cache are exactly the series directories whose series loaded. */
  lemma {:induction false} SeriesLoadedIff(st: LoadState, es: seq<Entry>, toml: Toml, s: string)
    ensures s in LoadFold(st, es, toml).series <==>
      s in st.series || exists i :: 0 <= i < |es| && SeriesLoads(es[i], toml) && es[i].name.value == s
    decreases |es|
  {
    if es != [] {
      SeriesLoadedStep(st, es[0], toml, s);
      SeriesLoadedIff(LoadStep(st, es[0], toml), es[1..], toml, s);
      if exists i :: 0 <= i < |es[1..]| && SeriesLoads(es[1..][i], toml) && es[1..][i].name.value == s {
        var i :| 0 <= i < |es[1..]| && SeriesLoads(es[1..][i], toml) && es[1..][i].name.value == s;
        assert es[i + 1] == es[1..][i];
      }
      if exists i :: 0 <= i < |es| && SeriesLoads(es[i], toml) && es[i].name.value == s {
        var i :| 0 <= i < |es| && SeriesLoads(es[i], toml) && es[i].name.value == s;
        if i > 0 { assert es[1..][i - 1] == es[i]; }
      }
    }
  }

  /** An entry of the content directory that counts as a load error. */
  predicate Failing(e: Entry, toml: Toml) {
    match e
    case Unreadable => true
    case Entry(name, node) =>
      node.Dir? && (name.None? ||
        (if Exists(node.entries, SeriesToml) then LoadSeriesSpec(node.entries, name.value, toml).Err?
         else HasPostFiles(node.entries) && LoadPost(name.value, node.entries, name.value, None, toml).Err?))
  }

  function FailingCount(es: seq<Entry>, toml: Toml): nat {
    if es == [] then 0 else (if Failing(es[0], toml) then 1 else 0) + FailingCount(es[1..], toml)
  }

  /** Each failing entry adds exactly one to the error count, and nothing else does. */
  lemma {:induction false} ErrorsCountFailures(st: LoadState, es: seq<Entry>, toml: Toml)
    ensures LoadFold(st, es, toml).errors == st.errors + FailingCount(es, toml)
    decreases |es|
  {
    if es != [] {
      ErrorsCountFailures(LoadStep(st, es[0], toml), es[1..], toml);
    }
  }

  // ---------------------------------------------------------------- ETag

  predicate IsLeast(m: string, s: set<string>) { m in s && forall x :: x in s ==> LexLe(m, x) }

  lemma LeastExists(s: set<string>)
    requires s != {}
    ensures exists m :: IsLeast(m, s)
    decreases |s|
  {
    var x :| x in s;
    LexLeTotal(x, x);
    if s == {x} {
      assert IsLeast(x, s);
    } else {
      LeastExists(s - {x});
      var m :| IsLeast(m, s - {x});
      if LexLe(m, x) {
        assert IsLeast(m, s);
      } else {
        LexLeTotal(m, x);
        forall y | y in s ensures LexLe(x, y) {
          if y != x { LexLeTransitive(x, m, y); }
        }
        assert IsLeast(x, s);
      }
    }
  }

  ghost function Least(s: set<string>): (m: string)
    requires s != {}
    ensures IsLeast(m, s)
  {
    LeastExists(s);
    var m :| IsLeast(m, s); m
  }

  lemma LeastUnique(a: string, b: string, s: set<string>)
    requires IsLeast(a, s) && IsLeast(b, s)
    ensures a == b
  {
    LexLeAntisymmetric(a, b);
  }

  /** The keys in ascending order (`keys().collect()` then `sort()`). */
  ghost function SortedKeys(s: set<string>): seq<string>
    decreases |s|
  {
    if s == {} then [] else [Least(s)] + SortedKeys(s - {Least(s)})
  }

  ghost predicate NoDup<T>(s: seq<T>) {
    forall i, j :: 0 <= i < j < |s| ==> s[i] != s[j]
  }

  lemma NoDupTail<T>(s: seq<T>)
    requires s != [] && NoDup(s)
    ensures NoDup(s[1..]) && s[0] !in s[1..]
  {
    var rest := s[1..];
    forall i, j | 0 <= i < j < |rest| ensures rest[i] != rest[j] { assert rest[i] == s[i + 1] && rest[j] == s[j + 1]; }
    forall i | 0 <= i < |rest| ensures rest[i] != s[0] { assert rest[i] == s[i + 1]; }
  }

  lemma {:induction false} SortedKeysEnumerate(s: set<string>)
    ensures forall k :: k in SortedKeys(s) <==> k in s
    ensures NoDup(SortedKeys(s))
    decreases |s|
  {
    if s != {} {
      var m := Least(s);
      SortedKeysEnumerate(s - {m});
      var r := SortedKeys(s);
      forall i, j | 0 <= i < j < |r| ensures r[i] != r[j] {
        if i == 0 { assert r[j] in SortedKeys(s - {m}); }
      }
    }
  }

  method SortKeys(keys: set<string>) returns (ks: seq<string>)
    ensures ks == SortedKeys(keys)
  {
    ks := [];
    var rest := keys;
    while rest != {}
      invariant ks + SortedKeys(rest) == SortedKeys(keys)
      decreases |rest|
    {
      LeastExists(rest);
      var m :| IsLeast(m, rest);
      LeastUnique(m, Least(rest), rest);
      assert ks + SortedKeys(rest) == (ks + [m]) + SortedKeys(rest - {m});
      ks := ks + [m];
      rest := rest - {m};
    }
    assert ks + [] == ks;
  }

  /** The bytes fed to the hasher for the posts: each key in turn followed by that post's content. */
  function PostPart(ks: seq<string>, posts: map<string, Post>): string {
    if ks == [] then []
    else
      var k := ks[|ks| - 1];
      PostPart(ks[..|ks| - 1], posts) + (if k in posts then k + posts[k].content else [])
  }

  /** The bytes fed to the hasher for the series: the keys alone. */
  function SeriesPart(ks: seq<string>): string {
    if ks == [] then [] else SeriesPart(ks[..|ks| - 1]) + ks[|ks| - 1]
  }

  /** Everything hashed into the ETag, with no length prefix or separator between the pieces. */
  ghost function EtagInput(posts: map<string, Post>, series: map<string, SeriesData>): string {
    PostPart(SortedKeys(posts.Keys), posts) + SeriesPart(SortedKeys(series.Keys))
  }

  ghost function EtagOf(posts: map<string, Post>, series: map<string, SeriesData>, sha: string -> seq<byte>): string {
    "\"" + Hex(sha(EtagInput(posts, series))) + "\""
  }

  /** `compute_etag`: the quoted lower-case hex SHA-256 of `EtagInput`. */
  method ComputeEtag(posts: map<string, Post>, series: map<string, SeriesData>, sha: string -> seq<byte>)
    returns (etag: string)
    ensures etag == EtagOf(posts, series, sha)
  {
    var postKeys := SortKeys(posts.Keys);
    var fed := FeedPosts([], postKeys, posts);
    assert fed == PostPart(postKeys, posts);
    var seriesKeys := SortKeys(series.Keys);
    fed := FeedSeries(fed, seriesKeys);
    assert fed == EtagInput(posts, series);
    etag := "\"" + Hex(sha(fed)) + "\"";
  }

  /** The hasher updates for the posts, in key order. */
  method FeedPosts(start: string, keys: seq<string>, posts: map<string, Post>) returns (fed: string)
    ensures fed == start + PostPart(keys, posts)
  {
    fed := start;
    for i := 0 to |keys|
      invariant fed == start + PostPart(keys[..i], posts)
    {
      assert keys[..i + 1][..i] == keys[..i];
      var key := keys[i];
      if key in posts {
        fed := fed + key;
        fed := fed + posts[key].content;
      }
    }
    assert keys[..|keys|] == keys;
  }

  /** The hasher updates for the series, in key order. */
  method FeedSeries(start: string, keys: seq<string>) returns (fed: string)
    ensures fed == start + SeriesPart(keys)
  {
    fed := start;
    for i := 0 to |keys|
      invariant fed == start + SeriesPart(keys[..i])
    {
      assert keys[..i + 1][..i] == keys[..i];
      fed := fed + keys[i];
    }
    assert keys[..|keys|] == keys;
  }

  lemma PrefixCancel(a: string, b: string, c: string)
    requires a + b == a + c
    ensures b == c
  {
    assert b == (a + b)[|a|..];
    assert c == (a + c)[|a|..];
  }

  lemma SuffixCancel(a: string, b: string, c: string)
    requires a + c == b + c
    ensures a == b
  {
    assert a == (a + c)[..|a|];
    assert b == (b + c)[..|b|];
  }

  lemma {:induction false} PostPartAgrees(ks: seq<string>, p1: map<string, Post>, p2: map<string, Post>)
    requires p1.Keys == p2.Keys
    requires forall k :: k in ks && k in p1 ==> p1[k].content == p2[k].content
    ensures PostPart(ks, p1) == PostPart(ks, p2)
  {
    if ks != [] {
      PostPartAgrees(ks[..|ks| - 1], p1, p2);
    }
  }

  lemma {:induction false} PostPartDiffers(ks: seq<string>, p1: map<string, Post>, p2: map<string, Post>, k: string)
    requires NoDup(ks) && k in ks
    requires p1.Keys == p2.Keys && k in p1
    requires forall j :: j in p1 && j != k ==> p1[j].content == p2[j].content
    requires p1[k].content != p2[k].content
    ensures PostPart(ks, p1) != PostPart(ks, p2)
  {
    var init := ks[..|ks| - 1];
    var last := ks[|ks| - 1];
    assert ks == init + [last];
    if last == k {
      assert k !in init;
      PostPartAgrees(init, p1, p2);
      if PostPart(ks, p1) == PostPart(ks, p2) {
        PrefixCancel(PostPart(init, p1), k + p1[k].content, k + p2[k].content);
        PrefixCancel(k, p1[k].content, p2[k].content);
      }
    } else {
      assert k in init;
      PostPartDiffers(init, p1, p2, k);
      if PostPart(ks, p1) == PostPart(ks, p2) {
        var piece := if last in p1 then last + p1[last].content else [];
        assert PostPart(ks, p2) == PostPart(init, p2) + piece;
        SuffixCancel(PostPart(init, p1), PostPart(init, p2), piece);
      }
    }
  }

  /** With the same keys, changing the content of one post changes what is hashed. */
  lemma EtagInputTracksContent(p1: map<string, Post>, p2: map<string, Post>, series: map<string, SeriesData>, k: string)
    requires p1.Keys == p2.Keys && k in p1
    requires forall j :: j in p1 && j != k ==> p1[j].content == p2[j].content
    requires p1[k].content != p2[k].content
    ensures EtagInput(p1, series) != EtagInput(p2, series)
  {
    SortedKeysEnumerate(p1.Keys);
    PostPartDiffers(SortedKeys(p1.Keys), p1, p2, k);
    if EtagInput(p1, series) == EtagInput(p2, series) {
      SuffixCancel(PostPart(SortedKeys(p1.Keys), p1), PostPart(SortedKeys(p1.Keys), p2), SeriesPart(SortedKeys(series.Keys)));
    }
  }

  /**
   * Because keys and contents are concatenated without a boundary, the cache holding post "ab"
   * with content "c" hashes the same bytes as the cache holding post "a" with content "bc".
   */
  lemma EtagInputCollision(ab: Post, a: Post)
    requires ab.content == "c" && a.content == "bc"
    ensures EtagInput(map["ab" := ab], map[]) == EtagInput(map["a" := a], map[]) == "abc"
  {
    assert map["ab" := ab].Keys == {"ab"};
    assert map["a" := a].Keys == {"a"};
    assert Least({"ab"}) == "ab";
    assert SortedKeys({"ab"}) == ["ab"];
    assert Least({"a"}) == "a";
    assert SortedKeys({"a"}) == ["a"];
    assert SortedKeys({}) == [];
    assert ["ab"][..0] == [] && ["a"][..0] == [];
    assert PostPart(["ab"], map["ab" := ab]) == "ab" + "c";
    assert PostPart(["a"], map["a" := a]) == "a" + "bc";
  }

  // ---------------------------------------------------------------- queries

  const DefaultPageSize: nat := 50
  const MaxPageSize: nat := 500

  function Min(a: int, b: int): int { if a <= b then a else b }

  /** `opts.limit.unwrap_or(50).min(500)`. */
  function PageLimit(limit: Option<nat>): (r: nat)
    ensures r <= MaxPageSize
    ensures limit.None? ==> r == DefaultPageSize
    ensures limit.Some? && limit.value <= MaxPageSize ==> r == limit.value
    ensures limit.Some? && limit.value > MaxPageSize ==> r == MaxPageSize
  {
    Min(limit.GetOr(DefaultPageSize), MaxPageSize)
  }

  /** `skip(offset).take(limit)`. */
  function Page<T>(s: seq<T>, offset: nat, limit: nat): (r: seq<T>)
    ensures |r| == Min(limit, if offset <= |s| then |s| - offset else 0)
    ensures forall i :: 0 <= i < |r| ==> r[i] == s[offset + i]
  {
    if offset >= |s| then [] else s[offset..Min(|s|, offset + limit)]
  }

  /** `is_visible`: drafts need `include_drafts`, future dates need `include_scheduled`, the rest is live. */
  predicate IsVisible(goesLiveAt: Option<Timestamp>, opts: ListOptions, now: Timestamp) {
    match goesLiveAt
    case None => opts.include_drafts
    case Some(date) => if date > now then opts.include_scheduled else true
  }

  /** With neither flag only live content is visible; with both, everything. */
  lemma VisibilityByFlags(d: Option<Timestamp>, opts: ListOptions, now: Timestamp)
    ensures !opts.include_drafts && !opts.include_scheduled ==> (IsVisible(d, opts, now) <==> d.Some? && d.value <= now)
    ensures opts.include_drafts && opts.include_scheduled ==> IsVisible(d, opts, now)
  {
  }

  /** The list order of dated-or-not items: dated first, newest first; undated after, by slug. */
  predicate DatedFirst(da: Option<Timestamp>, sa: string, db: Option<Timestamp>, sb: string) {
    match (da, db)
    case (Some(a), Some(b)) => a >= b
    case (Some(_), None) => true
    case (None, Some(_)) => false
    case (None, None) => LexLe(sa, sb)
  }

  /**
   * The comparator of `list_posts` and `list_series` exactly as written: it matches on `(b, a)`,
   * so when `b` is dated and `a` is not it answers `Less` and the undated `a` is placed first.
   * `a` may precede `b` when the answer is not `Greater`.
   */
  predicate UndatedFirst(da: Option<Timestamp>, sa: string, db: Option<Timestamp>, sb: string) {
    match (db, da)
    case (Some(bd), Some(ad)) => bd <= ad
    case (Some(_), None) => true
    case (None, Some(_)) => false
    case (None, None) => LexLe(sa, sb)
  }

  /** The order `list_posts` sorts with. */
  predicate PostBeforeAsWritten(a: Post, b: Post) {
    UndatedFirst(a.goes_live_at, a.slug, b.goes_live_at, b.slug)
  }

  /** The order `list_series` sorts with. */
  predicate SeriesBeforeAsWritten(a: SeriesData, b: SeriesData) {
    UndatedFirst(a.config.goes_live_at, a.slug, b.config.goes_live_at, b.slug)
  }

  /** The posts order as the comment above the comparator intends: newest first, drafts at the end. */
  predicate PostBefore(a: Post, b: Post) {
    DatedFirst(a.goes_live_at, a.slug, b.goes_live_at, b.slug)
  }

  /** The series order the intended posts order implies: newest first, undated at the end. */
  predicate SeriesBefore(a: SeriesData, b: SeriesData) {
    DatedFirst(a.config.goes_live_at, a.slug, b.config.goes_live_at, b.slug)
  }

  /** Between two dated items the order as written and the intended order agree. */
  lemma DatedOrdersAgree(da: Option<Timestamp>, sa: string, db: Option<Timestamp>, sb: string)
    requires da.Some? && db.Some?
    ensures UndatedFirst(da, sa, db, sb) <==> DatedFirst(da, sa, db, sb)
  {
  }

  lemma DatedFirstIsPreorder(da: Option<Timestamp>, sa: string, db: Option<Timestamp>, sb: string, dc: Option<Timestamp>, sc: string)
    ensures DatedFirst(da, sa, db, sb) || DatedFirst(db, sb, da, sa)
    ensures DatedFirst(da, sa, db, sb) && DatedFirst(db, sb, dc, sc) ==> DatedFirst(da, sa, dc, sc)
  {
    LexLeTotal(sa, sb);
    if DatedFirst(da, sa, db, sb) && DatedFirst(db, sb, dc, sc) && da.None? && db.None? && dc.None? {
      LexLeTransitive(sa, sb, sc);
    }
  }

  lemma PostBeforeIsPreorder()
    ensures TotalPreorder(PostBefore)
  {
    forall a: Post, b: Post, c: Post
      ensures PostBefore(a, b) || PostBefore(b, a)
      ensures PostBefore(a, b) && PostBefore(b, c) ==> PostBefore(a, c)
    {
      DatedFirstIsPreorder(a.goes_live_at, a.slug, b.goes_live_at, b.slug, c.goes_live_at, c.slug);
    }
  }

  lemma SeriesBeforeIsPreorder()
    ensures TotalPreorder(SeriesBefore)
  {
    forall a: SeriesData, b: SeriesData, c: SeriesData
      ensures SeriesBefore(a, b) || SeriesBefore(b, a)
      ensures SeriesBefore(a, b) && SeriesBefore(b, c) ==> SeriesBefore(a, c)
    {
      DatedFirstIsPreorder(a.config.goes_live_at, a.slug, b.config.goes_live_at, b.slug, c.config.goes_live_at, c.slug);
    }
  }

  lemma UndatedFirstIsPreorder(da: Option<Timestamp>, sa: string, db: Option<Timestamp>, sb: string, dc: Option<Timestamp>, sc: string)
    ensures UndatedFirst(da, sa, db, sb) || UndatedFirst(db, sb, da, sa)
    ensures UndatedFirst(da, sa, db, sb) && UndatedFirst(db, sb, dc, sc) ==> UndatedFirst(da, sa, dc, sc)
  {
    LexLeTotal(sa, sb);
    if UndatedFirst(da, sa, db, sb) && UndatedFirst(db, sb, dc, sc) && da.None? && db.None? && dc.None? {
      LexLeTransitive(sa, sb, sc);
    }
  }

  /** The comparator as written is a total preorder too, so the stable sort is well defined. */
  lemma PostBeforeAsWrittenIsPreorder()
    ensures TotalPreorder(PostBeforeAsWritten)
  {
    forall a: Post, b: Post, c: Post
      ensures PostBeforeAsWritten(a, b) || PostBeforeAsWritten(b, a)
      ensures PostBeforeAsWritten(a, b) && PostBeforeAsWritten(b, c) ==> PostBeforeAsWritten(a, c)
    {
      UndatedFirstIsPreorder(a.goes_live_at, a.slug, b.goes_live_at, b.slug, c.goes_live_at, c.slug);
    }
  }

  lemma SeriesBeforeAsWrittenIsPreorder()
    ensures TotalPreorder(SeriesBeforeAsWritten)
  {
    forall a: SeriesData, b: SeriesData, c: SeriesData
      ensures SeriesBeforeAsWritten(a, b) || SeriesBeforeAsWritten(b, a)
      ensures SeriesBeforeAsWritten(a, b) && SeriesBeforeAsWritten(b, c) ==> SeriesBeforeAsWritten(a, c)
    {
      UndatedFirstIsPreorder(a.config.goes_live_at, a.slug, b.config.goes_live_at, b.slug, c.config.goes_live_at, c.slug);
    }
  }

  /** In any order the as-written comparator accepts, every undated post comes before every dated one. */
  lemma DraftsListedFirstAsWritten(s: seq<Post>)
    requires Sorted(s, PostBeforeAsWritten)
    ensures forall i, j :: 0 <= i < j < |s| && s[i].goes_live_at.Some? ==> s[j].goes_live_at.Some?
  {
    forall i, j | 0 <= i < j < |s| && s[i].goes_live_at.Some? ensures s[j].goes_live_at.Some? {
      assert PostBeforeAsWritten(s[i], s[j]);
    }
  }

  /** In any order the intended comparator accepts, every dated post comes before every undated one. */
  lemma DraftsListedLast(s: seq<Post>)
    requires Sorted(s, PostBefore)
    ensures forall i, j :: 0 <= i < j < |s| && s[i].goes_live_at.None? ==> s[j].goes_live_at.None?
  {
    forall i, j | 0 <= i < j < |s| && s[i].goes_live_at.None? ensures s[j].goes_live_at.None? {
      assert PostBefore(s[i], s[j]);
    }
  }

  /** Each key of `keys` exactly once. */
  ghost predicate Enumerates<T(!new)>(order: seq<T>, keys: set<T>) {
    NoDup(order) && forall k :: k in order <==> k in keys
  }

  /** `posts.values().filter(is_visible)` in the iteration order `order`. */
  function VisiblePosts(posts: map<string, Post>, order: seq<string>, opts: ListOptions, now: Timestamp): (r: seq<Post>)
    ensures forall p :: p in r ==> exists k :: k in posts && posts[k] == p && IsVisible(p.goes_live_at, opts, now)
  {
    if order == [] then []
    else
      var rest := VisiblePosts(posts, order[1..], opts, now);
      var k := order[0];
      if k in posts && IsVisible(posts[k].goes_live_at, opts, now) then [posts[k]] + rest else rest
  }

  ghost function VisibleKeys(posts: map<string, Post>, opts: ListOptions, now: Timestamp): set<string> {
    set k | k in posts && IsVisible(posts[k].goes_live_at, opts, now)
  }

  lemma {:induction false} VisiblePostsCount(posts: map<string, Post>, order: seq<string>, opts: ListOptions, now: Timestamp)
    requires NoDup(order)
    ensures |VisiblePosts(posts, order, opts, now)| ==
      |set k | k in order && k in posts && IsVisible(posts[k].goes_live_at, opts, now)|
  {
    if order != [] {
      var rest := order[1..];
      NoDupTail(order);
      VisiblePostsCount(posts, rest, opts, now);
      var all := set k | k in order && k in posts && IsVisible(posts[k].goes_live_at, opts, now);
      var tail := set k | k in rest && k in posts && IsVisible(posts[k].goes_live_at, opts, now);
      assert order[0] !in rest;
      if order[0] in posts && IsVisible(posts[order[0]].goes_live_at, opts, now) {
        assert all == {order[0]} + tail;
      } else {
        assert all == tail;
      }
    }
  }

  /** A key's post that some other key also holds cannot be told apart in a list of posts. */
  ghost predicate OnlyKeyOf(posts: map<string, Post>, k: string)
    requires k in posts
  {
    forall k' :: k' in posts && k' != k ==> posts[k'] != posts[k]
  }

  /** The filter drops no visible post: every visible key of `order` has its post kept. */
  lemma {:induction false} VisiblePostsComplete(posts: map<string, Post>, order: seq<string>, opts: ListOptions,
                                                now: Timestamp, k: string)
    requires k in order && k in posts && IsVisible(posts[k].goes_live_at, opts, now)
    ensures posts[k] in VisiblePosts(posts, order, opts, now)
  {
    if order[0] != k {
      VisiblePostsComplete(posts, order[1..], opts, now, k);
    }
  }

  /** A key missing from `order` contributes nothing to the filter. */
  lemma {:induction false} VisiblePostsAbsent(posts: map<string, Post>, order: seq<string>, opts: ListOptions,
                                              now: Timestamp, k: string)
    requires k in posts && OnlyKeyOf(posts, k) && k !in order
    ensures posts[k] !in VisiblePosts(posts, order, opts, now)
  {
    if order != [] {
      VisiblePostsAbsent(posts, order[1..], opts, now, k);
    }
  }

  /** Each visible post whose key is the only one holding it is kept exactly once. */
  lemma {:induction false} VisiblePostsOnce(posts: map<string, Post>, order: seq<string>, opts: ListOptions,
                                            now: Timestamp, k: string)
    requires NoDup(order) && k in order && k in posts && OnlyKeyOf(posts, k)
    requires IsVisible(posts[k].goes_live_at, opts, now)
    ensures multiset(VisiblePosts(posts, order, opts, now))[posts[k]] == 1
  {
    NoDupTail(order);
    var rest := VisiblePosts(posts, order[1..], opts, now);
    if order[0] == k {
      VisiblePostsAbsent(posts, order[1..], opts, now, k);
      assert VisiblePosts(posts, order, opts, now) == [posts[k]] + rest;
    } else {
      VisiblePostsOnce(posts, order[1..], opts, now, k);
    }
  }

  /**
   * The posts `list_posts` pages through: the visible ones, sorted stably by the comparator as
   * written, so every undated post precedes every dated one.
   */
  function ListedPosts(posts: map<string, Post>, order: seq<string>, opts: ListOptions, now: Timestamp): (r: seq<Post>)
    ensures Sorted(r, PostBeforeAsWritten)
    ensures multiset(r) == multiset(VisiblePosts(posts, order, opts, now))
    ensures forall i, j :: 0 <= i < j < |r| && r[i].goes_live_at.Some? ==> r[j].goes_live_at.Some?
  {
    PostBeforeAsWrittenIsPreorder();
    var r := SortBy(VisiblePosts(posts, order, opts, now), PostBeforeAsWritten);
    DraftsListedFirstAsWritten(r);
    r
  }

  /** The list the comment above the comparator describes: the same posts, drafts at the end. */
  function ListedPostsIntended(posts: map<string, Post>, order: seq<string>, opts: ListOptions, now: Timestamp): (r: seq<Post>)
    ensures Sorted(r, PostBefore)
    ensures multiset(r) == multiset(VisiblePosts(posts, order, opts, now))
    ensures forall i, j :: 0 <= i < j < |r| && r[i].goes_live_at.None? ==> r[j].goes_live_at.None?
  {
    PostBeforeIsPreorder();
    var r := SortBy(VisiblePosts(posts, order, opts, now), PostBefore);
    DraftsListedLast(r);
    r
  }

  /** Without drafts every visible post is dated, and the list as written is the intended one. */
  lemma LiveListUnaffected(posts: map<string, Post>, order: seq<string>, opts: ListOptions, now: Timestamp)
    requires !opts.include_drafts
    ensures ListedPosts(posts, order, opts, now) == ListedPostsIntended(posts, order, opts, now)
  {
    var visible := VisiblePosts(posts, order, opts, now);
    forall a, b | a in visible && b in visible ensures PostBeforeAsWritten(a, b) == PostBefore(a, b) {
      DatedOrdersAgree(a.goes_live_at, a.slug, b.goes_live_at, b.slug);
    }
    PostBeforeAsWrittenIsPreorder();
    PostBeforeIsPreorder();
    SortByAgrees(visible, PostBeforeAsWritten, PostBefore);
  }

  /** The two-post map of the example below, with drafts included: both posts are visible. */
  lemma TwoPostsVisible(live: Post, draft: Post)
    requires live.goes_live_at == Some(0) && draft.goes_live_at.None?
    ensures multiset(VisiblePosts(map["a" := live, "b" := draft], ["a", "b"], ListOptions(true, false, None, None), 0))
         == multiset{live, draft}
  {
    var posts := map["a" := live, "b" := draft];
    var opts := ListOptions(true, false, None, None);
    assert VisiblePosts(posts, [], opts, 0) == [];
    assert ["a", "b"][1..] == ["b"] && ["b"][1..] == [];
    assert VisiblePosts(posts, ["b"], opts, 0) == [draft];
    assert VisiblePosts(posts, ["a", "b"], opts, 0) == [live, draft];
  }

  /** Of two distinct elements, a two-element permutation that does not start with `x` starts with `y`. */
  lemma PairOrder<T>(r: seq<T>, x: T, y: T)
    requires multiset(r) == multiset{x, y} && x != y
    ensures |r| == 2 && (r == [x, y] || r == [y, x])
  {
    assert |r| == |multiset(r)| == 2;
    assert r[0] in multiset(r) && r[1] in multiset(r);
    assert r == [r[0], r[1]];
  }

  /** A live post and a draft: as written the draft is listed first, as intended it is listed last. */
  lemma DraftFirstExample(live: Post, draft: Post)
    requires live.goes_live_at == Some(0) && draft.goes_live_at.None?
    ensures ListedPosts(map["a" := live, "b" := draft], ["a", "b"], ListOptions(true, false, None, None), 0) == [draft, live]
    ensures ListedPostsIntended(map["a" := live, "b" := draft], ["a", "b"], ListOptions(true, false, None, None), 0) == [live, draft]
  {
    var posts := map["a" := live, "b" := draft];
    var opts := ListOptions(true, false, None, None);
    TwoPostsVisible(live, draft);
    PairOrder(ListedPosts(posts, ["a", "b"], opts, 0), live, draft);
    PairOrder(ListedPostsIntended(posts, ["a", "b"], opts, 0), live, draft);
  }

  function SummariesOf(ps: seq<Post>): (r: seq<PostSummary>)
    ensures |r| == |ps| && forall i :: 0 <= i < |ps| ==> r[i] == ToSummary(ps[i])
  {
    if ps == [] then [] else [ToSummary(ps[0])] + SummariesOf(ps[1..])
  }

  /** A list of summaries in the order as written: undated before dated, dated newest first, undated by slug. */
  predicate InListOrder(items: seq<PostSummary>) {
    forall i, j :: 0 <= i < j < |items| ==> UndatedFirst(items[i].goes_live_at, items[i].slug, items[j].goes_live_at, items[j].slug)
  }

  /** `list_posts`: filter, sort, then page; `total` counts every visible post. */
  function ListPosts(cache: ContentCache, opts: ListOptions, now: Timestamp, order: seq<string>): (r: ListResult<PostSummary>)
    requires Enumerates(order, cache.posts.Keys)
    ensures r.limit == PageLimit(opts.limit) && r.offset == opts.offset.GetOr(0)
    ensures r.total == |VisibleKeys(cache.posts, opts, now)|
    ensures |r.items| == Min(r.limit, if r.offset <= r.total then r.total - r.offset else 0)
    ensures forall i :: 0 <= i < |r.items| ==>
      exists k :: k in cache.posts && ToSummary(cache.posts[k]) == r.items[i]
                  && IsVisible(cache.posts[k].goes_live_at, opts, now)
    ensures InListOrder(r.items)
    ensures r.items == SummariesOf(Page(ListedPosts(cache.posts, order, opts, now), r.offset, r.limit))
  {
    var listed := ListedPosts(cache.posts, order, opts, now);
    var limit := PageLimit(opts.limit);
    var offset := opts.offset.GetOr(0);
    var items := SummariesOf(Page(listed, offset, limit));
    ListedPostsTotal(cache.posts, order, opts, now);
    PostPageVisible(cache.posts, order, opts, now, offset, limit);
    PostPageOrdered(cache.posts, order, opts, now, offset, limit);
    ListResult(items, |listed|, limit, offset)
  }

  lemma ListedPostsTotal(posts: map<string, Post>, order: seq<string>, opts: ListOptions, now: Timestamp)
    requires Enumerates(order, posts.Keys)
    ensures |ListedPosts(posts, order, opts, now)| == |VisibleKeys(posts, opts, now)|
  {
    VisiblePostsCount(posts, order, opts, now);
    assert (set k | k in order && k in posts && IsVisible(posts[k].goes_live_at, opts, now))
        == VisibleKeys(posts, opts, now);
    assert |multiset(ListedPosts(posts, order, opts, now))| == |multiset(VisiblePosts(posts, order, opts, now))|;
  }

  lemma PostPageVisible(posts: map<string, Post>, order: seq<string>, opts: ListOptions, now: Timestamp, offset: nat, limit: nat)
    ensures forall i :: 0 <= i < |SummariesOf(Page(ListedPosts(posts, order, opts, now), offset, limit))| ==>
      exists k :: k in posts
        && ToSummary(posts[k]) == SummariesOf(Page(ListedPosts(posts, order, opts, now), offset, limit))[i]
        && IsVisible(posts[k].goes_live_at, opts, now)
  {
    var visible := VisiblePosts(posts, order, opts, now);
    var listed := ListedPosts(posts, order, opts, now);
    var page := Page(listed, offset, limit);
    var items := SummariesOf(page);
    forall i | 0 <= i < |items|
      ensures exists k :: k in posts && ToSummary(posts[k]) == items[i] && IsVisible(posts[k].goes_live_at, opts, now)
    {
      var p := listed[offset + i];
      assert p in multiset(visible);
      assert p in visible;
      var k :| k in posts && posts[k] == p && IsVisible(p.goes_live_at, opts, now);
      assert items[i] == ToSummary(page[i]) == ToSummary(posts[k]);
    }
  }

  lemma PostPageOrdered(posts: map<string, Post>, order: seq<string>, opts: ListOptions, now: Timestamp, offset: nat, limit: nat)
    ensures InListOrder(SummariesOf(Page(ListedPosts(posts, order, opts, now), offset, limit)))
  {
    var listed := ListedPosts(posts, order, opts, now);
    var items := SummariesOf(Page(listed, offset, limit));
    forall i, j | 0 <= i < j < |items|
      ensures UndatedFirst(items[i].goes_live_at, items[i].slug, items[j].goes_live_at, items[j].slug)
    {
      assert PostBeforeAsWritten(listed[offset + i], listed[offset + j]);
    }
  }

  /** `get_post`. */
  function GetPost(cache: ContentCache, slug: string): (r: Option<Post>)
    ensures r.Some? <==> slug in cache.posts
    ensures r.Some? ==> r.value == cache.posts[slug]
  {
    if slug in cache.posts then Some(cache.posts[slug]) else None
  }

  /** In a loaded cache, `get_post` answers with the post of that very slug. */
  lemma GetPostFindsItsSlug(cache: ContentCache, slug: string)
    requires Consistent(cache.posts, cache.series)
    ensures GetPost(cache, slug).Some? ==> GetPost(cache, slug).value.slug == slug
  {
  }

  function VisibleSeries(series: map<string, SeriesData>, order: seq<string>, opts: ListOptions, now: Timestamp)
    : (r: seq<SeriesData>)
    ensures forall s :: s in r ==> exists k :: k in series && series[k] == s && IsVisible(s.config.goes_live_at, opts, now)
  {
    if order == [] then []
    else
      var rest := VisibleSeries(series, order[1..], opts, now);
      var k := order[0];
      if k in series && IsVisible(series[k].config.goes_live_at, opts, now) then [series[k]] + rest else rest
  }

  ghost function VisibleSeriesKeys(series: map<string, SeriesData>, opts: ListOptions, now: Timestamp): set<string> {
    set k | k in series && IsVisible(series[k].config.goes_live_at, opts, now)
  }

  lemma {:induction false} VisibleSeriesCount(series: map<string, SeriesData>, order: seq<string>, opts: ListOptions, now: Timestamp)
    requires NoDup(order)
    ensures |VisibleSeries(series, order, opts, now)| ==
      |set k | k in order && k in series && IsVisible(series[k].config.goes_live_at, opts, now)|
  {
    if order != [] {
      var rest := order[1..];
      NoDupTail(order);
      VisibleSeriesCount(series, rest, opts, now);
      var all := set k | k in order && k in series && IsVisible(series[k].config.goes_live_at, opts, now);
      var tail := set k | k in rest && k in series && IsVisible(series[k].config.goes_live_at, opts, now);
      assert order[0] !in rest;
      if order[0] in series && IsVisible(series[order[0]].config.goes_live_at, opts, now) {
        assert all == {order[0]} + tail;
      } else {
        assert all == tail;
      }
    }
  }

  /** The series filter drops no visible series: every visible key of `order` has its series kept. */
  lemma {:induction false} VisibleSeriesComplete(series: map<string, SeriesData>, order: seq<string>,
                                                 opts: ListOptions, now: Timestamp, k: string)
    requires k in order && k in series && IsVisible(series[k].config.goes_live_at, opts, now)
    ensures series[k] in VisibleSeries(series, order, opts, now)
  {
    if order[0] != k {
      VisibleSeriesComplete(series, order[1..], opts, now, k);
    }
  }

  /** A series key missing from `order` contributes nothing to the filter. */
  lemma {:induction false} VisibleSeriesAbsent(series: map<string, SeriesData>, order: seq<string>,
                                               opts: ListOptions, now: Timestamp, k: string)
    requires k in series && (forall k' :: k' in series && k' != k ==> series[k'] != series[k]) && k !in order
    ensures series[k] !in VisibleSeries(series, order, opts, now)
  {
    if order != [] {
      VisibleSeriesAbsent(series, order[1..], opts, now, k);
    }
  }

  /** Each visible series whose key is the only one holding it is kept exactly once. */
  lemma {:induction false} VisibleSeriesOnce(series: map<string, SeriesData>, order: seq<string>,
                                             opts: ListOptions, now: Timestamp, k: string)
    requires NoDup(order) && k in order && k in series
    requires forall k' :: k' in series && k' != k ==> series[k'] != series[k]
    requires IsVisible(series[k].config.goes_live_at, opts, now)
    ensures multiset(VisibleSeries(series, order, opts, now))[series[k]] == 1
  {
    NoDupTail(order);
    var rest := VisibleSeries(series, order[1..], opts, now);
    if order[0] == k {
      VisibleSeriesAbsent(series, order[1..], opts, now, k);
      assert VisibleSeries(series, order, opts, now) == [series[k]] + rest;
    } else {
      VisibleSeriesOnce(series, order[1..], opts, now, k);
    }
  }

  lemma UndatedSeriesListedFirst(s: seq<SeriesData>)
    requires Sorted(s, SeriesBeforeAsWritten)
    ensures forall i, j :: 0 <= i < j < |s| && s[i].config.goes_live_at.Some? ==> s[j].config.goes_live_at.Some?
  {
    forall i, j | 0 <= i < j < |s| && s[i].config.goes_live_at.Some? ensures s[j].config.goes_live_at.Some? {
      assert SeriesBeforeAsWritten(s[i], s[j]);
    }
  }

  lemma UndatedSeriesListedLast(s: seq<SeriesData>)
    requires Sorted(s, SeriesBefore)
    ensures forall i, j :: 0 <= i < j < |s| && s[i].config.goes_live_at.None? ==> s[j].config.goes_live_at.None?
  {
    forall i, j | 0 <= i < j < |s| && s[i].config.goes_live_at.None? ensures s[j].config.goes_live_at.None? {
      assert SeriesBefore(s[i], s[j]);
    }
  }

  /**
   * The series `list_series` pages through: the visible ones, sorted stably by the comparator as
   * written, so every undated series precedes every dated one.
   */
  function ListedSeries(series: map<string, SeriesData>, order: seq<string>, opts: ListOptions, now: Timestamp)
    : (r: seq<SeriesData>)
    ensures Sorted(r, SeriesBeforeAsWritten)
    ensures multiset(r) == multiset(VisibleSeries(series, order, opts, now))
    ensures forall i, j :: 0 <= i < j < |r| && r[i].config.goes_live_at.Some? ==> r[j].config.goes_live_at.Some?
  {
    SeriesBeforeAsWrittenIsPreorder();
    var r := SortBy(VisibleSeries(series, order, opts, now), SeriesBeforeAsWritten);
    UndatedSeriesListedFirst(r);
    r
  }

  /** The series list in the order of the posts comment: the same series, undated ones at the end. */
  function ListedSeriesIntended(series: map<string, SeriesData>, order: seq<string>, opts: ListOptions, now: Timestamp)
    : (r: seq<SeriesData>)
    ensures Sorted(r, SeriesBefore)
    ensures multiset(r) == multiset(VisibleSeries(series, order, opts, now))
    ensures forall i, j :: 0 <= i < j < |r| && r[i].config.goes_live_at.None? ==> r[j].config.goes_live_at.None?
  {
    SeriesBeforeIsPreorder();
    var r := SortBy(VisibleSeries(series, order, opts, now), SeriesBefore);
    UndatedSeriesListedLast(r);
    r
  }

  /** Without drafts every visible series is dated, and the list as written is the intended one. */
  lemma LiveSeriesListUnaffected(series: map<string, SeriesData>, order: seq<string>, opts: ListOptions, now: Timestamp)
    requires !opts.include_drafts
    ensures ListedSeries(series, order, opts, now) == ListedSeriesIntended(series, order, opts, now)
  {
    var visible := VisibleSeries(series, order, opts, now);
    forall a, b | a in visible && b in visible ensures SeriesBeforeAsWritten(a, b) == SeriesBefore(a, b) {
      DatedOrdersAgree(a.config.goes_live_at, a.slug, b.config.goes_live_at, b.slug);
    }
    SeriesBeforeAsWrittenIsPreorder();
    SeriesBeforeIsPreorder();
    SortByAgrees(visible, SeriesBeforeAsWritten, SeriesBefore);
  }

  function SeriesSummaryOf(s: SeriesData): SeriesSummary {
    SeriesSummary(s.slug, s.config.title, s.config.description, s.config.preview_image, s.config.goes_live_at, |s.post_slugs|)
  }

  function SeriesSummariesOf(ss: seq<SeriesData>): (r: seq<SeriesSummary>)
    ensures |r| == |ss| && forall i :: 0 <= i < |ss| ==> r[i] == SeriesSummaryOf(ss[i])
  {
    if ss == [] then [] else [SeriesSummaryOf(ss[0])] + SeriesSummariesOf(ss[1..])
  }

  /** Series summaries in the order as written: undated first, then dated newest first. */
  predicate SeriesInListOrder(items: seq<SeriesSummary>) {
    forall i, j :: 0 <= i < j < |items| ==> UndatedFirst(items[i].goes_live_at, items[i].slug, items[j].goes_live_at, items[j].slug)
  }

  /** `list_series`: the same filter, order and paging over series, each with its member count. */
  function ListSeries(cache: ContentCache, opts: ListOptions, now: Timestamp, order: seq<string>): (r: ListResult<SeriesSummary>)
    requires Enumerates(order, cache.series.Keys)
    ensures r.limit == PageLimit(opts.limit) && r.offset == opts.offset.GetOr(0)
    ensures r.total == |VisibleSeriesKeys(cache.series, opts, now)|
    ensures |r.items| == Min(r.limit, if r.offset <= r.total then r.total - r.offset else 0)
    ensures forall i :: 0 <= i < |r.items| ==>
      exists k :: k in cache.series && SeriesSummaryOf(cache.series[k]) == r.items[i]
                  && IsVisible(cache.series[k].config.goes_live_at, opts, now)
    ensures SeriesInListOrder(r.items)
    ensures r.items == SeriesSummariesOf(Page(ListedSeries(cache.series, order, opts, now), r.offset, r.limit))
  {
    var listed := ListedSeries(cache.series, order, opts, now);
    var limit := PageLimit(opts.limit);
    var offset := opts.offset.GetOr(0);
    var items := SeriesSummariesOf(Page(listed, offset, limit));
    ListedSeriesTotal(cache.series, order, opts, now);
    SeriesPageVisible(cache.series, order, opts, now, offset, limit);
    SeriesPageOrdered(cache.series, order, opts, now, offset, limit);
    ListResult(items, |listed|, limit, offset)
  }

  lemma ListedSeriesTotal(series: map<string, SeriesData>, order: seq<string>, opts: ListOptions, now: Timestamp)
    requires Enumerates(order, series.Keys)
    ensures |ListedSeries(series, order, opts, now)| == |VisibleSeriesKeys(series, opts, now)|
  {
    VisibleSeriesCount(series, order, opts, now);
    assert (set k | k in order && k in series && IsVisible(series[k].config.goes_live_at, opts, now))
        == VisibleSeriesKeys(series, opts, now);
    assert |multiset(ListedSeries(series, order, opts, now))| == |multiset(VisibleSeries(series, order, opts, now))|;
  }

  /**
   * In a loaded cache every visible post is listed exactly once, and every visible series too:
   * the list is the visible items, no more and no fewer.
   */
  lemma ListedOnceEach(cache: ContentCache, postOrder: seq<string>, seriesOrder: seq<string>, opts: ListOptions,
                       now: Timestamp)
    requires Consistent(cache.posts, cache.series)
    requires Enumerates(postOrder, cache.posts.Keys) && Enumerates(seriesOrder, cache.series.Keys)
    ensures forall k :: k in cache.posts && IsVisible(cache.posts[k].goes_live_at, opts, now) ==>
      multiset(ListedPosts(cache.posts, postOrder, opts, now))[cache.posts[k]] == 1
    ensures forall k :: k in cache.series && IsVisible(cache.series[k].config.goes_live_at, opts, now) ==>
      multiset(ListedSeries(cache.series, seriesOrder, opts, now))[cache.series[k]] == 1
  {
    forall k | k in cache.posts && IsVisible(cache.posts[k].goes_live_at, opts, now)
      ensures multiset(ListedPosts(cache.posts, postOrder, opts, now))[cache.posts[k]] == 1
    {
      assert OnlyKeyOf(cache.posts, k);
      VisiblePostsOnce(cache.posts, postOrder, opts, now, k);
    }
    forall k | k in cache.series && IsVisible(cache.series[k].config.goes_live_at, opts, now)
      ensures multiset(ListedSeries(cache.series, seriesOrder, opts, now))[cache.series[k]] == 1
    {
      VisibleSeriesOnce(cache.series, seriesOrder, opts, now, k);
    }
  }

  lemma SeriesPageVisible(series: map<string, SeriesData>, order: seq<string>, opts: ListOptions, now: Timestamp, offset: nat, limit: nat)
    ensures forall i :: 0 <= i < |SeriesSummariesOf(Page(ListedSeries(series, order, opts, now), offset, limit))| ==>
      exists k :: k in series
        && SeriesSummaryOf(series[k]) == SeriesSummariesOf(Page(ListedSeries(series, order, opts, now), offset, limit))[i]
        && IsVisible(series[k].config.goes_live_at, opts, now)
  {
    var visible := VisibleSeries(series, order, opts, now);
    var listed := ListedSeries(series, order, opts, now);
    var page := Page(listed, offset, limit);
    var items := SeriesSummariesOf(page);
    forall i | 0 <= i < |items|
      ensures exists k :: k in series && SeriesSummaryOf(series[k]) == items[i]
                          && IsVisible(series[k].config.goes_live_at, opts, now)
    {
      var d := listed[offset + i];
      assert d in multiset(visible);
      assert d in visible;
      var k :| k in series && series[k] == d && IsVisible(d.config.goes_live_at, opts, now);
      assert items[i] == SeriesSummaryOf(page[i]) == SeriesSummaryOf(series[k]);
    }
  }

  lemma SeriesPageOrdered(series: map<string, SeriesData>, order: seq<string>, opts: ListOptions, now: Timestamp, offset: nat, limit: nat)
    ensures SeriesInListOrder(SeriesSummariesOf(Page(ListedSeries(series, order, opts, now), offset, limit)))
  {
    var listed := ListedSeries(series, order, opts, now);
    var items := SeriesSummariesOf(Page(listed, offset, limit));
    forall i, j | 0 <= i < j < |items|
      ensures UndatedFirst(items[i].goes_live_at, items[i].slug, items[j].goes_live_at, items[j].slug)
    {
      assert SeriesBeforeAsWritten(listed[offset + i], listed[offset + j]);
    }
  }

  function MemberSummary(p: Post): SeriesPostSummary {
    SeriesPostSummary(p.slug, p.title, p.subtitle, p.preview_text, p.preview_image, p.tags, p.goes_live_at, p.order)
  }

  /**
   * The member slugs that are still posts of the cache, in the series' order: exactly the
   * present ones, all of them when every slug is present, and a filter that distributes over
   * concatenation (`PresentSlugsAppend`), so the order of `slugs` is kept.
   */
  function PresentSlugs(slugs: seq<string>, posts: map<string, Post>): (r: seq<string>)
    ensures |r| <= |slugs|
    ensures forall x :: x in r <==> x in slugs && x in posts
    ensures (forall i :: 0 <= i < |slugs| ==> slugs[i] in posts) ==> r == slugs
  {
    if slugs == [] then []
    else
      assert forall x :: x in slugs <==> x == slugs[0] || x in slugs[1..];
      var rest := PresentSlugs(slugs[1..], posts);
      if slugs[0] in posts then [slugs[0]] + rest else rest
  }

  lemma {:induction false} PresentSlugsAppend(a: seq<string>, b: seq<string>, posts: map<string, Post>)
    ensures PresentSlugs(a + b, posts) == PresentSlugs(a, posts) + PresentSlugs(b, posts)
  {
    if a == [] {
      assert a + b == b;
    } else {
      assert (a + b)[0] == a[0];
      assert (a + b)[1..] == a[1..] + b;
      PresentSlugsAppend(a[1..], b, posts);
    }
  }

  /** The `filter_map` of `get_series`: member slugs that are still posts of the cache, in the series' order. */
  function MemberSummaries(slugs: seq<string>, posts: map<string, Post>): (r: seq<SeriesPostSummary>)
    ensures |r| <= |slugs|
    ensures var present := PresentSlugs(slugs, posts);
      |r| == |present| && forall i :: 0 <= i < |present| ==> r[i] == MemberSummary(posts[present[i]])
    ensures (forall i :: 0 <= i < |slugs| ==> slugs[i] in posts) ==>
      |r| == |slugs| && forall i :: 0 <= i < |slugs| ==> r[i] == MemberSummary(posts[slugs[i]])
  {
    if slugs == [] then []
    else
      var rest := MemberSummaries(slugs[1..], posts);
      if slugs[0] in posts then [MemberSummary(posts[slugs[0]])] + rest else rest
  }

  /** `get_series`. */
  function GetSeries(cache: ContentCache, slug: string): (r: Option<Series>)
    ensures r.Some? <==> slug in cache.series
    ensures r.Some? ==>
      var s := cache.series[slug];
      r.value.slug == s.slug && r.value.title == s.config.title && r.value.description == s.config.description
      && r.value.preview_image == s.config.preview_image && r.value.goes_live_at == s.config.goes_live_at
      && r.value.posts == MemberSummaries(s.post_slugs, cache.posts)
  {
    if slug !in cache.series then None
    else
      var s := cache.series[slug];
      Some(Series(s.slug, s.config.title, s.config.description, s.config.preview_image, s.config.goes_live_at,
                  MemberSummaries(s.post_slugs, cache.posts)))
  }

  /**
   * In a loaded cache, a series lists every one of its members, in member order, and as many as
   * its `post_count` in `list_series` says. Members are listed whatever their own `goes_live_at`.
   */
  lemma SeriesListsAllMembers(cache: ContentCache, slug: string)
    requires Consistent(cache.posts, cache.series) && slug in cache.series
    ensures var r := GetSeries(cache, slug).value;
      |r.posts| == SeriesSummaryOf(cache.series[slug]).post_count
      && forall i :: 0 <= i < |r.posts| ==> r.posts[i].slug == cache.series[slug].post_slugs[i]
  {
  }

  // ---------------------------------------------------------------- validation

  function PostErrors(slug: string, p: Post): seq<ValidationError> {
    (if p.title == [] then [ValidationError(slug + "/config.toml", "Title cannot be empty")] else [])
    + (if p.preview_text == [] then [ValidationError(slug + "/config.toml", "preview_text cannot be empty")] else [])
    + (if p.content == [] then [ValidationError(slug + "/content.mdx", "Content cannot be empty")] else [])
  }

  function SeriesErrors(slug: string, s: SeriesData): seq<ValidationError> {
    if s.config.title == [] then [ValidationError(slug + "/series.toml", "Title cannot be empty")] else []
  }

  function PostErrorsIn(posts: map<string, Post>, order: seq<string>): seq<ValidationError> {
    if order == [] then []
    else PostErrorsIn(posts, order[..|order| - 1])
         + (var k := order[|order| - 1]; if k in posts then PostErrors(k, posts[k]) else [])
  }

  function SeriesErrorsIn(series: map<string, SeriesData>, order: seq<string>): seq<ValidationError> {
    if order == [] then []
    else SeriesErrorsIn(series, order[..|order| - 1])
         + (var k := order[|order| - 1]; if k in series then SeriesErrors(k, series[k]) else [])
  }

  /** `validate`: every post's errors in `postOrder`, then every series' errors in `seriesOrder`. */
  method Validate(cache: ContentCache, postOrder: seq<string>, seriesOrder: seq<string>) returns (errors: seq<ValidationError>)
    requires Enumerates(postOrder, cache.posts.Keys) && Enumerates(seriesOrder, cache.series.Keys)
    ensures errors == PostErrorsIn(cache.posts, postOrder) + SeriesErrorsIn(cache.series, seriesOrder)
  {
    errors := ValidatePosts(cache.posts, postOrder);
    errors := ValidateSeries(errors, cache.series, seriesOrder);
  }

  lemma PostErrorsInStep(posts: map<string, Post>, order: seq<string>, i: nat)
    requires i < |order| && order[i] in posts
    ensures PostErrorsIn(posts, order[..i + 1]) == PostErrorsIn(posts, order[..i]) + PostErrors(order[i], posts[order[i]])
  {
    assert order[..i + 1][..i] == order[..i] && order[..i + 1][i] == order[i];
  }

  method ValidatePosts(posts: map<string, Post>, postOrder: seq<string>) returns (errors: seq<ValidationError>)
    requires forall k :: k in postOrder ==> k in posts
    ensures errors == PostErrorsIn(posts, postOrder)
  {
    errors := [];
    for i := 0 to |postOrder|
      invariant errors == PostErrorsIn(posts, postOrder[..i])
    {
      PostErrorsInStep(posts, postOrder, i);
      var slug := postOrder[i];
      var post := posts[slug];
      var found := CheckPost(slug, post);
      errors := errors + found;
    }
    assert postOrder[..|postOrder|] == postOrder;
  }

  /** The three checks `validate` makes of one post, in order. */
  method CheckPost(slug: string, post: Post) returns (found: seq<ValidationError>)
    ensures found == PostErrors(slug, post)
  {
    found := [];
    if post.title == [] {
      found := found + [ValidationError(slug + "/config.toml", "Title cannot be empty")];
    }
    ghost var title := found;
    if post.preview_text == [] {
      found := found + [ValidationError(slug + "/config.toml", "preview_text cannot be empty")];
    }
    ghost var preview := found[|title|..];
    assert found == title + preview;
    if post.content == [] {
      found := found + [ValidationError(slug + "/content.mdx", "Content cannot be empty")];
    }
    assert found == title + preview + found[|title| + |preview|..];
  }

  method ValidateSeries(start: seq<ValidationError>, series: map<string, SeriesData>, seriesOrder: seq<string>)
    returns (errors: seq<ValidationError>)
    requires forall k :: k in seriesOrder ==> k in series
    ensures errors == start + SeriesErrorsIn(series, seriesOrder)
  {
    errors := start;
    for i := 0 to |seriesOrder|
      invariant errors == start + SeriesErrorsIn(series, seriesOrder[..i])
    {
      assert seriesOrder[..i + 1][..i] == seriesOrder[..i];
      var slug := seriesOrder[i];
      if series[slug].config.title == [] {
        errors := errors + [ValidationError(slug + "/series.toml", "Title cannot be empty")];
      }
    }
    assert seriesOrder[..|seriesOrder|] == seriesOrder;
  }

  lemma {:induction false} PostErrorsInMembers(posts: map<string, Post>, order: seq<string>, e: ValidationError)
    ensures e in PostErrorsIn(posts, order) <==> exists k :: k in order && k in posts && e in PostErrors(k, posts[k])
  {
    if order != [] {
      var init := order[..|order| - 1];
      PostErrorsInMembers(posts, init, e);
      assert forall k :: k in order <==> k in init || k == order[|order| - 1] by {
        assert order == init + [order[|order| - 1]];
      }
    }
  }

  lemma {:induction false} SeriesErrorsInMembers(series: map<string, SeriesData>, order: seq<string>, e: ValidationError)
    ensures e in SeriesErrorsIn(series, order) <==> exists k :: k in order && k in series && e in SeriesErrors(k, series[k])
  {
    if order != [] {
      var init := order[..|order| - 1];
      SeriesErrorsInMembers(series, init, e);
      assert forall k :: k in order <==> k in init || k == order[|order| - 1] by {
        assert order == init + [order[|order| - 1]];
      }
    }
  }

  /**
   * What `validate` reports, whatever the iteration order: an error for every post with an empty
   * title, preview text or content, and for every series with an empty title, and nothing else.
   */
  lemma ValidationReportsExactly(cache: ContentCache, postOrder: seq<string>, seriesOrder: seq<string>, e: ValidationError)
    requires Enumerates(postOrder, cache.posts.Keys) && Enumerates(seriesOrder, cache.series.Keys)
    ensures e in PostErrorsIn(cache.posts, postOrder) + SeriesErrorsIn(cache.series, seriesOrder) <==>
      (exists k :: k in cache.posts && e in PostErrors(k, cache.posts[k]))
      || (exists k :: k in cache.series && e in SeriesErrors(k, cache.series[k]))
  {
    PostErrorsInMembers(cache.posts, postOrder, e);
    SeriesErrorsInMembers(cache.series, seriesOrder, e);
  }
}

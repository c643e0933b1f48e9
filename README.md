# riley_cms in Dafny

A model of the decision logic of riley_cms, a Git-backed headless CMS written in Rust, with proofs
about it. The model covers:

- the content index of `riley-core`: loading posts and series from a content directory,
  ordering series members, visibility, filtering and paging of lists, single-item lookup,
  validation and the ETag hash input;
- the types they exchange (`riley-cms-core/src/types.rs`);
- the two CGI bridges to `git http-backend`: the environment they build, the stdin size limit,
  the streaming header reader of `riley-cms-core` and the buffered response parser of both;
- the two outbound-address filters and the webhook dispatch: secret policy, skip rules, choosing
  a safe address and the bounded retry;
- the `refresh` of both facades as a class whose `cache` field is replaced only on success;
- the request gates of `riley-cms-api`: the Git path filter, visibility for Public and Admin
  callers, the 401 rule for draft lists, the Cache-Control/ETag decision, HTTP Basic auth for Git,
  the order of checks and the status mapping of `git_handler`;
- both Bearer-token middlewares;
- `ConfigValue::resolve`, the config search order and the serde defaults;
- the pure parts of the S3 asset store: list limit, continuation token, asset URL, upload key.

Each module follows one source file. The shared pieces live in their own modules:

- `Text`: string helpers such as trim, split, lower-case and decimal digits;
- `Sorting`: a stable insertion sort under a total preorder;
- `Net`: IP address values and the std predicates (loopback, unspecified, multicast, IPv4-mapped);
- `Cgi`: the header-line handling common to both bridges;
- `Webhook`: the delivery logic common to both facades.

Stated modelling choices:

- Strings are `seq<char>` and CGI output is a sequence of bytes.
- The file system is a tree value, with entries in `read_dir` order.
- `HashMap` iteration order is an explicit parameter, a sequence that lists every key once.
- TOML parsing, SHA-256, HMAC, base64, UTF-8 decoding, URL parsing and DNS are function
  parameters.
- The clock is the integer parameter `now`.

## Model

| member | source | states |
|---|---|---|
| Types.SummaryKeepsAllButBody | crates/riley-cms-core/src/types.rs:64-77 | a post summary keeps every field of the post except content and order: adding those back gives the post again, and summarising a rebuilt post gives the summary again |
| Types.PostJsonKeys | crates/riley-cms-core/src/types.rs:36-50 | a serialized post has an "order" key exactly when its order is set, and always has "slug" and "content" |
| Content.Lookup | crates/riley-core/src/content.rs:87-90 | a found node is the node of an entry with that name in the directory listing |
| Content.LoadPost | crates/riley-core/src/content.rs:129-153 | loading a post succeeds exactly when config.toml reads and parses and content.mdx reads; the post then carries the slug, the series slug, the title and order from the config, and the content read |
| Content.MemberStep | crates/riley-core/src/content.rs:168-192 | a member post taken from a series directory belongs to that series and is named by its directory |
| Content.MemberBeforeIsPreorder | crates/riley-core/src/content.rs:196-205 | the series member order (explicit order ascending first, then unordered by slug) is a total preorder, so sorting by it is well defined |
| Content.Slugs | crates/riley-core/src/content.rs:207 | the slug list has one slug per post, position by position |
| Content.LoadSeries | crates/riley-core/src/content.rs:156-216 | the loop over the series directory computes the series specification: an error for a missing or unparsable series.toml or a failing member, otherwise the sorted members |
| Content.CollectMembers | crates/riley-core/src/content.rs:167-193 | the loop over the directory entries yields the member posts in directory order, or the first unreadable entry, nameless directory or failing member post |
| Content.MembersFailure | crates/riley-core/src/content.rs:168-192 | any failing entry among the members makes the member list an error |
| Content.MemberFailureAbortsSeries | crates/riley-core/src/content.rs:168-192 | one failing member post aborts the whole series |
| Content.MembersAreOfSeries | crates/riley-core/src/content.rs:185-191 | every loaded member post records the series it belongs to |
| Content.LoadedSeriesShape | crates/riley-core/src/content.rs:196-216 | a loaded series has the requested slug, its post_slugs are exactly the slugs of its members in order, the members are sorted by the member order and are a permutation of the posts read |
| Content.Load | crates/riley-core/src/content.rs:30-126 | the directory loop computes the load specification: empty maps for a missing root, an error for a root that is a file, otherwise the folded entries with their ETag |
| Content.InsertAllEntries | crates/riley-core/src/content.rs:76-78 | inserting member posts keeps every old key, adds every member under its slug, and every value is either the old one or an inserted post |
| Content.LoadStepConsistent | crates/riley-core/src/content.rs:46-102 | one directory entry keeps the cache consistent (keys are slugs, a post's series exists, a series' members exist) and loses no key |
| Content.LoadFoldConsistent | crates/riley-core/src/content.rs:46-102 | the whole loop keeps the cache consistent |
| Content.LoadedCacheConsistent | crates/riley-core/src/content.rs:30-126 | every cache produced by load is consistent |
| Content.SeriesLoadedIff | crates/riley-core/src/content.rs:71-84 | a slug is a series of the cache exactly when some directory with series.toml of that name loaded as a series; series.toml takes precedence over post files |
| Content.ErrorsCountFailures | crates/riley-core/src/content.rs:46-102 | the error counter grows by exactly the number of failing entries: unreadable entries, unnamed directories, failed series and failed posts |
| Content.SortKeys | crates/riley-core/src/content.rs:228-229 | the keys are sorted into the ascending sequence of the key set |
| Content.ComputeEtag | crates/riley-core/src/content.rs:224-245 | the ETag is the quoted hex digest of the post keys with their content in key order, then the series keys, with no separators |
| Content.FeedPosts | crates/riley-core/src/content.rs:230-235 | the post loop feeds each key followed by its content onto what was fed before |
| Content.FeedSeries | crates/riley-core/src/content.rs:237-241 | the series loop feeds each series key onto what was fed before |
| Content.PostPartAgrees | crates/riley-core/src/content.rs:230-235 | maps with the same keys and the same contents give the same post input, whatever else differs |
| Content.PostPartDiffers | crates/riley-core/src/content.rs:230-235 | with the keys fixed, changing the content of one post changes the post input |
| Content.EtagInputTracksContent | crates/riley-core/src/content.rs:224-245 | with the keys fixed, changing one post's content changes the hashed input |
| Content.EtagInputCollision | crates/riley-core/src/content.rs:232-233 | the bare concatenation makes a post "ab" with content "c" and a post "a" with content "bc" hash the same input "abc" |
| Content.PageLimit | crates/riley-core/src/content.rs:253-259 | the page size is the requested limit capped at 500, 50 when none is asked |
| Content.Page | crates/riley-core/src/content.rs:276-281 | a page skips offset items and takes at most limit, so its length is min(limit, max(0, n - offset)) and its items are those of the list from offset on |
| Content.VisibilityByFlags | crates/riley-core/src/content.rs:376-387 | with neither flag only dated items already live are visible; with both flags every item is |
| Content.PostBeforeIsPreorder | crates/riley-core/src/content.rs:267-273 | the order the comment intends (dated first, newest first, undated by slug) is a total preorder |
| Content.SeriesBeforeIsPreorder | crates/riley-core/src/content.rs:308-316 | the same intended order over series is a total preorder |
| Content.UndatedFirstIsPreorder | crates/riley-core/src/content.rs:268-273 | the comparator as written (undated first, dated newest first, undated by slug) is reflexive-total and transitive |
| Content.PostBeforeAsWrittenIsPreorder | crates/riley-core/src/content.rs:268-273 | the posts comparator as written is a total preorder, so the sort is well defined |
| Content.SeriesBeforeAsWrittenIsPreorder | crates/riley-core/src/content.rs:309-316 | the series comparator as written is a total preorder |
| Content.DatedOrdersAgree | crates/riley-core/src/content.rs:268-273 | between two dated items the comparator as written and the intended order agree |
| Content.DraftsListedFirstAsWritten | crates/riley-core/src/content.rs:268-273 | in a list sorted by the comparator as written, no undated post follows a dated one |
| Content.DraftsListedLast | crates/riley-core/src/content.rs:267 | in a list sorted by the intended order, no dated post follows an undated one |
| Content.DraftFirstExample | crates/riley-core/src/content.rs:261-273 | listing a live post and a draft gives the draft first as written and last as intended |
| Content.VisiblePosts | crates/riley-core/src/content.rs:261-265 | every post kept by the filter is a post of the cache and is visible under the options |
| Content.VisiblePostsCount | crates/riley-core/src/content.rs:261-265 | the filter keeps as many posts as there are visible keys |
| Content.VisiblePostsComplete | crates/riley-core/src/content.rs:261-265 | the filter drops no visible post: the post of every visible key is kept |
| Content.VisiblePostsAbsent | crates/riley-core/src/content.rs:261-265 | a post whose key the iteration never reaches is not kept |
| Content.VisiblePostsOnce | crates/riley-core/src/content.rs:261-265 | a visible post held by one key only is kept exactly once |
| Content.ListedPosts | crates/riley-core/src/content.rs:261-273 | the listed posts are the visible posts, permuted into the order as written, so every draft precedes every dated post |
| Content.ListedPostsIntended | crates/riley-core/src/content.rs:261-273 | the same posts in the intended order, every draft after every dated post |
| Content.LiveListUnaffected | crates/riley-core/src/content.rs:261-273 | without drafts the list as written is exactly the intended list |
| Content.ListPosts | crates/riley-core/src/content.rs:256-289 | limit and offset are the clamped and defaulted options; total counts every visible post, whatever the page; the page has min(limit, max(0, total - offset)) items, each the summary of a visible post, in the order as written; the items are exactly the summaries of the sorted list skipped by offset and taken by limit |
| Content.GetPost | crates/riley-core/src/content.rs:292-295 | a post is found exactly when the slug is a key, and it is the stored post |
| Content.GetPostFindsItsSlug | crates/riley-core/src/content.rs:292-295 | in a loaded cache the post found for a slug carries that slug |
| Content.VisibleSeries | crates/riley-core/src/content.rs:302-306 | every series kept by the filter is a series of the cache and is visible |
| Content.VisibleSeriesCount | crates/riley-core/src/content.rs:302-306 | the filter keeps as many series as there are visible keys |
| Content.VisibleSeriesComplete | crates/riley-core/src/content.rs:302-306 | the filter drops no visible series: the series of every visible key is kept |
| Content.VisibleSeriesAbsent | crates/riley-core/src/content.rs:302-306 | a series whose key the iteration never reaches is not kept |
| Content.VisibleSeriesOnce | crates/riley-core/src/content.rs:302-306 | a visible series held by one key only is kept exactly once |
| Content.ListedOnceEach | crates/riley-core/src/content.rs:256-316 | in a loaded cache the post and series lists hold every visible item exactly once |
| Content.ListedSeries | crates/riley-core/src/content.rs:302-316 | the listed series are the visible series, permuted into the order as written, so every undated series precedes every dated one |
| Content.ListedSeriesIntended | crates/riley-core/src/content.rs:302-316 | the same series with undated ones at the end |
| Content.LiveSeriesListUnaffected | crates/riley-core/src/content.rs:302-316 | without drafts the series list as written is exactly the intended list |
| Content.UndatedSeriesListedFirst | crates/riley-core/src/content.rs:309-316 | in a series list sorted as written, no undated series follows a dated one |
| Content.UndatedSeriesListedLast | crates/riley-core/src/content.rs:308 | in a series list sorted by the intended order, no dated series follows an undated one |
| Content.ListSeries | crates/riley-core/src/content.rs:297-340 | the same paging laws as for posts, over series summaries that carry their member count: the items are exactly the summaries of the sorted series skipped by offset and taken by limit |
| Content.ListedSeriesTotal | crates/riley-core/src/content.rs:318 | the listed series number exactly the visible series |
| Content.SeriesPageVisible | crates/riley-core/src/content.rs:319-331 | every summary on a series page is the summary of a visible series of the cache |
| Content.SeriesPageOrdered | crates/riley-core/src/content.rs:309-331 | a series page is in the order as written: undated first, dated newest first, undated by slug |
| Content.MemberSummaries | crates/riley-core/src/content.rs:348-363 | one summary per slug that is still a post, in post_slugs order, each the summary of that post; all of them when every slug is a post |
| Content.PresentSlugs | crates/riley-core/src/content.rs:348-352 | the kept slugs are exactly those that are posts, all of them when every slug is one |
| Content.PresentSlugsAppend | crates/riley-core/src/content.rs:348-352 | the filter distributes over concatenation, so it keeps the order of post_slugs |
| Content.GetSeries | crates/riley-core/src/content.rs:342-374 | a series is found exactly when the slug is a key; it carries the series' slug, title, description, preview image and date, and its members in post_slugs order, dropping slugs that are not posts |
| Content.SeriesListsAllMembers | crates/riley-core/src/content.rs:342-374 | in a loaded cache a series lists as many posts as its summary counts, with the slugs of post_slugs |
| Content.Validate | crates/riley-core/src/content.rs:389-423 | the report is every post's errors in post order, then every series' errors in series order |
| Content.ValidatePosts | crates/riley-core/src/content.rs:392-411 | the post loop pushes each post's errors in order |
| Content.CheckPost | crates/riley-core/src/content.rs:393-410 | one post yields, in this order, an error on config.toml for an empty title, one on config.toml for an empty preview_text and one on content.mdx for empty content, and no others |
| Content.ValidateSeries | crates/riley-core/src/content.rs:413-420 | the series loop appends each series' errors in order |
| Content.PostErrorsInMembers | crates/riley-core/src/content.rs:392-411 | an error is reported for posts exactly when some listed post has it |
| Content.SeriesErrorsInMembers | crates/riley-core/src/content.rs:413-420 | an error is reported for series exactly when some listed series has it |
| Content.ValidationReportsExactly | crates/riley-core/src/content.rs:389-423 | validate reports an error exactly when some post (empty title, preview_text or content) or some series (empty title) has it |
| Sorting.Insert | crates/riley-core/src/content.rs:196-205 | inserting adds exactly one element and keeps the others |
| Sorting.InsertSorted | crates/riley-core/src/content.rs:196-205 | inserting into a sorted list keeps it sorted |
| Sorting.SortBy | crates/riley-core/src/content.rs:268-273 | the sorted list is a permutation of the input and sorted |
| Cgi.StatusCodeOfNumber | crates/riley-cms-core/src/git.rs:366-368 | a decimal code up to 65535 at the start of the value, ended by whitespace or the end, is the status code |
| Cgi.StatusCodeOutOfRange | crates/riley-cms-core/src/git.rs:366-368 | a decimal code above 65535 is no status code |
| Cgi.StatusLineEffect | crates/riley-cms-core/src/git.rs:364-373 | a status line whose code parses sets the status and stores nothing; an unparsed one is stored under "status" by riley-cms-core and dropped by riley-core (riley-core/src/git.rs:216-224), the status unchanged |
| Cgi.HeaderLineEffect | crates/riley-cms-core/src/git.rs:361-374 | a `key: value` line sets the trimmed lower-case key to the trimmed value, overwriting an earlier one and changing nothing else; a line without ':' changes nothing |
| Cgi.ApplyHeaderLineWellFormed | crates/riley-cms-core/src/git.rs:361-374 | one header line keeps the headers well formed: u16 status, lower-case keys, trimmed values, and a status entry only when stored unparsed |
| Cgi.FoldLinesWellFormed | crates/riley-core/src/git.rs:203-227 | folding header lines keeps them well formed |
| Cgi.ParseHeaderLines | crates/riley-core/src/git.rs:203-227 | the header loop computes the left-to-right fold of the non-empty lines from status 200 and no headers |
| Cgi.FindBodyStart | crates/riley-core/src/git.rs:182-200 | the scan finds 0 exactly when there is no separator, else the end of the first one, with \r\n\r\n preferred at the same index |
| Cgi.BodyAfter | crates/riley-core/src/git.rs:229-233 | the body is the data after the separator, and empty when there is none |
| Cgi.ParseCgiResponse | crates/riley-cms-core/src/git.rs:415-471 | with no separator the result is status 200, no headers and an empty body; otherwise the body follows the first separator and the headers are the fold of the header lines |
| CmsGit.BuildEnv | crates/riley-cms-core/src/git.rs:177-197 | the env always holds the four fixed variables with their values; QUERY_STRING, CONTENT_TYPE and CONTENT_LENGTH are present exactly when supplied, the length written in decimal |
| CmsGit.Forward | crates/riley-cms-core/src/git.rs:221-250 | forwarding never goes back on the chunks it has written |
| CmsGit.StreamStdin | crates/riley-cms-core/src/git.rs:221-250 | the stdin loop writes what forwarding writes, never more than the limit, and shuts stdin down exactly when it did not fail |
| CmsGit.ForwardFacts | crates/riley-cms-core/src/git.rs:225-245 | from any point within the limit, forwarding fails exactly when the running total first exceeds the limit, and the overflowing chunk is not written |
| CmsGit.ForwardingWithinLimit | crates/riley-cms-core/src/git.rs:221-250 | the bytes written are a prefix of the input of at most the limit; "too large" carries the total of the first chunk over the limit; a broken pipe on the next chunk ends without an error, a failed write or a stream error in it with that error; otherwise every chunk is written |
| CmsGit.LineEnd | crates/riley-cms-core/src/git.rs:337-340 | a line ends just after its first newline or at the end of the data |
| CmsGit.ReadCgiHeaders | crates/riley-cms-core/src/git.rs:327-378 | the reader loop computes the header-reading specification |
| CmsGit.ReadFromFacts | crates/riley-cms-core/src/git.rs:335-375 | a successful read stays within 16384 bytes and ends at the end of the data or just past a newline; "too large" only once the count passes 16384 |
| CmsGit.ReadUpToEof | crates/riley-cms-core/src/git.rs:342-345 | with no blank line and the data within the cap, EOF returns the collected headers folded with every line, at the end of the data |
| CmsGit.ReadUpToBlankLine | crates/riley-cms-core/src/git.rs:355-359 | the first line trimming to empty ends the read, with the fold of the lines before it, just past that line |
| CmsGit.HeaderReadBounded | crates/riley-cms-core/src/git.rs:347-353 | a successful header read consumed no more than 16384 bytes and yields well-formed headers |
| CmsGit.EmptyOutputDefaults | crates/riley-cms-core/src/git.rs:330-345 | empty CGI output gives status 200 and no headers |
| CmsGit.RunCgiOutcome | crates/riley-cms-core/src/git.rs:274-299 | the run succeeds exactly when the spawn and the header read succeed and the stdin task has not already failed; a finished failed stdin task reports its own error |
| CmsGit.BodyTooLargeNeedsRace | crates/riley-cms-core/src/git.rs:278-299 | an oversized body is reported only when the stdin task finished before the headers were parsed |
| CoreGit.BuildEnv | crates/riley-core/src/git.rs:80-94 | the env holds the four fixed variables and CONTENT_LENGTH with the body length in decimal (0 included); QUERY_STRING and CONTENT_TYPE exactly when supplied |
| CoreGit.ExistsIffNamed | crates/riley-core/src/git.rs:134-136 | a name exists in a directory exactly when some entry has that name |
| CoreGit.IsValidRepo | crates/riley-core/src/git.rs:134-136 | a repository is valid exactly when it has a `.git` or a `HEAD` entry |
| CoreGit.ParseCgiResponse | crates/riley-core/src/git.rs:175-240 | parsing always succeeds, never stores a status header, and gives status 200 with no headers and an empty body when there is no separator; otherwise the body follows the first separator |
| Net.ToIpv4Mapped | crates/riley-cms-core/src/security.rs:38-42 | a mapped IPv6 address yields the IPv4 address it carries |
| Net.MappedRoundTrip | crates/riley-cms-core/src/security.rs:38-42 | mapping an IPv4 address to IPv6 and back gives it again |
| Security.V4Value | crates/riley-cms-core/src/security.rs:15-37 | the 32-bit value of an IPv4 address is below 2^32 |
| Security.SafeV4MatchesRanges | crates/riley-cms-core/src/security.rs:8-37 | an IPv4 address is safe exactly when it is outside 0.0.0.0, 10/8, 100.64/10, 127/8, 169.254/16, 172.16/12, 192.168/16 and 224/4 |
| Security.SafeV6MatchesRanges | crates/riley-cms-core/src/security.rs:45-58 | a non-mapped IPv6 address is safe exactly when it is not ::1 or :: and lies outside fc00::/7, fe80::/10, fec0::/10 and ff00::/8 |
| Security.MappedJudgedAsV4 | crates/riley-cms-core/src/security.rs:38-42 | `::ffff:a.b.c.d` is judged exactly as `a.b.c.d` |
| Security.TestedUnsafeAddresses | crates/riley-cms-core/src/security.rs:68-140 | all nineteen addresses the unit tests reject are unsafe: five IPv4-mapped, ff02::1, fec0::1, ::1, ::, fc00::1, fd00::1 and eight IPv4 ones including both carrier-grade NAT boundaries |
| Security.TestedSafeAddresses | crates/riley-cms-core/src/security.rs:116-134 | 8.8.8.8, 1.1.1.1, 100.128.0.0 and 2606:4700:4700::1111 are safe |
| RileyCore.SafeV4MatchesRanges | crates/riley-core/src/lib.rs:276-316 | riley-core accepts an IPv4 address exactly when it is outside 0.0.0.0, 127/8, 10/8, 172.16/12, 192.168/16, 100.64/10 and 169.254/16; multicast is not refused |
| RileyCore.SafeV6MatchesRanges | crates/riley-core/src/lib.rs:276-316 | riley-core accepts an IPv6 address exactly when it is not ::1 or :: and lies outside fc00::/7 and fe80::/10 |
| RileyCore.CmsCoreSafeIsSafe | crates/riley-core/src/lib.rs:314-316 | every address riley-cms-core accepts, riley-core accepts too |
| RileyCore.LaxerThanCmsCore | crates/riley-core/src/lib.rs:314-316 | ff02::1, ::ffff:10.0.0.1 and 224.0.0.1 pass riley-core's filter but not riley-cms-core's |
| RileyCore.DispatchSecret | crates/riley-core/src/lib.rs:251-257 | no secret configured means unsigned; a secret that fails to resolve is dropped, so the hook is sent unsigned; otherwise the resolved secret |
| RileyCore.SendWebhook | crates/riley-core/src/lib.rs:330-447 | a skip reason from the plan means nothing is sent; otherwise the delivery attempt to the chosen target, signed when the key is accepted |
| RileyCore.RejectedKeySendsUnsigned | crates/riley-core/src/lib.rs:387-403 | a secret rejected as an HMAC key gives an unsigned request, the same as no secret |
| RileyCore.Riley.constructor | crates/riley-core/src/lib.rs:141-145 | the facade starts with the given cache and webhook settings |
| RileyCore.Riley.Refresh | crates/riley-core/src/lib.rs:216-228 | a successful load replaces the whole cache; a failed load returns its error and leaves the cache unchanged |
| RileyCore.Riley.FireWebhooks | crates/riley-core/src/lib.rs:248-266 | nothing is dispatched without webhook URLs; otherwise one dispatch per URL, in order, with the dispatch secret |
| RileyCmsCore.DispatchSecret | crates/riley-cms-core/src/lib.rs:249-281 | no secret configured means unsigned; a secret that fails to resolve or resolves to "" cancels all dispatch; otherwise the resolved secret |
| RileyCmsCore.NoEmptySecretDispatched | crates/riley-cms-core/src/lib.rs:252-271 | a dispatched secret is never empty |
| RileyCmsCore.SendWebhook | crates/riley-cms-core/src/lib.rs:301-427 | a skip reason from the plan means nothing is sent; a secret rejected as an HMAC key aborts delivery; otherwise the signed or unsigned attempt to the chosen target |
| RileyCmsCore.SecretAlwaysSigns | crates/riley-cms-core/src/lib.rs:360-383 | an accepted key puts `sha256=<hex>` in the signature header |
| RileyCmsCore.RedirectsOnlyUnpinned | crates/riley-cms-core/src/lib.rs:350-355 | with redirects disabled, a client follows redirects only when it could not be built, so a pinned client never does |
| RileyCmsCore.RileyCms.constructor | crates/riley-cms-core/src/lib.rs:142-146 | the facade starts with the given cache and webhook settings |
| RileyCmsCore.RileyCms.Refresh | crates/riley-cms-core/src/lib.rs:217-229 | a successful load replaces the whole cache; a failed load returns its error and leaves the cache unchanged |
| RileyCmsCore.RileyCms.FireWebhooks | crates/riley-cms-core/src/lib.rs:249-281 | nothing is dispatched without webhook URLs or with a cancelled secret; otherwise one dispatch per URL, in order |
| Webhook.WebhookPorts | crates/riley-cms-core/src/lib.rs:324 | the port is the URL's explicit port, else 80 for http and 443 for https |
| Webhook.FirstSafe | crates/riley-cms-core/src/lib.rs:336-346 | the chosen index is the first safe address in resolver order, and there is none exactly when no address is safe |
| Webhook.Plan | crates/riley-cms-core/src/lib.rs:302-346 | an unparsable URL is skipped as invalid; delivery is planned exactly for an http or https URL with a host, a resolved address list and a safe address in it, and targets the host, its port and the first safe address |
| Webhook.WebhookRequest | crates/riley-cms-core/src/lib.rs:376-383 | the request carries the URL, the JSON body and content type, and a `sha256=` signature header exactly when signed |
| Webhook.AttemptsFrom | crates/riley-cms-core/src/lib.rs:375-419 | between one and three attempts are made |
| Webhook.Backoff | crates/riley-cms-core/src/lib.rs:415-418 | the k back-off sleeps are 1, 2, 4, ... seconds |
| Webhook.DeliverWithRetry | crates/riley-cms-core/src/lib.rs:375-419 | the loop sends the request once per attempt, sleeps the back-off between attempts only, and reports delivery exactly when the last response was a 2xx |
| Webhook.RetryIsBounded | crates/riley-core/src/lib.rs:395-439 | at most 3 attempts; every attempt but the last got a retryable answer; stopping early means a 2xx or 4xx; the sleeps are at most 1 s then 2 s, so the documented 4 s never happens |
| Webhook.BuildClient | crates/riley-cms-core/src/lib.rs:350-355 | a built client is pinned to the target with redirects off when asked; a failed build falls back to a default client |
| Webhook.Attempt | crates/riley-cms-core/src/lib.rs:350-419 | one delivery builds the client and sends the same request once per attempt with the back-off between |
| Config.Resolve | crates/riley-core/src/config.rs:115-127 | a value without `env:` is returned unchanged; `env:NAME` gives the variable's value, or an error when it is unset |
| Config.ResolveEnvReference | crates/riley-core/src/config.rs:118-121 | `env:NAME` resolves exactly when NAME is set, to its value, the empty value included |
| Config.ResolveSettles | crates/riley-core/src/config.rs:115-127 | resolving a resolved value again changes nothing, unless it happens to start with `env:` |
| Config.DefaultServerConfig | crates/riley-core/src/config.rs:64-90 | the default server listens on 0.0.0.0:8080 with no CORS origins, max-age 60 and stale-while-revalidate 300 |
| Config.AncestorCandidates | crates/riley-core/src/config.rs:171-182 | there is one candidate per directory from the cwd up to the root, starting with the cwd's riley_cms.toml |
| Config.AncestorCandidateAt | crates/riley-core/src/config.rs:171-182 | the k-th candidate is riley_cms.toml in the k-th ancestor |
| Config.LocateFindsFirst | crates/riley-core/src/config.rs:151-200 | the search finds the first existing candidate, and otherwise lists every candidate in order |
| Config.LocateAfterAbsent | crates/riley-core/src/config.rs:151-200 | missing candidates before a list only add to the searched list |
| Config.LocateFoundPrefix | crates/riley-core/src/config.rs:151-200 | once a candidate is found, later candidates do not matter |
| Config.SearchAncestors | crates/riley-core/src/config.rs:171-182 | the ancestor walk finds the first existing riley_cms.toml upwards, and otherwise lists every one it tried |
| Config.ResolveConfig | crates/riley-core/src/config.rs:151-200 | the search tries the explicit path, RILEY_CMS_CONFIG, the cwd and its ancestors, the user config directory and /etc in that order, and the first existing one wins |
| Config.TryEnvAndAncestors | crates/riley-core/src/config.rs:162-200 | everything after the explicit path is searched in order |
| Config.TryAncestors | crates/riley-core/src/config.rs:171-200 | everything from the cwd on is searched in order |
| Config.TryDefaults | crates/riley-core/src/config.rs:184-200 | the user config directory and /etc are searched in order |
| Config.SearchEndsAtSystemDefault | crates/riley-core/src/config.rs:193-200 | a failed search always lists /etc/riley_cms/config.toml last |
| Storage.AssetLimit | crates/riley-cms-core/src/storage.rs:66-73 | the asset page size is the requested limit capped at 1000, 100 when none is asked |
| Storage.ListRequestFor | crates/riley-cms-core/src/storage.rs:66-83 | the S3 request goes to the bucket with the caller's token and never asks for more than 1000 keys: 100 without a limit, the caller's limit within the cap, 1000 above it |
| Storage.AssetSize | crates/riley-cms-core/src/storage.rs:94 | a missing size is 0 and a negative size wraps around as a u64 cast does |
| Storage.AssetUrl | crates/riley-cms-core/src/storage.rs:168-172 | the URL ends in "/" and the key; what precedes is a prefix of the base with no trailing '/', and the rest of the base is all '/' |
| Storage.AssetUrlIgnoresTrailingSlash | crates/riley-cms-core/src/storage.rs:168-172 | a trailing slash on the base does not change the URL |
| Storage.AssetUrlOfCleanBase | crates/riley-cms-core/src/storage.rs:168-172 | a base without a trailing slash is used as it is |
| Storage.AssetOf | crates/riley-cms-core/src/storage.rs:92-111 | an asset keeps the object's key, or "" with a URL ending in "/" when there is none; its URL ends in "/" and the key; its size fits a u64 and is the object's when non-negative, 0 when missing; its date is the object's or now |
| Storage.ListAssets | crates/riley-cms-core/src/storage.rs:72-125 | one asset per listed object, in order, and a continuation token exactly when the listing is truncated |
| Storage.UploadKey | crates/riley-cms-core/src/storage.rs:129-146 | no destination gives the file name; otherwise the destination trimmed of '/' at both ends, "/", the file name, unless a segment is "..", which is rejected |
| Storage.UploadKeyCannotTraverse | crates/riley-cms-core/src/storage.rs:134-146 | an accepted key is the destination's segments followed by the file name, and none of its segments is ".." |
| CmsMiddleware.ApiToken | crates/riley-cms-api/src/middleware.rs:44-68 | there is an expected token exactly when one is configured and resolves, and it is the resolved value |
| CmsMiddleware.Admission | crates/riley-cms-api/src/middleware.rs:41-70 | the caller is Admin exactly when a token resolves, the header starts with "Bearer ", and the digest of the trimmed rest equals the digest of the token; otherwise Public |
| CmsMiddleware.AdmitsExactlyTheToken | crates/riley-cms-api/src/middleware.rs:48-63 | under an injective hash, "Bearer t" admits exactly when the expected token is the trimmed t |
| CmsMiddleware.EmptyTokenAdmitsBareBearer | crates/riley-cms-api/src/middleware.rs:48-63 | a token resolving to "" admits a bare "Bearer " header, as there is no empty-token guard |
| ApiMiddleware.Admission | crates/riley-api/src/middleware.rs:39-58 | the caller is Admin exactly when a token resolves, the header starts with "Bearer ", and the trimmed rest equals the token; otherwise Public |
| ApiMiddleware.AgreesWithDigestComparison | crates/riley-api/src/middleware.rs:42-58 | plain equality admits whenever the digest comparison does, and under an injective hash they agree |
| Handlers.ValidGitPathCannotTraverse | crates/riley-cms-api/src/handlers.rs:446-454 | a path accepted by the Git path filter has no ".." segment |
| Handlers.VisibleAsListed | crates/riley-cms-api/src/handlers.rs:101-113 | a Public caller sees exactly what a list with default options shows; an Admin sees what a list with both flags shows |
| Handlers.CacheAges | crates/riley-cms-api/src/handlers.rs:72-76 | with no server section the ages are 60 and 300, otherwise the configured ones |
| Handlers.MissingServerIsDefault | crates/riley-cms-api/src/handlers.rs:72-76 | the fallback ages are those of the default server config |
| Handlers.WithCacheHeaders | crates/riley-cms-api/src/handlers.rs:57-91 | an authenticated response gets "private, no-store" and no ETag; otherwise the public max-age and stale-while-revalidate directive and the ETag; no other header changes |
| Handlers.PublicIsNotPrivate | crates/riley-cms-api/src/handlers.rs:57-91 | the public directive never equals "private, no-store" |
| Handlers.ListPostsHandler | crates/riley-cms-api/src/handlers.rs:126-169 | 401 exactly when drafts or scheduled posts are asked for without Admin; otherwise 200 with the post list, whose headers are "private, no-store" without an ETag exactly when drafts or scheduled posts were asked for, and the public directive with the content ETag otherwise |
| Handlers.PublicPostListIsLive | crates/riley-cms-api/src/handlers.rs:126-169 | a 200 list answered to a Public caller only holds posts whose date has passed |
| Handlers.ListSeriesHandler | crates/riley-cms-api/src/handlers.rs:247-290 | the same 401 rule, 200 answer and cache headers for series |
| Handlers.PlainAdminListIsPublic | crates/riley-cms-api/src/handlers.rs:94-96 | an Admin list query without flags is answered like a Public one, public cache headers included |
| Handlers.GetPostHandler | crates/riley-cms-api/src/handlers.rs:172-189 | 200 with the post exactly when the post exists and is visible to the caller; otherwise the "Post not found" 404 |
| Handlers.HiddenPostLooksMissing | crates/riley-cms-api/src/handlers.rs:172-189 | a hidden post gets the same response as a post that does not exist |
| Handlers.GetPostRawHandler | crates/riley-cms-api/src/handlers.rs:192-244 | the raw route answers 200 with the plain-text content under the same visibility rule, otherwise the same 404 |
| Handlers.RawAgreesWithJson | crates/riley-cms-api/src/handlers.rs:172-244 | the raw and JSON routes answer 200 for the same posts |
| Handlers.GetSeriesHandler | crates/riley-cms-api/src/handlers.rs:293-315 | 200 with the series exactly when it exists and is visible; otherwise the "Series not found" 404 |
| Handlers.HiddenSeriesLooksMissing | crates/riley-cms-api/src/handlers.rs:293-315 | a hidden series gets the same response as one that does not exist |
| Handlers.ListAssetsHandler | crates/riley-cms-api/src/handlers.rs:325-356 | a non-Admin caller gets 401; an asset list is answered exactly when the status is 200, only to Admin and always with "private, no-store" alone; for Admin the answer is 200 exactly when the store lists, with its listing, and 500 when it fails |
| Handlers.GitToken | crates/riley-cms-api/src/handlers.rs:382-400 | there is a Git token exactly when one is configured and resolves to a non-empty value |
| Handlers.Credentials | crates/riley-cms-api/src/handlers.rs:402-431 | the password is what follows the first ':' of the base64- and UTF-8-decoded "Basic " value, and there is none when any step fails |
| Handlers.BasicAuthChecksPassword | crates/riley-cms-api/src/handlers.rs:380-440 | under an injective hash, Basic credentials pass exactly when the password equals the Git token, whatever the user name, and an empty password never passes |
| Handlers.EmptyGitTokenAdmitsNobody | crates/riley-cms-api/src/handlers.rs:386-389 | a Git token resolving to "" admits no request |
| Handlers.GitErrorResponseAsWritten | crates/riley-cms-api/src/handlers.rs:606-626 | the mapping as written: 413 only for errors whose text holds "exceeds maximum", the generic 500 otherwise |
| Handlers.GitErrorResponse | crates/riley-cms-api/src/handlers.rs:606-626 | the mapping as intended: 413 for errors whose text holds "exceeds max", the generic 500 otherwise |
| Handlers.AsWrittenMappingAgrees | crates/riley-cms-api/src/handlers.rs:606-626 | every error the mapping as written answers 413 gets the same answer from the intended mapping |
| Handlers.OversizedBodyGets500AsWritten | crates/riley-cms-api/src/handlers.rs:611 | as written, an oversized body gets 500, because its message lacks "exceeds maximum" |
| Handlers.OversizedBodyGets413 | crates/riley-cms-core/src/git.rs:230-233 | with the intended test, an oversized body gets 413 |
| Handlers.OversizedHeadersGet500 | crates/riley-cms-core/src/git.rs:347-353 | an oversized header block gets 500 under both mappings |
| Handlers.ContentLength | crates/riley-cms-api/src/handlers.rs:526-529 | a content length is present only when the header parses as a u64 |
| Handlers.StatusFromU16 | crates/riley-cms-api/src/handlers.rs:554-555 | the CGI status is kept when it is a valid HTTP status (100 to 999), else 200 |
| Handlers.AfterCompletion | crates/riley-cms-api/src/handlers.rs:588-602 | refresh then webhooks run exactly for a write whose process exited successfully |
| Handlers.CopyHeaders | crates/riley-cms-api/src/handlers.rs:560-566 | the header loop copies exactly the CGI headers whose name and value are valid |
| Handlers.GitHandler | crates/riley-cms-api/src/handlers.rs:461-628 | an invalid path gets 400 before auth, then failed auth gets 401 with WWW-Authenticate, then a missing repo gets 404, none of them running CGI; otherwise CGI runs with the built env and limits, its status and headers are proxied and a successful write refreshes and fires webhooks; a build failure gets 500 and a CGI error the error mapping as written |
| Handlers.PrepareCall | crates/riley-cms-api/src/handlers.rs:493-529 | the CGI call gets the env of the request, the configured body limit or 100 MiB and the configured timeout or 300 s |
| Handlers.Proxy | crates/riley-cms-api/src/handlers.rs:553-626 | a successful run is answered with its status and valid headers and schedules refresh and webhooks for a good write; a failed build gets 500; an error gets the error mapping as written |

## Left out

- Real file system access. The content directory, the repository directory and config-file
  existence are inputs (a tree value, an existence predicate). `find_git_http_backend`'s
  probing is not part of this model.
- TOML and serde parsing are partial-function parameters. `RileyConfig::from_path` is left out
  for that reason. The JSON content type of handler answers is implied by the body kind.
- SHA-256, HMAC, base64, UTF-8 and lossy UTF-8 decoding are parameters. Injectivity of SHA-256
  is assumed only by the lemmas that need it. The CGI header text is decoded by a parameter.
- The `http` crate's header-name and header-value parsers are the parameters `validName` and
  `validValue`. `StatusCode::from_u16` is taken to accept 100 to 999.
- Process and concurrency plumbing: spawning `git http-backend`, pipes, the stderr task, the
  timeout and kill of `GitCgiCompletion::wait`, `tokio::spawn`, and `RwLock`. The race between the
  stdin task and the header read is an input to `CmsGit.RunCgiOutcome`. `refresh` is a plain
  field assignment.
- Network and cloud: reqwest clients, DNS (the resolved addresses are an input), real sleeps
  (a sleep is recorded as its length), and every S3 call (the store's answers are inputs).
- `chrono::Utc::now` is the parameter `now`.
- The riley-cms-core content loader, config and error types are not part of this model. The
  riley-core content index, `ConfigValue` and the "Git error: " display text stand in for them.
- The riley-core `WebhooksConfig` has no `secret` field, though `fire_webhooks` reads one.
  The secret is an `Option` parameter of the facade.
- Content.ListedPosts: states that the list is sorted and a permutation of the visible posts, not
  that the sort is stable. The model's insertion sort is stable, like `sort_by`, but no contract
  says so.
- Content.ListedPostsIntended, Content.ListedSeriesIntended and Handlers.GitErrorResponse are the
  intended behaviour of the two findings below. The rest of the model follows the code as written:
  Content.ListedPosts, Content.ListPosts, Content.PostPageOrdered, Content.ListedSeries,
  Content.ListSeries, Content.SeriesPageOrdered, Handlers.ListPostsHandler and
  Handlers.ListSeriesHandler list undated items first, and Handlers.GitHandler and Handlers.Proxy
  answer an oversized body 500.
- Storage.AssetOf: the S3 timestamp is taken to be within chrono's range, so the failed
  `DateTime::from_timestamp` conversion that falls back to `now` is not modelled; only a missing
  date falls back to `now`.
- Text.ToLower: lower-cases ASCII letters only. Rust's `to_lowercase` on header names also maps
  non-ASCII letters; that is not modelled.
- Handlers.ListPostsHandler: the cache readers are total, so the 500 branch of the list and get
  handlers cannot occur. It is modelled only for `list_assets`.
- CmsMiddleware.Admission: the middleware never rejects. Only the status it attaches is
  modelled, not the forwarding call or the logging.
- CmsGit.StreamStdin: `total_bytes` is an unbounded integer; u64 overflow is out of reach for
  real request bodies.
- The riley-api handlers, the router wiring of both API crates, CORS, rate limiting and the CLI.
- The riley-core storage wrapper, whose key building is a weaker form of `Storage.UploadKey`.

## Findings

| source | as written | input that shows it | evidently intended | confidence | as-written member | corrected member |
|---|---|---|---|---|---|---|
| crates/riley-core/src/content.rs:268-273 | the list comparator matches on `(b, a)`, so a dated `b` against an undated `a` answers `Less` and drafts sort before dated posts | a live post (goes_live_at = 0) and a draft, listed with drafts included: the draft comes first | dated items first, newest first, undated items last by slug, as the comment above the comparator says | high, not executed | Content.DraftFirstExample | Content.ListedPostsIntended |
| crates/riley-core/src/content.rs:309-316 | the series comparator has the same `(b, a)` shape and lists undated series first | a dated and an undated series, listed with drafts included: the undated one comes first | the same order as the posts comment: undated series last | medium, not executed | Content.ListedSeries | Content.ListedSeriesIntended |
| crates/riley-cms-api/src/handlers.rs:611 | a CGI error maps to 413 only when its text contains "exceeds maximum" | a request body over the limit, e.g. 200 bytes with a limit of 100, whose stdin task fails first: the message is "Git error: Request body too large (200 bytes exceeds max 100 bytes)" and gets 500 | oversized bodies get 413, matching the error text "exceeds max" of crates/riley-cms-core/src/git.rs:230-233 | high, not executed | Handlers.OversizedBodyGets500AsWritten | Handlers.OversizedBodyGets413 |

/**
 * riley-core's buffered Git CGI bridge (`git.rs`): the CGI environment `run_cgi` passes to
 * `git http-backend`, the repository check, and the production `parse_cgi_response`, which
 * drops a `Status` header instead of storing it.
 */
module CoreGit {
  import opened Wrappers
  import opened Text
  import opened Cgi
  import opened Content

  /** `run_cgi`'s environment: `CONTENT_LENGTH` is always the body length, even for an empty body. */
  method BuildEnv(repoPath: string, requestMethod: string, pathInfo: string, queryString: Option<string>,
                  contentType: Option<string>, body: seq<byte>) returns (env: map<string, string>)
    ensures env.Keys == {"GIT_PROJECT_ROOT", "GIT_HTTP_EXPORT_ALL", "PATH_INFO", "REQUEST_METHOD", "CONTENT_LENGTH"}
      + (if queryString.Some? then {"QUERY_STRING"} else {})
      + (if contentType.Some? then {"CONTENT_TYPE"} else {})
    ensures env["GIT_PROJECT_ROOT"] == repoPath && env["GIT_HTTP_EXPORT_ALL"] == "1"
    ensures env["PATH_INFO"] == pathInfo && env["REQUEST_METHOD"] == requestMethod
    ensures queryString.Some? ==> env["QUERY_STRING"] == queryString.value
    ensures contentType.Some? ==> env["CONTENT_TYPE"] == contentType.value
    ensures AllDigits(env["CONTENT_LENGTH"]) && DigitsValue(env["CONTENT_LENGTH"]) == |body|
  {
    env := map[];
    env := env["GIT_PROJECT_ROOT" := repoPath];
    env := env["GIT_HTTP_EXPORT_ALL" := "1"];
    env := env["PATH_INFO" := pathInfo];
    env := env["REQUEST_METHOD" := requestMethod];
    if queryString.Some? {
      env := env["QUERY_STRING" := queryString.value];
    }
    if contentType.Some? {
      env := env["CONTENT_TYPE" := contentType.value];
    }
    env := env["CONTENT_LENGTH" := NatToString(|body|)];
    NatToStringRoundTrip(|body|);
  }

  /** An entry of the directory is named `name`. */
  predicate HasEntryNamed(entries: seq<Entry>, name: string) {
    exists i :: 0 <= i < |entries| && entries[i].Entry? && entries[i].name == Some(name)
  }

  lemma {:induction false} ExistsIffNamed(entries: seq<Entry>, name: string)
    ensures Exists(entries, name) <==> HasEntryNamed(entries, name)
  {
    if entries != [] && !(entries[0].Entry? && entries[0].name == Some(name)) {
      ExistsIffNamed(entries[1..], name);
      if HasEntryNamed(entries, name) {
        var i :| 0 <= i < |entries| && entries[i].Entry? && entries[i].name == Some(name);
        assert entries[1..][i - 1] == entries[i];
      }
    }
  }

  /** `is_valid_repo`: the repository directory has a `.git` entry or a `HEAD` entry (a bare repository). */
  function IsValidRepo(repo: seq<Entry>): (r: bool)
    ensures r <==> HasEntryNamed(repo, ".git") || HasEntryNamed(repo, "HEAD")
  {
    ExistsIffNamed(repo, ".git");
    ExistsIffNamed(repo, "HEAD");
    Exists(repo, ".git") || Exists(repo, "HEAD")
  }

  /**
   * `parse_cgi_response`: never fails; the status stays 200 unless a `Status` header carries a
   * `u16` code, and no `status` entry ever reaches the header map.
   */
  method ParseCgiResponse(data: seq<byte>, lossy: seq<byte> -> string) returns (r: Result<CgiResponse, string>)
    ensures r.Ok?
    ensures "status" !in r.value.headers && r.value.status <= U16_MAX
    ensures (forall i: nat :: i < |data| ==> !SeparatorAt(data, i)) ==> r.value == CgiResponse(DefaultStatus, map[], [])
    ensures forall i: nat :: IsFirstSeparator(data, i) ==>
      r.value.body == data[SeparatorEnd(data, i)..]
      && CgiHeaders(r.value.status, r.value.headers)
         == FoldLines(NoHeaders, Lines(lossy(data[..SeparatorEnd(data, i)])), DropStatusHeader)
  {
    var response := Cgi.ParseCgiResponse(data, lossy, DropStatusHeader);
    return Ok(response);
  }
}

/**
 * The template cache kept under `~/.cache/fluid` by `updateCaches`
 * (test/main.go:424-497).
 *
 * For each of the four base template repositories the cache holds one
 * directory per release tag and a `latest` symbolic link to one of them.
 * The model keeps, per repository, the set of tag directories, the subset
 * of them whose extraction failed part-way, and the tag `latest` points to.
 * The network, `tar` and the file system are replaced by an oracle per
 * repository that says how each of those calls turns out; a `panic` of the
 * source is a returned error that ends the run.
 */
module TemplateCache {

  datatype Option<T> = None | Some(value: T)

  // ---------------------------------------------------------------------------
  // The repositories (test/main.go:22-27, 434-448)
  // ---------------------------------------------------------------------------

  /** A base template repository: where its latest release is described, and its cache subdirectory. */
  datatype TemplateRepository = TemplateRepository(latestReleaseInfo: string, cacheSubdirectory: string)

  const Repositories: seq<TemplateRepository> := [
    TemplateRepository("https://api.github.com/repos/go-uniform/base-api/releases/latest", "api"),
    TemplateRepository("https://api.github.com/repos/go-uniform/base-logic/releases/latest", "logic"),
    TemplateRepository("https://api.github.com/repos/go-fluid/base-portal-ionic/releases/latest", "portal-ionic"),
    TemplateRepository("https://api.github.com/repos/go-fluid/base-portal-vuetify/releases/latest", "portal-vuetify")
  ]

  // ---------------------------------------------------------------------------
  // strings.TrimSpace
  // ---------------------------------------------------------------------------

  /** `unicode.IsSpace`: the Latin-1 spaces and the Unicode White_Space characters. */
  predicate IsSpace(c: char)
  {
    c == '\t' || c == '\n' || c == '\U{0B}' || c == '\U{0C}' || c == '\r' || c == ' '
    || c == '\U{85}' || c == '\U{A0}' || c == '\U{1680}' || ('\U{2000}' <= c <= '\U{200A}')
    || c == '\U{2028}' || c == '\U{2029}' || c == '\U{202F}' || c == '\U{205F}' || c == '\U{3000}'
  }

  /** `s` without its leading spaces. */
  function TrimLeftSpace(s: string): string
  {
    if |s| > 0 && IsSpace(s[0]) then TrimLeftSpace(s[1..]) else s
  }

  /** `s` without its trailing spaces. */
  function TrimRightSpace(s: string): string
  {
    if |s| > 0 && IsSpace(s[|s| - 1]) then TrimRightSpace(s[..|s| - 1]) else s
  }

  lemma {:induction false} TrimLeftSpaceSuffix(s: string)
    ensures var r := TrimLeftSpace(s);
      |r| <= |s| && r == s[|s| - |r|..] &&
      (forall i :: 0 <= i < |s| - |r| ==> IsSpace(s[i])) &&
      (|r| > 0 ==> !IsSpace(r[0]))
  {
    if |s| > 0 && IsSpace(s[0]) {
      TrimLeftSpaceSuffix(s[1..]);
    }
  }

  lemma {:induction false} TrimRightSpacePrefix(s: string)
    ensures var r := TrimRightSpace(s);
      |r| <= |s| && r == s[..|r|] &&
      (forall i :: |r| <= i < |s| ==> IsSpace(s[i])) &&
      (|r| > 0 ==> !IsSpace(r[|r| - 1]))
  {
    if |s| > 0 && IsSpace(s[|s| - 1]) {
      TrimRightSpacePrefix(s[..|s| - 1]);
    }
  }

  /** `strings.TrimSpace`: spaces removed from both ends. */
  function TrimSpace(s: string): string
  {
    TrimRightSpace(TrimLeftSpace(s))
  }

  /**
   * The trimmed string is the slice of `s` that starts after its leading
   * spaces; only spaces were cut off at either end, and it neither starts
   * nor ends with a space.
   */
  lemma TrimSpaceSlice(s: string)
    ensures var r := TrimSpace(s); var a := |s| - |TrimLeftSpace(s)|;
      0 <= a <= a + |r| <= |s| && r == s[a..a + |r|]
        && (forall i :: 0 <= i < a ==> IsSpace(s[i]))
        && (forall i :: a + |r| <= i < |s| ==> IsSpace(s[i]))
    ensures var r := TrimSpace(s); |r| > 0 ==> !IsSpace(r[0]) && !IsSpace(r[|r| - 1])
  {
    var l := TrimLeftSpace(s);
    var r := TrimRightSpace(l);
    TrimLeftSpaceSuffix(s);
    TrimRightSpacePrefix(l);
    var a := |s| - |l|;
    assert r == s[a..a + |r|];
    forall i | a + |r| <= i < |s| ensures IsSpace(s[i]) {
      assert s[i] == l[i - a];
    }
    assert forall i :: 0 <= i < a ==> IsSpace(s[i]);
    assert |r| > 0 ==> r[0] == l[0] && r[|r| - 1] == l[|r| - 1];
  }

  lemma TrimSpaceBlank(s: string)
    ensures TrimSpace(s) == [] <==> forall i :: 0 <= i < |s| ==> IsSpace(s[i])
  {
    var l := TrimLeftSpace(s);
    TrimLeftSpaceSuffix(s);
    TrimRightSpacePrefix(l);
    var a := |s| - |l|;
    if TrimSpace(s) == [] {
      assert |l| == 0;
    } else {
      var r := TrimSpace(s);
      assert r[0] == l[0] == s[a];
      assert !IsSpace(s[a]);
    }
  }

  lemma TrimSpaceUnchanged(s: string)
    requires |s| > 0 && !IsSpace(s[0]) && !IsSpace(s[|s| - 1])
    ensures TrimSpace(s) == s
  {
  }

  // ---------------------------------------------------------------------------
  // Cache state and the outcomes of the calls the loop makes
  // ---------------------------------------------------------------------------

  /**
   * One repository's cache directory: the tag directories present, those
   * among them left incomplete by a failed extraction, and the tag the
   * `latest` link points to, if the link exists.
   */
  datatype RepoCache = RepoCache(tags: set<string>, partial: set<string>, latest: Option<string>)

  /** The fields of the release description the loop reads (`tag_name`, `tarball_url`). */
  datatype ReleaseInfo = ReleaseInfo(tagName: string, tarballUrl: string)

  /** How `getJson` on the release description turns out; a failure is recovered. */
  datatype Fetch = FetchFailed | Fetched(info: ReleaseInfo)

  /**
   * How downloading and extracting a tarball turns out: the download or the
   * creation of the tag directory fails before the directory exists, or
   * the extraction fails once it exists, or all succeeds.
   */
  datatype Install = DownloadFailed | ExtractFailed | Extracted

  /** The environment's answers for one repository: fetch, install, and whether `os.Symlink` succeeds. */
  datatype Oracle = Oracle(fetch: Fetch, install: Install, linked: bool)

  /** The reasons `updateCaches` panics. */
  datatype SyncError =
    | CacheRootFailed
    | EmptyTagName
    | EmptyTarballUrl
    | DownloadError(tag: string)
    | ExtractError(tag: string)
    | SymlinkFailed(tag: string)

  /** A tarball download the loop starts: for which repository, and which release. */
  datatype Download = Download(repository: nat, release: ReleaseInfo)

  /** What handling one repository does: its new cache, the download it starts, and a fatal error. */
  datatype StepResult = StepResult(cache: RepoCache, download: Option<ReleaseInfo>, error: Option<SyncError>)

  /** What a whole run does: the new caches, the downloads in order, and the error that ended it. */
  datatype RunResult = RunResult(caches: seq<RepoCache>, downloads: seq<Download>, error: Option<SyncError>)

  // ---------------------------------------------------------------------------
  // Specification of the loop
  // ---------------------------------------------------------------------------

  /** Remove `latest`, then link it to `tag`; when linking fails there is no `latest` left. */
  function Relink(c: RepoCache, tag: string, linked: bool, download: Option<ReleaseInfo>): StepResult
  {
    if linked then StepResult(c.(latest := Some(tag)), download, None)
    else StepResult(c.(latest := None), download, Some(SymlinkFailed(tag)))
  }

  /** The body of the loop of `updateCaches` for one repository (test/main.go:450-496). */
  function SyncRepository(c: RepoCache, o: Oracle): StepResult
  {
    match o.fetch
    case FetchFailed => StepResult(c, None, None)
    case Fetched(info) =>
      var tag := TrimSpace(info.tagName);
      var url := TrimSpace(info.tarballUrl);
      if tag == "" then StepResult(c, None, Some(EmptyTagName))
      else if url == "" then StepResult(c, None, Some(EmptyTarballUrl))
      else if tag in c.tags then Relink(c, tag, o.linked, None)
      else
        var download := Some(ReleaseInfo(tag, url));
        match o.install
        case DownloadFailed => StepResult(c, download, Some(DownloadError(tag)))
        case ExtractFailed =>
          StepResult(c.(tags := c.tags + {tag}, partial := c.partial + {tag}), download, Some(ExtractError(tag)))
        case Extracted => Relink(c.(tags := c.tags + {tag}), tag, o.linked, download)
  }

  function DownloadsOf(i: nat, step: StepResult): seq<Download>
  {
    if step.download.Some? then [Download(i, step.download.value)] else []
  }

  /** The loop from repository `i` on, stopping at the first fatal error. */
  function SyncFrom(caches: seq<RepoCache>, oracles: seq<Oracle>, i: nat): (r: RunResult)
    requires |oracles| == |caches| && i <= |caches|
    ensures |r.caches| == |caches|
    decreases |caches| - i
  {
    if i == |caches| then RunResult(caches, [], None)
    else
      var step := SyncRepository(caches[i], oracles[i]);
      var next := caches[i := step.cache];
      if step.error.Some? then RunResult(next, DownloadsOf(i, step), step.error)
      else
        var rest := SyncFrom(next, oracles, i + 1);
        RunResult(rest.caches, DownloadsOf(i, step) + rest.downloads, rest.error)
  }

  /** `r` with `downloads` started before it. */
  function Prepend(downloads: seq<Download>, r: RunResult): RunResult
  {
    RunResult(r.caches, downloads + r.downloads, r.error)
  }

  /**
   * One turn of the loop: with `downloads` already started, handling
   * repository `i` either ends the run with its error or leaves the rest of
   * the loop to run on the updated caches.
   */
  lemma SyncFromStep(caches: seq<RepoCache>, oracles: seq<Oracle>, i: nat, downloads: seq<Download>)
    requires |oracles| == |caches| && i < |caches|
    ensures var step := SyncRepository(caches[i], oracles[i]);
      var next := caches[i := step.cache];
      var started := downloads + DownloadsOf(i, step);
      Prepend(downloads, SyncFrom(caches, oracles, i)) ==
        if step.error.Some? then RunResult(next, started, step.error)
        else Prepend(started, SyncFrom(next, oracles, i + 1))
  {
    var step := SyncRepository(caches[i], oracles[i]);
    if step.error.None? {
      var rest := SyncFrom(caches[i := step.cache], oracles, i + 1);
      assert downloads + (DownloadsOf(i, step) + rest.downloads) == downloads + DownloadsOf(i, step) + rest.downloads;
    }
  }

  /** `updateCaches`: nothing happens when the cache root cannot be made. */
  function Run(caches: seq<RepoCache>, oracles: seq<Oracle>, rootOk: bool): (r: RunResult)
    requires |oracles| == |caches|
    ensures |r.caches| == |caches|
  {
    if !rootOk then RunResult(caches, [], Some(CacheRootFailed)) else SyncFrom(caches, oracles, 0)
  }

  // ---------------------------------------------------------------------------
  // The cache as an object the loop updates in place
  // ---------------------------------------------------------------------------

  class CacheStore {
    /** One cache per entry of `Repositories`, in the same order. */
    var repos: seq<RepoCache>

    ghost predicate Valid()
      reads this
    {
      |repos| == |Repositories|
    }

    constructor (initial: seq<RepoCache>)
      requires |initial| == |Repositories|
      ensures Valid() && repos == initial
    {
      repos := initial;
    }

    /** `updateCaches` (test/main.go:424-497), with `rootOk` standing for getting and creating the cache root. */
    method UpdateCaches(oracles: seq<Oracle>, rootOk: bool) returns (downloads: seq<Download>, err: Option<SyncError>)
      requires Valid() && |oracles| == |Repositories|
      modifies this
      ensures Valid()
      ensures repos == Run(old(repos), oracles, rootOk).caches
      ensures downloads == Run(old(repos), oracles, rootOk).downloads
      ensures err == Run(old(repos), oracles, rootOk).error
    {
      if !rootOk {
        return [], Some(CacheRootFailed);
      }
      downloads, err := SyncAll(oracles);
    }

    /** The loop over the template repositories, in list order. */
    method SyncAll(oracles: seq<Oracle>) returns (downloads: seq<Download>, err: Option<SyncError>)
      requires |oracles| == |repos|
      modifies this
      ensures RunResult(repos, downloads, err) == SyncFrom(old(repos), oracles, 0)
    {
      downloads := [];
      var i := 0;
      while i < |repos|
        invariant 0 <= i <= |repos| == |oracles|
        invariant SyncFrom(old(repos), oracles, 0) == Prepend(downloads, SyncFrom(repos, oracles, i))
      {
        SyncFromStep(repos, oracles, i, downloads);
        var step := SyncOne(i, oracles[i]);
        downloads := downloads + DownloadsOf(i, step);
        if step.error.Some? {
          return downloads, step.error;
        }
        i := i + 1;
      }
      err := None;
    }

    /**
     * The body of the loop for repository `i`: a failed fetch goes on to the
     * next repository, a panic is returned as the error.
     */
    method SyncOne(i: nat, o: Oracle) returns (step: StepResult)
      requires i < |repos|
      modifies this
      ensures step == SyncRepository(old(repos)[i], o)
      ensures repos == old(repos)[i := step.cache]
    {
      var c := repos[i];
      if o.fetch.FetchFailed? {
        return StepResult(c, None, None);
      }
      var tag := TrimSpace(o.fetch.info.tagName);
      var url := TrimSpace(o.fetch.info.tarballUrl);
      if tag == "" {
        return StepResult(c, None, Some(EmptyTagName));
      }
      if url == "" {
        return StepResult(c, None, Some(EmptyTarballUrl));
      }
      var download := None;
      if tag !in c.tags {
        download := Some(ReleaseInfo(tag, url));
        match o.install {
          case DownloadFailed =>
            return StepResult(c, download, Some(DownloadError(tag)));
          case ExtractFailed =>
            c := c.(tags := c.tags + {tag}, partial := c.partial + {tag});
            repos := repos[i := c];
            return StepResult(c, download, Some(ExtractError(tag)));
          case Extracted =>
            c := c.(tags := c.tags + {tag});
        }
      }
      c := c.(latest := None);
      repos := repos[i := c];
      if !o.linked {
        return StepResult(c, download, Some(SymlinkFailed(tag)));
      }
      c := c.(latest := Some(tag));
      repos := repos[i := c];
      step := StepResult(c, download, None);
    }
  }

  // ---------------------------------------------------------------------------
  // Properties of one repository's step
  // ---------------------------------------------------------------------------

  /** A failed fetch is recovered: the cache is untouched, nothing is downloaded, and the loop goes on. */
  lemma FetchFailureLeavesCache(c: RepoCache, o: Oracle)
    requires o.fetch.FetchFailed?
    ensures SyncRepository(c, o) == StepResult(c, None, None)
  {
  }

  /** No tag directory is ever removed, and a partial one stays partial. */
  lemma {:induction false} StepKeepsTags(c: RepoCache, o: Oracle)
    ensures c.tags <= SyncRepository(c, o).cache.tags
    ensures c.partial <= SyncRepository(c, o).cache.partial
  {
  }

  /** The step adds at most the fetched tag, and only by downloading it. */
  lemma StepAddsOnlyDownloadedTag(c: RepoCache, o: Oracle)
    ensures var r := SyncRepository(c, o);
      (r.cache.tags == c.tags && r.cache.partial == c.partial) ||
      (r.download.Some? && r.cache.tags == c.tags + {r.download.value.tagName})
  {
  }

  /** A tag whose directory is present is never downloaded again. */
  lemma PresentTagNotDownloaded(c: RepoCache, o: Oracle)
    requires o.fetch.Fetched? && TrimSpace(o.fetch.info.tagName) in c.tags
    ensures SyncRepository(c, o).download == None
    ensures SyncRepository(c, o).cache.tags == c.tags
  {
  }

  /** An absent tag is downloaded, with the trimmed tag and URL, once both are non-blank. */
  lemma AbsentTagDownloaded(c: RepoCache, o: Oracle)
    requires o.fetch.Fetched?
    requires TrimSpace(o.fetch.info.tagName) != "" && TrimSpace(o.fetch.info.tarballUrl) != ""
    requires TrimSpace(o.fetch.info.tagName) !in c.tags
    ensures SyncRepository(c, o).download ==
      Some(ReleaseInfo(TrimSpace(o.fetch.info.tagName), TrimSpace(o.fetch.info.tarballUrl)))
  {
  }

  /** A blank tag or tarball URL is fatal, and nothing is touched. */
  lemma BlankReleaseIsFatal(c: RepoCache, o: Oracle)
    requires o.fetch.Fetched?
    requires TrimSpace(o.fetch.info.tagName) == "" || TrimSpace(o.fetch.info.tarballUrl) == ""
    ensures SyncRepository(c, o).error.Some?
    ensures SyncRepository(c, o).cache == c && SyncRepository(c, o).download == None
  {
  }

  /**
   * The step succeeds exactly when the fetch failed, or the tag and URL are
   * non-blank, any needed install succeeded and the link was made; then
   * `latest` points to the fetched tag, whose directory is present.
   */
  lemma StepSucceedsIff(c: RepoCache, o: Oracle)
    ensures var r := SyncRepository(c, o);
      r.error.None? <==>
        (o.fetch.FetchFailed? ||
         (TrimSpace(o.fetch.info.tagName) != "" && TrimSpace(o.fetch.info.tarballUrl) != "" &&
          (TrimSpace(o.fetch.info.tagName) !in c.tags ==> o.install.Extracted?) && o.linked))
    ensures var r := SyncRepository(c, o);
      r.error.None? && o.fetch.Fetched? ==>
        r.cache.latest == Some(TrimSpace(o.fetch.info.tagName)) && r.cache.latest.value in r.cache.tags
  {
  }

  /** A failed extraction leaves the tag directory behind, marked partial, and `latest` as it was. */
  lemma ExtractFailureLeavesPartialTag(c: RepoCache, o: Oracle)
    requires o.fetch.Fetched? && o.install.ExtractFailed?
    requires TrimSpace(o.fetch.info.tagName) != "" && TrimSpace(o.fetch.info.tarballUrl) != ""
    requires TrimSpace(o.fetch.info.tagName) !in c.tags
    ensures var tag := TrimSpace(o.fetch.info.tagName);
      SyncRepository(c, o).error == Some(ExtractError(tag)) &&
      tag in SyncRepository(c, o).cache.tags && tag in SyncRepository(c, o).cache.partial &&
      SyncRepository(c, o).cache.latest == c.latest
  {
  }

  /** `latest` only ever points to a tag directory that is present. */
  predicate LatestPresent(c: RepoCache)
  {
    c.latest.Some? ==> c.latest.value in c.tags
  }

  lemma StepKeepsLatestPresent(c: RepoCache, o: Oracle)
    requires LatestPresent(c)
    ensures LatestPresent(SyncRepository(c, o).cache)
  {
  }

  // ---------------------------------------------------------------------------
  // Properties of a whole run
  // ---------------------------------------------------------------------------

  /** Repositories before `i` are left as they were, and none loses a tag directory. */
  lemma {:induction false} SyncFromKeepsTags(caches: seq<RepoCache>, oracles: seq<Oracle>, i: nat)
    requires |oracles| == |caches| && i <= |caches|
    ensures forall j :: 0 <= j < i ==> SyncFrom(caches, oracles, i).caches[j] == caches[j]
    ensures forall j :: 0 <= j < |caches| ==> caches[j].tags <= SyncFrom(caches, oracles, i).caches[j].tags
    decreases |caches| - i
  {
    if i < |caches| {
      var step := SyncRepository(caches[i], oracles[i]);
      StepKeepsTags(caches[i], oracles[i]);
      if step.error.None? {
        SyncFromKeepsTags(caches[i := step.cache], oracles, i + 1);
      }
    }
  }

  /** Every repository's `latest` keeps pointing at a present tag directory. */
  lemma {:induction false} SyncFromKeepsLatestPresent(caches: seq<RepoCache>, oracles: seq<Oracle>, i: nat)
    requires |oracles| == |caches| && i <= |caches|
    requires forall j :: 0 <= j < |caches| ==> LatestPresent(caches[j])
    ensures forall j :: 0 <= j < |caches| ==> LatestPresent(SyncFrom(caches, oracles, i).caches[j])
    decreases |caches| - i
  {
    if i < |caches| {
      var step := SyncRepository(caches[i], oracles[i]);
      StepKeepsLatestPresent(caches[i], oracles[i]);
      var next := caches[i := step.cache];
      assert forall j :: 0 <= j < |next| ==> LatestPresent(next[j]);
      if step.error.None? {
        SyncFromKeepsLatestPresent(next, oracles, i + 1);
      }
    }
  }

  /** Downloads for repositories in `lo..hi`, in strictly increasing repository order. */
  predicate InRepositoryOrder(d: seq<Download>, lo: nat, hi: nat)
  {
    (forall a :: 0 <= a < |d| ==> lo <= d[a].repository < hi) &&
    (forall a, b :: 0 <= a < b < |d| ==> d[a].repository < d[b].repository)
  }

  /** A step's own download, if any, is for repository `i`. */
  lemma DownloadsOfRepository(i: nat, step: StepResult)
    ensures |DownloadsOf(i, step)| <= 1
    ensures forall a :: 0 <= a < |DownloadsOf(i, step)| ==> DownloadsOf(i, step)[a].repository == i
  {
  }

  /** At most one download for `i` followed by ordered downloads for later repositories is ordered. */
  lemma InRepositoryOrderConcat(own: seq<Download>, rest: seq<Download>, i: nat, hi: nat)
    requires i < hi && |own| <= 1 && (forall a :: 0 <= a < |own| ==> own[a].repository == i)
    requires InRepositoryOrder(rest, i + 1, hi)
    ensures InRepositoryOrder(own + rest, i, hi)
  {
    var d := own + rest;
    forall a | 0 <= a < |d| ensures i <= d[a].repository < hi {
      if a >= |own| { assert d[a] == rest[a - |own|]; } else { assert d[a] == own[a]; }
    }
    forall a, b | 0 <= a < b < |d| ensures d[a].repository < d[b].repository {
      if a >= |own| {
        assert d[a] == rest[a - |own|] && d[b] == rest[b - |own|];
      } else {
        assert d[a] == own[a] && d[b] == rest[b - |own|];
      }
    }
  }

  /** Repositories are handled in list order: downloads come in increasing repository order, from `i` on. */
  lemma {:induction false} SyncFromInOrder(caches: seq<RepoCache>, oracles: seq<Oracle>, i: nat)
    requires |oracles| == |caches| && i <= |caches|
    ensures InRepositoryOrder(SyncFrom(caches, oracles, i).downloads, i, |caches|)
    decreases |caches| - i
  {
    if i < |caches| {
      var step := SyncRepository(caches[i], oracles[i]);
      DownloadsOfRepository(i, step);
      SyncFromStep(caches, oracles, i, []);
      if step.error.None? {
        var next := caches[i := step.cache];
        SyncFromInOrder(next, oracles, i + 1);
        InRepositoryOrderConcat(DownloadsOf(i, step), SyncFrom(next, oracles, i + 1).downloads, i, |caches|);
      }
    }
  }

  /** Nothing after repository `k` was touched or downloaded. */
  predicate StoppedAt(r: RunResult, caches: seq<RepoCache>, k: nat)
  {
    |r.caches| == |caches| &&
    (forall j :: k < j < |caches| ==> r.caches[j] == caches[j]) &&
    (forall a :: 0 <= a < |r.downloads| ==> r.downloads[a].repository <= k)
  }

  /** Downloads all for repositories up to `k`, concatenated, are still so. */
  lemma BoundedConcat(own: seq<Download>, rest: seq<Download>, k: nat)
    requires forall a :: 0 <= a < |own| ==> own[a].repository <= k
    requires forall a :: 0 <= a < |rest| ==> rest[a].repository <= k
    ensures forall a :: 0 <= a < |own + rest| ==> (own + rest)[a].repository <= k
  {
    forall a | 0 <= a < |own + rest| ensures (own + rest)[a].repository <= k {
      if a >= |own| { assert (own + rest)[a] == rest[a - |own|]; } else { assert (own + rest)[a] == own[a]; }
    }
  }

  /** A run that ends with an error stops at one repository: none after it is touched or downloaded. */
  lemma {:induction false} SyncFromStopsAtError(caches: seq<RepoCache>, oracles: seq<Oracle>, i: nat)
    requires |oracles| == |caches| && i <= |caches|
    requires SyncFrom(caches, oracles, i).error.Some?
    ensures exists k :: i <= k < |caches| && StoppedAt(SyncFrom(caches, oracles, i), caches, k)
    decreases |caches| - i
  {
    var step := SyncRepository(caches[i], oracles[i]);
    var next := caches[i := step.cache];
    var r := SyncFrom(caches, oracles, i);
    DownloadsOfRepository(i, step);
    SyncFromStep(caches, oracles, i, []);
    if step.error.Some? {
      assert StoppedAt(r, caches, i);
    } else {
      SyncFromStopsAtError(next, oracles, i + 1);
      var k :| i + 1 <= k < |caches| && StoppedAt(SyncFrom(next, oracles, i + 1), next, k);
      BoundedConcat(DownloadsOf(i, step), SyncFrom(next, oracles, i + 1).downloads, k);
      assert StoppedAt(r, caches, k);
    }
  }

  /** A successful run leaves every fetched tag present and `latest` pointing to it. */
  predicate Current(c: RepoCache, o: Oracle)
  {
    o.fetch.Fetched? ==> TrimSpace(o.fetch.info.tagName) in c.tags && c.latest == Some(TrimSpace(o.fetch.info.tagName))
  }

  lemma {:induction false} SuccessfulSyncIsCurrent(caches: seq<RepoCache>, oracles: seq<Oracle>, i: nat)
    requires |oracles| == |caches| && i <= |caches|
    requires SyncFrom(caches, oracles, i).error.None?
    ensures forall j :: i <= j < |caches| ==> Current(SyncFrom(caches, oracles, i).caches[j], oracles[j])
    decreases |caches| - i
  {
    if i < |caches| {
      var step := SyncRepository(caches[i], oracles[i]);
      StepSucceedsIff(caches[i], oracles[i]);
      var next := caches[i := step.cache];
      SuccessfulSyncIsCurrent(next, oracles, i + 1);
      SyncFromKeepsTags(next, oracles, i + 1);
    }
  }

  /** With every fetched tag present, a run downloads nothing. */
  lemma {:induction false} CurrentSyncDownloadsNothing(caches: seq<RepoCache>, oracles: seq<Oracle>, i: nat)
    requires |oracles| == |caches| && i <= |caches|
    requires forall j :: i <= j < |caches| ==>
      oracles[j].fetch.Fetched? ==> TrimSpace(oracles[j].fetch.info.tagName) in caches[j].tags
    ensures SyncFrom(caches, oracles, i).downloads == []
    decreases |caches| - i
  {
    if i < |caches| {
      var step := SyncRepository(caches[i], oracles[i]);
      if oracles[i].fetch.Fetched? {
        PresentTagNotDownloaded(caches[i], oracles[i]);
      }
      var next := caches[i := step.cache];
      if step.error.None? {
        CurrentSyncDownloadsNothing(next, oracles, i + 1);
      }
    }
  }

  /**
   * Once a run has succeeded, running again against the same release
   * descriptions downloads nothing, whatever the other calls do.
   */
  lemma RerunDownloadsNothing(caches: seq<RepoCache>, oracles: seq<Oracle>, again: seq<Oracle>)
    requires |oracles| == |caches| && |again| == |caches|
    requires Run(caches, oracles, true).error.None?
    requires forall j :: 0 <= j < |caches| ==> again[j].fetch == oracles[j].fetch
    ensures Run(Run(caches, oracles, true).caches, again, true).downloads == []
  {
    var after := Run(caches, oracles, true).caches;
    SuccessfulSyncIsCurrent(caches, oracles, 0);
    assert forall j :: 0 <= j < |after| ==> Current(after[j], oracles[j]);
    CurrentSyncDownloadsNothing(after, again, 0);
  }

  /**
   * A tag whose extraction failed is treated as present by the next run:
   * it is not downloaded again and `latest` is linked to the partial
   * directory.
   */
  lemma PartialTagLinkedOnRerun(c: RepoCache, o: Oracle, install: Install)
    requires o.fetch.Fetched? && o.install.ExtractFailed?
    requires TrimSpace(o.fetch.info.tagName) != "" && TrimSpace(o.fetch.info.tarballUrl) != ""
    requires TrimSpace(o.fetch.info.tagName) !in c.tags
    ensures var tag := TrimSpace(o.fetch.info.tagName);
      var first := SyncRepository(c, o);
      var second := SyncRepository(first.cache, Oracle(o.fetch, install, true));
      first.error == Some(ExtractError(tag)) &&
      second.error == None && second.download == None &&
      second.cache.latest == Some(tag) && tag in second.cache.partial
  {
    var again := Oracle(o.fetch, install, true);
    ExtractFailureLeavesPartialTag(c, o);
    PresentTagNotDownloaded(SyncRepository(c, o).cache, again);
    StepSucceedsIff(SyncRepository(c, o).cache, again);
  }
}

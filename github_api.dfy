/** The parts of src/apis/githubAPI.ts that compute rather than call
    GitHub: the repository constants, the paths and addresses of man pages,
    the pattern that recognises a man page address, the search query and
    the shape of the fortunes pull request. The HTTP calls themselves are
    parameters: a lookup that fails is `None`. */
module GithubApi {
  import opened Common

  const RepositoryOwner := "SerenityOS"
  const RepositoryName := "serenity"
  /** `repository` (line 33): the owner and the name joined by a slash. */
  const Repository := RepositoryOwner + "/" + RepositoryName
  const ManPath := "Base/usr/share/man"
  const FortunesPath := "Base/res/fortunes.json"

  const GithubPrefix := "https://github.com/"
  const BlobMaster := "/blob/master/"

  // ---- man page addresses -------------------------------------------------

  /** The path of a man page inside the repository (line 115). */
  function ManPagePath(section: string, page: string): string
  {
    ManPath + "/man" + section + "/" + page + ".md"
  }

  /** The GitHub address of a man page (line 121). */
  function ManPageUrl(section: string, page: string): string
  {
    GithubPrefix + Repository + BlobMaster + ManPagePath(section, page)
  }

  /** The request that fetches a man page's content (line 116). */
  function ContentsRequest(section: string, page: string): string
  {
    "GET /repos/" + Repository + "/contents/" + ManPagePath(section, page)
  }

  /** The object `fetchSerenityManpage` resolves to. */
  datatype ManPage = ManPage(url: string, section: string, page: string, markdown: string)

  /** `fetchSerenityManpage`: `markdown` is the decoded content the request
      returned, `None` when the request failed. */
  function FetchManpage(section: string, page: string, markdown: Option<string>): (r: Option<ManPage>)
    ensures r.Some? <==> markdown.Some?
    ensures r.Some? ==>
              r.value.section == section && r.value.page == page
              && r.value.url == ManPageUrl(section, page) && r.value.markdown == markdown.value
  {
    if markdown.None? then None else Some(ManPage(ManPageUrl(section, page), section, page, markdown.value))
  }

  // ---- the man page address pattern (line 102) ---------------------------

  /** `[\w/]` */
  predicate IsWordOrSlash(c: char)
  {
    IsWordChar(c) || c == '/'
  }

  predicate WordSlash(s: string)
  {
    forall i :: 0 <= i < |s| ==> IsWordOrSlash(s[i])
  }

  /** Length of the longest run of `[\w/]` characters at the start. */
  function WordSlashRun(s: string): (k: nat)
    ensures k <= |s| && WordSlash(s[..k])
    ensures k < |s| ==> !IsWordOrSlash(s[k])
  {
    if s != [] && IsWordOrSlash(s[0]) then
      var k := 1 + WordSlashRun(s[1..]);
      assert forall i :: 1 <= i < k ==> s[..k][i] == s[1..][..k - 1][i - 1];
      k
    else 0
  }

  lemma WordSlashRunIs(s: string, n: nat)
    requires n <= |s| && WordSlash(s[..n])
    requires n < |s| ==> !IsWordOrSlash(s[n])
    ensures WordSlashRun(s) == n
  {
    var k := WordSlashRun(s);
    assert forall i :: 0 <= i < n ==> s[..n][i] == s[i];
    assert forall i :: 0 <= i < k ==> s[..k][i] == s[i];
  }

  /** `/man(\d)/` occurs at position `j`. */
  predicate ManDirAt(t: string, j: nat)
  {
    j + 6 <= |t| && OccursAt(t, "/man", j) && IsDigit(t[j + 4]) && t[j + 5] == '/'
  }

  /** The last position at or before `j` where `/man(\d)/` occurs. */
  function LastManDirFrom(t: string, j: nat): (r: Option<nat>)
    ensures r.Some? ==> r.value <= j && ManDirAt(t, r.value)
    ensures r.Some? ==> forall k: nat :: r.value < k <= j ==> !ManDirAt(t, k)
    ensures r.None? ==> forall k: nat :: k <= j ==> !ManDirAt(t, k)
  {
    if ManDirAt(t, j) then Some(j) else if j == 0 then None else LastManDirFrom(t, j - 1)
  }

  function LastManDir(t: string): Option<nat>
  {
    LastManDirFrom(t, |t|)
  }

  /** Group 1 may end at `i`: `/blob/master/` follows, and after it some
      `/man(\d)/` lets the rest match. */
  predicate SplitAt(r: string, i: nat)
  {
    OccursAt(r, BlobMaster, i) && LastManDir(r[i + |BlobMaster|..]).Some?
  }

  function LastSplitFrom(r: string, i: nat): (res: Option<nat>)
    ensures res.Some? ==> res.value <= i && SplitAt(r, res.value)
    ensures res.Some? ==> forall k: nat :: res.value < k <= i ==> !SplitAt(r, k)
    ensures res.None? ==> forall k: nat :: k <= i ==> !SplitAt(r, k)
  {
    if SplitAt(r, i) then Some(i) else if i == 0 then None else LastSplitFrom(r, i - 1)
  }

  /** The four groups of a match. */
  datatype ManUrlMatch = ManUrlMatch(repository: string, manPath: string, section: string, page: string)

  /** The groups when group 1 ends at the separator at `i`: group 2 ends
      before the last `/man(\d)/` after it. */
  function GroupsAt(r: string, i: nat): (m: ManUrlMatch)
    requires SplitAt(r, i)
    ensures r == m.repository + BlobMaster + m.manPath + "/man" + m.section + "/" + m.page
    ensures |m.section| == 1 && IsDigit(m.section[0])
  {
    var rest := r[i + |BlobMaster|..];
    var j := LastManDir(rest).value;
    assert rest[j..j + 4] == "/man";
    assert rest == rest[..j] + "/man" + [rest[j + 4]] + "/" + rest[j + 6..];
    assert r == r[..i] + BlobMaster + rest;
    ManUrlMatch(r[..i], rest[..j], [rest[j + 4]], rest[j + 6..])
  }

  /** The groups for a run of `[\w/]` characters followed by `.md`. Every
      character the groups and the literals between them match is in
      `[\w/]`, so a match spans exactly that run; the greedy groups 1 and 2
      end before the last separator that still lets the rest match. */
  function MatchRun(r: string): Option<ManUrlMatch>
  {
    match LastSplitFrom(r, |r|)
    case None => None
    case Some(i) => Some(GroupsAt(r, i))
  }

  /** The pattern tried at one start position. */
  function MatchAt(s: string, start: nat): Option<ManUrlMatch>
    requires start <= |s|
  {
    var t := s[start..];
    if !StartsWith(t, GithubPrefix) then None
    else
      var body := t[|GithubPrefix|..];
      var k := WordSlashRun(body);
      if !StartsWith(body[k..], ".md") then None else MatchRun(body[..k])
  }

  /** `url.match(pattern)`: the match at the leftmost start where there is one. */
  function MatchFrom(s: string, start: nat): (r: Option<ManUrlMatch>)
    requires start <= |s| + 1
    ensures r.Some? ==>
              exists p :: start <= p <= |s| && MatchAt(s, p) == r
                && forall q :: start <= q < p ==> MatchAt(s, q).None?
    ensures r.None? ==> forall q :: start <= q <= |s| ==> MatchAt(s, q).None?
    decreases |s| + 1 - start
  {
    if start > |s| then None
    else if MatchAt(s, start).Some? then MatchAt(s, start)
    else MatchFrom(s, start + 1)
  }

  function MatchManUrl(s: string): Option<ManUrlMatch>
  {
    MatchFrom(s, 0)
  }

  /** The section and page `fetchSerenityManpageByUrl` fetches: none when
      the address does not match or names another repository or folder. */
  function LocateManPage(url: string): (r: Option<(string, string)>)
    ensures r.Some? ==>
              exists m :: MatchManUrl(url) == Some(m)
                && m.repository == Repository && m.manPath == ManPath && r.value == (m.section, m.page)
    ensures MatchManUrl(url).None? ==> r.None?
  {
    match MatchManUrl(url)
    case None => None
    case Some(m) =>
      if m.repository != Repository || m.manPath != ManPath then None else Some((m.section, m.page))
  }

  /** `fetchSerenityManpageByUrl`; `fetch` stands for the content request. */
  function FetchManpageByUrl(url: string, fetch: (string, string) -> Option<string>): (r: Option<ManPage>)
    ensures LocateManPage(url).None? ==> r.None?
  {
    match LocateManPage(url)
    case None => None
    case Some(loc) => FetchManpage(loc.0, loc.1, fetch(loc.0, loc.1))
  }

  // ---- round trip -----------------------------------------------------------

  lemma ManDirAtShift(a: string, b: string, j: nat)
    ensures ManDirAt(a + b, |a| + j) <==> ManDirAt(b, j)
  {
    OccursAtShift(a, b, "/man", j);
    if |a| + j + 6 <= |a + b| {
      assert (a + b)[|a| + j + 4] == b[j + 4];
      assert (a + b)[|a| + j + 5] == b[j + 5];
    }
  }

  /** No `/man(\d)/` occurs in the page name once a slash is put in
      front of it. */
  predicate NoManDirIn(page: string)
  {
    forall j: nat :: j <= |page| + 1 ==> !ManDirAt("/" + page, j)
  }

  /** No `/blob/master/` occurs in the page name once a slash is put in
      front of it. */
  predicate NoBranchIn(page: string)
  {
    forall j: nat :: j <= |page| + 1 ==> !OccursAt("/" + page, BlobMaster, j)
  }

  /** The page names the round trip covers: `[\w/]` characters and no part
      the greedy groups could take for the man folder or the branch. */
  predicate PlainPage(page: string)
  {
    WordSlash(page) && NoManDirIn(page) && NoBranchIn(page)
  }

  const ManDirText := "Base/usr/share/man/man"
  const RepoAndBranch := "SerenityOS/serenity/blob/master/"

  /** The text after the branch in the address of a man page. */
  function AfterBranch(d: char, page: string): string
  {
    ManDirText + [d] + "/" + page
  }

  /** The run of `[\w/]` characters in the address of a man page. */
  function UrlRun(d: char, page: string): string
  {
    RepoAndBranch + AfterBranch(d, page)
  }

  lemma ManPageUrlShape(d: char, page: string)
    ensures ManPageUrl([d], page) == GithubPrefix + UrlRun(d, page) + ".md"
  {
    FixedTexts();
    UrlRegroup(GithubPrefix, Repository, BlobMaster, ManPath + "/man", [d], page, ".md");
  }

  lemma FixedTexts()
    ensures RepoAndBranch == Repository + BlobMaster && ManDirText == ManPath + "/man"
  {
  }

  lemma UrlRegroup(g: string, r: string, b: string, m: string, x: string, page: string, ext: string)
    ensures g + r + b + (m + x + "/" + page + ext) == g + (r + b + (m + x + "/" + page)) + ext
  {
  }

  lemma ManDirAtFolder(d: char, page: string)
    requires IsDigit(d)
    ensures ManDirAt(AfterBranch(d, page), 18)
  {
    var t := AfterBranch(d, page);
    assert t[18..22] == "/man";
  }

  lemma ManDirOfPath(d: char, page: string)
    requires IsDigit(d) && NoManDirIn(page)
    ensures LastManDir(AfterBranch(d, page)) == Some(18)
  {
    var tail := "/" + page;
    var a := ManDirText + [d];
    var t := AfterBranch(d, page);
    assert t == a + tail;
    ManDirAtFolder(d, page);
    forall k: nat | 18 < k <= |t| ensures !ManDirAt(t, k) {
      if k < 23 {
        assert t[k] != '/';
        if k + 6 <= |t| {
          assert t[k..k + 4][0] == t[k];
        }
      } else {
        ManDirAtShift(a, tail, k - 23);
      }
    }
  }

  /** Within the fixed text, no slash before the section digit is
      followed by `b`, so `/blob/master/` starts nowhere but at 19. */
  lemma FixedTextHasOneBranch(d: char)
    requires IsDigit(d)
    ensures forall k :: 19 < k < 55 ==> !((RepoAndBranch + ManDirText + [d])[k] == '/'
                                          && (RepoAndBranch + ManDirText + [d] + "/")[k + 1] == 'b')
  {
    var fixed := RepoAndBranch + ManDirText + [d] + "/";
    assert forall k :: 19 < k < 54 ==> fixed[k] == (RepoAndBranch + ManDirText)[k];
    assert forall k :: 19 < k < 53 ==> (RepoAndBranch + ManDirText)[k] == '/' ==> (RepoAndBranch + ManDirText)[k + 1] != 'b';
  }

  lemma SplitOfPath(d: char, page: string)
    requires IsDigit(d) && NoBranchIn(page)
    ensures LastSplitFrom(UrlRun(d, page), |UrlRun(d, page)|) == Some(19)
  {
    var tail := "/" + page;
    var fixed := RepoAndBranch + ManDirText + [d];
    var r := UrlRun(d, page);
    assert r == fixed + tail;
    assert r[19..32] == BlobMaster;
    assert r[32..] == AfterBranch(d, page);
    ManDirAtFolder(d, page);
    assert SplitAt(r, 19);
    FixedTextHasOneBranch(d);
    assert forall k :: 0 <= k < 55 ==> r[k] == fixed[k];
    assert r[55] == '/';
    forall k: nat | 19 < k <= |r| ensures !SplitAt(r, k) {
      if k < 55 {
        NoBranchInFixed(r, k);
      } else {
        OccursAtShift(fixed, tail, BlobMaster, k - 55);
      }
    }
  }

  /** A slash not followed by `b` starts no `/blob/master/`. */
  lemma NoBranchInFixed(r: string, k: nat)
    requires k + 1 < |r| && !(r[k] == '/' && r[k + 1] == 'b')
    ensures !OccursAt(r, BlobMaster, k)
  {
    if k + 13 <= |r| {
      assert r[k..k + 13][0] == r[k] && r[k..k + 13][1] == r[k + 1];
    }
  }

  lemma UrlRunWordSlash(d: char, page: string)
    requires IsDigit(d) && WordSlash(page)
    ensures WordSlash(UrlRun(d, page))
  {
    var fixed := RepoAndBranch + ManDirText + [d] + "/";
    var r := UrlRun(d, page);
    assert r == fixed + page;
    forall i | 0 <= i < |r| ensures IsWordOrSlash(r[i]) {
      if i >= |fixed| {
        assert r[i] == page[i - |fixed|];
      } else {
        assert r[i] == fixed[i];
      }
    }
  }

  /** On an address made of the prefix, a run of `[\w/]` characters and
      `.md`, the pattern matches at the start and splits that run. */
  lemma MatchOfPrefixedRun(run: string)
    requires WordSlash(run) && MatchRun(run).Some?
    ensures MatchManUrl(GithubPrefix + run + ".md") == MatchRun(run)
  {
    var url := GithubPrefix + run + ".md";
    var body := run + ".md";
    assert url[0..] == url;
    assert url[..|GithubPrefix|] == GithubPrefix;
    assert url[|GithubPrefix|..] == body;
    assert body[..|run|] == run;
    WordSlashRunIs(body, |run|);
    assert body[|run|..] == ".md";
    assert MatchAt(url, 0) == MatchRun(run);
  }

  lemma MatchOfManPageUrl(d: char, page: string)
    requires IsDigit(d) && WordSlash(page) && NoBranchIn(page)
    ensures var t := AfterBranch(d, page);
      var j := LastManDir(t);
      j.Some? && MatchManUrl(ManPageUrl([d], page))
        == Some(ManUrlMatch(Repository, t[..j.value], [t[j.value + 4]], t[j.value + 6..]))
  {
    var t := AfterBranch(d, page);
    ManDirAtFolder(d, page);
    UrlRunParts(d, page);
    GroupsAfterBranch(Repository, t);
    ManPageUrlMatchesRun(d, page);
  }

  lemma ManPageUrlMatchesRun(d: char, page: string)
    requires IsDigit(d) && WordSlash(page) && NoBranchIn(page)
    ensures SplitAt(UrlRun(d, page), 19)
    ensures MatchManUrl(ManPageUrl([d], page)) == Some(GroupsAt(UrlRun(d, page), 19))
  {
    ManPageUrlShape(d, page);
    UrlRunWordSlash(d, page);
    SplitOfPath(d, page);
    MatchOfPrefixedRun(UrlRun(d, page));
  }

  lemma UrlRunParts(d: char, page: string)
    ensures UrlRun(d, page) == Repository + BlobMaster + AfterBranch(d, page)
    ensures |Repository| == 19
  {
    FixedTexts();
  }

  /** The separator right after group 1 splits the run into group 1 and
      the text the man folder pattern reads. */
  lemma GroupsAfterBranch(a: string, t: string)
    requires LastManDir(t).Some?
    ensures SplitAt(a + BlobMaster + t, |a|)
    ensures var j := LastManDir(t).value;
      GroupsAt(a + BlobMaster + t, |a|) == ManUrlMatch(a, t[..j], [t[j + 4]], t[j + 6..])
  {
    var r := a + BlobMaster + t;
    assert r[..|a|] == a;
    assert r[|a| + |BlobMaster|..] == t;
    assert r[|a|..|a| + |BlobMaster|] == BlobMaster;
  }

  /** Reading back the address of a man page gives its section and page,
      for a one-digit section and a plain page name. */
  lemma ManPageUrlRoundTrip(d: char, page: string)
    requires IsDigit(d) && PlainPage(page)
    ensures LocateManPage(ManPageUrl([d], page)) == Some(([d], page))
  {
    MatchOfManPageUrl(d, page);
    ManDirOfPath(d, page);
    var t := AfterBranch(d, page);
    assert t[..18] == ManPath;
    assert t[18 + 6..] == page;
  }

  /** Fetching by a page's own address asks for that page. */
  lemma FetchByPageUrl(d: char, page: string, fetch: (string, string) -> Option<string>)
    requires IsDigit(d) && PlainPage(page)
    ensures FetchManpageByUrl(ManPageUrl([d], page), fetch) == FetchManpage([d], page, fetch([d], page))
  {
    ManPageUrlRoundTrip(d, page);
  }

  /** A page whose name contains a man folder is misread: the greedy second
      group swallows `man1/man2` and the address is rejected. */
  lemma ManPageUrlNestedFolder()
    ensures LocateManPage(ManPageUrl("1", "man2/x")) == None
  {
    var page := "man2/x";
    assert WordSlash(page);
    MatchOfManPageUrl('1', page);
    NestedFolderIsLast();
    var t := AfterBranch('1', page);
    assert t[..23] != ManPath;
  }

  lemma NestedFolderIsLast()
    ensures LastManDir(AfterBranch('1', "man2/x")) == Some(23)
  {
    var t := AfterBranch('1', "man2/x");
    assert t == "Base/usr/share/man/man1/man2/x";
    assert t[23..27] == "/man";
    assert ManDirAt(t, 23);
    forall k: nat | 23 < k <= |t| ensures !ManDirAt(t, k) {
      if k + 6 <= |t| {
        assert t[k..k + 4][0] == t[k];
      }
    }
  }

  /** An address where the only colon is the one after `https` and the
      host does not start with `g` never matches the GitHub pattern. */
  lemma NoGithubAddress(s: string)
    requires |s| > 8 && s[8] != 'g'
    requires forall i :: 0 <= i < |s| && s[i] == ':' ==> i == 5
    ensures MatchManUrl(s) == None
  {
    assert GithubPrefix[5] == ':' && GithubPrefix[8] == 'g';
    forall p | 0 <= p <= |s| ensures !StartsWith(s[p..], GithubPrefix) {
      if p + |GithubPrefix| <= |s| {
        var head := s[p..][..|GithubPrefix|];
        assert head[5] == s[p + 5];
        assert head[8] == s[p + 8];
        assert head == GithubPrefix ==> p == 0;
      }
    }
    forall p | 0 <= p <= |s| ensures MatchAt(s, p).None? {
      assert !StartsWith(s[p..], GithubPrefix);
    }
  }

  /** The address of the man page on man.serenityos.org never matches the
      GitHub pattern. */
  lemma ManSiteUrlNeverMatches(section: string, page: string)
    requires ':' !in section && ':' !in page
    ensures MatchManUrl("https://man.serenityos.org/man" + section + "/" + page + ".html") == None
  {
    var site := "https://man.serenityos.org/man";
    var mid := site + section + "/";
    var s := mid + page + ".html";
    assert s == "https://man.serenityos.org/man" + section + "/" + page + ".html";
    forall i | 0 <= i < |s| ensures s[i] == ':' ==> i == 5 {
      if i < |site| {
        assert s[i] == site[i];
      } else if i < |site| + |section| {
        assert s[i] == section[i - |site|];
      } else if i < |mid| {
        assert s[i] == '/';
      } else if i < |mid| + |page| {
        assert s[i] == page[i - |mid|];
      } else {
        assert s[i] == ".html"[i - |mid| - |page|];
      }
    }
    assert s[8] == 'm';
    NoGithubAddress(s);
  }

  // ---- searches and lookups -------------------------------------------------

  /** The `q` parameter of `searchIssuesOrPulls`: the query and the
      repository qualifier joined with `+`. */
  function SearchQuery(query: string): (q: string)
    ensures StartsWith(q, query)
    ensures q[|query|..] == "+repo:" + Repository
  {
    var parts := [query, "repo:" + Repository];
    assert parts[1..] == ["repo:" + Repository];
    assert Join(parts, "+") == query + ("+" + "repo:" + Repository);
    Join(parts, "+")
  }

  /** `items[0]` of a search limited to one result, undefined when empty. */
  function FirstItem<T>(items: seq<T>): (r: Option<T>)
    ensures r.None? <==> items == []
    ensures r.Some? ==> r.value == items[0]
  {
    if items == [] then None else Some(items[0])
  }

  /** `getIssueOrPull`, `getPull` and `searchCommit` turn a failed request
      into undefined. */
  function Recover<T>(response: Result<T, string>): (r: Option<T>)
    ensures r.Some? <==> response.Ok?
    ensures r.Some? ==> r.value == response.value
  {
    if response.Ok? then Some(response.value) else None
  }

  /** The pull request `openFortunesPullRequest` opens; `nowMillis` is the
      clock and `json` the serialised fortunes. */
  datatype FortunesPullRequest = FortunesPullRequest(
    owner: string, repo: string, title: string, body: string, head: string,
    path: string, content: string, commit: string)

  function FortunesPull(json: string, triggeredBy: string, nowMillis: nat): (pr: FortunesPullRequest)
    ensures pr.owner + "/" + pr.repo == Repository
    ensures pr.path == FortunesPath && pr.content == json + "\n"
    ensures StartsWith(pr.head, "add-quote-") && pr.head[10..] == NatToDecimal(nowMillis / 1000)
  {
    FortunesPullRequest(
      RepositoryOwner, RepositoryName,
      "Base: Add a quote to the fortunes database",
      "Triggered by " + triggeredBy + " on Discord.",
      "add-quote-" + NatToDecimal(nowMillis / 1000),
      FortunesPath, json + "\n",
      "Base: Add a quote to the fortunes database\n\n[skip ci]")
  }
}

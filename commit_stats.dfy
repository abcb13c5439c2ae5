/** The `/commit-stats` command of src/commands/commitStatsCommand.ts: the
    per-repository commit counts of one author, sorted, summed, rendered as
    sections and split into messages of at most 2000 characters. The GitHub
    lookups are inputs: the user found (or not) and the fetched
    per-repository data. */
module CommitStats {
  import opened Common

  /** Discord's limit on the length of one message. */
  const MessageLimit: nat := 2000

  datatype GitHubUser = GitHubUser(login: string, htmlUrl: string)

  datatype Commit = Commit(message: string, sha: string, url: string)

  /** `RepoInfo`: a repository, the commits found for the author and the
      commit count, which may be missing. */
  datatype RepoInfo = RepoInfo(owner: string, name: string, commits: seq<Commit>, totalCount: Option<int>)

  /** The replies the command sends, in order. */
  datatype StatsEffect =
    | Reply(ephemeral: bool, content: string)
    | Defer(ephemeral: bool)
    | EditReply(content: string)
    | FollowUp(ephemeral: bool, content: string)

  /** `totalCount ?? 0` */
  function CountOf(r: RepoInfo): int
  {
    if r.totalCount.Some? then r.totalCount.value else 0
  }

  // ---- sorting and summing ---------------------------------------------------

  predicate SortedDesc(s: seq<RepoInfo>)
  {
    forall i, j :: 0 <= i < j < |s| ==> CountOf(s[i]) >= CountOf(s[j])
  }

  /** Inserts `x` before the first element whose count is not larger, so
      that elements with equal counts keep their order. */
  function InsertDesc(x: RepoInfo, s: seq<RepoInfo>): (r: seq<RepoInfo>)
    requires SortedDesc(s)
    ensures SortedDesc(r)
    ensures multiset(r) == multiset(s) + multiset{x}
    ensures |r| == |s| + 1
  {
    if s == [] || CountOf(s[0]) <= CountOf(x) then
      assert s == [] || forall y :: y in s ==> CountOf(y) <= CountOf(x);
      ConsSorted(x, s);
      [x] + s
    else
      var t := InsertDesc(x, s[1..]);
      assert s == [s[0]] + s[1..];
      BoundedBy(s[0], x, s[1..], t);
      ConsSorted(s[0], t);
      [s[0]] + t
  }

  lemma ConsSorted(h: RepoInfo, t: seq<RepoInfo>)
    requires SortedDesc(t) && forall y :: y in t ==> CountOf(y) <= CountOf(h)
    ensures SortedDesc([h] + t)
  {
    var r := [h] + t;
    forall i, j | 0 <= i < j < |r| ensures CountOf(r[i]) >= CountOf(r[j]) {
      assert r[j] == t[j - 1];
      if i > 0 {
        assert r[i] == t[i - 1];
      }
    }
  }

  lemma BoundedBy(h: RepoInfo, x: RepoInfo, rest: seq<RepoInfo>, t: seq<RepoInfo>)
    requires SortedDesc([h] + rest) && CountOf(x) <= CountOf(h)
    requires multiset(t) == multiset(rest) + multiset{x}
    ensures forall y :: y in t ==> CountOf(y) <= CountOf(h)
  {
    forall y | y in t ensures CountOf(y) <= CountOf(h) {
      assert y in multiset(t);
      if y != x {
        assert y in multiset(rest);
        var k :| 0 <= k < |rest| && rest[k] == y;
        var hs := [h] + rest;
        assert hs[0] == h && hs[k + 1] == y;
        assert CountOf(hs[0]) >= CountOf(hs[k + 1]);
      }
    }
  }

  /** `.sort((a, b) => (b.totalCount ?? 0) - (a.totalCount ?? 0))`: a stable
      sort by decreasing count. */
  function SortByCount(s: seq<RepoInfo>): (r: seq<RepoInfo>)
    ensures SortedDesc(r)
    ensures multiset(r) == multiset(s)
  {
    if s == [] then []
    else
      assert s == [s[0]] + s[1..];
      InsertDesc(s[0], SortByCount(s[1..]))
  }

  /** The `reduce` of lines 91-94: the sum of the counts, a missing count
      adding nothing. */
  function Total(s: seq<RepoInfo>): int
  {
    if s == [] then 0 else CountOf(s[0]) + Total(s[1..])
  }

  lemma {:induction false} TotalNonNegative(s: seq<RepoInfo>)
    requires forall r :: r in s ==> CountOf(r) >= 0
    ensures Total(s) >= 0
    ensures Total(s) == 0 ==> forall r :: r in s ==> CountOf(r) == 0
  {
    if s != [] {
      assert forall r :: r in s[1..] ==> r in s;
      TotalNonNegative(s[1..]);
    }
  }

  // ---- one section per repository -------------------------------------------

  /** `message.split("\n")[0]` */
  function FirstLine(message: string): (r: string)
    ensures '\n' !in r
    ensures StartsWith(message, r)
  {
    IndexOfChar(message, '\n');
    match IndexOf(message, "\n")
    case None => message
    case Some(i) => message[..i]
  }

  function RepoHeader(owner: string, name: string, count: int): string
  {
    "**[" + owner + "/" + name + "](<https://github.com/" + owner + "/" + name + ">)** - **"
      + IntToDecimal(count) + " commits**"
  }

  function CommitLine(c: Commit): string
  {
    "    - " + FirstLine(c.message) + " ([" + SliceTo(c.sha, 7) + "](" + c.url + "))."
  }

  const CommitsFailedLine := "    - `Commits failed to load`"

  function ViewAllLine(owner: string, name: string, login: string): string
  {
    "    - [*View All...*](<https://github.com/" + owner + "/" + name + "/commits?author=" + login + ">)"
  }

  function CommitLines(commits: seq<Commit>): (r: seq<string>)
    ensures |r| == |commits| && forall k :: 0 <= k < |commits| ==> r[k] == CommitLine(commits[k])
  {
    if commits == [] then [] else CommitLines(commits[..|commits| - 1]) + [CommitLine(commits[|commits| - 1])]
  }

  /** The first three commits, or all of them when there are fewer. */
  function Shown(commits: seq<Commit>): (r: seq<Commit>)
    ensures |r| == if |commits| < 3 then |commits| else 3
    ensures r == commits[..|r|]
  {
    if |commits| < 3 then commits else commits[..3]
  }

  /** The lines of a repository's section: the header, at most three commit
      lines, a note when no commit could be loaded, and a link to all
      commits when there are more than three. */
  function SectionLines(item: RepoInfo, count: int, login: string): (lines: seq<string>)
  {
    [RepoHeader(item.owner, item.name, count)] + CommitLines(Shown(item.commits))
      + (if item.commits == [] then [CommitsFailedLine] else [])
      + (if count > 3 then [ViewAllLine(item.owner, item.name, login)] else [])
  }

  lemma SectionLinesShape(item: RepoInfo, count: int, login: string)
    ensures var lines := SectionLines(item, count, login);
      && 2 <= |lines| <= 5
      && lines[0] == RepoHeader(item.owner, item.name, count)
      && (forall k :: 0 <= k < |item.commits| && k < 3 ==> lines[1 + k] == CommitLine(item.commits[k]))
      && (item.commits == [] ==> lines[1] == CommitsFailedLine)
      && (count > 3 <==> lines[|lines| - 1] == ViewAllLine(item.owner, item.name, login))
  {
    var shown := CommitLines(Shown(item.commits));
    var v := ViewAllLine(item.owner, item.name, login);
    ViewAllEndsInParen(item.owner, item.name, login);
    FailedLineEndsInBacktick();
    forall k | 0 <= k < |shown|
      ensures |shown[k]| > 0 && shown[k][|shown[k]| - 1] != v[|v| - 1]
      ensures shown[k] == CommitLine(item.commits[k])
    {
      assert Shown(item.commits)[k] == item.commits[k];
      CommitLineEndsInPeriod(item.commits[k]);
    }
    AssembledSection(RepoHeader(item.owner, item.name, count), shown, CommitsFailedLine, v,
                     item.commits == [], count > 3);
  }

  /** The layout of a section, over abstract lines: when the closing link ends
      in a character no other line ends in, the last line is that link
      exactly when it was added. */
  lemma AssembledSection(h: string, shown: seq<string>, failed: string, view: string, empty: bool, more: bool)
    requires empty <==> shown == []
    requires |failed| > 0 && |view| > 0 && failed[|failed| - 1] != view[|view| - 1]
    requires forall k :: 0 <= k < |shown| ==> |shown[k]| > 0 && shown[k][|shown[k]| - 1] != view[|view| - 1]
    ensures var lines := [h] + shown + (if empty then [failed] else []) + (if more then [view] else []);
      && |lines| == 1 + |shown| + (if empty then 1 else 0) + (if more then 1 else 0)
      && lines[0] == h
      && (forall k :: 0 <= k < |shown| ==> lines[1 + k] == shown[k])
      && (empty ==> lines[1] == failed)
      && (more <==> lines[|lines| - 1] == view)
  {
    var failedPart := if empty then [failed] else [];
    var viewPart := if more then [view] else [];
    FourParts(h, shown, failedPart, viewPart);
    if !more {
      var lines := [h] + shown + failedPart + viewPart;
      var last := lines[|lines| - 1];
      assert last == failed || last == shown[|shown| - 1];
      assert last[|last| - 1] != view[|view| - 1];
    }
  }

  lemma ViewAllEndsInParen(owner: string, name: string, login: string)
    ensures var v := ViewAllLine(owner, name, login); |v| > 0 && v[|v| - 1] == ')'
  {
    LastOfAppend("    - [*View All...*](<https://github.com/" + owner + "/" + name + "/commits?author=" + login, ">)");
  }

  lemma CommitLineEndsInPeriod(c: Commit)
    ensures var l := CommitLine(c); |l| > 0 && l[|l| - 1] == '.'
  {
    LastOfAppend("    - " + FirstLine(c.message) + " ([" + SliceTo(c.sha, 7) + "](" + c.url, ")).");
  }

  lemma FailedLineEndsInBacktick()
    ensures CommitsFailedLine[|CommitsFailedLine| - 1] == '`'
  {
  }

  /** Indexing into a header followed by three runs of lines. */
  lemma FourParts(h: string, a: seq<string>, b: seq<string>, c: seq<string>)
    ensures var l := [h] + a + b + c;
      && |l| == 1 + |a| + |b| + |c|
      && l[0] == h
      && (forall k :: 0 <= k < |a| ==> l[1 + k] == a[k])
      && (|b| > 0 ==> l[1 + |a|] == b[0])
      && (|c| > 0 ==> l[|l| - 1] == c[|c| - 1])
      && (|c| == 0 && |b| > 0 ==> l[|l| - 1] == b[|b| - 1])
      && (|c| == 0 && |b| == 0 && |a| > 0 ==> l[|l| - 1] == a[|a| - 1])
  {
  }

  /** `formatSection`: nothing for a repository without a positive count,
      otherwise its lines joined into one block, followed by an empty block. */
  function Section(item: RepoInfo, login: string): (r: Option<seq<string>>)
    ensures r.Some? <==> item.totalCount.Some? && item.totalCount.value > 0
    ensures r.Some? ==> |r.value| == 2 && r.value[1] == ""
    ensures r.Some? ==> r.value[0] == Join(SectionLines(item, item.totalCount.value, login), "\n")
  {
    if item.totalCount.None? || item.totalCount.value <= 0 then None
    else Some([Join(SectionLines(item, item.totalCount.value, login), "\n"), ""])
  }

  /** `formatSection` (lines 103-135), building the lines as the source does. */
  method FormatSection(item: RepoInfo, login: string) returns (r: Option<seq<string>>)
    ensures r == Section(item, login)
  {
    if item.totalCount.None? || item.totalCount.value <= 0 {
      return None;
    }
    var count := item.totalCount.value;
    var lines := ShownLines(item.commits);
    var failed: seq<string> := [];
    if |item.commits| <= 0 {
      failed := [CommitsFailedLine];
    }
    var viewAll: seq<string> := [];
    if count > 3 {
      viewAll := [ViewAllLine(item.owner, item.name, login)];
    }
    var content := [RepoHeader(item.owner, item.name, count)] + lines + failed + viewAll;
    assert content == SectionLines(item, count, login);
    return Some([Join(content, "\n"), ""]);
  }

  /** The loop of lines 116-121: one line for each of the first three commits. */
  method ShownLines(commits: seq<Commit>) returns (lines: seq<string>)
    ensures lines == CommitLines(Shown(commits))
  {
    lines := [];
    var i := 0;
    while i < |commits| && i < 3
      invariant 0 <= i <= |commits| && i <= 3
      invariant lines == CommitLines(commits[..i])
    {
      assert commits[..i + 1][..i] == commits[..i];
      lines := lines + [CommitLine(commits[i])];
      i := i + 1;
    }
    assert commits[..i] == Shown(commits);
  }

  /** The blocks of all sections, in order, skipping repositories without
      commits. */
  function SectionBlocks(s: seq<RepoInfo>, login: string): seq<string>
  {
    if s == [] then []
    else
      var last := Section(s[|s| - 1], login);
      SectionBlocks(s[..|s| - 1], login) + (if last.Some? then last.value else [])
  }

  function Header(user: GitHubUser, total: int): string
  {
    "**__[" + user.login + "](<" + user.htmlUrl + ">)__ has landed a total of " + IntToDecimal(total)
      + " commit" + (if total == 1 then "" else "s")
      + " across the SerenityOS project <:catdog:1037719954214092840>**\n"
  }

  // ---- splitting into messages ----------------------------------------------

  /** The chunking loop's variables: the finished messages and the one
      being filled. */
  datatype ChunkState = ChunkState(messages: seq<string>, message: string)

  /** One iteration of lines 172-181. */
  function Step(st: ChunkState, line: string): ChunkState
  {
    if |st.message + line + "\n"| > MessageLimit then ChunkState(st.messages + [st.message], line + "\n")
    else ChunkState(st.messages, st.message + line + "\n")
  }

  function Fold(blocks: seq<string>): ChunkState
  {
    if blocks == [] then ChunkState([], "") else Step(Fold(blocks[..|blocks| - 1]), blocks[|blocks| - 1])
  }

  /** The messages the chunking sends: the finished ones and a non-empty
      remainder. */
  function Chunks(blocks: seq<string>): seq<string>
  {
    var st := Fold(blocks);
    if st.message != "" then st.messages + [st.message] else st.messages
  }

  /** Every block followed by a line break, all concatenated. */
  function Lines(blocks: seq<string>): string
  {
    if blocks == [] then "" else Lines(blocks[..|blocks| - 1]) + blocks[|blocks| - 1] + "\n"
  }

  lemma {:induction false} FoldConcat(blocks: seq<string>)
    ensures Concat(Fold(blocks).messages) + Fold(blocks).message == Lines(blocks)
  {
    if blocks != [] {
      var init := blocks[..|blocks| - 1];
      var line := blocks[|blocks| - 1];
      var st := Fold(init);
      FoldConcat(init);
      ConcatAppend(st.messages, [st.message]);
      assert Concat([st.message]) == st.message + Concat([]);
    }
  }

  /** Splitting loses and reorders nothing: the messages, concatenated,
      are exactly the blocks with their line breaks. */
  lemma ChunksConcat(blocks: seq<string>)
    ensures Concat(Chunks(blocks)) == Lines(blocks)
  {
    var st := Fold(blocks);
    FoldConcat(blocks);
    ConcatAppend(st.messages, [st.message]);
    assert Concat([st.message]) == st.message + Concat([]);
  }

  /** A message within Discord's limit, or one block too long for any
      message, sent alone with its line break. */
  predicate FitsOrOversized(m: string, blocks: seq<string>)
  {
    |m| <= MessageLimit || exists b :: b in blocks && |b| + 1 > MessageLimit && m == b + "\n"
  }

  /** An empty message is only ever the first one, and only when the first
      block is too long for a message. */
  predicate EmptyOnlyFirst(messages: seq<string>, blocks: seq<string>)
  {
    forall k :: 0 <= k < |messages| && messages[k] == "" ==>
      k == 0 && |blocks| >= 1 && |blocks[0]| + 1 > MessageLimit
  }

  lemma FitsOrOversizedMore(m: string, init: seq<string>, blocks: seq<string>)
    requires FitsOrOversized(m, init) && forall b :: b in init ==> b in blocks
    ensures FitsOrOversized(m, blocks)
  {
  }

  lemma {:induction false} FoldBounded(blocks: seq<string>)
    ensures forall m :: m in Fold(blocks).messages ==> FitsOrOversized(m, blocks)
    ensures FitsOrOversized(Fold(blocks).message, blocks)
    ensures EmptyOnlyFirst(Fold(blocks).messages, blocks)
    ensures blocks != [] ==> Fold(blocks).message != ""
  {
    if blocks != [] {
      var init := blocks[..|blocks| - 1];
      var line := blocks[|blocks| - 1];
      assert forall b :: b in init ==> b in blocks;
      assert line in blocks;
      FoldBounded(init);
      var st := Fold(init);
      forall m | m in st.messages ensures FitsOrOversized(m, blocks) {
        FitsOrOversizedMore(m, init, blocks);
      }
      FitsOrOversizedMore(st.message, init, blocks);
      if |st.message + line + "\n"| > MessageLimit {
        var next := Fold(blocks);
        assert next.messages == st.messages + [st.message] && next.message == line + "\n";
        if st.message == "" {
          assert init == [] && blocks[0] == line;
        }
        assert EmptyOnlyFirst(next.messages, blocks);
      }
    }
  }

  /** Every message sent is within Discord's limit, except a block too long
      for any message, which is sent alone; an empty message is sent only
      first, before a first block that is too long. */
  lemma ChunksBounded(blocks: seq<string>)
    ensures forall m :: m in Chunks(blocks) ==> FitsOrOversized(m, blocks)
    ensures EmptyOnlyFirst(Chunks(blocks), blocks)
  {
    FoldBounded(blocks);
  }

  /** When every block fits in a message with its line break, every message
      sent is non-empty and within Discord's limit. */
  lemma ChunksFit(blocks: seq<string>)
    requires forall b :: b in blocks ==> |b| + 1 <= MessageLimit
    ensures forall m :: m in Chunks(blocks) ==> m != "" && |m| <= MessageLimit
  {
    ChunksBounded(blocks);
    forall m | m in Chunks(blocks) ensures m != "" && |m| <= MessageLimit {
      var k :| 0 <= k < |Chunks(blocks)| && Chunks(blocks)[k] == m;
    }
  }

  /** A first block too long for one message is preceded by an empty
      message: the loop pushes the still empty `message`. */
  lemma ChunksOversizedFirst(blocks: seq<string>)
    requires |blocks| >= 1 && |blocks[0]| + 1 > MessageLimit
    ensures |Chunks(blocks)| >= 1 && Chunks(blocks)[0] == ""
  {
    FoldKeepsFirst(blocks);
  }

  lemma {:induction false} FoldKeepsFirst(blocks: seq<string>)
    requires |blocks| >= 1 && |blocks[0]| + 1 > MessageLimit
    ensures |Fold(blocks).messages| >= 1 && Fold(blocks).messages[0] == ""
  {
    if |blocks| > 1 {
      FoldKeepsFirst(blocks[..|blocks| - 1]);
    } else {
      assert Fold(blocks[..0]) == ChunkState([], "");
    }
  }

  /** The chunking loop of lines 166-182. */
  method ChunkMessages(blocks: seq<string>) returns (messages: seq<string>)
    ensures messages == Chunks(blocks)
  {
    messages := [];
    var message := "";
    var i := 0;
    while i < |blocks|
      invariant 0 <= i <= |blocks|
      invariant ChunkState(messages, message) == Fold(blocks[..i])
    {
      var line := blocks[i];
      assert blocks[..i + 1][..i] == blocks[..i];
      if |message + line + "\n"| > MessageLimit {
        messages := messages + [message];
        message := "";
      }
      message := message + line + "\n";
      i := i + 1;
    }
    assert blocks[..i] == blocks;
    if message != "" {
      messages := messages + [message];
    }
  }

  // ---- the command -----------------------------------------------------------

  function FollowUps(silent: bool, messages: seq<string>): (r: seq<StatsEffect>)
    ensures |r| == |messages|
    ensures forall k :: 0 <= k < |r| ==> r[k] == FollowUp(silent, messages[k])
  {
    if messages == [] then [] else [FollowUp(silent, messages[0])] + FollowUps(silent, messages[1..])
  }

  function NotFoundReply(author: string): string
  {
    "We looked everywhere; but we couldn't find `" + author + "` :^("
  }

  function NoContributionsReply(login: string): string
  {
    "Couldn't find any contributions from " + login + " :^("
  }

  /** How the blocks reach the user once the reply is deferred: one
      edited reply when the joined text fits, otherwise the header as the
      edited reply and the other blocks chunked into follow-ups. */
  function Delivery(silent: bool, blocks: seq<string>): seq<StatsEffect>
    requires |blocks| >= 1
  {
    var complete := Join(blocks, "\n");
    if |complete| <= MessageLimit then [EditReply(complete)]
    else [EditReply(blocks[0])] + FollowUps(silent, Chunks(blocks[1..]))
  }

  /** The answer is delivered whole: one edited reply within the limit, or
      the header followed by follow-ups with the requested visibility that
      together carry every other block, each within the limit unless it
      is a single block too long for any message. */
  lemma DeliveryWhole(silent: bool, blocks: seq<string>)
    requires |blocks| >= 1
    ensures var d := Delivery(silent, blocks);
      || (d == [EditReply(Join(blocks, "\n"))] && |Join(blocks, "\n")| <= MessageLimit)
      || exists messages: seq<string> ::
           && d == [EditReply(blocks[0])] + FollowUps(silent, messages)
           && Concat(messages) == Lines(blocks[1..])
           && (forall m :: m in messages ==> FitsOrOversized(m, blocks[1..]))
           && EmptyOnlyFirst(messages, blocks[1..])
  {
    if |Join(blocks, "\n")| > MessageLimit {
      var messages := Chunks(blocks[1..]);
      ChunksConcat(blocks[1..]);
      ChunksBounded(blocks[1..]);
    }
  }

  /** `userCommits.map(formatSection).filter(i => i)`, flattened. */
  method FormatSections(userCommits: seq<RepoInfo>, login: string) returns (content: seq<string>)
    ensures content == SectionBlocks(userCommits, login)
  {
    content := [];
    var i := 0;
    while i < |userCommits|
      invariant 0 <= i <= |userCommits|
      invariant content == SectionBlocks(userCommits[..i], login)
    {
      assert userCommits[..i + 1][..i] == userCommits[..i];
      var section := FormatSection(userCommits[i], login);
      if section.Some? {
        content := content + section.value;
      }
      i := i + 1;
    }
    assert userCommits[..i] == userCommits;
  }

  method SendBlocks(silent: bool, blocks: seq<string>) returns (effects: seq<StatsEffect>)
    requires |blocks| >= 1
    ensures effects == Delivery(silent, blocks)
  {
    var complete := Join(blocks, "\n");
    if |complete| <= MessageLimit {
      return [EditReply(complete)];
    }
    var messages := ChunkMessages(blocks[1..]);
    effects := [EditReply(blocks[0])] + FollowUps(silent, messages);
  }

  /** The replies of `handleCommand`, given the user the lookup found and
      the fetched repositories. `silent` defaults to true. */
  function CommitStatsSpec(author: Option<string>, silentOption: Option<bool>, user: Option<GitHubUser>,
                           repos: seq<RepoInfo>): seq<StatsEffect>
  {
    if author.None? || author.value == "" then []
    else if user.None? then [Reply(true, NotFoundReply(author.value))]
    else
      var silent := if silentOption.Some? then silentOption.value else true;
      var sorted := SortByCount(repos);
      var total := Total(sorted);
      if total <= 0 then [Defer(silent), EditReply(NoContributionsReply(user.value.login))]
      else [Defer(silent)] + Delivery(silent, [Header(user.value, total)] + SectionBlocks(sorted, user.value.login))
  }

  method HandleCommand(author: Option<string>, silentOption: Option<bool>, user: Option<GitHubUser>,
                       repos: seq<RepoInfo>) returns (effects: seq<StatsEffect>)
    ensures effects == CommitStatsSpec(author, silentOption, user, repos)
  {
    if author.None? || author.value == "" {
      return [];
    }
    var silent := if silentOption.Some? then silentOption.value else true;
    if user.None? {
      return [Reply(true, NotFoundReply(author.value))];
    }
    var login := user.value.login;
    var userCommits := SortByCount(repos);
    var totalCommits := Total(userCommits);
    if totalCommits <= 0 {
      return [Defer(silent), EditReply(NoContributionsReply(login))];
    }
    var header := Header(user.value, totalCommits);
    var content := FormatSections(userCommits, login);
    var sent := SendBlocks(silent, [header] + content);
    effects := [Defer(silent)] + sent;
  }

  /** Without an author nothing is sent; an unknown author gets one
      ephemeral reply; a user whose repositories show no commits gets the
      deferred reply edited to say so. */
  lemma StatsShortAnswers(author: Option<string>, silentOption: Option<bool>, user: Option<GitHubUser>,
                          repos: seq<RepoInfo>)
    ensures author.None? || author == Some("") ==> CommitStatsSpec(author, silentOption, user, repos) == []
    ensures author.Some? && author.value != "" && user.None? ==>
      CommitStatsSpec(author, silentOption, user, repos) == [Reply(true, NotFoundReply(author.value))]
    ensures (author.Some? && author.value != "" && user.Some?
             && forall r :: r in repos ==> CountOf(r) <= 0) ==>
      CommitStatsSpec(author, silentOption, user, repos)
        == [Defer(if silentOption.Some? then silentOption.value else true),
            EditReply(NoContributionsReply(user.value.login))]
  {
    if author.Some? && author.value != "" && user.Some? && forall r :: r in repos ==> CountOf(r) <= 0 {
      var sorted := SortByCount(repos);
      SameMembers(sorted, repos);
      TotalNonPositive(sorted);
    }
  }

  lemma SameMembers(a: seq<RepoInfo>, b: seq<RepoInfo>)
    requires multiset(a) == multiset(b)
    ensures forall r :: r in a ==> r in b
  {
    forall r | r in a ensures r in b {
      assert r in multiset(a);
    }
  }

  lemma {:induction false} TotalNonPositive(s: seq<RepoInfo>)
    ensures (forall r :: r in s ==> CountOf(r) <= 0) ==> Total(s) <= 0
  {
    if s != [] {
      assert forall r :: r in s[1..] ==> r in s;
      TotalNonPositive(s[1..]);
    }
  }
}

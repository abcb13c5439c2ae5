/** The legacy `issue` text command of src/commands/issueCommand.ts.
    `lookup` fetches an issue by number, `search` returns the first hit of
    a search; `toNumber` stands for JavaScript's `Number()` (`None` for
    `NaN`) and `dateString` for `Date.prototype.toDateString`. */
module IssueCommand {
  import opened Common
  import opened CommandParser
  import IssueEmbed
  import PrCommand

  /** The search text is cut to this many characters (line 35). */
  const QueryLimit: nat := 256

  /** `matchesName` (lines 14-16). */
  predicate MatchesName(commandName: string)
  {
    commandName == "issue" || commandName == "issues"
  }

  function Help(commandPrefix: string): string
  {
    "Use **" + commandPrefix + "issue [ <keywords> | <number> ]** to search for SerenityOS issues"
  }

  /** Green exactly when open, red otherwise (line 54). */
  function IssueColor(issue: IssueEmbed.Issue): (color: string)
    ensures color == IssueEmbed.OpenColor <==> issue.state == "open"
    ensures color == IssueEmbed.ClosedColor <==> issue.state != "open"
  {
    if issue.state == "open" then IssueEmbed.OpenColor else IssueEmbed.ClosedColor
  }

  /** `embedFromIssue` (lines 45-87 of the command). */
  function EmbedFromIssue(username: string, issue: IssueEmbed.Issue, dateString: string -> string): QueryEmbed
  {
    var labels := Join(IssueEmbed.IssueLabelNames(issue.labels), ", ");
    BaseEmbed(username).(
      color := IssueColor(issue),
      title := issue.title,
      url := issue.htmlUrl,
      description := IssueEmbed.ShortDescription(issue.body),
      fields :=
        [QueryField("Created", dateString(issue.createdAt), true),
         QueryField("Comments", NatToDecimal(issue.comments), true)]
        + (if |labels| != 0 then [QueryField("Labels", labels, false)] else [])
        + (if IssueEmbed.Truthy(issue.closedAt) && issue.closedBy.Some? then
             [QueryField("Closed", dateString(issue.closedAt.value) + " by " + issue.closedBy.value.login, true)]
           else []),
      author := if issue.user.Some? then Some(issue.user.value.login) else None,
      thumbnail := if issue.user.Some? then Some(issue.user.value.avatarUrl) else None)
  }

  /** Labels appears exactly when the joined names are not empty; Closed
      needs both `closed_at` and `closed_by`. */
  lemma EmbedFromIssueShape(username: string, issue: IssueEmbed.Issue, dateString: string -> string)
    ensures var e := EmbedFromIssue(username, issue, dateString);
            && |e.description| <= IssueEmbed.DescriptionLimit + 3
            && ("Labels" in PrCommand.Names(e.fields) <==> Join(IssueEmbed.IssueLabelNames(issue.labels), ", ") != "")
            && ("Closed" in PrCommand.Names(e.fields) <==> IssueEmbed.Truthy(issue.closedAt) && issue.closedBy.Some?)
  {
    var e := EmbedFromIssue(username, issue, dateString);
    var labels := Join(IssueEmbed.IssueLabelNames(issue.labels), ", ");
    assert PrCommand.Names(e.fields) == ["Created", "Comments"]
      + (if |labels| != 0 then ["Labels"] else [])
      + (if IssueEmbed.Truthy(issue.closedAt) && issue.closedBy.Some? then ["Closed"] else []);
  }

  /** The search text: the arguments joined with "+", at most 256
      characters. */
  function Query(args: seq<string>): (q: string)
    ensures |q| <= QueryLimit
    ensures |Join(args, "+")| <= QueryLimit ==> q == Join(args, "+")
    ensures q == Join(args, "+")[..|q|]
  {
    TakeFirst(Join(args, "+"), QueryLimit)
  }

  /** `run` (lines 23-44): `Number(args[0])` is `NaN` when there is no
      argument. */
  function Run(args: seq<string>, username: string, toNumber: string -> Option<int>,
               lookup: int -> Option<IssueEmbed.Issue>, search: string -> Option<IssueEmbed.Issue>,
               sadcaret: Option<string>, dateString: string -> string): (sent: Sent)
    ensures var hit := if |args| > 0 && toNumber(args[0]).Some? then lookup(toNumber(args[0]).value) else None;
            sent.SentText? <==> hit.None? && search(Query(args)).None?
    ensures sent.SentText? ==> sent.text == "No matching issues found " + EmojiText(sadcaret)
    ensures sent.SentEmbed? ==> sent.embed.footer == "Query by " + username
  {
    var number := if |args| > 0 then toNumber(args[0]) else None;
    if number.Some? && lookup(number.value).Some? then
      SentEmbed(EmbedFromIssue(username, lookup(number.value).value, dateString))
    else
      match search(Query(args))
      case Some(issue) => SentEmbed(EmbedFromIssue(username, issue, dateString))
      case None => SentText("No matching issues found " + EmojiText(sadcaret))
  }

  /** A numeric first argument whose lookup misses falls through to the
      search, exactly as a non-numeric one does; extra arguments do not
      stop the lookup. */
  lemma MissFallsThrough(args: seq<string>, username: string, toNumber: string -> Option<int>,
                         lookup: int -> Option<IssueEmbed.Issue>, search: string -> Option<IssueEmbed.Issue>,
                         sadcaret: Option<string>, dateString: string -> string)
    requires |args| > 0 && toNumber(args[0]).Some? && lookup(toNumber(args[0]).value).None?
    ensures Run(args, username, toNumber, lookup, search, sadcaret, dateString)
            == Run(args, username, _ => None, lookup, search, sadcaret, dateString)
  {
  }

  /** A hit by number wins over the search, however many arguments follow. */
  lemma NumberWins(args: seq<string>, username: string, toNumber: string -> Option<int>,
                   lookup: int -> Option<IssueEmbed.Issue>, search: string -> Option<IssueEmbed.Issue>,
                   otherSearch: string -> Option<IssueEmbed.Issue>, sadcaret: Option<string>, dateString: string -> string)
    requires |args| > 0 && toNumber(args[0]).Some? && lookup(toNumber(args[0]).value).Some?
    ensures Run(args, username, toNumber, lookup, search, sadcaret, dateString)
            == Run(args, username, toNumber, lookup, otherSearch, sadcaret, dateString)
            == SentEmbed(EmbedFromIssue(username, lookup(toNumber(args[0]).value).value, dateString))
  {
  }
}

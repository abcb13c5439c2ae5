/** The legacy `pr` text command of src/commands/prCommand.ts. The GitHub
    lookups are parameters: `lookup` fetches a pull request by number,
    `search` returns the number of the first search hit; `toNumber` stands
    for JavaScript's `Number()` (`None` for `NaN`) and `dateString` for
    `Date.prototype.toDateString`. */
module PrCommand {
  import opened Common
  import opened CommandParser
  import IssueEmbed

  /** `matchesName` (lines 15-22). */
  predicate MatchesName(commandName: string)
  {
    commandName == "pr" || commandName == "prs" || commandName == "pullrequest" || commandName == "pullrequests"
  }

  /** The parser lower-cases the name, so "PR" and "Prs" reach the command
      too; the four names are the only ones. */
  lemma MatchesOnlyFour(commandName: string)
    ensures MatchesName(commandName) <==> commandName in ["pr", "prs", "pullrequest", "pullrequests"]
  {
  }

  function Help(commandPrefix: string): string
  {
    "Use **" + commandPrefix + "pr [ <keywords> | <number> ]** to search for SerenityOS pull requests"
  }

  /** The colour of `embedFromPr` (lines 72-80): draft first, then merged,
      then green when open and red otherwise. */
  function PrColor(pr: IssueEmbed.Pull): (color: string)
    ensures color == IssueEmbed.DraftColor <==> pr.draft
    ensures color == IssueEmbed.MergedColor <==> !pr.draft && pr.merged
    ensures color == IssueEmbed.OpenColor <==> !pr.draft && !pr.merged && pr.state == "open"
    ensures color == IssueEmbed.ClosedColor <==> !pr.draft && !pr.merged && pr.state != "open"
  {
    if pr.draft then IssueEmbed.DraftColor
    else if pr.merged then IssueEmbed.MergedColor
    else if pr.state == "open" then IssueEmbed.OpenColor
    else IssueEmbed.ClosedColor
  }

  /** The legacy colour order differs from the slash command's: a merged
      draft is grey here and purple there. */
  lemma MergedDraftColors(pr: IssueEmbed.Pull)
    requires pr.draft && pr.merged
    ensures PrColor(pr) == IssueEmbed.DraftColor && IssueEmbed.PullColor(pr) == IssueEmbed.MergedColor
  {
  }

  function LabelText(labels: seq<Option<string>>): string
  {
    Join(IssueEmbed.PullLabelNames(labels), ", ")
  }

  /** `embedFromPr` (lines 63-114). */
  function EmbedFromPr(username: string, pr: IssueEmbed.Pull, dateString: string -> string): QueryEmbed
  {
    BaseEmbed(username).(
      color := PrColor(pr),
      title := pr.title,
      url := pr.htmlUrl,
      description := IssueEmbed.ShortDescription(pr.body),
      fields := CountFields(pr, dateString) + LabelsField(pr) + MergedField(pr, dateString),
      author := if pr.user.Some? then Some(pr.user.value.login) else None,
      thumbnail := if pr.user.Some? then Some(pr.user.value.avatarUrl) else None)
  }

  /** The three fields every pull request embed has (lines 88-90). */
  function CountFields(pr: IssueEmbed.Pull, dateString: string -> string): (fields: seq<QueryField>)
    ensures Names(fields) == ["Created", "Commits", "Comments"]
  {
    [QueryField("Created", dateString(pr.createdAt), true),
     QueryField("Commits", NatToDecimal(pr.commits) + " (+" + NatToDecimal(pr.additions) + " -" + NatToDecimal(pr.deletions) + ")", true),
     QueryField("Comments", NatToDecimal(pr.comments), true)]
  }

  /** The Labels field, added when the pull request has labels (lines 97-99). */
  function LabelsField(pr: IssueEmbed.Pull): (fields: seq<QueryField>)
    ensures Names(fields) == if |pr.labels| != 0 then ["Labels"] else []
  {
    if |pr.labels| != 0 then [QueryField("Labels", LabelText(pr.labels), false)] else []
  }

  /** The Merged field, added with a merge date and a merger (lines 101-107). */
  function MergedField(pr: IssueEmbed.Pull, dateString: string -> string): (fields: seq<QueryField>)
    ensures Names(fields) == if pr.merged && IssueEmbed.Truthy(pr.mergedAt) && pr.mergedBy.Some? then ["Merged"] else []
  {
    if pr.merged && IssueEmbed.Truthy(pr.mergedAt) && pr.mergedBy.Some? then
      [QueryField("Merged", dateString(pr.mergedAt.value) + " by " + pr.mergedBy.value.login, true)]
    else []
  }

  function Names(fields: seq<QueryField>): (names: seq<string>)
    ensures |names| == |fields|
    ensures forall i :: 0 <= i < |fields| ==> names[i] == fields[i].name
  {
    if fields == [] then [] else [fields[0].name] + Names(fields[1..])
  }

  /** The description is at most 303 characters; Labels appears exactly
      when the label list is not empty; Merged needs `merged`, `merged_at`
      and `merged_by`; the footer names the requester. */
  lemma EmbedFromPrShape(username: string, pr: IssueEmbed.Pull, dateString: string -> string)
    ensures var e := EmbedFromPr(username, pr, dateString);
            && |e.description| <= IssueEmbed.DescriptionLimit + 3
            && e.footer == "Query by " + username
            && ("Labels" in Names(e.fields) <==> |pr.labels| != 0)
            && ("Merged" in Names(e.fields) <==> pr.merged && IssueEmbed.Truthy(pr.mergedAt) && pr.mergedBy.Some?)
  {
    var e := EmbedFromPr(username, pr, dateString);
    PrFieldNames(username, pr, dateString);
    NamesListed(|pr.labels| != 0, pr.merged && IssueEmbed.Truthy(pr.mergedAt) && pr.mergedBy.Some?);
  }

  /** The field names of the pull request embed, in order. */
  lemma PrFieldNames(username: string, pr: IssueEmbed.Pull, dateString: string -> string)
    ensures Names(EmbedFromPr(username, pr, dateString).fields)
            == ["Created", "Commits", "Comments"]
               + (if |pr.labels| != 0 then ["Labels"] else [])
               + (if pr.merged && IssueEmbed.Truthy(pr.mergedAt) && pr.mergedBy.Some? then ["Merged"] else [])
  {
    NamesAppend(CountFields(pr, dateString) + LabelsField(pr), MergedField(pr, dateString));
    NamesAppend(CountFields(pr, dateString), LabelsField(pr));
  }

  lemma NamesListed(labels: bool, merged: bool)
    ensures var names := ["Created", "Commits", "Comments"]
                         + (if labels then ["Labels"] else []) + (if merged then ["Merged"] else []);
            && ("Labels" in names <==> labels)
            && ("Merged" in names <==> merged)
  {
    var names := ["Created", "Commits", "Comments"]
                 + (if labels then ["Labels"] else []) + (if merged then ["Merged"] else []);
    forall j | 0 <= j < |names| ensures names[j] == "Labels" ==> labels {
      if j < 3 { assert names[j][0] == 'C'; }
      else if j == 3 && labels {} else { assert names[j] == "Merged"; assert names[j][0] == 'M'; }
    }
    forall j | 0 <= j < |names| ensures names[j] == "Merged" ==> merged {
      if j < 3 { assert names[j][0] == 'C'; }
      else if j == 3 && labels { assert names[j][0] == 'L'; } else { assert names[j] == "Merged"; }
    }
    if labels { assert names[3] == "Labels"; }
    if merged { assert names[|names| - 1] == "Merged"; }
  }

  lemma {:induction false} NamesAppend(a: seq<QueryField>, b: seq<QueryField>)
    ensures Names(a + b) == Names(a) + Names(b)
  {
    if a != [] {
      assert (a + b)[0] == a[0] && (a + b)[1..] == a[1..] + b;
      NamesAppend(a[1..], b);
    } else {
      assert a + b == b;
    }
  }

  /** `run` (lines 28-61). */
  function Run(args: seq<string>, username: string, toNumber: string -> Option<int>,
               lookup: int -> Option<IssueEmbed.Pull>, search: string -> Option<nat>,
               sadcaret: Option<string>, dateString: string -> string): (sent: Sent)
    ensures sent.SentText? <==>
              if |args| == 1 && toNumber(args[0]).Some? then lookup(toNumber(args[0]).value).None?
              else search(Join(args, "+")).None? || lookup(search(Join(args, "+")).value).None?
    ensures sent.SentText? ==>
              sent.text == (if |args| == 1 && toNumber(args[0]).Some? then "No matching PRs found "
                            else "No matching pull requests found ") + EmojiText(sadcaret)
    ensures sent.SentEmbed? ==> sent.embed.footer == "Query by " + username
  {
    if |args| == 1 && toNumber(args[0]).Some? then
      match lookup(toNumber(args[0]).value)
      case Some(pr) => SentEmbed(EmbedFromPr(username, pr, dateString))
      case None => SentText("No matching PRs found " + EmojiText(sadcaret))
    else
      match search(Join(args, "+"))
      case Some(n) =>
        (match lookup(n)
         case Some(pr) => SentEmbed(EmbedFromPr(username, pr, dateString))
         case None => SentText("No matching pull requests found " + EmojiText(sadcaret)))
      case None => SentText("No matching pull requests found " + EmojiText(sadcaret))
  }

  /** A single numeric argument is looked up by number and never searched;
      a miss says "No matching PRs found". */
  lemma NumberIsNotSearched(args: seq<string>, username: string, toNumber: string -> Option<int>,
                            lookup: int -> Option<IssueEmbed.Pull>, search: string -> Option<nat>,
                            otherSearch: string -> Option<nat>, sadcaret: Option<string>, dateString: string -> string)
    requires |args| == 1 && toNumber(args[0]).Some?
    ensures Run(args, username, toNumber, lookup, search, sadcaret, dateString)
            == Run(args, username, toNumber, lookup, otherSearch, sadcaret, dateString)
    ensures lookup(toNumber(args[0]).value).None? ==>
              Run(args, username, toNumber, lookup, search, sadcaret, dateString)
              == SentText("No matching PRs found " + EmojiText(sadcaret))
  {
  }

  /** With any other number of arguments `Number()` is never consulted:
      the arguments joined with "+" are searched and the hit re-fetched. */
  lemma SearchUnlessOneArgument(args: seq<string>, username: string, toNumber: string -> Option<int>,
                                otherToNumber: string -> Option<int>, lookup: int -> Option<IssueEmbed.Pull>,
                                search: string -> Option<nat>, sadcaret: Option<string>, dateString: string -> string)
    requires |args| != 1
    ensures Run(args, username, toNumber, lookup, search, sadcaret, dateString)
            == Run(args, username, otherToNumber, lookup, search, sadcaret, dateString)
    ensures search(Join(args, "+")).Some? && lookup(search(Join(args, "+")).value).Some? ==>
              Run(args, username, toNumber, lookup, search, sadcaret, dateString)
              == SentEmbed(EmbedFromPr(username, lookup(search(Join(args, "+")).value).value, dateString))
  {
  }

  /** With no sadcaret emoji the message ends in the text "null". */
  lemma MissingEmojiPrintsNull(args: seq<string>, username: string, toNumber: string -> Option<int>,
                               lookup: int -> Option<IssueEmbed.Pull>, dateString: string -> string)
    requires |args| == 1 && toNumber(args[0]).Some? && lookup(toNumber(args[0]).value).None?
    ensures Run(args, username, toNumber, lookup, _ => None, None, dateString) == SentText("No matching PRs found null")
  {
  }
}

/** The `/user` command of src/commands/userCommand.ts: two select menus
    listing a user's recent issues and pull requests, and the embed of the
    item picked from them. `getIssueOrPull` is the parameter `fetch`; the
    five state emojis are looked up beforehand. */
module UserCommand {
  import opened Common
  import IssueEmbed
  import Text
  import CommandHandler

  /** The command object as the dispatcher sees it (lines 29-42, 122). */
  const UserHandler := CommandHandler.Handler(
    "UserCommand",
    [CommandHandler.CommandData("user", "Show user's recent issues and PRs", None)],
    false, true, false, None)

  datatype IssueItem = IssueItem(number: nat, title: string, state: string)

  /** `pullRequest` is the item's `pull_request` object, reduced to its
      `merged_at`: `None` when the object is missing. */
  datatype PullItem = PullItem(number: nat, title: string, state: string, pullRequest: Option<Option<string>>)

  /** What `fetchUserIssuesAndPulls` returns. */
  datatype Activity = Activity(issues: seq<IssueItem>, pulls: seq<PullItem>)

  /** The rendered state emojis; a missing emoji is `None`. */
  datatype Emojis = Emojis(openIssue: Option<string>, closedIssue: Option<string>, openPull: Option<string>,
                           mergedPull: Option<string>, closedPull: Option<string>)

  datatype SelectOption = SelectOption(text: string, value: string, emoji: Option<string>)

  datatype Menu = Menu(customId: string, placeholder: string, options: seq<SelectOption>)

  /** The reply: the refusal (after which the handler throws) or the
      prompt with its menus. */
  datatype Outcome = Refused(content: string) | Shown(title: string, color: string, rows: seq<Menu>)

  /** One option of the issue menu (lines 75-79). */
  function IssueOption(issue: IssueItem, emojis: Emojis): (o: SelectOption)
    ensures |o.text| <= Text.DefaultTrimLength
    ensures o.value == NatToDecimal(issue.number)
    ensures o.emoji == if issue.state == "closed" then emojis.closedIssue else emojis.openIssue
  {
    SelectOption(Text.TrimString(issue.title), NatToDecimal(issue.number),
                 if issue.state == "closed" then emojis.closedIssue else emojis.openIssue)
  }

  /** `pull?.pull_request?.merged_at !== null`: a missing `pull_request`
      gives `undefined`, which is not `null`. */
  predicate IsMerged(pull: PullItem)
  {
    pull.pullRequest != Some(None)
  }

  /** The emoji of a pull request (lines 92-98): merged first, then closed,
      open otherwise. */
  function PullEmoji(pull: PullItem, emojis: Emojis): Option<string>
  {
    if IsMerged(pull) then emojis.mergedPull
    else if pull.state == "closed" then emojis.closedPull
    else emojis.openPull
  }

  /** One option of the pull request menu (lines 91-104). */
  function PullOption(pull: PullItem, emojis: Emojis): (o: SelectOption)
    ensures |o.text| <= Text.DefaultTrimLength
    ensures o.value == NatToDecimal(pull.number)
  {
    SelectOption(Text.TrimString(pull.title), NatToDecimal(pull.number), PullEmoji(pull, emojis))
  }

  /** The state emoji of a pull request in terms of its fields: a pull
      request without a `pull_request` object is shown as merged. */
  lemma PullEmojiCases(pull: PullItem, emojis: Emojis)
    ensures pull.pullRequest.None? ==> PullOption(pull, emojis).emoji == emojis.mergedPull
    ensures pull.pullRequest.Some? && pull.pullRequest.value.Some? ==> PullOption(pull, emojis).emoji == emojis.mergedPull
    ensures pull.pullRequest == Some(None) && pull.state == "closed" ==> PullOption(pull, emojis).emoji == emojis.closedPull
    ensures pull.pullRequest == Some(None) && pull.state != "closed" ==> PullOption(pull, emojis).emoji == emojis.openPull
  {
  }

  function IssueMenu(issues: seq<IssueItem>, emojis: Emojis): (m: Menu)
    ensures |m.options| == |issues|
    ensures forall i :: 0 <= i < |issues| ==> m.options[i] == IssueOption(issues[i], emojis)
  {
    Menu("issues", "Issues", seq(|issues|, i requires 0 <= i < |issues| => IssueOption(issues[i], emojis)))
  }

  function PullMenu(pulls: seq<PullItem>, emojis: Emojis): (m: Menu)
    ensures |m.options| == |pulls|
    ensures forall i :: 0 <= i < |pulls| ==> m.options[i] == PullOption(pulls[i], emojis)
  {
    Menu("pulls", "Pull Requests", seq(|pulls|, i requires 0 <= i < |pulls| => PullOption(pulls[i], emojis)))
  }

  function Prompt(username: string): string
  {
    "Select a Pull Request or Issue to display from " + username + "'s recent github activity."
  }

  /** `handleCommand` (lines 44-120); `response` is `None` when the
      request failed. */
  function Handle(username: string, response: Option<Activity>, sadcaret: Option<string>, emojis: Emojis)
    : (o: Outcome)
    ensures o.Refused? <==> response.None? || (response.value.issues == [] && response.value.pulls == [])
    ensures o.Refused? ==> o.content == IssueEmbed.NoMatchingFound(sadcaret)
    ensures o.Shown? ==> o.title == Prompt(username) && 1 <= |o.rows| <= 2
  {
    if response.None? || (response.value.issues == [] && response.value.pulls == []) then
      Refused(IssueEmbed.NoMatchingFound(sadcaret))
    else
      var a := response.value;
      var rows := (if a.issues != [] then [IssueMenu(a.issues, emojis)] else [])
                  + (if a.pulls != [] then [PullMenu(a.pulls, emojis)] else []);
      if rows == [] then Refused("User has no recent issues or prs")
      else Shown(Prompt(username), IssueEmbed.OpenColor, rows)
  }

  /** The refusal comes exactly when the request failed or found nothing;
      otherwise the issue menu comes first when there are issues, the pull
      request menu last when there are pull requests, each with one option
      per item, so the "no recent issues" error is never reached. */
  lemma HandleShape(username: string, response: Option<Activity>, sadcaret: Option<string>, emojis: Emojis)
    ensures var o := Handle(username, response, sadcaret, emojis);
            && (o.Refused? <==> response.None? || (response.value.issues == [] && response.value.pulls == []))
            && (o.Refused? ==> o.content == IssueEmbed.NoMatchingFound(sadcaret))
            && (o.Shown? ==>
                  var a := response.value;
                  && |o.rows| == (if a.issues != [] then 1 else 0) + (if a.pulls != [] then 1 else 0)
                  && |o.rows| >= 1
                  && (a.issues != [] ==> o.rows[0] == IssueMenu(a.issues, emojis))
                  && (a.pulls != [] ==> o.rows[|o.rows| - 1] == PullMenu(a.pulls, emojis))
                  && o.color == IssueEmbed.OpenColor)
  {
  }

  /** `handleSelectMenu` (lines 122-127): the embed the message is updated
      with, or `None` when it is left alone. */
  function Select(values: seq<string>, fetch: int -> Option<IssueEmbed.Issue>,
                  getPull: nat -> Option<IssueEmbed.Pull>,
                  relative: string -> string): (e: Option<IssueEmbed.Embed>)
    requires |values| >= 1
  {
    match ParseInt(values[0])
    case Some(n) => IssueEmbed.EmbedFor(fetch(n), getPull, relative)
    case None => None
  }

  /** Picking an option of either menu fetches exactly the item it was
      made from: the option's value reads back as the item's number. */
  lemma SelectRoundTrip(username: string, a: Activity, sadcaret: Option<string>, emojis: Emojis,
                        row: nat, i: nat, fetch: int -> Option<IssueEmbed.Issue>,
                        getPull: nat -> Option<IssueEmbed.Pull>,
                        relative: string -> string)
    requires Handle(username, Some(a), sadcaret, emojis).Shown?
    requires row < |Handle(username, Some(a), sadcaret, emojis).rows|
    requires i < |Handle(username, Some(a), sadcaret, emojis).rows[row].options|
    ensures var m := Handle(username, Some(a), sadcaret, emojis).rows[row];
            var n := if m.customId == "issues" then a.issues[i].number else a.pulls[i].number;
            && (m.customId == "issues" || m.customId == "pulls")
            && Select([m.options[i].value], fetch, getPull, relative) == IssueEmbed.EmbedFor(fetch(n), getPull, relative)
  {
    var m := Handle(username, Some(a), sadcaret, emojis).rows[row];
    var n: nat := if m.customId == "issues" then a.issues[i].number else a.pulls[i].number;
    assert m.options[i].value == NatToDecimal(n);
    ParseIntOfDecimal(n);
  }
}

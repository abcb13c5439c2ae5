/** The issue and pull request embeds of src/util/embedFromIssueOrPull.ts.
    The records hold the fields of the GitHub responses the embeds read;
    `relative` stands for discord.js's `time(new Date(t), "R")`. */
module IssueEmbed {
  import opened Common

  const OpenColor := "#57ab5a"
  const ClosedColor := "#e5534b"
  const MergedColor := "#6e40c9"
  const DraftColor := "#768390"

  /** Bodies longer than this are cut (lines 52-54, 119-121). */
  const DescriptionLimit: nat := 300

  datatype User = User(login: string, avatarUrl: string, htmlUrl: string)

  /** An issue label is a bare string or an object whose name may be
      missing. */
  datatype IssueLabel = Plain(text: string) | Described(name: Option<string>)

  datatype Issue = Issue(
    number: nat, title: string, body: Option<string>, state: string, htmlUrl: string,
    createdAt: string, closedAt: Option<string>, closedBy: Option<User>, comments: nat,
    labels: seq<IssueLabel>, user: Option<User>, repositoryUrl: string, isPull: bool)

  datatype Pull = Pull(
    number: nat, title: string, body: Option<string>, draft: bool, merged: bool, state: string,
    htmlUrl: string, createdAt: string, commits: nat, additions: nat, deletions: nat, comments: nat,
    labels: seq<Option<string>>, mergedAt: Option<string>, mergedBy: Option<User>, user: Option<User>)

  /** `owner` is `undefined` when the URL has no '/'. */
  datatype Repository = Repository(owner: Option<string>, name: string)

  datatype Field = Field(name: string, value: string, inline: bool)

  datatype Author = Author(name: string, iconUrl: string, url: string)

  datatype Embed = Embed(color: string, title: string, url: string, description: Option<string>,
                         fields: seq<Field>, author: Option<Author>)

  /** JavaScript truthiness of an optional string. */
  predicate Truthy(s: Option<string>)
  {
    s.Some? && s.value != ""
  }

  function FieldNames(fields: seq<Field>): (names: seq<string>)
    ensures |names| == |fields|
    ensures forall i :: 0 <= i < |fields| ==> names[i] == fields[i].name
  {
    if fields == [] then [] else [fields[0].name] + FieldNames(fields[1..])
  }

  /** `body || ""`, cut to 300 characters followed by "...". */
  function ShortDescription(body: Option<string>): (d: string)
    ensures |d| <= DescriptionLimit + 3
    ensures body.Some? && |body.value| <= DescriptionLimit ==> d == body.value
    ensures body.Some? && |body.value| > DescriptionLimit ==>
              |d| == DescriptionLimit + 3 && d[..DescriptionLimit] == body.value[..DescriptionLimit]
              && d[DescriptionLimit..] == "..."
    ensures body.None? ==> d == ""
  {
    var text := if body.Some? then body.value else "";
    if |text| > DescriptionLimit then text[..DescriptionLimit] + "..." else text
  }

  /** `description || null`. */
  function NonEmpty(s: string): (r: Option<string>)
    ensures r.Some? <==> s != ""
  {
    if s == "" then None else Some(s)
  }

  /** The repository from `repository_url` (lines 30-34): the last two
      '/'-separated pieces. */
  function RepositoryOf(url: string): Repository
  {
    var parts := Split(url, '/');
    Repository(if |parts| >= 2 then Some(parts[|parts| - 2]) else None, parts[|parts| - 1])
  }

  /** For the API's `.../repos/{owner}/{name}` address the owner and name
      come back. */
  lemma RepositoryOfApiUrl(prefix: string, owner: string, name: string)
    requires '/' !in owner && '/' !in name
    ensures RepositoryOf(prefix + "/" + owner + "/" + name) == Repository(Some(owner), name)
  {
    var tail := owner + "/" + name;
    assert prefix + "/" + owner + "/" + name == prefix + ['/'] + tail;
    SplitAppend(prefix, '/', tail);
    assert tail == owner + ['/'] + name;
    SplitAppend(owner, '/', name);
    SplitNone(owner, '/');
    SplitNone(name, '/');
  }

  /** A URL without '/' gives the whole text as the name and no owner. */
  lemma RepositoryOfPlainText(url: string)
    requires '/' !in url
    ensures RepositoryOf(url) == Repository(None, url)
  {
    SplitNone(url, '/');
  }

  function AuthorOf(user: Option<User>): (a: Option<Author>)
    ensures a.Some? <==> user.Some?
    ensures a.Some? ==> a.value.name == "@" + user.value.login
  {
    if user.Some? then Some(Author("@" + user.value.login, user.value.avatarUrl, user.value.htmlUrl)) else None
  }

  // ---- issues (lines 45-112) --------------------------------------------------

  /** The name of one label (line 83): a plain label is its own name. */
  function LabelName(l: IssueLabel): Option<string>
  {
    match l
    case Plain(t) => Some(t)
    case Described(n) => n
  }

  /** The names of the labels, the missing ones dropped (lines 82-84). */
  function IssueLabelNames(labels: seq<IssueLabel>): (names: seq<string>)
    ensures |names| <= |labels|
    ensures forall n :: n in names <==> exists k :: 0 <= k < |labels| && LabelName(labels[k]) == Some(n)
    ensures (forall k :: 0 <= k < |labels| ==> LabelName(labels[k]).Some?) ==>
              |names| == |labels| && forall k :: 0 <= k < |labels| ==> names[k] == LabelName(labels[k]).value
  {
    if labels == [] then []
    else
      var first := if LabelName(labels[0]).Some? then [LabelName(labels[0]).value] else [];
      var rest := IssueLabelNames(labels[1..]);
      assert forall k :: 1 <= k < |labels| ==> labels[k] == labels[1..][k - 1];
      assert forall n :: (exists k :: 0 <= k < |labels[1..]| && LabelName(labels[1..][k]) == Some(n)) ==>
                          exists k :: 0 <= k < |labels| && LabelName(labels[k]) == Some(n) by {
        forall n | exists k :: 0 <= k < |labels[1..]| && LabelName(labels[1..][k]) == Some(n)
          ensures exists k :: 0 <= k < |labels| && LabelName(labels[k]) == Some(n)
        {
          var k :| 0 <= k < |labels[1..]| && LabelName(labels[1..][k]) == Some(n);
          assert LabelName(labels[k + 1]) == Some(n);
        }
      }
      first + rest
  }

  /** The names keep the order of the labels. */
  lemma {:induction false} IssueLabelNamesAppend(a: seq<IssueLabel>, b: seq<IssueLabel>)
    ensures IssueLabelNames(a + b) == IssueLabelNames(a) + IssueLabelNames(b)
  {
    if a != [] {
      assert (a + b)[0] == a[0] && (a + b)[1..] == a[1..] + b;
      IssueLabelNamesAppend(a[1..], b);
    } else {
      assert a + b == b;
    }
  }

  function IssueEmbed(issue: Issue, repo: Repository, relative: string -> string): Embed
  {
    var labels := Join(IssueLabelNames(issue.labels), ", ");
    Embed(
      if issue.state == "open" then OpenColor else MergedColor,
      repo.name + " #" + NatToDecimal(issue.number) + ": " + issue.title,
      issue.htmlUrl,
      NonEmpty(ShortDescription(issue.body)),
      [Field("Type", "Issue", true),
       Field("Created", relative(issue.createdAt), true),
       Field("Comments", NatToDecimal(issue.comments), true),
       Field("State", if issue.state == "open" then "Open" else "Closed", true)]
      + (if |labels| != 0 then [Field("Labels", labels, true)] else [])
      + (if Truthy(issue.closedAt) then [Field("Closed", relative(issue.closedAt.value), true)] else []),
      AuthorOf(issue.user))
  }

  /** An issue is shown green when open and otherwise in the merged purple
      (not the closed red), with a State field of "Open" or "Closed", and
      its description is at most the cut length. */
  lemma IssueEmbedLook(issue: Issue, repo: Repository, relative: string -> string)
    ensures var e := IssueEmbed(issue, repo, relative);
            && (e.color == OpenColor <==> issue.state == "open")
            && (e.color != OpenColor ==> e.color == MergedColor)
            && e.fields[3] == Field("State", if issue.state == "open" then "Open" else "Closed", true)
            && (e.description.Some? ==> |e.description.value| <= DescriptionLimit + 3)
  {
  }

  /** The issue embed's fields: the four fixed ones, then Labels exactly
      when the joined names are not empty, then Closed exactly when
      `closed_at` is set. */
  lemma IssueEmbedShape(issue: Issue, repo: Repository, relative: string -> string)
    ensures var names := FieldNames(IssueEmbed(issue, repo, relative).fields);
            && names[..4] == ["Type", "Created", "Comments", "State"]
            && ("Labels" in names <==> Join(IssueLabelNames(issue.labels), ", ") != "")
            && ("Closed" in names <==> Truthy(issue.closedAt))
  {
    var n4: seq<string> := ["Type", "Created", "Comments", "State"];
    var labels: seq<string> := if Join(IssueLabelNames(issue.labels), ", ") != "" then ["Labels"] else [];
    var closed: seq<string> := if Truthy(issue.closedAt) then ["Closed"] else [];
    IssueFieldNames(issue, repo, relative);
    assert (n4 + labels + closed)[..4] == n4;
    assert "Labels" !in n4 && "Closed" !in n4;
    InThree(n4, labels, closed, "Labels");
    InThree(n4, labels, closed, "Closed");
  }

  lemma IssueFieldNames(issue: Issue, repo: Repository, relative: string -> string)
    ensures FieldNames(IssueEmbed(issue, repo, relative).fields)
            == ["Type", "Created", "Comments", "State"]
               + (if Join(IssueLabelNames(issue.labels), ", ") != "" then ["Labels"] else [])
               + (if Truthy(issue.closedAt) then ["Closed"] else [])
  {
  }

  // ---- pull requests (lines 114-207) ------------------------------------------

  /** The entries of the State field: "Draft" first for a draft, then
      exactly one of Merged, Closed and Open. */
  function PullStates(pull: Pull): (states: seq<string>)
    ensures |states| == (if pull.draft then 2 else 1)
    ensures states[0] == "Draft" <==> pull.draft
    ensures states[|states| - 1] == (if pull.merged then "Merged" else if pull.state == "closed" then "Closed" else "Open")
  {
    (if pull.draft then ["Draft"] else [])
    + [if pull.merged then "Merged" else if pull.state == "closed" then "Closed" else "Open"]
  }

  /** The colour: merged before closed before draft before open. */
  function PullColor(pull: Pull): (color: string)
    ensures color == MergedColor <==> pull.merged
    ensures color == ClosedColor <==> !pull.merged && pull.state == "closed"
    ensures color == DraftColor <==> !pull.merged && pull.state != "closed" && pull.draft
    ensures color == OpenColor <==> !pull.merged && pull.state != "closed" && !pull.draft
  {
    if pull.merged then MergedColor
    else if pull.state == "closed" then ClosedColor
    else if pull.draft then DraftColor
    else OpenColor
  }

  /** `Intl.ListFormat().format` in English for the one or two entries a
      pull request has. */
  function ListFormat(items: seq<string>): string
  {
    if |items| == 0 then ""
    else if |items| == 1 then items[0]
    else if |items| == 2 then items[0] + " and " + items[1]
    else Join(items[..|items| - 1], ", ") + ", and " + items[|items| - 1]
  }

  /** The names of a pull request's labels, the missing ones dropped. */
  function PullLabelNames(labels: seq<Option<string>>): (names: seq<string>)
    ensures |names| <= |labels|
    ensures forall n :: n in names <==> Some(n) in labels
    ensures (forall k :: 0 <= k < |labels| ==> labels[k].Some?) ==>
              |names| == |labels| && forall k :: 0 <= k < |labels| ==> names[k] == labels[k].value
  {
    if labels == [] then []
    else
      var rest := PullLabelNames(labels[1..]);
      assert labels == [labels[0]] + labels[1..];
      assert forall k :: 1 <= k < |labels| ==> labels[k] == labels[1..][k - 1];
      (if labels[0].Some? then [labels[0].value] else []) + rest
  }

  /** The names keep the order of the labels. */
  lemma {:induction false} PullLabelNamesAppend(a: seq<Option<string>>, b: seq<Option<string>>)
    ensures PullLabelNames(a + b) == PullLabelNames(a) + PullLabelNames(b)
  {
    if a != [] {
      assert (a + b)[0] == a[0] && (a + b)[1..] == a[1..] + b;
      PullLabelNamesAppend(a[1..], b);
    } else {
      assert a + b == b;
    }
  }

  function PullEmbed(pull: Pull, repo: Repository, relative: string -> string): Embed
  {
    Embed(
      PullColor(pull),
      repo.name + " #" + NatToDecimal(pull.number) + ": " + pull.title,
      pull.htmlUrl,
      NonEmpty(ShortDescription(pull.body)),
      [Field("Type", "Pull Request", true),
       Field("Created", relative(pull.createdAt), true),
       Field("Commits", NatToDecimal(pull.commits) + " (+" + NatToDecimal(pull.additions) + " -" + NatToDecimal(pull.deletions) + ")", true),
       Field("Comments", NatToDecimal(pull.comments), true),
       Field("State", ListFormat(PullStates(pull)), true)]
      + (if |pull.labels| != 0 then [Field("Labels", Join(PullLabelNames(pull.labels), ", "), true)] else [])
      + (if pull.merged && Truthy(pull.mergedAt) && pull.mergedBy.Some? then
           [Field("Merged", relative(pull.mergedAt.value) + " by [" + pull.mergedBy.value.login + "](" + pull.mergedBy.value.htmlUrl + ")", true)]
         else []),
      AuthorOf(pull.user))
  }

  /** `embedFromPull`: the state list is pushed to and the colour assigned
      branch by branch. */
  method EmbedFromPull(pull: Pull, repo: Repository, relative: string -> string) returns (embed: Embed)
    ensures embed == PullEmbed(pull, repo, relative)
  {
    var description := CutDescription(pull.body);
    var state, color := StateAndColor(pull);
    var fields := [Field("Type", "Pull Request", true),
                   Field("Created", relative(pull.createdAt), true),
                   Field("Commits", NatToDecimal(pull.commits) + " (+" + NatToDecimal(pull.additions) + " -" + NatToDecimal(pull.deletions) + ")", true),
                   Field("Comments", NatToDecimal(pull.comments), true),
                   Field("State", ListFormat(state), true)];
    if |pull.labels| != 0 {
      fields := fields + [Field("Labels", Join(PullLabelNames(pull.labels), ", "), true)];
    }
    if pull.merged && Truthy(pull.mergedAt) && pull.mergedBy.Some? {
      fields := fields + [Field("Merged", relative(pull.mergedAt.value) + " by [" + pull.mergedBy.value.login + "](" + pull.mergedBy.value.htmlUrl + ")", true)];
    }
    embed := Embed(color, repo.name + " #" + NatToDecimal(pull.number) + ": " + pull.title, pull.htmlUrl,
                   NonEmpty(description), fields, AuthorOf(pull.user));
  }

  /** The description of lines 119-121: `body || ""`, cut when too long. */
  method CutDescription(body: Option<string>) returns (description: string)
    ensures description == ShortDescription(body)
  {
    description := if body.Some? then body.value else "";
    if |description| > DescriptionLimit {
      description := description[..DescriptionLimit] + "...";
    }
  }

  /** The state list and colour of lines 123-143, pushed and assigned
      branch by branch. */
  method StateAndColor(pull: Pull) returns (state: seq<string>, color: string)
    ensures state == PullStates(pull) && color == PullColor(pull)
  {
    state := [];
    if pull.draft {
      state := state + ["Draft"];
    }
    if pull.merged {
      color := MergedColor;
      state := state + ["Merged"];
    } else if pull.state == "closed" {
      color := ClosedColor;
      state := state + ["Closed"];
    } else {
      if pull.draft {
        color := DraftColor;
      } else {
        color := OpenColor;
      }
      state := state + ["Open"];
    }
  }

  /** The pull embed's fields: the five fixed ones, then Labels whenever
      the label array is not empty, then Merged when `merged`, `merged_at`
      and `merged_by` are all set. */
  lemma PullEmbedFields(pull: Pull, repo: Repository, relative: string -> string)
    ensures var names := FieldNames(PullEmbed(pull, repo, relative).fields);
            && names[..5] == ["Type", "Created", "Commits", "Comments", "State"]
            && ("Labels" in names <==> |pull.labels| != 0)
            && ("Merged" in names <==> pull.merged && Truthy(pull.mergedAt) && pull.mergedBy.Some?)
  {
    var n5: seq<string> := ["Type", "Created", "Commits", "Comments", "State"];
    var labels: seq<string> := if |pull.labels| != 0 then ["Labels"] else [];
    var merged: seq<string> := if pull.merged && Truthy(pull.mergedAt) && pull.mergedBy.Some? then ["Merged"] else [];
    PullFieldNames(pull, repo, relative);
    assert (n5 + labels + merged)[..5] == n5;
    assert "Labels" !in n5 && "Merged" !in n5;
    assert "Labels" !in merged && "Merged" !in labels;
    InThree(n5, labels, merged, "Labels");
    InThree(n5, labels, merged, "Merged");
  }

  lemma PullFieldNames(pull: Pull, repo: Repository, relative: string -> string)
    ensures FieldNames(PullEmbed(pull, repo, relative).fields)
            == ["Type", "Created", "Commits", "Comments", "State"]
               + (if |pull.labels| != 0 then ["Labels"] else [])
               + (if pull.merged && Truthy(pull.mergedAt) && pull.mergedBy.Some? then ["Merged"] else [])
  {
  }

  lemma InThree(a: seq<string>, b: seq<string>, c: seq<string>, x: string)
    ensures x in a + b + c <==> x in a || x in b || x in c
  {
  }

  /** The State field reads "Draft and …" for a draft, then the one state. */
  lemma PullStateText(pull: Pull, repo: Repository, relative: string -> string)
    ensures PullEmbed(pull, repo, relative).fields[4].value
            == (if pull.draft then "Draft and " else "") + PullStates(pull)[|PullStates(pull)| - 1]
  {
  }

  /** Labels without names still give a Labels field, an empty one. */
  lemma PullUnnamedLabels(pull: Pull, repo: Repository, relative: string -> string)
    requires |pull.labels| != 0 && forall l :: l in pull.labels ==> l.None?
    ensures PullEmbed(pull, repo, relative).fields[5] == Field("Labels", "", true)
  {
    NoNamedLabels(pull.labels);
  }

  lemma {:induction false} NoNamedLabels(labels: seq<Option<string>>)
    requires forall l :: l in labels ==> l.None?
    ensures PullLabelNames(labels) == []
  {
    if labels != [] {
      assert labels[0] in labels;
      assert forall l :: l in labels[1..] ==> l in labels;
      NoNamedLabels(labels[1..]);
    }
  }

  // ---- dispatch (lines 20-43) -------------------------------------------------

  /** `embedFromIssueOrPull`: `getPull` is the pull request lookup, `None`
      when it fails. It takes the number only: `getPull` always asks the
      SerenityOS/serenity repository and ignores the repository passed to it. */
  function EmbedFor(item: Option<Issue>, getPull: nat -> Option<Pull>, relative: string -> string)
    : (e: Option<Embed>)
    ensures item.None? <==> e.None?
  {
    if item.None? then None
    else
      var issue := item.value;
      var repo := RepositoryOf(issue.repositoryUrl);
      if issue.isPull && getPull(issue.number).Some? then Some(PullEmbed(getPull(issue.number).value, repo, relative))
      else Some(IssueEmbed(issue, repo, relative))
  }

  /** An item flagged as a pull request is shown as one when the lookup
      succeeds, and as an issue otherwise; the lookup is asked for the
      item's number only, whatever repository the item belongs to. */
  lemma DispatchByKind(issue: Issue, getPull: nat -> Option<Pull>, relative: string -> string)
    ensures var e := EmbedFor(Some(issue), getPull, relative).value;
            && (issue.isPull && getPull(issue.number).Some? ==> e.fields[0] == Field("Type", "Pull Request", true))
            && (!issue.isPull || getPull(issue.number).None? ==> e.fields[0] == Field("Type", "Issue", true))
  {
  }

  /** `noMatchingFoundMessage` (lines 209-218): the text of the ephemeral
      refusal, with a fallback when the sad-caret emoji is missing. */
  function NoMatchingFound(sadcaret: Option<string>): (content: string)
    ensures sadcaret.None? ==> content == "No matching issues or pull requests found :^("
    ensures sadcaret.Some? ==> content == "No matching issues or pull requests found " + sadcaret.value
  {
    "No matching issues or pull requests found " + (if sadcaret.Some? then sadcaret.value else ":^(")
  }
}

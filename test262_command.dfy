/** The older `/test262` command of src/commands/test262Command.ts. It
    selects and compares runs exactly as the variant command does; it
    differs in its icon table and has no makemore icon. */
module Test262Command {
  import opened Common
  import Emoji
  import TestCommand

  /** `statusIconForLabel` of lines 149-174: "failed" is a fixed emoji and
      "percentage_passing" is not in the table. */
  function Icon262(key: string, emoji: Emoji.Alias -> Option<string>): string
  {
    if key == "total" then "🧪"
    else if key == "failed" then "🦬"
    else if key == "percentage_passing" then key
    else TestCommand.Icon(key, emoji)
  }

  /** The table as the function the shared formatting code is given. */
  function Icons262(emoji: Emoji.Alias -> Option<string>): (icon: string -> string)
    ensures forall k :: icon(k) == Icon262(k, emoji)
  {
    k => Icon262(k, emoji)
  }

  /** The two icon tables agree except on "failed", which is always the
      bison here, and "percentage_passing", which is shown as its name. */
  lemma IconTablesDiffer(key: string, emoji: Emoji.Alias -> Option<string>)
    ensures key != "failed" && key != "percentage_passing" ==> Icon262(key, emoji) == TestCommand.Icon(key, emoji)
    ensures Icon262("failed", emoji) == "🦬"
    ensures Icon262("percentage_passing", emoji) == "percentage_passing"
    ensures emoji(Emoji.LibJs).Some? ==> TestCommand.Icon("percentage_passing", emoji) == emoji(Emoji.LibJs).value
  {
  }

  /** `handleCommand` (lines 76-140). */
  function Handle262(results: seq<TestCommand.RunResult>, labels: Option<string>, commit: Option<string>,
                     searchCommit: string -> Option<TestCommand.Commit>, sadcaret: Option<string>,
                     emoji: Emoji.Alias -> Option<string>): (r: TestCommand.Reply)
    ensures r.LabelList? <==> labels == Some("labels") && |results| > 0 && results[|results| - 1].tests != []
    ensures r.Crashed? <==>
              if labels == Some("labels") then |results| == 0 || results[|results| - 1].tests == []
              else |results| == 0 && (commit.None? || commit.value == "")
  {
    TestCommand.Handle(TestCommand.Test262Variant, results, labels, commit, searchCommit, sadcaret,
                       Icons262(emoji), None)
  }

  /** The refusal names test262 and quotes the commit. */
  lemma NotFoundNamesTest262(results: seq<TestCommand.RunResult>, labels: Option<string>, commit: Option<string>,
                             searchCommit: string -> Option<TestCommand.Commit>, sadcaret: Option<string>,
                             emoji: Emoji.Alias -> Option<string>)
    ensures var r := Handle262(results, labels, commit, searchCommit, sadcaret, emoji);
            r.NotFoundReply? ==>
              commit.Some? &&
              r.description == "Could not find a commit that ran test262 matching '" + commit.value + "' "
                               + TestCommand.SadText(sadcaret)
  {
    TestCommand.NotFoundText(TestCommand.Test262Variant, results, labels, commit, searchCommit, sadcaret,
                             Icons262(emoji), None);
    RefusalNamesTest262();
  }

  lemma RefusalNamesTest262()
    ensures "Could not find a commit that ran " + TestCommand.Test262Variant.nameForCommitError + " matching '"
            == "Could not find a commit that ran test262 matching '"
  {
  }

  /** A grown total keeps the test tube, since there is no makemore icon
      here. */
  lemma TotalKeepsTestTube(value: int, previous: int, emoji: Emoji.Alias -> Option<string>)
    ensures StartsWith(TestCommand.LabelEntry("total", value, previous, Icons262(emoji), None), "🧪 ")
  {
    var icon := Icons262(emoji);
    TestCommand.LabelEntryIcon("total", value, previous, icon, None);
    assert icon("total") == "🧪";
  }
}

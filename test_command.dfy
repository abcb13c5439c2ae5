/** The test-result command of src/commands/testCommand.ts: which run to
    show, the icons of the result labels, the versions description and
    the per-label comparison with the run before. The results file and the
    commit lookup are parameters; percentages and durations are floating
    point and are left out of the fields. */
module TestCommand {
  import opened Common
  import Emoji

  /** An entry of the variants table (lines 42-54). */
  datatype Variant = Variant(name: string, description: string, url: string, nameForCommitError: string)

  const Test262Variant := Variant("test262", "Display LibJS test262 results",
                                  "https://libjs.dev/test262/data/results.json", "test262")

  /** Each variant becomes a slash command with a `commit` and a `labels` option. */
  const Variants: seq<Variant> := [Test262Variant]

  /** `object[key]` on an object given as its entries in insertion order. */
  function Get<T>(entries: seq<(string, T)>, key: string): (r: Option<T>)
    ensures r.Some? <==> exists i :: 0 <= i < |entries| && entries[i].0 == key
    ensures r.Some? ==> exists i :: 0 <= i < |entries| && entries[i] == (key, r.value)
  {
    if entries == [] then None
    else if entries[0].0 == key then Some(entries[0].1)
    else
      var r := Get(entries[1..], key);
      assert forall i :: 0 <= i < |entries| - 1 ==> entries[1..][i] == entries[i + 1];
      r
  }

  /** The results of one test suite, label by label. */
  datatype Test = Test(results: seq<(string, int)>)

  /** One run of the results file. */
  datatype RunResult = RunResult(runTimestamp: int, versions: seq<(string, string)>, tests: seq<(string, Test)>)

  /** Whether the run's serenity version starts with `commit`. */
  predicate Matches(r: RunResult, commit: string)
  {
    Get(r.versions, "serenity").Some? && StartsWith(Get(r.versions, "serenity").value, commit)
  }

  /** `results[i]`: `None` stands for `undefined`. */
  function At(results: seq<RunResult>, i: int): (r: Option<RunResult>)
    ensures r.Some? <==> 0 <= i < |results|
    ensures r.Some? ==> r.value == results[i]
  {
    if 0 <= i < |results| then Some(results[i]) else None
  }

  /** The first run from `i` on whose version matches. */
  function FirstMatchFrom(results: seq<RunResult>, commit: string, i: nat): (k: Option<nat>)
    ensures k.Some? ==> i <= k.value < |results| && Matches(results[k.value], commit)
    ensures k.Some? ==> forall j :: i <= j < k.value ==> !Matches(results[j], commit)
    ensures k.None? ==> forall j :: i <= j < |results| ==> !Matches(results[j], commit)
    decreases |results| - i
  {
    if i >= |results| then None
    else if Matches(results[i], commit) then Some(i)
    else FirstMatchFrom(results, commit, i + 1)
  }

  datatype Selection = Selected(result: Option<RunResult>, previous: Option<RunResult>) | NotFound

  /** The run to show and the run to compare it with (lines 84-85, 103-136). */
  function Select(results: seq<RunResult>, commit: Option<string>): Selection
  {
    if commit.None? || commit.value == "" then Selected(At(results, |results| - 1), At(results, |results| - 2))
    else
      match FirstMatchFrom(results, commit.value, 0)
      case Some(i) => Selected(Some(results[i]), At(results, i - 1))
      case None => NotFound
  }

  /** The selection loop of lines 103-117. */
  method SelectResult(results: seq<RunResult>, commit: Option<string>) returns (s: Selection)
    ensures s == Select(results, commit)
  {
    var result := At(results, |results| - 1);
    var previousResult := At(results, |results| - 2);
    if commit.Some? && commit.value != "" {
      var foundCommit := false;
      var i := 0;
      while i < |results|
        invariant 0 <= i <= |results|
        invariant FirstMatchFrom(results, commit.value, 0) == FirstMatchFrom(results, commit.value, i)
      {
        if Matches(results[i], commit.value) {
          result := Some(results[i]);
          previousResult := At(results, i - 1);
          foundCommit := true;
          break;
        }
        i := i + 1;
      }
      if !foundCommit {
        return NotFound;
      }
    }
    return Selected(result, previousResult);
  }

  /** Without a commit the last run is compared with the one before it;
      with one, the first run whose version starts with it is shown and
      compared with its predecessor (none for the first run), and no match
      means "Not found". */
  lemma SelectMeaning(results: seq<RunResult>, commit: Option<string>)
    ensures commit.None? || commit.value == "" ==>
              Select(results, commit) == Selected(At(results, |results| - 1), At(results, |results| - 2))
    ensures commit.Some? && commit.value != "" ==>
              (Select(results, commit).NotFound? <==> forall j :: 0 <= j < |results| ==> !Matches(results[j], commit.value))
    ensures commit.Some? && commit.value != "" && Select(results, commit).Selected? ==>
              exists i :: 0 <= i < |results|
                && Select(results, commit) == Selected(Some(results[i]), At(results, i - 1))
                && Matches(results[i], commit.value)
                && forall j :: 0 <= j < i ==> !Matches(results[j], commit.value)
  {
    if commit.Some? && commit.value != "" {
      match FirstMatchFrom(results, commit.value, 0)
      case Some(i) =>
        assert Select(results, commit) == Selected(Some(results[i]), At(results, i - 1));
      case None =>
    }
  }

  // ---- statusIconForLabel (lines 157-184) ------------------------------------

  /** The emoji each known label is shown with, apart from "total". */
  function IconAlias(key: string): (a: Option<Emoji.Alias>)
    ensures a.Some? ==> LabelOfAlias(a.value) == Some(key)
  {
    if key == "passed" then Some(Emoji.Poggie)
    else if key == "failed" then Some(Emoji.Yak)
    else if key == "skipped" then Some(Emoji.BuggieMagnify)
    else if key == "metadata_error" then Some(Emoji.Buggus)
    else if key == "harness_error" then Some(Emoji.YakSlice)
    else if key == "timeout_error" then Some(Emoji.SkeleYak)
    else if key == "process_error" then Some(Emoji.YakSplode)
    else if key == "runner_exception" then Some(Emoji.NeoYak)
    else if key == "todo_error" then Some(Emoji.YakStack)
    else if key == "percentage_passing" then Some(Emoji.LibJs)
    else None
  }

  /** The label an emoji stands for in the table, if any. */
  function LabelOfAlias(a: Emoji.Alias): Option<string>
  {
    match a
    case Poggie => Some("passed")
    case Yak => Some("failed")
    case BuggieMagnify => Some("skipped")
    case Buggus => Some("metadata_error")
    case YakSlice => Some("harness_error")
    case SkeleYak => Some("timeout_error")
    case YakSplode => Some("process_error")
    case NeoYak => Some("runner_exception")
    case YakStack => Some("todo_error")
    case LibJs => Some("percentage_passing")
    case _ => None
  }

  /** `emoji` gives the rendered guild emoji of an alias, `None` when the
      guild has none. */
  function Icon(key: string, emoji: Emoji.Alias -> Option<string>): string
  {
    if key == "total" then "🧪"
    else
      match IconAlias(key)
      case Some(a) => if emoji(a).Some? then emoji(a).value else key
      case None => key
  }

  /** "total" is always the test tube; any other label shows its emoji
      when the guild has it and the label itself otherwise; a label
      outside the table is shown as itself; different labels never share
      an emoji. */
  lemma IconTable(key: string, other: string, emoji: Emoji.Alias -> Option<string>)
    ensures key == "total" ==> Icon(key, emoji) == "🧪"
    ensures key != "total" && IconAlias(key).None? ==> Icon(key, emoji) == key
    ensures key != "total" && IconAlias(key).Some? ==>
              Icon(key, emoji) == if emoji(IconAlias(key).value).Some? then emoji(IconAlias(key).value).value else key
    ensures key != other && IconAlias(key).Some? && IconAlias(other).Some? ==> IconAlias(key) != IconAlias(other)
  {
  }

  // ---- the per-label entries (lines 229-282) ----------------------------------

  /** `previousTest?.results[label] ?? 0` */
  function PreviousValue(previous: Option<Test>, key: string): int
  {
    if previous.Some? && Get(previous.value.results, key).Some? then Get(previous.value.results, key).value else 0
  }

  /** The signed difference: a '+' only in front of a positive one. */
  function DiffText(d: int): string
  {
    (if d > 0 then "+" else "") + IntToDecimal(d)
  }

  /** The difference reads back with `parseInt`, and it starts with '+'
      exactly when it is positive. */
  lemma DiffTextRoundTrip(d: int)
    ensures ParseInt(DiffText(d)) == Some(d)
    ensures |DiffText(d)| >= 1 && (DiffText(d)[0] == '+' <==> d > 0)
  {
    if d > 0 {
      NatToDecimalValue(d);
      ParseIntPlusDigits(NatToDecimal(d));
    } else {
      ParseIntOfDecimal(d);
      if d < 0 {
        assert DiffText(d)[0] == '-';
      } else {
        assert IsDigit(NatToDecimal(0)[0]);
      }
    }
  }

  /** The entry of one label of the current run. `icon` is the icon table
      and `makemore` the rendered makemore emoji. */
  function LabelEntry(key: string, value: int, previous: int, icon: string -> string, makemore: Option<string>): string
  {
    if previous - value != 0 then
      var difference := value - previous;
      var shown := if key == "total" && difference > 0 && makemore.Some? then makemore.value else icon(key);
      shown + " " + IntToDecimal(value) + " (" + DiffText(difference) + ")"
    else icon(key) + " " + IntToDecimal(value)
  }

  /** Decimal text never ends in a parenthesis: its last character is a
      digit. */
  lemma DecimalEndsInDigit(n: int)
    ensures |IntToDecimal(n)| >= 1 && IsDigit(IntToDecimal(n)[|IntToDecimal(n)| - 1])
  {
    var d := NatToDecimal(if n < 0 then -n else n);
    assert IsDigit(d[|d| - 1]);
    if n < 0 {
      assert IntToDecimal(n) == "-" + d;
    }
  }

  /** An entry ends with the signed difference in parentheses exactly when
      the value changed. */
  lemma LabelEntryTail(key: string, value: int, previous: int, icon: string -> string, makemore: Option<string>)
    ensures var e := LabelEntry(key, value, previous, icon, makemore);
            EndsWith(e, " (" + DiffText(value - previous) + ")") <==> value != previous
  {
    var shown := if key == "total" && value - previous > 0 && makemore.Some? then makemore.value else icon(key);
    DecimalEndsInDigit(value);
    EntryTail(icon(key) + " ", shown + " ", IntToDecimal(value), DiffText(value - previous), value != previous);
  }

  /** An entry ends with a parenthesised difference exactly when one was
      appended after its number. */
  lemma EntryTail(plain: string, marked: string, v: string, diff: string, differs: bool)
    requires |v| > 0 && IsDigit(v[|v| - 1])
    ensures var e := if differs then marked + v + " (" + diff + ")" else plain + v;
            EndsWith(e, " (" + diff + ")") <==> differs
  {
    var tail := " (" + diff + ")";
    if differs {
      EndsWithThree(marked + v, " (", diff, ")");
    } else {
      LastOfAppend(plain, v);
      LastOfAppend(" (" + diff, ")");
      LastDiffers(plain + v, tail);
    }
  }

  /** Texts with different last characters do not end with each other. */
  lemma LastDiffers(s: string, t: string)
    requires |s| > 0 && |t| > 0 && s[|s| - 1] != t[|t| - 1]
    ensures !EndsWith(s, t)
  {
    assert |t| <= |s| ==> s[|s| - |t|..][|t| - 1] == s[|s| - 1];
  }

  lemma EndsWithThree(h: string, a: string, b: string, c: string)
    ensures EndsWith(h + a + b + c, a + b + c)
  {
    assert h + a + b + c == h + (a + b + c);
  }

  /** Only a grown total takes the makemore icon (when the guild has it);
      every other entry starts with the label's own icon. */
  lemma LabelEntryIcon(key: string, value: int, previous: int, icon: string -> string, makemore: Option<string>)
    ensures var e := LabelEntry(key, value, previous, icon, makemore);
            && (key == "total" && value > previous && makemore.Some? ==> StartsWith(e, makemore.value + " "))
            && (!(key == "total" && value > previous && makemore.Some?) ==> StartsWith(e, icon(key) + " "))
  {
    var shown := if key == "total" && value > previous && makemore.Some? then makemore.value else icon(key);
    var v := IntToDecimal(value);
    if value != previous {
      PrefixOfFive(shown + " ", v, " (", DiffText(value - previous), ")");
    } else {
      PrefixStartsWith(icon(key) + " ", v);
    }
  }

  function DisappearedEntry(key: string, value: int, icon: string -> string): string
  {
    icon(key) + " 0 (-" + IntToDecimal(value) + ")"
  }

  /** The entries, made by `entry`, of the labels of `prev` that `current`
      no longer has, in the order of `prev`. */
  function DroppedEntries(prev: seq<(string, int)>, current: seq<(string, int)>, entry: ((string, int)) -> string)
    : seq<string>
  {
    if prev == [] then []
    else
      var last := prev[|prev| - 1];
      DroppedEntries(prev[..|prev| - 1], current, entry)
      + (if Get(current, last.0).None? then [entry(last)] else [])
  }

  /** The "0 (-value)" entries of the labels that disappeared. */
  function DisappearedEntries(prev: seq<(string, int)>, current: seq<(string, int)>, icon: string -> string): seq<string>
  {
    DroppedEntries(prev, current, (p: (string, int)) => DisappearedEntry(p.0, p.1, icon))
  }

  /** Every label that disappeared gets its entry, and every entry belongs
      to a label that disappeared. */
  lemma {:induction false} DroppedExactly(prev: seq<(string, int)>, current: seq<(string, int)>,
                                          entry: ((string, int)) -> string)
    ensures forall k :: 0 <= k < |prev| && Get(current, prev[k].0).None? ==>
              entry(prev[k]) in DroppedEntries(prev, current, entry)
    ensures forall e :: e in DroppedEntries(prev, current, entry) ==>
              exists k :: 0 <= k < |prev| && Get(current, prev[k].0).None? && e == entry(prev[k])
  {
    if prev != [] {
      var init := prev[..|prev| - 1];
      DroppedExactly(init, current, entry);
      assert forall k :: 0 <= k < |init| ==> init[k] == prev[k];
    }
  }

  /** Every label that disappeared gets its "0 (-value)" entry, and every
      such entry belongs to a label that disappeared. */
  lemma DisappearedExactly(prev: seq<(string, int)>, current: seq<(string, int)>, icon: string -> string)
    ensures forall k :: 0 <= k < |prev| && Get(current, prev[k].0).None? ==>
              DisappearedEntry(prev[k].0, prev[k].1, icon) in DisappearedEntries(prev, current, icon)
    ensures forall e :: e in DisappearedEntries(prev, current, icon) ==>
              exists k :: 0 <= k < |prev| && Get(current, prev[k].0).None? && e == DisappearedEntry(prev[k].0, prev[k].1, icon)
  {
    var entry := (p: (string, int)) => DisappearedEntry(p.0, p.1, icon);
    DroppedExactly(prev, current, entry);
  }

  /** The entries of one test: one per current label, in order, then one
      per label that disappeared since the previous run. */
  function Entries(test: Test, previous: Option<Test>, icon: string -> string, makemore: Option<string>): seq<string>
  {
    LabelEntries(test.results, previous, icon, makemore)
    + (if previous.Some? then DisappearedEntries(previous.value.results, test.results, icon) else [])
  }

  /** The entry of one `(label, value)` pair, against the previous run. */
  function EntryFor(result: (string, int), previous: Option<Test>, icon: string -> string,
                    makemore: Option<string>): string
  {
    LabelEntry(result.0, result.1, PreviousValue(previous, result.0), icon, makemore)
  }

  /** One entry per label of `results`, in order. */
  function LabelEntries(results: seq<(string, int)>, previous: Option<Test>, icon: string -> string,
                        makemore: Option<string>): (entries: seq<string>)
    ensures |entries| == |results|
    ensures forall i :: 0 <= i < |results| ==> entries[i] == EntryFor(results[i], previous, icon, makemore)
  {
    if results == [] then []
    else
      var init := results[..|results| - 1];
      LabelEntries(init, previous, icon, makemore) + [EntryFor(results[|results| - 1], previous, icon, makemore)]
  }

  lemma LabelEntriesStep(results: seq<(string, int)>, i: nat, previous: Option<Test>, icon: string -> string,
                         makemore: Option<string>)
    requires i < |results|
    ensures LabelEntries(results[..i + 1], previous, icon, makemore)
            == LabelEntries(results[..i], previous, icon, makemore)
               + [LabelEntry(results[i].0, results[i].1, PreviousValue(previous, results[i].0), icon, makemore)]
  {
    assert results[..i + 1][..i] == results[..i];
  }

  /** Without a previous run every value is compared with 0 and nothing
      has disappeared. */
  lemma NoPreviousRun(test: Test, icon: string -> string, makemore: Option<string>)
    ensures |Entries(test, None, icon, makemore)| == |test.results|
    ensures forall i :: 0 <= i < |test.results| ==>
              Entries(test, None, icon, makemore)[i] == LabelEntry(test.results[i].0, test.results[i].1, 0, icon, makemore)
  {
  }

  /** The entry that one turn of the loop of lines 252-272 pushes. */
  method FormatEntry(key: string, value: int, previousValue: int, icon: string -> string, makemore: Option<string>)
    returns (entry: string)
    ensures entry == LabelEntry(key, value, previousValue, icon, makemore)
  {
    if previousValue - value != 0 {
      var difference := value - previousValue;
      var shown := icon(key);
      if key == "total" && difference > 0 && makemore.Some? {
        shown := makemore.value;
      }
      entry := shown + " " + IntToDecimal(value) + " (" + DiffText(difference) + ")";
    } else {
      entry := icon(key) + " " + IntToDecimal(value);
    }
  }

  /** The `fields.push` loops of lines 252-282. */
  method BuildEntries(test: Test, previous: Option<Test>, icon: string -> string, makemore: Option<string>)
    returns (fields: seq<string>)
    ensures fields == Entries(test, previous, icon, makemore)
  {
    fields := FormatLabels(test, previous, icon, makemore);
    if previous.Some? {
      fields := AppendDisappeared(fields, previous.value.results, test.results, icon);
    }
  }

  /** The loop of lines 252-272: one entry per label of the current run. */
  method FormatLabels(test: Test, previous: Option<Test>, icon: string -> string, makemore: Option<string>)
    returns (fields: seq<string>)
    ensures fields == LabelEntries(test.results, previous, icon, makemore)
  {
    fields := [];
    var i := 0;
    while i < |test.results|
      invariant 0 <= i <= |test.results|
      invariant fields == LabelEntries(test.results[..i], previous, icon, makemore)
    {
      var key, value := test.results[i].0, test.results[i].1;
      var entry := FormatEntry(key, value, PreviousValue(previous, key), icon, makemore);
      LabelEntriesStep(test.results, i, previous, icon, makemore);
      fields := fields + [entry];
      i := i + 1;
    }
    assert test.results[..i] == test.results;
  }

  /** The loop of lines 274-282: an entry for each label of the previous
      run that the current one lacks. */
  method AppendDisappeared(fields: seq<string>, prev: seq<(string, int)>, current: seq<(string, int)>,
                           icon: string -> string) returns (out: seq<string>)
    ensures out == fields + DisappearedEntries(prev, current, icon)
  {
    out := fields;
    var j := 0;
    while j < |prev|
      invariant 0 <= j <= |prev|
      invariant out == fields + DisappearedEntries(prev[..j], current, icon)
    {
      assert prev[..j + 1][..j] == prev[..j];
      if Get(current, prev[j].0).None? {
        out := out + [DisappearedEntry(prev[j].0, prev[j].1, icon)];
      }
      j := j + 1;
    }
    assert prev[..|prev|] == prev;
  }

  // ---- the versions description (lines 150-155, 206-216) ----------------------

  const GitHub := "https://github.com/"

  const RepositoryUrls: seq<(string, string)> :=
    [("serenity", GitHub + "SerenityOS/serenity/"),
     ("libjs-test262", GitHub + "linusg/libjs-test262/"),
     ("test262", GitHub + "tc39/test262/"),
     ("test262-parser-tests", GitHub + "tc39/test262-parser-tests/")]

  function VersionLine(repository: string, commitHash: string): string
  {
    var short := TakeFirst(commitHash, 7);
    match Get(RepositoryUrls, repository)
    case Some(treeUrl) => repository + ": [" + short + "](" + treeUrl + "tree/" + commitHash + ")"
    case None => repository + ": " + short
  }

  /** Only the four known repositories get a tree link; the shown hash is
      the first seven characters of the full one. */
  lemma VersionLineShape(repository: string, commitHash: string)
    ensures Get(RepositoryUrls, repository).Some? <==>
              repository in ["serenity", "libjs-test262", "test262", "test262-parser-tests"]
    ensures var short := TakeFirst(commitHash, 7);
            && |short| <= 7 && StartsWith(commitHash, short)
            && (Get(RepositoryUrls, repository).Some? ==>
                  VersionLine(repository, commitHash)
                  == repository + ": [" + short + "](" + Get(RepositoryUrls, repository).value + "tree/" + commitHash + ")")
            && (Get(RepositoryUrls, repository).None? ==> VersionLine(repository, commitHash) == repository + ": " + short)
  {
    var known := ["serenity", "libjs-test262", "test262", "test262-parser-tests"];
    assert forall i :: 0 <= i < |RepositoryUrls| ==> RepositoryUrls[i].0 == known[i];
  }

  lemma NewlineFree(s: string)
    requires forall k :: 0 <= k < |s| ==> s[k] != '\n'
    ensures '\n' !in s
  {
  }

  lemma RepositoryUrlsSingleLine()
    ensures forall i :: 0 <= i < |RepositoryUrls| ==> '\n' !in RepositoryUrls[i].1
  {
    NewlineFree(GitHub);
    NewlineFree("SerenityOS/serenity/");
    NewlineFree("linusg/libjs-test262/");
    NewlineFree("tc39/test262/");
    NewlineFree("tc39/test262-parser-tests/");
  }

  lemma VersionLineSingleLine(repository: string, commitHash: string)
    requires '\n' !in repository && '\n' !in commitHash
    ensures '\n' !in VersionLine(repository, commitHash)
  {
    var short := TakeFirst(commitHash, 7);
    assert '\n' !in short by {
      assert forall k :: 0 <= k < |short| ==> short[k] == commitHash[k];
    }
    if Get(RepositoryUrls, repository).Some? {
      RepositoryUrlsSingleLine();
    }
  }

  function VersionLines(versions: seq<(string, string)>): (lines: seq<string>)
    ensures |lines| == |versions|
  {
    seq(|versions|, i requires 0 <= i < |versions| => VersionLine(versions[i].0, versions[i].1))
  }

  function Description(versions: seq<(string, string)>): string
  {
    Join(VersionLines(versions), "\n")
  }

  /** The description has exactly one line per versions entry, in order,
      as long as names and hashes are single-line. */
  lemma DescriptionLines(versions: seq<(string, string)>)
    requires |versions| >= 1
    requires forall i :: 0 <= i < |versions| ==> '\n' !in versions[i].0 && '\n' !in versions[i].1
    ensures Split(Description(versions), '\n') == VersionLines(versions)
  {
    var lines := VersionLines(versions);
    forall p | p in lines
      ensures '\n' !in p
    {
      var i :| 0 <= i < |lines| && lines[i] == p;
      VersionLineSingleLine(versions[i].0, versions[i].1);
    }
    SplitJoin(lines, '\n');
  }

  // ---- embedForResult (lines 186-305) ----------------------------------------

  datatype GithubUser = GithubUser(login: string, htmlUrl: string, avatarUrl: string)

  /** What `searchCommit` returns: the GitHub author, if any, the git
      author's name and the message. */
  datatype Commit = Commit(author: Option<GithubUser>, authorName: string, message: string)

  /** One field per test: its name and its entries (the percentage entry
      and the durations are left out). */
  datatype TestField = TestField(name: string, entries: seq<string>)

  datatype ResultEmbed =
    | CommitMissing(description: string)
    | Report(authorName: string, authorUrl: Option<string>, authorIcon: Option<string>, title: string,
             description: string, timestampMillis: int, footer: string, fields: seq<TestField>)

  /** `previousResult?.tests[name]` */
  function PreviousTest(previous: Option<RunResult>, name: string): Option<Test>
  {
    if previous.Some? then Get(previous.value.tests, name) else None
  }

  function ResultFields(tests: seq<(string, Test)>, previous: Option<RunResult>, icon: string -> string,
                        makemore: Option<string>): (fields: seq<TestField>)
    ensures |fields| == |tests|
  {
    seq(|tests|, i requires 0 <= i < |tests| =>
          TestField(tests[i].0, Entries(tests[i].1, PreviousTest(previous, tests[i].0), icon, makemore)))
  }

  /** The loop over the tests (lines 229-302). */
  method BuildFields(tests: seq<(string, Test)>, previous: Option<RunResult>, icon: string -> string,
                     makemore: Option<string>) returns (fields: seq<TestField>)
    ensures fields == ResultFields(tests, previous, icon, makemore)
  {
    fields := [];
    for i := 0 to |tests|
      invariant |fields| == i
      invariant forall k :: 0 <= k < i ==>
                  fields[k] == TestField(tests[k].0, Entries(tests[k].1, PreviousTest(previous, tests[k].0), icon, makemore))
    {
      var name, test := tests[i].0, tests[i].1;
      var entries := BuildEntries(test, PreviousTest(previous, name), icon, makemore);
      fields := fields + [TestField(name, entries)];
    }
  }

  /** `result.versions.serenity` in a template: "undefined" when missing. */
  function SerenityText(r: RunResult): string
  {
    if Get(r.versions, "serenity").Some? then Get(r.versions, "serenity").value else "undefined"
  }

  function SadText(sadcaret: Option<string>): string
  {
    if sadcaret.Some? then sadcaret.value else ":^("
  }

  /** The embed for a run; `commit` is what the commit lookup returned. */
  function EmbedForResult(variant: Variant, result: RunResult, previous: Option<RunResult>, commit: Option<Commit>,
                          sadcaret: Option<string>, icon: string -> string, makemore: Option<string>): ResultEmbed
  {
    match commit
    case None =>
      CommitMissing("Could not fetch the matching commit ('" + SerenityText(result) + "') for the "
                    + variant.nameForCommitError + " run from github " + SadText(sadcaret))
    case Some(c) =>
      Report(if c.author.Some? then c.author.value.login else c.authorName,
             if c.author.Some? then Some(c.author.value.htmlUrl) else None,
             if c.author.Some? then Some(c.author.value.avatarUrl) else None,
             Split(c.message, '\n')[0],
             Description(result.versions),
             result.runTimestamp * 1000,
             "Tests started",
             ResultFields(result.tests, previous, icon, makemore))
  }

  /** The title is the first line of the commit message and the report
      has one field per test of the run, in order. */
  lemma EmbedForResultShape(variant: Variant, result: RunResult, previous: Option<RunResult>, c: Commit,
                            sadcaret: Option<string>, icon: string -> string, makemore: Option<string>)
    ensures var e := EmbedForResult(variant, result, previous, Some(c), sadcaret, icon, makemore);
            && '\n' !in e.title && StartsWith(c.message, e.title)
            && |e.fields| == |result.tests|
            && forall i :: 0 <= i < |result.tests| ==> e.fields[i].name == result.tests[i].0
  {
    var parts := Split(c.message, '\n');
    JoinSplit(c.message, '\n');
    if |parts| > 1 {
      assert Join(parts, "\n") == parts[0] + "\n" + Join(parts[1..], "\n");
    }
  }

  // ---- handleCommand (lines 78-148) ------------------------------------------

  datatype Reply =
    | LabelList(description: string)
    | NotFoundReply(description: string)
    | Shown(embed: ResultEmbed)
    | Crashed

  /** `labels` and `commit` are the options; `searchCommit` looks a commit
      up on GitHub. A missing run makes the handler throw. */
  function Handle(variant: Variant, results: seq<RunResult>, labels: Option<string>, commit: Option<string>,
                  searchCommit: string -> Option<Commit>, sadcaret: Option<string>,
                  icon: string -> string, makemore: Option<string>): (r: Reply)
    ensures r.LabelList? <==> labels == Some("labels") && |results| > 0 && results[|results| - 1].tests != []
    ensures r.Crashed? <==>
              if labels == Some("labels") then |results| == 0 || results[|results| - 1].tests == []
              else |results| == 0 && (commit.None? || commit.value == "")
    ensures r.NotFoundReply? ==> commit.Some? && commit.value != ""
  {
    SelectMeaning(results, commit);
    var last := At(results, |results| - 1);
    if labels == Some("labels") then
      if last.None? || last.value.tests == [] then Crashed
      else
        var first := last.value.tests[0].1.results;
        LabelList(Join(seq(|first|, i requires 0 <= i < |first| => icon(first[i].0) + ": " + first[i].0), "\n"))
    else
      match Select(results, commit)
      case NotFound =>
        NotFoundReply("Could not find a commit that ran " + variant.nameForCommitError + " matching '"
                      + commit.value + "' " + SadText(sadcaret))
      case Selected(result, previous) =>
        if result.None? then Crashed
        else Shown(EmbedForResult(variant, result.value, previous, searchCommit(SerenityText(result.value)),
                                  sadcaret, icon, makemore))
  }

  /** The label list ignores the commit option and lists the labels of the
      first test of the last run; "Not found" comes exactly when a commit
      is given, the label list is not asked for and no run matches. */
  lemma HandleCases(variant: Variant, results: seq<RunResult>, labels: Option<string>, commit: Option<string>,
                    otherCommit: Option<string>, searchCommit: string -> Option<Commit>, sadcaret: Option<string>,
                    icon: string -> string, makemore: Option<string>)
    ensures labels == Some("labels") ==>
              Handle(variant, results, labels, commit, searchCommit, sadcaret, icon, makemore)
              == Handle(variant, results, labels, otherCommit, searchCommit, sadcaret, icon, makemore)
    ensures Handle(variant, results, labels, commit, searchCommit, sadcaret, icon, makemore).NotFoundReply? <==>
              labels != Some("labels") && commit.Some? && commit.value != ""
              && forall j :: 0 <= j < |results| ==> !Matches(results[j], commit.value)
  {
    SelectMeaning(results, commit);
  }

  /** The refusal names the variant and quotes the commit asked for. */
  lemma NotFoundText(variant: Variant, results: seq<RunResult>, labels: Option<string>, commit: Option<string>,
                     searchCommit: string -> Option<Commit>, sadcaret: Option<string>,
                     icon: string -> string, makemore: Option<string>)
    ensures var r := Handle(variant, results, labels, commit, searchCommit, sadcaret, icon, makemore);
            r.NotFoundReply? ==>
              commit.Some? &&
              r.description == "Could not find a commit that ran " + variant.nameForCommitError + " matching '"
                               + commit.value + "' " + SadText(sadcaret)
  {
  }
}

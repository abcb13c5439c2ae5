/** The man page command of src/commands/manCommand.ts: the embed built from
    the markdown of a man page, the reply to `/man`, and the two buttons
    that render the same page again collapsed or expanded. */
module Man {
  import opened Common
  import opened GithubApi
  import CommandHandler

  /** The budget of a field's content in the collapsed and expanded views. */
  const CollapsedLimit: nat := 512
  const ExpandedLimit: nat := 1024
  /** Discord refuses an embed field whose value is longer than this. */
  const FieldValueLimit: nat := 1024

  /** What the length test of `embedForMan` sets aside for the marker. */
  const WrittenReserve: nat := 4
  /** What the test has to set aside so that the content stays within the
      budget: the "\n" that follows a kept line, or the "\n..." marker. */
  const NeededReserve: nat := 5

  const MaximizeId := "/man:maximize"
  const MinimizeId := "/man:minimize"
  const CollapsedFooter := "React with maximize to expand sections"
  const TruncatedFooterPrefix := "The following paragraphs have been truncated: "
  const NameNotFound := "Name not found"

  /** The command object as the dispatcher sees it (lines 29-52). */
  const ManHandler := CommandHandler.Handler(
    "ManCommand",
    [CommandHandler.CommandData("man", "Show a particular program's man page", None)],
    false, false, true, Some([MaximizeId, MinimizeId]))

  datatype Paragraph = Paragraph(title: Option<string>, content: string, truncateFollowingLines: bool)

  datatype Field = Field(name: string, value: string)

  /** The parts of the embed the command sets; the timestamp is left out. */
  datatype Embed = Embed(title: string, description: string, url: string, fields: seq<Field>, footer: Option<string>)

  // ---- the markdown scan (lines 139-169) -----------------------------------

  /** The variables of the scan: the closed paragraphs, the open one, whether
      anything was cut short, and the text of the Name section. */
  datatype Scan = Scan(paragraphs: seq<Paragraph>, current: Paragraph, truncated: bool, name: Option<string>)

  const Start := Scan([], Paragraph(None, "", false), false, None)

  function Cap(collapsed: bool): nat
  {
    if collapsed then CollapsedLimit else ExpandedLimit
  }

  predicate IsHeading(line: string)
  {
    StartsWith(line, "## ")
  }

  /** A code fence line loses its asterisks and keeps every other
      character; any other line is kept as it is. */
  function CleanLine(line: string): (r: string)
    ensures |r| <= |line|
    ensures !StartsWith(line, "```") ==> r == line
    ensures StartsWith(line, "```") ==>
              '*' !in r && forall c :: c != '*' ==> multiset(r)[c] == multiset(line)[c]
  {
    if StartsWith(line, "```") then
      RemoveCharsKeeps(line, {'*'});
      RemoveChars(line, {'*'})
    else line
  }

  /** One iteration of the loop over the lines. */
  function ScanLine(st: Scan, line: string, cap: nat, reserve: nat): Scan
  {
    if IsHeading(line) then
      var closed :=
        if st.current.content == "" then st
        else if st.current.title == Some("Name") then st.(name := Some(RemoveChars(st.current.content, {'\r', '\n'})))
        else st.(paragraphs := st.paragraphs + [st.current]);
      closed.(current := Paragraph(Some(Trim(line[3..])), "", false))
    else if st.current.truncateFollowingLines then st
    else if |st.current.content| + |line| + reserve > cap then
      st.(current := st.current.(content := st.current.content + "\n...", truncateFollowingLines := true),
          truncated := true)
    else
      st.(current := st.current.(content := st.current.content + CleanLine(line) + "\n"))
  }

  function ScanLines(lines: seq<string>, cap: nat, reserve: nat): Scan
  {
    if lines == [] then Start
    else ScanLine(ScanLines(lines[..|lines| - 1], cap, reserve), lines[|lines| - 1], cap, reserve)
  }

  // ---- the embed (lines 171-200) -------------------------------------------

  /** The address of the page on man.serenityos.org. */
  function SiteUrl(section: string, page: string): string
  {
    "https://man.serenityos.org/man" + section + "/" + page + ".html"
  }

  /** The two links under the name (lines 140-141), cut around the GitHub
      address. */
  const GithubLabel := "\n\n[View on GitHub]"
  const SiteLabel := ") - [View on man.serenityos.org]("

  function Description(name: Option<string>, githubUrl: string, url: string): string
  {
    (if name.Some? then name.value else NameNotFound) + GithubLabel + "(" + githubUrl + SiteLabel + url + ")"
  }

  /** A closed paragraph becomes a field when it has a non-empty title and,
      collapsed, only when that title is Description. */
  predicate Shown(p: Paragraph, collapsed: bool)
  {
    (!collapsed || p.title == Some("Description")) && p.title.Some? && p.title.value != ""
  }

  /** The field a shown paragraph of `ps` becomes. */
  predicate FieldOfShown(f: Field, ps: seq<Paragraph>, collapsed: bool)
  {
    exists p :: p in ps && Shown(p, collapsed) && f == Field(p.title.value, p.content)
  }

  lemma FieldOfShownPrefix(f: Field, ps: seq<Paragraph>, n: nat, collapsed: bool)
    requires n <= |ps| && FieldOfShown(f, ps[..n], collapsed)
    ensures FieldOfShown(f, ps, collapsed)
  {
    var p :| p in ps[..n] && Shown(p, collapsed) && f == Field(p.title.value, p.content);
    assert p in ps;
  }

  function FieldsOf(ps: seq<Paragraph>, collapsed: bool): (r: seq<Field>)
    ensures |r| <= |ps|
    ensures forall k :: 0 <= k < |r| ==> FieldOfShown(r[k], ps, collapsed)
    ensures forall p :: p in ps && Shown(p, collapsed) ==> Field(p.title.value, p.content) in r
  {
    if ps == [] then []
    else
      var last := ps[|ps| - 1];
      var prev := FieldsOf(ps[..|ps| - 1], collapsed);
      var r := prev + (if Shown(last, collapsed) then [Field(last.title.value, last.content)] else []);
      assert forall k :: 0 <= k < |r| ==> FieldOfShown(r[k], ps, collapsed) by {
        forall k | 0 <= k < |r| ensures FieldOfShown(r[k], ps, collapsed) {
          if k < |prev| {
            FieldOfShownPrefix(prev[k], ps, |ps| - 1, collapsed);
            assert r[k] == prev[k];
          } else {
            assert last in ps;
          }
        }
      }
      assert ps == ps[..|ps| - 1] + [last];
      r
  }

  /** The fields keep the order of the paragraphs: the fields of two runs
      of paragraphs are those of the first run, then those of the second. */
  lemma {:induction false} FieldsOfAppend(ps: seq<Paragraph>, qs: seq<Paragraph>, collapsed: bool)
    ensures FieldsOf(ps + qs, collapsed) == FieldsOf(ps, collapsed) + FieldsOf(qs, collapsed)
    decreases |qs|
  {
    if qs == [] {
      assert ps + qs == ps;
    } else {
      var last := qs[|qs| - 1];
      assert (ps + qs)[..|ps + qs| - 1] == ps + qs[..|qs| - 1];
      assert (ps + qs)[|ps + qs| - 1] == last;
      FieldsOfAppend(ps, qs[..|qs| - 1], collapsed);
    }
  }

  /** The titles of the paragraphs that were cut short, in order. */
  function TruncatedTitles(ps: seq<Paragraph>): (r: seq<string>)
    ensures |r| <= |ps|
  {
    if ps == [] then []
    else
      var last := ps[|ps| - 1];
      TruncatedTitles(ps[..|ps| - 1])
        + (if last.title.Some? && last.title.value != "" && last.truncateFollowingLines then [last.title.value] else [])
  }

  /** A title is listed exactly when some paragraph with that non-empty
      title was cut short. */
  lemma {:induction false} TruncatedTitlesExactly(ps: seq<Paragraph>, t: string)
    ensures t in TruncatedTitles(ps) <==>
              exists p :: p in ps && p.title == Some(t) && t != "" && p.truncateFollowingLines
  {
    if ps != [] {
      var init, last := ps[..|ps| - 1], ps[|ps| - 1];
      assert ps == init + [last];
      TruncatedTitlesExactly(init, t);
      if t in TruncatedTitles(ps) && t !in TruncatedTitles(init) {
        assert last.title == Some(t) && last in ps;
      }
      if t !in TruncatedTitles(ps) {
        forall p | p in ps && p.title == Some(t) && t != ""
          ensures !p.truncateFollowingLines
        {
          if p != last {
            assert p in init;
          }
        }
      }
    }
  }

  function Footer(truncated: bool, collapsed: bool, ps: seq<Paragraph>): Option<string>
  {
    if collapsed then Some(CollapsedFooter)
    else if truncated then Some(TruncatedFooterPrefix + Join(TruncatedTitles(ps), ", "))
    else None
  }

  /** The embed for the lines of a man page, with the given reserve in the
      length test. */
  function EmbedOf(lines: seq<string>, githubUrl: string, section: string, page: string,
                   collapsed: bool, reserve: nat): Embed
  {
    var st := ScanLines(lines, Cap(collapsed), reserve);
    var url := SiteUrl(section, page);
    Embed(page + "(" + section + ")", Description(st.name, githubUrl, url), url,
          FieldsOf(st.paragraphs, collapsed), Footer(st.truncated, collapsed, st.paragraphs))
  }

  function EmbedFor(markdown: string, githubUrl: string, section: string, page: string,
                    collapsed: bool, reserve: nat): Embed
  {
    EmbedOf(Split(markdown, '\n'), githubUrl, section, page, collapsed, reserve)
  }

  /** `embedForMan`, as written: the test sets aside 4 characters. */
  method EmbedForMan(markdown: string, githubUrl: string, section: string, page: string, collapsed: bool)
    returns (embed: Embed)
    ensures embed == EmbedFor(markdown, githubUrl, section, page, collapsed, WrittenReserve)
  {
    var st := ScanMarkdown(Split(markdown, '\n'), if collapsed then 512 else 1024);
    var url := "https://man.serenityos.org/man" + section + "/" + page + ".html";
    var fields := CollectFields(st.paragraphs, collapsed);
    var footer: Option<string> := None;
    if st.truncated && !collapsed {
      footer := Some(TruncatedFooterPrefix + Join(TruncatedTitles(st.paragraphs), ", "));
    }
    if collapsed {
      footer := Some(CollapsedFooter);
    }
    embed := Embed(page + "(" + section + ")", Description(st.name, githubUrl, url), url, fields, footer);
  }

  /** The loop over the lines of `embedForMan` (lines 145-169). */
  method ScanMarkdown(lines: seq<string>, cap: nat) returns (st: Scan)
    ensures st == ScanLines(lines, cap, WrittenReserve)
  {
    var paragraphs: seq<Paragraph> := [];
    var current := Paragraph(None, "", false);
    var truncated := false;
    var name: Option<string> := None;
    for i := 0 to |lines|
      invariant Scan(paragraphs, current, truncated, name) == ScanLines(lines[..i], cap, WrittenReserve)
    {
      var line := lines[i];
      assert lines[..i + 1][..i] == lines[..i];
      if StartsWith(line, "## ") {
        if current.content != "" {
          if current.title == Some("Name") {
            name := Some(RemoveChars(current.content, {'\r', '\n'}));
          } else {
            paragraphs := paragraphs + [current];
          }
        }
        current := Paragraph(Some(Trim(line[3..])), "", false);
      } else if !current.truncateFollowingLines {
        if |current.content| + |line| + 4 > cap {
          current := current.(content := current.content + "\n...", truncateFollowingLines := true);
          truncated := true;
        } else {
          if StartsWith(line, "```") {
            line := RemoveChars(line, {'*'});
          }
          current := current.(content := current.content + line + "\n");
        }
      }
    }
    assert lines[..|lines|] == lines;
    st := Scan(paragraphs, current, truncated, name);
  }

  /** The loop that adds the fields (lines 183-188). */
  method CollectFields(paragraphs: seq<Paragraph>, collapsed: bool) returns (fields: seq<Field>)
    ensures fields == FieldsOf(paragraphs, collapsed)
  {
    fields := [];
    for j := 0 to |paragraphs|
      invariant fields == FieldsOf(paragraphs[..j], collapsed)
    {
      var paragraph := paragraphs[j];
      assert paragraphs[..j + 1][..j] == paragraphs[..j];
      if (!collapsed || paragraph.title == Some("Description")) && paragraph.title.Some? && paragraph.title.value != "" {
        fields := fields + [Field(paragraph.title.value, paragraph.content)];
      }
    }
    assert paragraphs[..|paragraphs|] == paragraphs;
  }

  // ---- what the scan keeps ----------------------------------------------------

  /** The bounds the scan keeps: an open paragraph that still takes lines
      leaves room for `reserve`, and no content exceeds the budget by more
      than what the marker adds beyond the reserve. */
  predicate Bounded(st: Scan, cap: nat, reserve: nat)
  {
    && |st.current.content| + reserve <= cap + 5
    && (!st.current.truncateFollowingLines ==> |st.current.content| + reserve <= cap + 1)
    && (forall p :: p in st.paragraphs ==> |p.content| + reserve <= cap + 5)
    && (st.name.Some? ==> '\r' !in st.name.value && '\n' !in st.name.value)
  }

  lemma ScanLineBounded(st: Scan, line: string, cap: nat, reserve: nat)
    requires reserve <= cap + 1 && Bounded(st, cap, reserve)
    ensures Bounded(ScanLine(st, line, cap, reserve), cap, reserve)
  {
    if IsHeading(line) {
      if st.current.content != "" && st.current.title == Some("Name") {
        var n := RemoveChars(st.current.content, {'\r', '\n'});
        assert forall i :: 0 <= i < |n| ==> n[i] != '\r' && n[i] != '\n';
      }
    } else {
      assert |CleanLine(line)| <= |line|;
    }
  }

  lemma {:induction false} ScanBounded(lines: seq<string>, cap: nat, reserve: nat)
    requires reserve <= cap + 1
    ensures Bounded(ScanLines(lines, cap, reserve), cap, reserve)
  {
    if lines != [] {
      ScanBounded(lines[..|lines| - 1], cap, reserve);
      ScanLineBounded(ScanLines(lines[..|lines| - 1], cap, reserve), lines[|lines| - 1], cap, reserve);
    }
  }

  /** Every field value exceeds the budget by at most 5 - reserve, and the
      name shown never contains a line break. */
  lemma FieldsWithin(lines: seq<string>, githubUrl: string, section: string, page: string,
                     collapsed: bool, reserve: nat)
    requires reserve <= Cap(collapsed) + 1
    ensures forall f :: f in EmbedOf(lines, githubUrl, section, page, collapsed, reserve).fields ==>
              |f.value| + reserve <= Cap(collapsed) + 5
    ensures var name := ScanLines(lines, Cap(collapsed), reserve).name;
            name.Some? ==> '\n' !in name.value && '\r' !in name.value
  {
    ScanBounded(lines, Cap(collapsed), reserve);
  }

  /** With the needed reserve every field fits in its budget, hence in
      Discord's field limit. */
  lemma FieldsFit(markdown: string, githubUrl: string, section: string, page: string, collapsed: bool)
    ensures forall f :: f in EmbedFor(markdown, githubUrl, section, page, collapsed, NeededReserve).fields ==>
              |f.value| <= Cap(collapsed) <= FieldValueLimit
  {
    FieldsWithin(Split(markdown, '\n'), githubUrl, section, page, collapsed, NeededReserve);
  }

  /** The lines of the counterexample: a 1020-character line and then one
      more line in an Options section. */
  function OverflowLines(): seq<string>
  {
    ["## Options", LongLine(), "b", "## End"]
  }

  lemma ScanLinesSnoc(lines: seq<string>, line: string, cap: nat, reserve: nat)
    ensures ScanLines(lines + [line], cap, reserve) == ScanLine(ScanLines(lines, cap, reserve), line, cap, reserve)
  {
    assert (lines + [line])[..|lines|] == lines;
  }

  function LongLine(): (r: string)
    ensures |r| == 1020 && forall i :: 0 <= i < |r| ==> r[i] == 'a'
  {
    seq(1020, _ => 'a')
  }

  lemma OverflowHeading()
    ensures ScanLine(Start, "## Options", ExpandedLimit, WrittenReserve)
            == Scan([], Paragraph(Some("Options"), "", false), false, None)
  {
    assert "## Options" == "## " + "Options";
    HeadingTitle("Options");
    TrimUntouched("Options");
  }

  lemma HeadingTitle(t: string)
    ensures IsHeading("## " + t) && ("## " + t)[3..] == t
  {
  }

  lemma OverflowLongStep(long: string)
    requires |long| == 1020 && long[0] == 'a'
    ensures ScanLine(Scan([], Paragraph(Some("Options"), "", false), false, None), long, ExpandedLimit, WrittenReserve)
            == Scan([], Paragraph(Some("Options"), long + "\n", false), false, None)
  {
    assert !IsHeading(long) by { assert long[..3][0] == 'a'; }
    assert !StartsWith(long, "```") by { assert long[..3][0] == 'a'; }
    assert "" + long + "\n" == long + "\n";
  }

  lemma OverflowShortStep(long: string)
    requires |long| == 1020
    ensures ScanLine(Scan([], Paragraph(Some("Options"), long + "\n", false), false, None), "b", ExpandedLimit, WrittenReserve)
            == Scan([], Paragraph(Some("Options"), long + "\n" + "\n...", true), true, None)
  {
    assert !IsHeading("b");
    assert |long + "\n"| + |"b"| + WrittenReserve > ExpandedLimit;
  }

  lemma OverflowEndStep(long: string)
    ensures ScanLine(Scan([], Paragraph(Some("Options"), long + "\n" + "\n...", true), true, None), "## End",
                     ExpandedLimit, WrittenReserve).paragraphs
            == [Paragraph(Some("Options"), long + "\n" + "\n...", true)]
  {
    assert IsHeading("## End") by { assert "## End"[..3] == "## "; }
    assert long + "\n" + "\n..." != "" by { assert |long + "\n" + "\n..."| > 0; }
  }

  /** The scan of the counterexample, for any line of 1020 characters that
      is neither a heading nor a code fence. */
  lemma OverflowScanOf(long: string)
    requires |long| == 1020 && long[0] == 'a'
    ensures ScanLines(["## Options", long, "b", "## End"], ExpandedLimit, WrittenReserve).paragraphs
            == [Paragraph(Some("Options"), long + "\n" + "\n...", true)]
  {
    var cap, reserve := ExpandedLimit, WrittenReserve;
    var l1: seq<string> := ["## Options"];
    var l2 := l1 + [long];
    var l3 := l2 + ["b"];
    var l4 := l3 + ["## End"];
    assert l4 == ["## Options", long, "b", "## End"];
    ScanLinesSnoc([], "## Options", cap, reserve);
    assert [] + ["## Options"] == l1;
    OverflowHeading();
    ScanLinesSnoc(l1, long, cap, reserve);
    OverflowLongStep(long);
    ScanLinesSnoc(l2, "b", cap, reserve);
    OverflowShortStep(long);
    ScanLinesSnoc(l3, "## End", cap, reserve);
    OverflowEndStep(long);
  }

  lemma OverflowSplit()
    ensures Split(Join(OverflowLines(), "\n"), '\n') == OverflowLines()
  {
    var long := LongLine();
    assert forall i :: 0 <= i < |long| ==> long[i] == 'a';
    assert '\n' !in long;
    SplitJoin(OverflowLines(), '\n');
  }

  /** As written, a 1020-character line followed by another line makes an
      expanded field of 1025 characters. */
  lemma FieldOverflowAsWritten()
    ensures var e := EmbedFor(Join(OverflowLines(), "\n"), "", "1", "x", false, WrittenReserve);
            |e.fields| == 1 && e.fields[0].name == "Options" && |e.fields[0].value| == 1025 > FieldValueLimit
  {
    OverflowSplit();
    OverflowScanOf(LongLine());
  }

  /** Lines after the last heading never reach the fields or the
      description: the paragraph still open at the end is dropped. */
  lemma OpenSectionNotShown(lines: seq<string>, line: string, githubUrl: string, section: string, page: string,
                            collapsed: bool, reserve: nat)
    requires !IsHeading(line)
    ensures EmbedOf(lines + [line], githubUrl, section, page, collapsed, reserve).fields
            == EmbedOf(lines, githubUrl, section, page, collapsed, reserve).fields
    ensures EmbedOf(lines + [line], githubUrl, section, page, collapsed, reserve).description
            == EmbedOf(lines, githubUrl, section, page, collapsed, reserve).description
  {
    assert (lines + [line])[..|lines|] == lines;
  }

  /** The collapsed view shows only the Description section and invites the
      reader to expand; the expanded view has a footer exactly when some
      paragraph was cut short. */
  lemma Views(lines: seq<string>, githubUrl: string, section: string, page: string, collapsed: bool, reserve: nat)
    ensures var e := EmbedOf(lines, githubUrl, section, page, collapsed, reserve);
            collapsed ==> e.footer == Some(CollapsedFooter) && forall f :: f in e.fields ==> f.name == "Description"
    ensures var e := EmbedOf(lines, githubUrl, section, page, collapsed, reserve);
            !collapsed ==> (e.footer.Some? <==> ScanLines(lines, Cap(collapsed), reserve).truncated)
    ensures var e := EmbedOf(lines, githubUrl, section, page, collapsed, reserve);
            var st := ScanLines(lines, Cap(collapsed), reserve);
            !collapsed && st.truncated ==>
              e.footer == Some(TruncatedFooterPrefix + Join(TruncatedTitles(st.paragraphs), ", "))
  {
    var e := EmbedOf(lines, githubUrl, section, page, collapsed, reserve);
    forall f | f in e.fields ensures collapsed ==> f.name == "Description" {
      var k :| 0 <= k < |e.fields| && e.fields[k] == f;
    }
  }

  // ---- locating the page again from the description (line 99) --------------

  /** Length of the run of characters other than `)` at the start. */
  function CloseRun(s: string): (k: nat)
    ensures k <= |s|
    ensures forall i :: 0 <= i < k ==> s[i] != ')'
    ensures k < |s| ==> s[k] == ')'
  {
    if s == [] || s[0] == ')' then 0 else 1 + CloseRun(s[1..])
  }

  /** The group of `\(([^)]+)\)` when a match starts at `i`. */
  function ParenAt(s: string, i: nat): Option<string>
    requires i <= |s|
  {
    if i < |s| && s[i] == '(' then
      var k := CloseRun(s[i + 1..]);
      if 1 <= k && i + 1 + k < |s| then Some(s[i + 1..i + 1 + k]) else None
    else None
  }

  function ParenFrom(s: string, i: nat): Option<string>
    requires i <= |s|
    decreases |s| - i
  {
    if i == |s| then None
    else if ParenAt(s, i).Some? then ParenAt(s, i)
    else ParenFrom(s, i + 1)
  }

  /** The first group of `\(([^)]+)\)` in `s`: the leftmost match. */
  function ParenGroup(s: string): (r: Option<string>)
  {
    ParenFrom(s, 0)
  }

  lemma {:induction false} ParenFromSkip(s: string, i: nat, p: nat)
    requires i <= p <= |s|
    requires forall j :: i <= j < p ==> s[j] != '('
    ensures ParenFrom(s, i) == ParenFrom(s, p)
    decreases p - i
  {
    if i < p {
      ParenFromSkip(s, i + 1, p);
    }
  }

  /** Text without `(`, then a parenthesised group without `)`, gives that
      group. */
  lemma ParenGroupOf(pre: string, g: string, post: string)
    requires '(' !in pre && g != [] && ')' !in g && post != [] && post[0] == ')'
    ensures ParenGroup(pre + "(" + g + post) == Some(g)
  {
    var s := pre + "(" + g + post;
    var p := |pre|;
    forall j | 0 <= j < p ensures s[j] != '(' {
      assert s[j] == pre[j];
    }
    ParenFromSkip(s, 0, p);
    var rest := s[p + 1..];
    assert rest == g + post;
    assert rest[|g|] == ')';
    forall i | 0 <= i < |g| ensures rest[i] != ')' {
      assert rest[i] == g[i];
    }
    var k := CloseRun(rest);
    assert k == |g|;
    assert s[p + 1..p + 1 + k] == g;
  }

  /** With a name free of `(` and an address free of `)`, the pattern finds
      the GitHub address in the description. */
  lemma LocatorFindsGithubUrl(name: Option<string>, githubUrl: string, url: string)
    requires name.Some? ==> '(' !in name.value
    requires githubUrl != [] && ')' !in githubUrl
    ensures ParenGroup(Description(name, githubUrl, url)) == Some(githubUrl)
  {
    var n := if name.Some? then name.value else NameNotFound;
    assert '(' !in GithubLabel;
    assert SiteLabel[0] == ')';
    ParenGroupOfParts(n, GithubLabel, githubUrl, SiteLabel, url);
  }

  lemma ParenGroupOfParts(n: string, caption: string, g: string, site: string, url: string)
    requires '(' !in n && '(' !in caption && g != [] && ')' !in g && site != [] && site[0] == ')'
    ensures ParenGroup(n + caption + "(" + g + site + url + ")") == Some(g)
  {
    var post := site + url + ")";
    assert n + caption + "(" + g + site + url + ")" == (n + caption) + "(" + g + post;
    ParenGroupOf(n + caption, g, post);
  }

  /** A name with parentheses misleads the pattern. */
  lemma LocatorMisledByName(githubUrl: string, url: string)
    ensures ParenGroup(Description(Some("a(b)"), githubUrl, url)) == Some("b")
  {
    var tail := GithubLabel + "(" + githubUrl + SiteLabel + url + ")";
    NameThenLinks("a(b)", githubUrl, url);
    assert "a(b)" == "a" + "(" + "b" + ")";
    RegroupLast("a", "(", "b", ")", tail);
    ParenGroupOf("a", "b", ")" + tail);
  }

  lemma NameThenLinks(name: string, githubUrl: string, url: string)
    ensures Description(Some(name), githubUrl, url)
            == name + (GithubLabel + "(" + githubUrl + SiteLabel + url + ")")
  {
  }

  lemma RegroupLast(a: string, b: string, c: string, d: string, t: string)
    ensures (a + b + c + d) + t == a + b + c + (d + t)
  {
  }

  // ---- the command and the buttons --------------------------------------------

  /** The emoji the command looks up, as the text they render to. */
  datatype ManEmojis = ManEmojis(maximize: Option<string>, minimize: Option<string>, sadcaret: Option<string>)

  datatype Button = Button(customId: string, caption: string, emoji: Option<string>)

  datatype ManReply = ShowEmbed(embed: Embed, buttons: seq<Button>) | NotFound(content: string)

  /** `buttons` (lines 112-130). */
  function Buttons(maximize: Option<string>, minimize: Option<string>): (r: seq<Button>)
    ensures |r| == 2 && ManHandler.buttonData == Some([r[0].customId, r[1].customId])
  {
    [Button(MaximizeId, "Maximize", maximize), Button(MinimizeId, "Minimize", minimize)]
  }

  /** `handleCommand` (lines 54-76); `fetch` stands for the content request
      and answers `None` when it fails. */
  function ManCommandReply(section: int, page: string, fetch: (string, string) -> Option<string>,
                           emojis: ManEmojis): (r: ManReply)
    ensures r.NotFound? <==> fetch(IntToDecimal(section), page).None?
    ensures r.ShowEmbed? ==> |r.buttons| == 2
  {
    var s := IntToDecimal(section);
    match FetchManpage(s, page, fetch(s, page))
    case None =>
      NotFound("No matching man page found for " + page + "(" + s + ") "
               + (if emojis.sadcaret.Some? then emojis.sadcaret.value else ":^("))
    case Some(m) =>
      ShowEmbed(EmbedFor(m.markdown, m.url, s, page, true, WrittenReserve), Buttons(emojis.maximize, emojis.minimize))
  }

  /** The command answers with the collapsed embed of the page and both
      buttons when the page exists, and with the not-found text otherwise. */
  lemma ManCommandReplyShape(section: int, page: string, fetch: (string, string) -> Option<string>, emojis: ManEmojis)
    ensures var s := IntToDecimal(section);
            var r := ManCommandReply(section, page, fetch, emojis);
            && (r.NotFound? <==> fetch(s, page).None?)
            && (r.ShowEmbed? ==>
                  && r.embed.title == page + "(" + s + ")"
                  && r.embed.url == SiteUrl(s, page)
                  && r.embed.footer == Some(CollapsedFooter)
                  && (forall f :: f in r.embed.fields ==> f.name == "Description" && |f.value| <= CollapsedLimit + 1)
                  && ManHandler.buttonData == Some([r.buttons[0].customId, r.buttons[1].customId]))
            && (r.NotFound? ==> StartsWith(r.content, "No matching man page found for " + page + "(" + s + ")"))
  {
    var s := IntToDecimal(section);
    var r := ManCommandReply(section, page, fetch, emojis);
    if r.ShowEmbed? {
      Views(Split(fetch(s, page).value, '\n'), ManPageUrl(s, page), s, page, true, WrittenReserve);
      FieldsWithin(Split(fetch(s, page).value, '\n'), ManPageUrl(s, page), s, page, true, WrittenReserve);
    } else {
      var head := "No matching man page found for " + page + "(" + s + ")";
      assert r.content == head + " " + (if emojis.sadcaret.Some? then emojis.sadcaret.value else ":^(");
      assert r.content[..|head|] == head;
    }
  }

  /** The user who ran the command behind a message. */
  datatype Origin = Origin(userId: string, tag: string)

  /** The part of a posted embed the handlers read back. */
  datatype PostedEmbed = PostedEmbed(description: Option<string>, url: Option<string>)

  function Posted(e: Embed): PostedEmbed
  {
    PostedEmbed(Some(e.description), Some(e.url))
  }

  datatype ButtonOutcome =
    | Ignored
    | Denied(content: string)
    | Updated(embed: Embed)
    /** `null[1]` throws when the description has no parenthesised text. */
    | LocatorFailed

  /** `handleButton` (lines 78-110): only the user who ran the command may
      press the buttons; the page is located from the description. */
  function ButtonUpdate(hasChannel: bool, userId: string, origin: Option<Origin>, customId: string,
                        embeds: seq<PostedEmbed>, fetch: (string, string) -> Option<string>): (r: ButtonOutcome)
    ensures r.Updated? ==> hasChannel && origin.Some? && origin.value.userId == userId && |embeds| == 1
  {
    if !hasChannel then Ignored
    else if origin.None? || origin.value.userId != userId then
      Denied("Only " + (if origin.Some? then origin.value.tag else "undefined") + " can update this embed")
    else if |embeds| != 1 then Ignored
    else if embeds[0].description.None? || embeds[0].description.value == "" then Ignored
    else
      match ParenGroup(embeds[0].description.value)
      case None => LocatorFailed
      case Some(loc) =>
        match FetchManpageByUrl(loc, fetch)
        case None => Ignored
        case Some(m) => Updated(EmbedFor(m.markdown, m.url, m.section, m.page, customId == MinimizeId, WrittenReserve))
  }

  lemma PlainPageNoParen(d: char, page: string)
    requires IsDigit(d) && PlainPage(page)
    ensures ManPageUrl([d], page) != [] && ')' !in ManPageUrl([d], page)
  {
    assert ')' !in page by {
      assert forall i :: 0 <= i < |page| ==> IsWordOrSlash(page[i]);
    }
    assert ')' !in GithubPrefix && ')' !in Repository && ')' !in BlobMaster;
    assert ')' !in ManPath && ')' !in "/man" && ')' !in [d] && ')' !in ".md";
    CharFreeParts(')', GithubPrefix + Repository + BlobMaster, ManPath + "/man" + [d] + "/" + page + ".md");
  }

  lemma CharFreeParts(c: char, a: string, b: string)
    requires c !in a && c !in b
    ensures c !in a + b
  {
  }

  /** The name a man page's embed shows has no `(`. */
  predicate NameWithoutParen(markdown: string, collapsed: bool, reserve: nat)
  {
    var name := ScanLines(Split(markdown, '\n'), Cap(collapsed), reserve).name;
    name.Some? ==> '(' !in name.value
  }

  /** Pressing a button under the embed of a page, as the user who ran the
      command, renders that same page again, collapsed for Minimize and
      expanded otherwise. */
  lemma ToggleKeepsPage(d: char, page: string, markdown: string, collapsed: bool,
                        user: string, tag: string, customId: string, fetch: (string, string) -> Option<string>)
    requires IsDigit(d) && PlainPage(page) && NameWithoutParen(markdown, collapsed, WrittenReserve)
    ensures var e := EmbedFor(markdown, ManPageUrl([d], page), [d], page, collapsed, WrittenReserve);
            ButtonUpdate(true, user, Some(Origin(user, tag)), customId, [Posted(e)], fetch)
            == if fetch([d], page).Some? then
                 Updated(EmbedFor(fetch([d], page).value, ManPageUrl([d], page), [d], page, customId == MinimizeId, WrittenReserve))
               else Ignored
  {
    EmbedLocatesPage(d, page, markdown, collapsed, WrittenReserve);
    FetchByPageUrl(d, page, fetch);
  }

  /** The description of a page's embed is not empty, and its parenthesised
      group is the page's GitHub address. */
  lemma EmbedLocatesPage(d: char, page: string, markdown: string, collapsed: bool, reserve: nat)
    requires IsDigit(d) && PlainPage(page) && NameWithoutParen(markdown, collapsed, reserve)
    ensures var e := EmbedFor(markdown, ManPageUrl([d], page), [d], page, collapsed, reserve);
            e.description != "" && ParenGroup(e.description) == Some(ManPageUrl([d], page))
  {
    var e := EmbedFor(markdown, ManPageUrl([d], page), [d], page, collapsed, reserve);
    PlainPageNoParen(d, page);
    var name := ScanLines(Split(markdown, '\n'), Cap(collapsed), reserve).name;
    LocatorFindsGithubUrl(name, ManPageUrl([d], page), SiteUrl([d], page));
    assert e.description != "" by {
      assert |e.description| >= |GithubLabel|;
    }
  }

  /** After `/man` with a one-digit section and a plain page name, the
      Maximize button of the reply, pressed by the same user, shows the same
      page expanded. */
  lemma CommandThenMaximize(section: nat, page: string, fetch: (string, string) -> Option<string>,
                            emojis: ManEmojis, user: string, tag: string)
    requires section < 10 && PlainPage(page)
    requires fetch(IntToDecimal(section), page).Some?
    requires NameWithoutParen(fetch(IntToDecimal(section), page).value, true, WrittenReserve)
    ensures var r := ManCommandReply(section, page, fetch, emojis);
            var s := IntToDecimal(section);
            r.ShowEmbed?
            && ButtonUpdate(true, user, Some(Origin(user, tag)), r.buttons[0].customId, [Posted(r.embed)], fetch)
               == Updated(EmbedFor(fetch(s, page).value, ManPageUrl(s, page), s, page, false, WrittenReserve))
  {
    var d := DigitChar(section);
    assert IntToDecimal(section) == [d];
    ToggleKeepsPage(d, page, fetch([d], page).value, true, user, tag, MaximizeId, fetch);
  }
}

/** The legacy quick-link commands of src/commands/quickLinksCommand.ts:
    one table of names, each answered with a fixed link. */
module QuickLinks {
  import opened Common
  import opened CommandParser

  datatype Link = Link(name: string, response: string, help: string)

  const Documentation := "https://github.com/SerenityOS/serenity/blob/master/Documentation"

  /** The link table (lines 15-49), in its order. The trailing space of the
      last response belongs to it. */
  const Links: seq<Link> := [
    Link("faq", "FAQ: " + Documentation + "/FAQ.md", FaqHelp),
    Link("build", "How To Build: " + Documentation + "/BuildInstructions.md", BuildHelp),
    Link("wsl", "WSL Specific Notes: " + Documentation + "/NotesOnWSL.md", WslHelp),
    Link("install", "Installing on real hardware: " + Documentation + "/INSTALL.md", InstallHelp),
    Link("bot-src", "Bot Source: https://github.com/SerenityOS/discord-bot/tree/master/src/commands", SourceHelp),
    Link("soytineres",
         "https://cdn.discordapp.com/attachments/830525235803586570/843838343905411142/IMG_20210517_170429.png ",
         SoytineresHelp)
  ]

  const FaqHelp := "get a link to the SerenityOS FAQ"
  const BuildHelp := "get a link to the build docs"
  const WslHelp := "get a link to the wsl specific notes"
  // The two longest help texts are written in pieces so that each piece can
  // be checked for newlines on its own.
  const InstallHelp := "get a link to the directions " + "for installing " + "SerenityOS on real hardware"
  const SourceHelp := "get a link to the source " + "code for bot commands"
  const SoytineresHelp := "!SOytinereS ot emocleW"

  const LinkNames: seq<string> := ["faq", "build", "wsl", "install", "bot-src", "soytineres"]

  /** The table holds six links, with the listed names in order, and no
      name is used twice, so a name picks exactly one link. */
  lemma LinkTable()
    ensures |Links| == 6
    ensures forall i :: 0 <= i < 6 ==> Links[i].name == LinkNames[i]
    ensures forall i, j :: 0 <= i < j < |Links| ==> Links[i].name != Links[j].name
  {
    assert forall i :: 0 <= i < 6 ==> Links[i].name == LinkNames[i];
    assert forall i, j :: 0 <= i < j < 6 ==> LinkNames[i] != LinkNames[j] by {
      assert LinkNames[0][0] == 'f' && LinkNames[1][0] == 'b' && LinkNames[2][0] == 'w';
      assert LinkNames[3][0] == 'i' && LinkNames[4][0] == 'b' && LinkNames[5][0] == 's';
      assert |LinkNames[1]| != |LinkNames[4]|;
    }
  }

  /** `links.some(link => link.name === commandName)` (lines 51-53). */
  predicate MatchesName(commandName: string)
  {
    exists i :: 0 <= i < |Links| && Links[i].name == commandName
  }

  /** The names answered are exactly the six of the table. */
  lemma MatchesExactlyTheTable(commandName: string)
    ensures MatchesName(commandName) <==> commandName in LinkNames
  {
    LinkTable();
    if commandName in LinkNames {
      var i :| 0 <= i < |LinkNames| && LinkNames[i] == commandName;
      assert Links[i].name == commandName;
    }
  }

  /** `links.find(...)`: the first link of `links` named `name`. */
  function Find(links: seq<Link>, name: string): (r: Option<Link>)
    ensures r.Some? ==> r.value in links && r.value.name == name
    ensures r.None? <==> forall i :: 0 <= i < |links| ==> links[i].name != name
    ensures r.Some? ==> exists i :: 0 <= i < |links| && links[i] == r.value
                                    && forall j :: 0 <= j < i ==> links[j].name != name
  {
    if links == [] then None
    else if links[0].name == name then Some(links[0])
    else
      var r := Find(links[1..], name);
      assert forall i :: 1 <= i < |links| ==> links[i] == links[1..][i - 1];
      r
  }

  /** One help line per link (line 57). */
  function HelpLine(commandPrefix: string, link: Link): string
  {
    "Use **" + commandPrefix + link.name + "** to " + link.help + "."
  }

  /** The lines of `help`, one per link in table order. */
  function HelpLines(commandPrefix: string): (lines: seq<string>)
    ensures |lines| == |Links|
    ensures forall i :: 0 <= i < |Links| ==> lines[i] == HelpLine(commandPrefix, Links[i])
  {
    seq(|Links|, i requires 0 <= i < |Links| => HelpLine(commandPrefix, Links[i]))
  }

  /** `help` (lines 55-59). */
  function Help(commandPrefix: string): string
  {
    Join(HelpLines(commandPrefix), "\n")
  }

  /** Each link's help line stays one line of the help text: splitting the
      help at its newlines gives the lines back, in table order, whenever
      the prefix has no newline of its own. */
  lemma HelpSplitsIntoLines(commandPrefix: string)
    requires '\n' !in commandPrefix
    ensures Split(Help(commandPrefix), '\n') == HelpLines(commandPrefix)
  {
    var lines := HelpLines(commandPrefix);
    TableSingleLine();
    forall line | line in lines ensures '\n' !in line {
      var i :| 0 <= i < |lines| && lines[i] == line;
      HelpLineSingle(commandPrefix, Links[i]);
    }
    SplitJoin(lines, '\n');
  }

  lemma TableSingleLine()
    ensures forall i :: 0 <= i < |Links| ==> '\n' !in Links[i].name && '\n' !in Links[i].help
  {
    FaqHelpsSingleLine();
    BuildHelpsSingleLine();
    InstallHelpSingleLine();
    SourceHelpSingleLine();
  }

  lemma FaqHelpsSingleLine()
    ensures '\n' !in FaqHelp && '\n' !in SoytineresHelp
  {
  }

  lemma BuildHelpsSingleLine()
    ensures '\n' !in BuildHelp && '\n' !in WslHelp
  {
  }

  lemma InstallHelpSingleLine()
    ensures '\n' !in InstallHelp
  {
  }

  lemma SourceHelpSingleLine()
    ensures '\n' !in SourceHelp
  {
  }

  lemma HelpLineSingle(commandPrefix: string, link: Link)
    requires '\n' !in commandPrefix && '\n' !in link.name && '\n' !in link.help
    ensures '\n' !in HelpLine(commandPrefix, link)
  {
  }

  /** `run` (lines 61-65): the response of the link named by the command,
      or `None` when the assertion that one exists fails. */
  function Run(parsed: ParsedCommand): (sent: Option<Sent>)
    ensures sent.Some? <==> MatchesName(parsed.parsedCommandName)
    ensures sent.Some? ==> exists i :: 0 <= i < |Links| && Links[i].name == parsed.parsedCommandName
                                       && sent.value == SentText(Links[i].response)
  {
    match Find(Links, parsed.parsedCommandName)
    case Some(link) => Some(SentText(link.response))
    case None => None
  }

  /** A name the command answers to sends that link's response and nothing
      else; any other name fails the assertion. */
  lemma RunSendsTheNamedLink(parsed: ParsedCommand, i: nat)
    ensures Run(parsed).Some? <==> MatchesName(parsed.parsedCommandName)
    ensures i < |Links| && Links[i].name == parsed.parsedCommandName ==>
              Run(parsed) == Some(SentText(Links[i].response))
  {
    LinkTable();
  }
}

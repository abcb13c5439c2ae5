/** The interaction dispatcher of src/commandHandler.ts: a registry built
    once from the command classes, the generated help text, name lookup for
    chat, context-menu and select-menu interactions, custom-id lookup for
    buttons, and the error guard around every handler call. */
module CommandHandler {
  import opened Common

  /** `ApplicationCommandType` of a data entry; absent means chat input. */
  datatype CommandType = ChatInput | UserCommand | MessageCommand

  /** One `ApplicationCommandData` entry returned by `data()`. */
  datatype CommandData = CommandData(name: string, description: string, kind: Option<CommandType>)

  /** A command object: its data entries and the optional members it
      implements (`handleContextMenu`, `handleSelectMenu`, `handleButton`,
      `buttonData`). Every command implements `handleCommand`. */
  datatype Handler = Handler(
    className: string,
    data: seq<CommandData>,
    hasContextMenu: bool,
    hasSelectMenu: bool,
    hasButton: bool,
    buttonData: Option<seq<string>>)

  /** The member of a command that a dispatch calls. */
  datatype HandlerKind = OnCommand | OnContextMenu | OnSelectMenu | OnButton

  /** How the promise returned by a handler settles. */
  datatype HandlerOutcome = Resolved | Rejected(error: string)

  /** What the dispatcher does, in order. */
  datatype Effect =
    | Reply(ephemeral: bool, content: string)
    | LogSilly(text: string)
    | LogTrace(error: string)
    | Call(command: Handler, kind: HandlerKind)

  /** A dispatch either completes with its effects or throws. */
  datatype Outcome = Done(effects: seq<Effect>) | Thrown(message: string)

  /** One registry entry: the names of a command's data entries and the command. */
  datatype Entry = Entry(names: seq<string>, command: Handler)

  /** The kind of a base command interaction. */
  datatype BaseKind = ChatInputInteraction | ContextMenuInteraction

  const UnknownCommandReply := "I don't recognize that command."

  // ---- specification of the registry and the help text --------------------

  function Names(data: seq<CommandData>): (r: seq<string>)
    ensures |r| == |data| && forall k :: 0 <= k < |data| ==> r[k] == data[k].name
  {
    if data == [] then [] else Names(data[..|data| - 1]) + [data[|data| - 1].name]
  }

  /** A data entry is listed in the help when its type is absent or CHAT_INPUT. */
  predicate Listed(d: CommandData)
  {
    d.kind.None? || d.kind == Some(ChatInput)
  }

  function HelpLine(d: CommandData): string
  {
    "**" + d.name + "** - " + d.description
  }

  function HelpLinesOf(data: seq<CommandData>): seq<string>
  {
    if data == [] then []
    else
      var last := data[|data| - 1];
      HelpLinesOf(data[..|data| - 1]) + (if Listed(last) then [HelpLine(last)] else [])
  }

  function HelpLines(cs: seq<Handler>): seq<string>
  {
    if cs == [] then [] else HelpLines(cs[..|cs| - 1]) + HelpLinesOf(cs[|cs| - 1].data)
  }

  function HelpText(cs: seq<Handler>): string
  {
    "Available commands:\n" + Join(HelpLines(cs), "\n")
  }

  lemma {:induction false} HelpLinesOfExactly(data: seq<CommandData>, line: string)
    ensures line in HelpLinesOf(data) <==> exists d :: d in data && Listed(d) && line == HelpLine(d)
  {
    if data != [] {
      var init := data[..|data| - 1];
      HelpLinesOfExactly(init, line);
      assert data == init + [data[|data| - 1]];
      assert forall d :: d in data <==> d in init || d == data[|data| - 1];
    }
  }

  /** The help lists exactly the listed data entries of the registered
      commands, one `**name** - description` line each. */
  lemma {:induction false} HelpLinesExactly(cs: seq<Handler>, line: string)
    ensures line in HelpLines(cs) <==>
      exists c, d :: c in cs && d in c.data && Listed(d) && line == HelpLine(d)
  {
    if cs != [] {
      var init := cs[..|cs| - 1];
      var last := cs[|cs| - 1];
      HelpLinesExactly(init, line);
      HelpLinesOfExactly(last.data, line);
      assert cs == init + [last];
      assert forall c :: c in cs <==> c in init || c == last;
      if line in HelpLinesOf(last.data) {
        var d :| d in last.data && Listed(d) && line == HelpLine(d);
        assert last in cs;
      }
    }
  }

  // ---- specification of the lookups ---------------------------------------

  /** The comparison at line 104: only the registered name is lower-cased. */
  predicate EntryMatches(e: Entry, commandName: string)
  {
    exists k :: 0 <= k < |e.names| && Lower(e.names[k]) == commandName
  }

  /** The command the nested loop leaves in `matchedCommand`: `break` only
      leaves the inner loop, so a later matching entry overrides. */
  function LastMatch(entries: seq<Entry>, commandName: string): Option<Handler>
  {
    if entries == [] then None
    else if EntryMatches(entries[|entries| - 1], commandName) then Some(entries[|entries| - 1].command)
    else LastMatch(entries[..|entries| - 1], commandName)
  }

  /** `LastMatch` finds a command exactly when some entry matches, and then
      the command of the last matching entry. */
  lemma {:induction false} LastMatchIsLast(entries: seq<Entry>, commandName: string)
    ensures LastMatch(entries, commandName).Some? <==>
      exists i :: 0 <= i < |entries| && EntryMatches(entries[i], commandName)
    ensures LastMatch(entries, commandName).Some? ==>
      exists i :: 0 <= i < |entries| && EntryMatches(entries[i], commandName)
        && LastMatch(entries, commandName).value == entries[i].command
        && forall j :: i < j < |entries| ==> !EntryMatches(entries[j], commandName)
  {
    if entries != [] {
      var n := |entries| - 1;
      LastMatchIsLast(entries[..n], commandName);
      if !EntryMatches(entries[n], commandName) {
        assert forall i :: 0 <= i < n ==> entries[..n][i] == entries[i];
      }
    }
  }

  /** An incoming name with an upper-case letter never matches: the
      incoming name is not lower-cased, the registered ones are. */
  lemma UpperCaseNeverMatches(entries: seq<Entry>, commandName: string, k: nat)
    requires k < |commandName| && 'A' <= commandName[k] <= 'Z'
    ensures LastMatch(entries, commandName) == None
  {
    forall i, n | 0 <= i < |entries| && 0 <= n < |entries[i].names|
      ensures Lower(entries[i].names[n]) != commandName
    {
      var low := Lower(entries[i].names[n]);
      if |low| == |commandName| {
        assert low[k] != commandName[k];
      }
    }
    LastMatchIsLast(entries, commandName);
  }

  /** Whether a command's `buttonData` lists the custom id. */
  predicate ClaimsButton(h: Handler, customId: string)
  {
    h.buttonData.Some? && customId in h.buttonData.value
  }

  /** The first command in registry order that claims the custom id. */
  function FirstButtonOwner(entries: seq<Entry>, customId: string): (r: Option<Handler>)
    ensures r.Some? <==> exists i :: 0 <= i < |entries| && ClaimsButton(entries[i].command, customId)
    ensures r.Some? ==>
              exists i :: 0 <= i < |entries| && r.value == entries[i].command
                && ClaimsButton(entries[i].command, customId)
                && forall j :: 0 <= j < i ==> !ClaimsButton(entries[j].command, customId)
  {
    if entries == [] then None
    else if ClaimsButton(entries[0].command, customId) then Some(entries[0].command)
    else
      var r := FirstButtonOwner(entries[1..], customId);
      assert forall i :: 1 <= i < |entries| ==> entries[1..][i - 1] == entries[i];
      r
  }

  // ---- the guard and the dispatch specification ---------------------------

  /** `callInteractionHandler`: the handler is called; a rejection is
      logged with `trace` and answered with an ephemeral reply, and is not
      re-thrown. */
  function CallInteractionHandler(command: Handler, kind: HandlerKind, outcome: HandlerOutcome): (r: seq<Effect>)
    ensures |r| >= 1 && r[0] == Call(command, kind)
    ensures outcome.Resolved? ==> |r| == 1
    ensures outcome.Rejected? ==> r[1..] == [LogTrace(outcome.error), Reply(true, "Failed because of " + outcome.error)]
  {
    match outcome
    case Resolved => [Call(command, kind)]
    case Rejected(e) => [Call(command, kind), LogTrace(e), Reply(true, "Failed because of " + e)]
  }

  /** The number of replies among the effects. */
  function ReplyCount(effects: seq<Effect>): nat
  {
    if effects == [] then 0 else (if effects[0].Reply? then 1 else 0) + ReplyCount(effects[1..])
  }

  /** A failing handler is answered by exactly one visible reply from the
      guard, a succeeding one by none. */
  lemma GuardReplies(command: Handler, kind: HandlerKind, outcome: HandlerOutcome)
    ensures ReplyCount(CallInteractionHandler(command, kind, outcome)) == if outcome.Rejected? then 1 else 0
  {
    match outcome
    case Resolved =>
      assert ReplyCount([Call(command, kind)]) == ReplyCount([]);
    case Rejected(e) =>
      var r := [Call(command, kind), LogTrace(e), Reply(true, "Failed because of " + e)];
      assert r[1..] == [LogTrace(e), Reply(true, "Failed because of " + e)];
      assert r[1..][1..] == [Reply(true, "Failed because of " + e)];
      assert r[1..][1..][1..] == [];
      assert ReplyCount(r[1..][1..]) == 1 + ReplyCount([]);
      assert ReplyCount(r[1..]) == 0 + ReplyCount(r[1..][1..]);
      assert ReplyCount(r) == 0 + ReplyCount(r[1..]);
  }

  function BaseCommandSpec(entries: seq<Entry>, help: string, kind: BaseKind, commandName: string,
                           userTag: string, outcomeOf: (Handler, HandlerKind) -> HandlerOutcome): Outcome
  {
    if commandName == "help" then Done([Reply(true, help)])
    else match LastMatch(entries, commandName)
      case None => Done([Reply(true, UnknownCommandReply)])
      case Some(c) =>
        if kind == ChatInputInteraction then
          Done([LogSilly(userTag + " is executing " + commandName)]
               + CallInteractionHandler(c, OnCommand, outcomeOf(c, OnCommand)))
        else if c.hasContextMenu then
          Done(CallInteractionHandler(c, OnContextMenu, outcomeOf(c, OnContextMenu)))
        else Done([])
  }

  function SelectSpec(entries: seq<Entry>, originCommandName: Option<string>,
                      outcomeOf: (Handler, HandlerKind) -> HandlerOutcome): Outcome
  {
    var m := if originCommandName.None? then None else LastMatch(entries, originCommandName.value);
    match m
    case None => Done([Reply(true, UnknownCommandReply)])
    case Some(c) =>
      if c.hasSelectMenu then Done(CallInteractionHandler(c, OnSelectMenu, outcomeOf(c, OnSelectMenu)))
      else Done([])
  }

  function ButtonSpec(entries: seq<Entry>, customId: string,
                      outcomeOf: (Handler, HandlerKind) -> HandlerOutcome): Outcome
  {
    match FirstButtonOwner(entries, customId)
    case None => Done([])
    case Some(c) =>
      if !c.hasButton then
        Thrown(c.className + ": handleButton has to be implemented if buttonData lists customId")
      else Done(CallInteractionHandler(c, OnButton, outcomeOf(c, OnButton)))
  }

  /** `help` is answered before any lookup, whatever is registered. */
  lemma HelpIsIntercepted(entries: seq<Entry>, help: string, kind: BaseKind, userTag: string,
                          outcomeOf: (Handler, HandlerKind) -> HandlerOutcome)
    ensures BaseCommandSpec(entries, help, kind, "help", userTag, outcomeOf) == Done([Reply(true, help)])
  {
  }

  /** An unmatched name gets the ephemeral "not recognized" reply and no
      handler runs. */
  lemma UnmatchedNameIsRejected(entries: seq<Entry>, help: string, kind: BaseKind, commandName: string,
                                userTag: string, outcomeOf: (Handler, HandlerKind) -> HandlerOutcome)
    requires commandName != "help"
    requires forall i :: 0 <= i < |entries| ==> !EntryMatches(entries[i], commandName)
    ensures BaseCommandSpec(entries, help, kind, commandName, userTag, outcomeOf) == Done([Reply(true, UnknownCommandReply)])
  {
    LastMatchIsLast(entries, commandName);
  }

  /** The registry a list of command classes gives: one entry per class, in
      order, keyed by the names of its data entries. */
  function Registry(cs: seq<Handler>): (r: seq<Entry>)
    ensures |r| == |cs|
    ensures forall i :: 0 <= i < |cs| ==> r[i] == Entry(Names(cs[i].data), cs[i])
  {
    if cs == [] then [] else Registry(cs[..|cs| - 1]) + [Entry(Names(cs[|cs| - 1].data), cs[|cs| - 1])]
  }

  const HelpData := CommandData("help", "List all available commands", None)

  /** The data entries of the registry, command after command. */
  function AllData(entries: seq<Entry>): seq<CommandData>
  {
    if entries == [] then [] else AllData(entries[..|entries| - 1]) + entries[|entries| - 1].command.data
  }

  lemma {:induction false} AllDataCons(e: Entry, rest: seq<Entry>)
    ensures AllData([e] + rest) == e.command.data + AllData(rest)
    decreases |rest|
  {
    if rest == [] {
      assert ([e] + rest)[..0] == [];
    } else {
      var init := rest[..|rest| - 1];
      assert ([e] + rest)[..|rest|] == [e] + init;
      AllDataCons(e, init);
    }
  }

  /** Each data entry of the registry belongs to some registered command. */
  lemma {:induction false} AllDataMember(entries: seq<Entry>, d: CommandData)
    requires d in AllData(entries)
    ensures exists i :: 0 <= i < |entries| && d in entries[i].command.data
  {
    var init := entries[..|entries| - 1];
    if d in AllData(init) {
      AllDataMember(init, d);
      var i :| 0 <= i < |init| && d in init[i].command.data;
      assert entries[i] == init[i];
    } else {
      assert d in entries[|entries| - 1].command.data;
    }
  }

  /** The list `registerInteractions` sends: every data entry of every
      registered command, in order, then the built-in `help`. */
  function RegisteredCommandList(entries: seq<Entry>): (r: seq<CommandData>)
    ensures r == AllData(entries) + [HelpData]
    ensures forall i :: 0 <= i < |entries| ==> forall d :: d in entries[i].command.data ==> d in r
    ensures forall d :: d in r ==> d == HelpData || exists i :: 0 <= i < |entries| && d in entries[i].command.data
  {
    var r := if entries == [] then [HelpData]
             else (
               AllDataCons(entries[0], entries[1..]);
               assert entries == [entries[0]] + entries[1..];
               entries[0].command.data + RegisteredCommandList(entries[1..]));
    assert forall i :: 0 <= i < |entries| ==> forall d :: d in entries[i].command.data ==> d in r by {
      forall i | 0 <= i < |entries| {
        AllDataHas(entries, i);
      }
    }
    assert forall d :: d in r ==> d == HelpData || exists i :: 0 <= i < |entries| && d in entries[i].command.data by {
      forall d | d in r && d != HelpData {
        AllDataMember(entries, d);
      }
    }
    r
  }

  /** The data entries of each registered command are in the registry's. */
  lemma {:induction false} AllDataHas(entries: seq<Entry>, i: nat)
    requires i < |entries|
    ensures forall d :: d in entries[i].command.data ==> d in AllData(entries)
  {
    var init := entries[..|entries| - 1];
    if i < |init| {
      AllDataHas(init, i);
      assert init[i] == entries[i];
    }
  }

  /** Where `registerInteractions` installs the list: the development guild
      outside production when a guild id is set, and the application when
      the client has one. */
  datatype RegistrationTarget = GuildCommands(guildId: string) | ApplicationCommands

  function RegistrationTargets(production: bool, guildId: Option<string>, hasApplication: bool): (r: seq<RegistrationTarget>)
    ensures ApplicationCommands in r <==> hasApplication
    ensures (exists g :: GuildCommands(g) in r) <==> !production && guildId.Some? && guildId.value != ""
  {
    (if !production && guildId.Some? && guildId.value != "" then [GuildCommands(guildId.value)] else [])
    + (if hasApplication then [ApplicationCommands] else [])
  }

  // ---- the dispatcher object ----------------------------------------------

  class CommandHandler {
    /** The registry, in the order of the command classes. */
    var commands: seq<Entry>
    /** The text answered to `help`. */
    var help: string

    constructor (commandClasses: seq<Handler>)
      ensures |commands| == |commandClasses|
      ensures forall i :: 0 <= i < |commandClasses| ==>
        commands[i] == Entry(Names(commandClasses[i].data), commandClasses[i])
      ensures help == HelpText(commandClasses)
    {
      var availableCommands: seq<string> := [];
      var entries: seq<Entry> := [];
      var i := 0;
      while i < |commandClasses|
        invariant 0 <= i <= |commandClasses|
        invariant entries == Registry(commandClasses[..i])
        invariant availableCommands == HelpLines(commandClasses[..i])
      {
        var command := commandClasses[i];
        var dataArray := command.data;
        var j := 0;
        while j < |dataArray|
          invariant 0 <= j <= |dataArray|
          invariant availableCommands == HelpLines(commandClasses[..i]) + HelpLinesOf(dataArray[..j])
        {
          var entry := dataArray[j];
          HelpLinesOfStep(dataArray, j);
          if entry.kind.None? || entry.kind == Some(ChatInput) {
            AppendRegroup(HelpLines(commandClasses[..i]), HelpLinesOf(dataArray[..j]), HelpLine(entry));
            availableCommands := availableCommands + ["**" + entry.name + "** - " + entry.description];
          }
          j := j + 1;
        }
        assert dataArray[..j] == dataArray;
        RegistryStep(commandClasses, i);
        entries := entries + [Entry(Names(dataArray), command)];
        i := i + 1;
      }
      assert commandClasses[..i] == commandClasses;
      commands := entries;
      help := "Available commands:\n" + Join(availableCommands, "\n");
    }

    /** The nested loop of lines 100-109 (and 138-148): the last command in
        registry order owning a name whose lower-case form is `commandName`. */
    method MatchCommand(commandName: string) returns (matched: Option<Handler>)
      ensures matched.Some? <==> exists i :: 0 <= i < |commands| && EntryMatches(commands[i], commandName)
      ensures matched.Some? ==>
                exists i :: 0 <= i < |commands| && EntryMatches(commands[i], commandName)
                  && matched.value == commands[i].command
                  && forall j :: i < j < |commands| ==> !EntryMatches(commands[j], commandName)
      ensures matched == LastMatch(commands, commandName)
    {
      matched := None;
      var i := 0;
      while i < |commands|
        invariant 0 <= i <= |commands|
        invariant matched == LastMatch(commands[..i], commandName)
      {
        var names := commands[i].names;
        var j := 0;
        while j < |names|
          invariant 0 <= j <= |names|
          invariant forall k :: 0 <= k < j ==> Lower(names[k]) != commandName
          invariant matched == LastMatch(commands[..i], commandName)
        {
          if Lower(names[j]) == commandName {
            matched := Some(commands[i].command);
            break;
          }
          j := j + 1;
        }
        assert commands[..i + 1][..i] == commands[..i];
        i := i + 1;
      }
      assert commands[..i] == commands;
      LastMatchIsLast(commands, commandName);
    }

    /** `handleBaseCommandInteraction` */
    method HandleBaseCommandInteraction(kind: BaseKind, commandName: string, userTag: string,
                                        outcomeOf: (Handler, HandlerKind) -> HandlerOutcome)
      returns (out: Outcome)
      ensures out == BaseCommandSpec(commands, help, kind, commandName, userTag, outcomeOf)
      ensures out.Done?
    {
      if commandName == "help" {
        return Done([Reply(true, help)]);
      }
      var matchedCommand := MatchCommand(commandName);
      if matchedCommand.None? {
        return Done([Reply(true, UnknownCommandReply)]);
      }
      var c := matchedCommand.value;
      if kind == ChatInputInteraction {
        var logged := [LogSilly(userTag + " is executing " + commandName)];
        return Done(logged + CallInteractionHandler(c, OnCommand, outcomeOf(c, OnCommand)));
      }
      if c.hasContextMenu {
        return Done(CallInteractionHandler(c, OnContextMenu, outcomeOf(c, OnContextMenu)));
      }
      return Done([]);
    }

    /** `handleSelectInteraction`: the lookup uses the name of the command
        that produced the message, not the select menu's own id; a message
        without an originating interaction matches nothing. */
    method HandleSelectInteraction(originCommandName: Option<string>,
                                   outcomeOf: (Handler, HandlerKind) -> HandlerOutcome)
      returns (out: Outcome)
      ensures out == SelectSpec(commands, originCommandName, outcomeOf)
      ensures out.Done?
    {
      var matchedCommand: Option<Handler> := None;
      if originCommandName.Some? {
        matchedCommand := MatchCommand(originCommandName.value);
      }
      if matchedCommand.None? {
        return Done([Reply(true, UnknownCommandReply)]);
      }
      var c := matchedCommand.value;
      if c.hasSelectMenu {
        return Done(CallInteractionHandler(c, OnSelectMenu, outcomeOf(c, OnSelectMenu)));
      }
      return Done([]);
    }

    /** `handleButtonInteraction`: the first command in registry order whose
        `buttonData` lists the custom id; such a command without
        `handleButton` is a programming error and throws. */
    method HandleButtonInteraction(customId: string, outcomeOf: (Handler, HandlerKind) -> HandlerOutcome)
      returns (out: Outcome)
      ensures out == ButtonSpec(commands, customId, outcomeOf)
      ensures (forall i :: 0 <= i < |commands| ==> !ClaimsButton(commands[i].command, customId)) ==> out == Done([])
    {
      var i := 0;
      while i < |commands|
        invariant 0 <= i <= |commands|
        invariant forall k :: 0 <= k < i ==> !ClaimsButton(commands[k].command, customId)
      {
        var command := commands[i].command;
        if command.buttonData.Some? {
          var buttons := command.buttonData.value;
          var j := 0;
          while j < |buttons|
            invariant 0 <= j <= |buttons|
            invariant forall k :: 0 <= k < j ==> buttons[k] != customId
          {
            if buttons[j] == customId {
              assert FirstButtonOwner(commands, customId) == Some(command) by {
                FirstOwnerAt(commands, customId, i);
              }
              if !command.hasButton {
                return Thrown(command.className + ": handleButton has to be implemented if buttonData lists customId");
              }
              return Done(CallInteractionHandler(command, OnButton, outcomeOf(command, OnButton)));
            }
            j := j + 1;
          }
          assert customId !in buttons;
        }
        i := i + 1;
      }
      assert FirstButtonOwner(commands, customId).None?;
      return Done([]);
    }
  }

  lemma HelpLinesOfStep(data: seq<CommandData>, j: nat)
    requires j < |data|
    ensures HelpLinesOf(data[..j + 1]) == HelpLinesOf(data[..j]) + (if Listed(data[j]) then [HelpLine(data[j])] else [])
  {
    assert data[..j + 1][..j] == data[..j];
  }

  lemma RegistryStep(cs: seq<Handler>, i: nat)
    requires i < |cs|
    ensures Registry(cs[..i + 1]) == Registry(cs[..i]) + [Entry(Names(cs[i].data), cs[i])]
    ensures HelpLines(cs[..i + 1]) == HelpLines(cs[..i]) + HelpLinesOf(cs[i].data)
  {
    assert cs[..i + 1][..i] == cs[..i];
  }

  lemma AppendRegroup(a: seq<string>, b: seq<string>, x: string)
    ensures a + b + [x] == a + (b + [x])
  {
  }

  lemma {:induction false} FirstOwnerAt(entries: seq<Entry>, customId: string, i: nat)
    requires i < |entries| && ClaimsButton(entries[i].command, customId)
    requires forall k :: 0 <= k < i ==> !ClaimsButton(entries[k].command, customId)
    ensures FirstButtonOwner(entries, customId) == Some(entries[i].command)
  {
    if i > 0 {
      FirstOwnerAt(entries[1..], customId, i - 1);
    }
  }
}

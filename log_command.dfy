/** The `/log` command of src/commands/logCommand.ts: reads and sets the
    level of the logger. */
module LogCommand {
  import opened Common
  import opened Logging

  datatype Reply = Reply(content: string, ephemeral: bool)

  const NotOnServer := "Command only available on the SerenityOS Discord Server"
  const NoPermission := "Insufficient permission"
  const InvalidSubcommand := "Invalid subcommand"

  /** The choices of the `level` option (lines 32-39): the names of the
      enum, without its numeric keys, numbered in declaration order. */
  function LevelChoices(): (choices: seq<(string, int)>)
    ensures |choices| == |Levels|
  {
    seq(|Levels|, i requires 0 <= i < |Levels| => (LevelName(Levels[i]), i))
  }

  /** Picking the choice named after a level sends that level's number,
      which the logger reads back as the same level. */
  lemma ChoiceOfLevel(l: LogLevel)
    ensures exists i :: 0 <= i < |LevelChoices()| && LevelChoices()[i].0 == LevelName(l)
    ensures forall i :: 0 <= i < |LevelChoices()| && LevelChoices()[i].0 == LevelName(l) ==>
              LevelOf(LevelChoices()[i].1) == Some(l)
  {
    LevelsInOrder(l);
    assert LevelChoices()[Rank(l)].0 == LevelName(l);
    forall i | 0 <= i < |LevelChoices()| && LevelChoices()[i].0 == LevelName(l)
      ensures LevelOf(LevelChoices()[i].1) == Some(l)
    {
      LevelNamesDistinct(Levels[i], l);
    }
  }

  function GetReply(current: LogLevel, configured: LogLevel): string
  {
    var modified := current != configured;
    "The logging level is currently set to " + (if modified then "**" else "") + "`" + LevelName(current) + "`"
    + (if modified then " (modified)**" else "") + "!"
  }

  function SetReply(previous: LogLevel, level: LogLevel): string
  {
    "The logging level was successfully changed from `" + LevelName(previous) + "` to `" + LevelName(level) + "`"
  }

  /** `handleCommand` (lines 50-95) on values: the reply and the logger's
      level afterwards. `isMember` says whether the issuer could be fetched
      as a member of the guild, `isPrivileged` whether they hold one of the
      privileged roles. */
  function LogSpec(current: LogLevel, configured: LogLevel, isMember: bool, isPrivileged: bool,
                   subcommand: string, level: LogLevel): (r: (Reply, LogLevel))
  {
    if !isMember then (Reply(NotOnServer, true), current)
    else if subcommand == "get" then (Reply(GetReply(current, configured), false), current)
    else if subcommand == "set" then
      if !isPrivileged then (Reply(NoPermission, true), current)
      else (Reply(SetReply(current, level), false), level)
    else (Reply(InvalidSubcommand, true), current)
  }

  /** Only a privileged member's `set` changes the level, and then to the
      level asked for; every refusal is ephemeral. */
  lemma OnlyPrivilegedSet(current: LogLevel, configured: LogLevel, isMember: bool, isPrivileged: bool,
                          subcommand: string, level: LogLevel)
    ensures var (reply, after) := LogSpec(current, configured, isMember, isPrivileged, subcommand, level);
            && (after != current ==> isMember && isPrivileged && subcommand == "set" && after == level)
            && (isMember && isPrivileged && subcommand == "set" ==> after == level)
            && (reply.ephemeral <==> !isMember || (subcommand != "get" && (subcommand != "set" || !isPrivileged)))
  {
  }

  /** `get` marks the level "(modified)" exactly when it differs from the
      configured one. */
  lemma GetMarksModified(current: LogLevel, configured: LogLevel)
    ensures var c := GetReply(current, configured);
            |c| >= 14 && (c[|c| - 14..] == " (modified)**!" <==> current != configured)
  {
    var c := GetReply(current, configured);
    if current == configured {
      assert c[|c| - 2] == '`';
      assert c[|c| - 14..][12] == c[|c| - 2];
    }
  }

  /** `set` names the old level and then the new one. */
  lemma SetNamesBoth(previous: LogLevel, level: LogLevel)
    ensures var c := SetReply(previous, level);
            var prefix := "The logging level was successfully changed from `";
            && c[..|prefix| + |LevelName(previous)|] == prefix + LevelName(previous)
            && c[|c| - |LevelName(level)| - 1..] == LevelName(level) + "`"
  {
  }

  /** The command against the logger object. */
  method HandleCommand(logger: Logger, configured: LogLevel, isMember: bool, isPrivileged: bool,
                       subcommand: string, level: LogLevel) returns (reply: Reply)
    modifies logger
    ensures (reply, logger.level) == LogSpec(old(logger.level), configured, isMember, isPrivileged, subcommand, level)
    ensures logger.running == old(logger.running) && logger.startupQueue == old(logger.startupQueue)
    ensures logger.hasChannel == old(logger.hasChannel) && logger.sent == old(logger.sent)
  {
    if !isMember {
      return Reply(NotOnServer, true);
    }
    if subcommand == "get" {
      return Reply(GetReply(logger.level, configured), false);
    } else if subcommand == "set" {
      if !isPrivileged {
        return Reply(NoPermission, true);
      }
      var previous := logger.level;
      logger.SetLevel(level);
      return Reply(SetReply(previous, level), false);
    }
    return Reply(InvalidSubcommand, true);
  }
}

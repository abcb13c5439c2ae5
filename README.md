# SerenityOS Discord bot, modelled in Dafny

This project models the core of the SerenityOS Discord bot: the command
dispatcher and the commands it routes slash commands, context-menu commands,
select menus and buttons to, the embeds it builds from GitHub issues, pull
requests and man pages, and the log queue. One Dafny module stands for one
source file:

- `CommandHandler` (`src/commandHandler.ts`): the registry of commands, name
  matching (the last command whose `data()` lists the name wins), the `help`
  interception, and routing of select menus and buttons to the first command
  that claims them. `Index` (`src/index.ts`) covers the registration targets,
  the forwarding of interactions and the reaction toggle on man page embeds.
- `CommandParser` (`src/models/commandParser.ts`): splitting a message into a
  command name and its arguments.
- One module per command: `BrainYak`, `CommitStats`, `GithubCommand`,
  `IssueCommand`, `LogCommand`, `Man`, `PlanCommand`, `PrCommand`,
  `QuickLinks`, `QuoteCommand`, `SlapCommand`, `TestCommand`,
  `Test262Command`, `UserCommand`. Each one states which replies a command
  gives and under which conditions: the refusals, the ephemeral answers, the
  embeds and the buttons.
- `GithubApi` (`src/apis/githubAPI.ts`): locating man pages in the
  repository (the man page URL pattern is modelled as an explicit matcher,
  leftmost and greedy with backtracking, as JavaScript matches it), search
  queries and the fortunes pull.
- `IssueEmbed` (`src/util/embedFromIssueOrPull.ts`), `Emoji`
  (`src/util/emoji.ts`), `Text` (`src/util/text.ts`) and `Logging`
  (`src/util/logger.ts`, a class with the queue, level and channel fields that
  the source updates in place).
- `Common`: Option and Result, plus the JavaScript string operations the
  source relies on (`slice`, `trim`, `split`/`join`, `indexOf`,
  `toLowerCase`, `String.prototype.replace` with its `$` substitutions, and
  `parseInt`), each proved against its own partner lemma.

Where the source updates state step by step (the registry loop, the logger's
queue, the Brain Yak interpreter's cells, the `man` markdown scan, the commit
statistics chunking), the model is a method with loop invariants, proved
against a specification function, and the lemmas state the properties of
that function.

## Model

| member | source | states |
|---|---|---|
| Text.TrimString | src/util/text.ts:8-10 | a title shorter than the limit comes back unchanged; a longer one keeps its first `length - 3` characters, ends in "..." and is exactly `length` characters long |
| Text.TrimStringAtLimit | src/util/text.ts:9 | a title of exactly `length` characters is changed unless it already ends in "..." |
| Text.TrimStringIdempotent | src/util/text.ts:8-10 | trimming an already trimmed title changes nothing |
| PlanCommand.PlaceholderFirst | src/commands/planCommand.ts:15 | the first occurrence of the backticked placeholder in the fixed reply is right after the question |
| PlanCommand.ReplyCases | src/commands/planCommand.ts:41-51 | no feature or an empty one gives the fixed reply; otherwise the placeholder is replaced as `String.prototype.replace` substitutes (the feature verbatim when it has no `$`); every reply ends with the FAQ link |
| SlapCommand.UserStep | src/commands/slapCommand.ts:45 | replacing `$USER` by a name without `$` puts the name right after the leading `*` and leaves the rest of the line as it was |
| SlapCommand.TargetFirstAfterPlaceholder | src/commands/slapCommand.ts:11 | the first `$TARGET` in the fixed line is the one after " slaps "; the `$` of `$USER` does not start it |
| SlapCommand.TargetStep | src/commands/slapCommand.ts:46 | replacing `$TARGET` by a name without `$` puts it between " slaps " and the trout, whether or not `$USER` was replaced before |
| SlapCommand.ReplyCases | src/commands/slapCommand.ts:24-51 | the issuer's name stands where `$USER` was exactly when there is an issuer, and the target's name stands where `$TARGET` was exactly when there is a target; otherwise the placeholder stays; nothing else changes |
| SlapCommand.IssuerFallbackUnused | src/commands/slapCommand.ts:35 | the issuer fallback "Someone" never reaches the reply: without an issuer the line still starts with `*$USER slaps ` |
| QuickLinks.LinkTable | src/commands/quickLinksCommand.ts:15-49 | the table holds six links named faq, build, wsl, install, bot-src and soytineres, in that order, and no name repeats |
| QuickLinks.MatchesExactlyTheTable | src/commands/quickLinksCommand.ts:51-53 | the command answers to a name exactly when it is one of the six |
| QuickLinks.Find | src/commands/quickLinksCommand.ts:62 | the result is the first link with that name, and nothing is found exactly when no link has it |
| QuickLinks.Run | src/commands/quickLinksCommand.ts:61-65 | a reply exactly when the name is one of the table's, and then the response of a link of that name (which one, in `QuickLinks.RunSendsTheNamedLink`) |
| QuickLinks.HelpLines | src/commands/quickLinksCommand.ts:55-58 | one "Use **prefix+name** to help." line per link, in table order |
| QuickLinks.HelpSplitsIntoLines | src/commands/quickLinksCommand.ts:55-59 | for a prefix without a newline, splitting the help text at its newlines gives back exactly one line per link, in order |
| QuickLinks.TableSingleLine | src/commands/quickLinksCommand.ts:15-49 | no name or help text of the table contains a newline |
| QuickLinks.RunSendsTheNamedLink | src/commands/quickLinksCommand.ts:61-65 | a reply is sent exactly when the name is in the table, and it is that link's response; any other name fails the assertion |
| CommandParser.SpaceRun | src/models/commandParser.ts:37 | the length of the maximal run of spaces at the start of the text: all spaces, and the next character is not one |
| CommandParser.RemoveSpaces | src/models/commandParser.ts:37 | the text with its spaces dropped contains no space |
| CommandParser.SplitSpacesNoSpace | src/models/commandParser.ts:37 | no piece of `split(/ +/g)` contains a space |
| CommandParser.SplitSpacesConcat | src/models/commandParser.ts:37 | the pieces, put back together, are the text without its spaces, in order; joined with single spaces they are the text with each run of spaces squeezed to one space, so the cuts fall exactly at the runs of spaces |
| CommandParser.SplitSpacesUnique | src/models/commandParser.ts:37 | the split is the only list of space-free pieces that, joined with single spaces, gives the squeezed text |
| CommandParser.SplitSpacesNonEmpty | src/models/commandParser.ts:37 | a non-empty text that neither starts nor ends with a space splits into non-empty pieces |
| CommandParser.TrimmedPieces | src/models/commandParser.ts:36-37 | the pieces of a trimmed text are words without spaces, and none is empty unless the text is |
| CommandParser.Parse | src/models/commandParser.ts:30-42 | the command name has no upper-case letter and is a space-free first word lower-cased, and that word followed by the arguments, joined with single spaces, is the text after the prefix and mentions, trimmed, with its space runs squeezed; every argument is a non-empty word without spaces; an empty text parses to an empty name and no arguments |
| CommandParser.ParseKeepsWords | src/models/commandParser.ts:33-40 | the name (before lower-casing) followed by the arguments is the text without its spaces; and for every reading of the squeezed text as space-free words, the name is the first word lower-cased and the arguments are the remaining words |
| CommandParser.ParseIgnoresPrefixText | src/models/commandParser.ts:34 | the prefix characters are dropped by length, never inspected: messages that agree after them parse alike |
| CommandParser.BaseEmbed | src/models/commandParser.ts:44-48 | the embed starts empty, with the footer "Query by " and the author's name |
| CommandParser.EmojiText | src/commands/prCommand.ts:59-60 | a missing emoji shows as "null" in a template literal, a present one as itself |
| PrCommand.MatchesOnlyFour | src/commands/prCommand.ts:15-22 | the command answers to exactly "pr", "prs", "pullrequest" and "pullrequests" |
| PrCommand.PrColor | src/commands/prCommand.ts:72-80 | grey exactly for drafts, purple exactly for merged non-drafts, green exactly for open ones that are neither, red for the rest |
| PrCommand.MergedDraftColors | src/commands/prCommand.ts:74-77 | a merged draft is grey here but purple in the slash-command embed, whose order of checks differs |
| PrCommand.EmbedFromPrShape | src/commands/prCommand.ts:63-114 | the description is at most 303 characters; a Labels field appears exactly when the pull request has labels; a Merged field appears exactly when it is merged with a merge date and a merger; the footer names the requester |
| PrCommand.Run | src/commands/prCommand.ts:28-61 | a refusal exactly when the one numeric argument is not found, or, otherwise, when the search or the re-fetch of its hit fails; it says "No matching PRs found" in the first case and "No matching pull requests found" in the second; every embed names the requester (precedence in `PrCommand.NumberIsNotSearched` and `PrCommand.SearchUnlessOneArgument`) |
| PrCommand.NumberIsNotSearched | src/commands/prCommand.ts:31-47 | a single numeric argument is looked up by number and the search is never consulted; a miss answers "No matching PRs found" |
| PrCommand.SearchUnlessOneArgument | src/commands/prCommand.ts:50-60 | with any other number of arguments `Number()` is not consulted; the arguments joined with "+" are searched, and a hit that can be fetched is shown as its embed |
| PrCommand.MissingEmojiPrintsNull | src/commands/prCommand.ts:40-41 | without the sadcaret emoji the refusal ends in the text "null" |
| IssueCommand.IssueColor | src/commands/issueCommand.ts:54 | green exactly when the issue is open, red exactly when it is not |
| IssueCommand.EmbedFromIssueShape | src/commands/issueCommand.ts:45-87 | the description is at most 303 characters; a Labels field appears exactly when the joined label names are not empty; a Closed field appears exactly when there is both a closing date and a closer |
| IssueCommand.Query | src/commands/issueCommand.ts:35 | the search text is the arguments joined with "+", cut to its first 256 characters, and untouched when it is no longer |
| IssueCommand.Run | src/commands/issueCommand.ts:22-44 | the refusal "No matching issues found" with the emoji exactly when neither the number lookup nor the search finds an issue; every embed names the requester in its footer (precedence in `IssueCommand.NumberWins` and `IssueCommand.MissFallsThrough`) |
| IssueCommand.MissFallsThrough | src/commands/issueCommand.ts:24-42 | a numeric first argument whose lookup misses leads to the same search as a non-numeric one |
| IssueCommand.NumberWins | src/commands/issueCommand.ts:26-32 | a hit by number is sent and the search is not consulted, however many arguments follow |
| IssueEmbed.ShortDescription | src/util/embedFromIssueOrPull.ts:51-54 | a missing body gives ""; a body of at most 300 characters is kept; a longer one keeps its first 300 characters followed by "..." (303 in all) |
| IssueEmbed.CutDescription | src/util/embedFromIssueOrPull.ts:118-121 | the description assigned and then cut in place is the short description |
| IssueEmbed.NonEmpty | src/util/embedFromIssueOrPull.ts:62 | `description \|\| null` is null exactly for the empty description |
| IssueEmbed.RepositoryOfApiUrl | src/util/embedFromIssueOrPull.ts:30-34 | for an address ending in `/{owner}/{name}`, the owner and name come back |
| IssueEmbed.RepositoryOfPlainText | src/util/embedFromIssueOrPull.ts:30-34 | a URL without '/' gives no owner, and the whole text as the name |
| IssueEmbed.AuthorOf | src/util/embedFromIssueOrPull.ts:103-109 | an author appears exactly when there is a user, and is named "@" and the login |
| IssueEmbed.IssueLabelNames | src/util/embedFromIssueOrPull.ts:82-84 | a name is listed exactly when some label has it (a plain label being its own name); when every label has a name, the list is those names, one per label, in order |
| IssueEmbed.IssueLabelNamesAppend | src/util/embedFromIssueOrPull.ts:82-84 | the names keep the order of the labels: the names of two runs of labels are those of the first run, then those of the second |
| IssueEmbed.IssueEmbedLook | src/util/embedFromIssueOrPull.ts:56-80 | an open issue is green; any other issue is shown in the merged purple, not the closed red; the State field reads "Open" or "Closed"; the description is at most 303 characters |
| IssueEmbed.IssueEmbedShape | src/util/embedFromIssueOrPull.ts:63-101 | the fields start Type, Created, Comments, State; Labels appears exactly when the joined names are not empty; Closed appears exactly when `closed_at` is set |
| IssueEmbed.PullStates | src/util/embedFromIssueOrPull.ts:123-142 | "Draft" comes first exactly for a draft, followed by exactly one of Merged, Closed and Open, in that priority |
| IssueEmbed.PullColor | src/util/embedFromIssueOrPull.ts:125-142 | purple exactly when merged, red exactly when closed and not merged, grey for an open draft, green for any other open pull request |
| IssueEmbed.StateAndColor | src/util/embedFromIssueOrPull.ts:123-142 | the list pushed to and the colour assigned branch by branch are the state list and colour above |
| IssueEmbed.EmbedFromPull | src/util/embedFromIssueOrPull.ts:114-207 | the embed built step by step is the pull request embed |
| IssueEmbed.PullEmbedFields | src/util/embedFromIssueOrPull.ts:149-196 | the fields start Type, Created, Commits, Comments, State; Labels appears exactly when the label array is not empty; Merged appears exactly when `merged`, `merged_at` and `merged_by` are all set |
| IssueEmbed.PullStateText | src/util/embedFromIssueOrPull.ts:170 | the State field reads "Draft and " before the one state for a draft, and the state alone otherwise |
| IssueEmbed.PullUnnamedLabels | src/util/embedFromIssueOrPull.ts:175-186 | labels that have no names still add a Labels field, with an empty value |
| IssueEmbed.PullLabelNames | src/util/embedFromIssueOrPull.ts:175-178 | a name is listed exactly when some label has it, and when every label is named the names are the labels' names, one per label, in order |
| IssueEmbed.PullLabelNamesAppend | src/util/embedFromIssueOrPull.ts:175-178 | the names keep the order of the labels |
| IssueEmbed.EmbedFor | src/util/embedFromIssueOrPull.ts:20-43 | there is an embed exactly when there is an item |
| IssueEmbed.DispatchByKind | src/util/embedFromIssueOrPull.ts:36-42 | an item flagged as a pull request is shown as one when the lookup by its number succeeds (the lookup always asks SerenityOS/serenity, whatever the item's repository, as `getPull` at src/apis/githubAPI.ts:71-76 does); otherwise it is shown as an issue |
| IssueEmbed.NoMatchingFound | src/util/embedFromIssueOrPull.ts:209-218 | the refusal names no matching issues or pull requests and ends with the sadcaret emoji, or ":^(" without it |
| Emoji.FindByName | src/util/emoji.ts:31 | a found emoji has the asked name and is in the guild's list; nothing is found exactly when no emoji has that name |
| Emoji.CachedWins | src/util/emoji.ts:20-21 | a cached name is answered from the cache and the guild is not consulted |
| Emoji.NoGuildMiss | src/util/emoji.ts:24 | without a guild id, a name that is not cached gives null and the cache is left as it was |
| Emoji.MissConsultsGuild | src/util/emoji.ts:26-37 | a name that is not cached is answered with the guild's first emoji of that name, which is cached exactly when it exists |
| Emoji.LookupKeepsCache | src/util/emoji.ts:12-38 | the cache only grows, by at most the asked name; no entry is overwritten; every entry stays under its own name; the answer is non-null exactly when the name is cached afterwards |
| Emoji.FoundIsStable | src/util/emoji.ts:20-21 | once found, an emoji stays the answer to its name, even when the guild changes or is gone |
| Emoji.EmojiCache.GetEmoji | src/util/emoji.ts:15-38 | the returned emoji and the new cache are the lookup's answer and cache |
| Emoji.EmojiCache.GetAlias | src/util/emoji.ts:40-133 | each alias function is the lookup of its fixed name |
| Emoji.AliasName | src/util/emoji.ts:40-133 | each alias name is non-empty and has no colon |
| Emoji.AliasNamesDistinct | src/util/emoji.ts:40-133 | no two alias functions look up the same name |
| Logging.Rank | src/util/logger.ts:13-22 | each level's number is at most 7 |
| Logging.LevelsInOrder | src/util/logger.ts:13-22 | the levels are numbered 0 to 7 in declaration order, so the number tells them apart |
| Logging.LevelOf | src/util/logger.ts:31 | a configured number names a level exactly when it is 0 to 7, and then it is that level's number |
| Logging.LevelNamesDistinct | src/util/logger.ts:190 | two levels have the same `LogLevel[level]` name exactly when they are the same level |
| Logging.LevelColorBySeverity | src/util/logger.ts:98-113 | red marks exactly Fatal, Trace and Error; Info and Debug share the default blue; Warn, Verbose and Silly each have a colour of their own |
| Logging.MakeCard | src/util/logger.ts:198-222 | a card carries its level's colour and the current time; its title is the level's name in capitals followed by " - SerenityOS/discord-bot"; its description is exactly the message inside a javascript code block |
| Logging.CardTitleNamesLevel | src/util/logger.ts:205 | two cards have the same title exactly when they are of the same level |
| Logging.Upper | src/util/logger.ts:205 | on ASCII text, as the level names it is applied to are, `toUpperCase` keeps the length, upper-cases each lower-case letter and changes no other character |
| Logging.LowerOfUpper | src/util/logger.ts:205 | upper-casing only changes the case of letters: lower-casing the result gives the lower-cased text |
| Logging.InsertByTime | src/util/logger.ts:45 | inserting a card into a time-ordered queue keeps it ordered and adds exactly that card |
| Logging.SortByTime | src/util/logger.ts:44-45 | the queue sorted by timestamp is ordered oldest first and holds the same cards |
| Logging.Logger.constructor | src/util/logger.ts:23-31 | a new logger is not running, has an empty queue, no channel, the configured level and has sent nothing |
| Logging.Logger.SetChannel | src/util/logger.ts:81-88 | only whether a log channel is known changes |
| Logging.Logger.SetLevel | src/util/logger.ts:90-92 | only the level changes |
| Logging.Logger.Start | src/util/logger.ts:36-49 | the logger runs afterwards; with a channel the queue goes out oldest first and is emptied; without one the first send throws, so the sorted queue stays and nothing is sent |
| Logging.Logger.HandleLogMessage | src/util/logger.ts:196-229 | the queue and the sent cards change exactly as the gate says; nothing else changes |
| Logging.GateOutcome | src/util/logger.ts:196-229 | a message above the level is dropped; before `start` every other card is queued, with or without a channel; after `start` it is sent exactly when there is a channel and the queue is untouched |
| LogCommand.LevelChoices | src/commands/logCommand.ts:32-39 | one choice per level, without the enum's numeric keys |
| LogCommand.ChoiceOfLevel | src/commands/logCommand.ts:32-39 | every level has a choice of its name, and any choice of that name sends a number the logger reads back as the same level |
| LogCommand.OnlyPrivilegedSet | src/commands/logCommand.ts:50-95 | only a privileged member's `set` changes the level, and then to the level asked for; a reply is ephemeral exactly when it refuses (not on the server, no permission, unknown subcommand) |
| LogCommand.GetMarksModified | src/commands/logCommand.ts:64-72 | the `get` reply ends in " (modified)**!" exactly when the level differs from the configured one |
| LogCommand.SetNamesBoth | src/commands/logCommand.ts:82-84 | the `set` reply names the previous level first and the new level last |
| LogCommand.HandleCommand | src/commands/logCommand.ts:50-95 | the reply and the logger's new level are those of the specification above; nothing else of the logger changes |
| Index.ReactionMode | src/index.ts:63-68 | the minimize emoji asks to collapse; otherwise the maximize emoji asks to expand; any other emoji asks for nothing |
| Index.Guarded | src/index.ts:63-76 | a mode comes through only when the emoji is one of the two, the user is not the bot, the message is the bot's and it carries exactly one embed |
| Index.ReactionAsWritten | src/index.ts:56-91 | the message is edited only after the guards pass, and the user's reaction is removed exactly outside direct messages |
| Index.ReactionOnManEmbedIsDead | src/index.ts:78-82 | the embed of a man page has the man.serenityos.org address as its URL, which the GitHub pattern rejects, so a reaction on it never changes anything |
| Index.ReactionCorrected | src/index.ts:56-91 | with the page located from the GitHub address in the description, the message is still edited only after the guards pass, and the reaction is removed exactly outside direct messages |
| Index.ReactionCorrectedToggles | src/index.ts:63-89 | a minimize or maximize reaction by anyone but the bot, on the bot's embed of a page, renders that page again in the mode the emoji names |
| Index.AnyUserMayReact | src/index.ts:72 | reactions have no requester check: every user other than the bot gets the same outcome |
| CommandHandler.Names | src/commandHandler.ts:62 | the names of a command's data entries, one per entry and in order |
| CommandHandler.HelpLinesExactly | src/commandHandler.ts:58-60 | a line is in the help exactly when it is `**name** - description` of a data entry, with no type or type CHAT_INPUT, of a registered command |
| CommandHandler.HelpLinesOfExactly | src/commandHandler.ts:58-60 | the same for the data entries of one command |
| CommandHandler.Registry | src/commandHandler.ts:51-64 | one entry per command class, in order, keyed by the names of its data entries |
| CommandHandler.CommandHandler.constructor | src/commandHandler.ts:35-67 | the registry holds one entry per command class, in order, with its names, and the help text is "Available commands:" followed by the listed lines |
| CommandHandler.LastMatchIsLast | src/commandHandler.ts:100-109 | a command is matched exactly when some entry has a name whose lower-case form is the incoming name, and then it is the command of the last such entry: `break` leaves only the inner loop |
| CommandHandler.UpperCaseNeverMatches | src/commandHandler.ts:104 | an incoming name with an upper-case letter never matches, since only the registered names are lower-cased |
| CommandHandler.CommandHandler.MatchCommand | src/commandHandler.ts:100-109 | the nested loop finds a command exactly when an entry matches, and then the last matching entry's command |
| CommandHandler.CallInteractionHandler | src/commandHandler.ts:181-190 | the handler is called first; a rejection is logged with `trace` and answered with an ephemeral "Failed because of" reply, and is not thrown again |
| CommandHandler.GuardReplies | src/commandHandler.ts:186-189 | a failing handler is answered by exactly one reply from the guard, a succeeding one by none |
| CommandHandler.HelpIsIntercepted | src/commandHandler.ts:93-98 | `help` is answered with the help text before any lookup, whatever is registered |
| CommandHandler.UnmatchedNameIsRejected | src/commandHandler.ts:111-115 | a name no entry matches gets the ephemeral "I don't recognize that command." and no handler runs |
| CommandHandler.CommandHandler.HandleBaseCommandInteraction | src/commandHandler.ts:92-135 | the effects are those of the specification: help, refusal, a logged call of `handleCommand` for chat input, a call of `handleContextMenu` when the command has one; it never throws |
| CommandHandler.CommandHandler.HandleSelectInteraction | src/commandHandler.ts:137-162 | the lookup uses the name of the command that produced the message; without one the reply is the refusal; `handleSelectMenu` is called when the command has it |
| CommandHandler.FirstButtonOwner | src/commandHandler.ts:165-178 | the first command in registry order whose `buttonData` lists the custom id, found exactly when one lists it |
| CommandHandler.CommandHandler.HandleButtonInteraction | src/commandHandler.ts:164-179 | the first claiming command's `handleButton` is called, a claiming command without one throws, and a custom id nobody claims does nothing |
| CommandHandler.RegisteredCommandList | src/commandHandler.ts:70-78 | the list is the data entries of the registered commands, command after command, followed by the built-in `help`; everything in it but `help` belongs to a registered command |
| CommandHandler.RegistrationTargets | src/commandHandler.ts:80-88 | the list is installed on the application exactly when the client has one, and on the development guild exactly outside production with a guild id |
| Index.OnInteraction | src/index.ts:51-55 | every interaction other than a chat-input command is dropped with no effect |
| Index.ChatInputReachesCommand | src/index.ts:51-55 | a chat-input `help` is answered with the help text; any other chat-input command reaches the `handleCommand` of the last registered command with its name, after the log line naming the user and the command |
| Index.OnlyHandleCommandIsCalled | src/index.ts:51-55 | through the listener only `handleCommand` is ever called: buttons, select menus and context menus never reach their handlers |
| UserCommand.IssueOption | src/commands/userCommand.ts:75-79 | an issue option's label fits the trim limit, its value is the issue number in decimal and its emoji is the closed emoji exactly for a closed issue |
| UserCommand.PullOption | src/commands/userCommand.ts:91-104 | a pull request option's label fits the trim limit and its value is the number in decimal |
| UserCommand.PullEmojiCases | src/commands/userCommand.ts:92-98 | merged wins when `merged_at` is set and also when the `pull_request` object is missing (`undefined !== null`); otherwise closed or open by state |
| UserCommand.IssueMenu | src/commands/userCommand.ts:68-82 | one option per issue, in order |
| UserCommand.PullMenu | src/commands/userCommand.ts:84-107 | one option per pull request, in order |
| UserCommand.Handle | src/commands/userCommand.ts:44-120 | the refusal exactly when the request failed or found nothing, with the no-match text; otherwise the prompt naming the user with one or two menus (their order in `UserCommand.HandleShape`) |
| UserCommand.HandleShape | src/commands/userCommand.ts:54-119 | the refusal comes exactly when the request failed or found nothing; otherwise the issue menu first and the pull request menu last, each present exactly when it has items, under an open-coloured title |
| UserCommand.SelectRoundTrip | src/commands/userCommand.ts:122-127 | picking any option of either menu fetches exactly the item it was built from |
| TestCommand.Get | src/commands/testCommand.ts:253 | an object lookup finds a value exactly when some entry has the key, and the value is that of such an entry |
| TestCommand.At | src/commands/testCommand.ts:84-85 | an array read is defined exactly inside the bounds and is then the element |
| TestCommand.FirstMatchFrom | src/commands/testCommand.ts:108-117 | the first run from a position whose serenity version starts with the commit, with no match before it; none exactly when no later run matches |
| TestCommand.SelectResult | src/commands/testCommand.ts:84-85 | the loop's choice of run and previous run is that of the selection function |
| TestCommand.SelectMeaning | src/commands/testCommand.ts:103-136 | without a commit the last run is compared with the one before; with one, the first matching run is shown with its predecessor, and "Not found" comes exactly when no run matches |
| TestCommand.IconAlias | src/commands/testCommand.ts:161-180 | the emoji of each known label stands for that label and no other |
| TestCommand.IconTable | src/commands/testCommand.ts:157-184 | "total" is the test tube; a known label shows its emoji when the guild has it and its own name otherwise; an unknown label shows itself; different labels never share an emoji |
| TestCommand.DiffTextRoundTrip | src/commands/testCommand.ts:266 | the difference text reads back as the difference and starts with '+' exactly when it is positive |
| TestCommand.LabelEntryTail | src/commands/testCommand.ts:256-271 | an entry ends with the parenthesised difference exactly when the value changed |
| TestCommand.LabelEntryIcon | src/commands/testCommand.ts:254-263 | only a grown total takes the makemore icon, when the guild has it; every other entry starts with the label's icon |
| TestCommand.DroppedExactly | src/commands/testCommand.ts:274-282 | an entry is appended for exactly the labels of the previous run that the current one lacks |
| TestCommand.DisappearedExactly | src/commands/testCommand.ts:274-282 | every label that disappeared gets a "0 (-value)" entry and every such entry belongs to one |
| TestCommand.LabelEntries | src/commands/testCommand.ts:252-272 | one entry per current label, in order, compared with the previous value or 0 |
| TestCommand.NoPreviousRun | src/commands/testCommand.ts:253-274 | without a previous run every value is compared with 0 and nothing is appended for disappeared labels |
| TestCommand.FormatEntry | src/commands/testCommand.ts:253-271 | the entry one turn of the loop pushes is the label's entry |
| TestCommand.FormatLabels | src/commands/testCommand.ts:252-272 | the loop pushes exactly the label entries |
| TestCommand.AppendDisappeared | src/commands/testCommand.ts:274-282 | the loop appends exactly the disappeared-label entries |
| TestCommand.BuildEntries | src/commands/testCommand.ts:252-282 | the fields of one test are its label entries followed by the disappeared ones when there is a previous test |
| TestCommand.VersionLineShape | src/commands/testCommand.ts:206-215 | exactly the four known repositories get a tree link, and the shown hash is the first seven characters of the full one |
| TestCommand.DescriptionLines | src/commands/testCommand.ts:206-216 | the description splits back into one line per versions entry, in order |
| TestCommand.VersionLines | src/commands/testCommand.ts:206-215 | one line per versions entry |
| TestCommand.ResultFields | src/commands/testCommand.ts:229-302 | one field per test of the run |
| TestCommand.BuildFields | src/commands/testCommand.ts:229-302 | the loop builds one field per test, in order, each named by the test and holding its entries |
| TestCommand.EmbedForResultShape | src/commands/testCommand.ts:218-227 | the title is the first line of the commit message and the report has one field per test, named in order |
| TestCommand.HandleCases | src/commands/testCommand.ts:87-136 | the label list ignores the commit option, and "Not found" comes exactly when a commit is given, the label list is not asked for and no run matches |
| TestCommand.NotFoundText | src/commands/testCommand.ts:119-134 | the refusal names the variant and quotes the commit asked for |
| TestCommand.Handle | src/commands/testCommand.ts:78-148 | the label list exactly when it is asked for and the last run has a test; the handler throws exactly when there is no run to read (or, for the label list, the last run has no test); "Not found" only for a given commit (exactly when, in `TestCommand.HandleCases`) |
| Test262Command.Icons262 | src/commands/test262Command.ts:149-174 | the icon function handed to the shared formatting is the older icon table at every label |
| Test262Command.IconTablesDiffer | src/commands/test262Command.ts:149-174 | the older table agrees with the variant command's except that "failed" is always the bison and "percentage_passing" is shown as its name |
| Test262Command.NotFoundNamesTest262 | src/commands/test262Command.ts:117-131 | the refusal names test262 and quotes the commit asked for |
| Test262Command.TotalKeepsTestTube | src/commands/test262Command.ts:239-246 | a grown total keeps the test tube, since this command has no makemore icon |
| Test262Command.Handle262 | src/commands/test262Command.ts:76-140 | the label list exactly when it is asked for and the last run has a test, and a throw exactly when there is no run to read, as for the test command (the refusal text in `Test262Command.NotFoundNamesTest262`) |
| QuoteCommand.Help | src/commands/quoteCommand.ts:23-25 | the command contributes nothing to the help text |
| QuoteCommand.HostEnd | src/commands/quoteCommand.ts:16 | the host part of the link pattern ends after the scheme, an optional `ptb.` or `canary.` and the channels path |
| QuoteCommand.IdThenSlashSound | src/commands/quoteCommand.ts:16 | what the pattern reads before a slash is an id of 17 or 18 digits, and a slash follows it |
| QuoteCommand.LastIdSound | src/commands/quoteCommand.ts:16 | the last id is 17 or 18 digits, cut at 18 or where the digits end |
| QuoteCommand.LinkBounds | src/commands/quoteCommand.ts:16 | a match at a position is the host part followed by the three ids in order |
| QuoteCommand.LinkAtIds | src/commands/quoteCommand.ts:16 | each group of a match is an id of 17 or 18 digits |
| QuoteCommand.FirstLink | src/commands/quoteCommand.ts:78 | the leftmost match: found exactly when the pattern matches somewhere, and it is a match at some position |
| QuoteCommand.LinkRoundTrip | src/commands/quoteCommand.ts:16 | a message link with any of the three hosts, followed by the end of the text or a non-digit, yields exactly its guild, channel and message ids |
| QuoteCommand.LinkAtSound | src/commands/quoteCommand.ts:16 | conversely, a match is a link text with one of the three hosts, and its groups are the ids written there |
| QuoteCommand.HostEndSound | src/commands/quoteCommand.ts:16 | the host part read is the scheme, one of the three hosts and the channels path |
| QuoteCommand.ReferencePrecedence | src/commands/quoteCommand.ts:67-99 | a replied-to message wins over the arguments; otherwise anything but exactly one argument names nothing, and a link is read without consulting the channel |
| QuoteCommand.FortuneList.constructor | src/commands/quoteCommand.ts:43 | the list holds the fetched fortunes |
| QuoteCommand.FortuneList.Push | src/commands/quoteCommand.ts:44-50 | the new fortune goes after all the existing ones |
| QuoteCommand.MessageReference | src/commands/quoteCommand.ts:67-99 | a replied-to message is the reference; without one, a reference needs exactly one argument, and a link argument gives the linked message id (the rest in `QuoteCommand.ReferencePrecedence`) |
| QuoteCommand.Run | src/commands/quoteCommand.ts:27-65 | something is submitted and replied exactly when the quote role is configured and held and the message is found; the pull request receives the fetched fortunes unchanged and in order followed by the quoted message, its author's nickname, its url and the time in whole seconds; the reply reports the pull request number or the failure |
| BrainYak.KeyFrom | src/commands/brainYakCommand.ts:67-72 | the first table key from a position that starts the text; none exactly when no later key does |
| BrainYak.NextToken | src/commands/brainYakCommand.ts:65-76 | the text left is a suffix of the text, shorter when a token was read; a token read is one of the eight symbols, and no token means the text was used up |
| BrainYak.ParseToken | src/commands/brainYakCommand.ts:78-111 | parsing never grows the text; every symbol yields an instruction or an error; no token yields End without consuming anything |
| BrainYak.ParseBody | src/commands/brainYakCommand.ts:88-101 | the children of a `:yakbrain:` parse to a loop and consume text |
| BrainYak.KeysDiffer | src/commands/brainYakCommand.ts:38-47 | any two keys of the table differ in their fifth or sixth character, so no key starts another and the order of the table does not decide a token |
| BrainYak.TokenizeKey | src/commands/brainYakCommand.ts:65-76 | a text starting with a key yields that key's symbol and the text after the key |
| BrainYak.TokenizeSkips | src/commands/brainYakCommand.ts:73 | text holding no `:` is skipped one character at a time without yielding a token |
| BrainYak.ParseEmit | src/commands/brainYakCommand.ts:78-111 | the text of any instruction tokenizes and parses back to that instruction, leaving what followed it |
| BrainYak.ParseBodyEmit | src/commands/brainYakCommand.ts:88-101 | the written-out children of a loop followed by `:yaktangle:` parse to the loop |
| BrainYak.ParseAllEmit | src/commands/brainYakCommand.ts:113-121 | parsing a written-out program reads it back and continues with what follows it |
| BrainYak.ParseOfEmit | src/commands/brainYakCommand.ts:113-121 | round trip: every written-out program parses to itself with nothing left |
| BrainYak.UnclosedLoop | src/commands/brainYakCommand.ts:93-95 | a `:yakbrain:` whose `:yaktangle:` never comes is the "Unmatched ':yakbrain:'" error |
| BrainYak.StrayTangle | src/commands/brainYakCommand.ts:102-103 | a program followed by a stray `:yaktangle:` is the "Unmatched ':yaktangle:'" error |
| BrainYak.StrayBrain | src/commands/brainYakCommand.ts:92-95 | a program followed by an unclosed `:yakbrain:` is the "Unmatched ':yakbrain:'" error |
| BrainYak.ToInt8 | src/commands/brainYakCommand.ts:134-137 | a stored cell value is in -128..127 and congruent to the value modulo 256, and unchanged when already in range |
| BrainYak.CellChar | src/commands/brainYakCommand.ts:161 | the output character of a cell is its value modulo 2^16 |
| BrainYak.Basic | src/commands/brainYakCommand.ts:133-175 | `+` and `-` change only the current cell, by one modulo 256; `>` and `<` move one cell and fail exactly at the right and left edge; `.` appends the current cell's character to the output; `,` stores a newline when the input is used up, fails exactly on a character above 127, and otherwise stores that character's code and consumes it; the tape stays well formed |
| BrainYak.Run | src/commands/brainYakCommand.ts:129-176 | every instruction first spends one time check, so a run out of checks stops with the time error and a running one leaves fewer checks |
| BrainYak.RunSeq | src/commands/brainYakCommand.ts:153-155 | the children run in order and never add checks |
| BrainYak.RunLoop | src/commands/brainYakCommand.ts:152-158 | a loop ends only when the current cell is zero |
| BrainYak.LoopSkippedOnZero | src/commands/brainYakCommand.ts:151-152 | a loop whose cell is zero on entry only spends its check |
| BrainYak.CellsWrap | src/commands/brainYakCommand.ts:134-137 | increment and decrement wrap around within -128..127 |
| BrainYak.SyntaxErrorBeforeOutput | src/commands/brainYakCommand.ts:178-186 | the whole text is parsed before anything runs, so a program followed by a stray `:yaktangle:` prints nothing |
| BrainYak.Interpreter.constructor | src/commands/brainYakCommand.ts:48-63 | a fresh interpreter holds the code and the input on a zeroed tape at cell 0 with no output |
| BrainYak.Interpreter.Tokenize | src/commands/brainYakCommand.ts:65-76 | the loop consumes the text exactly as the tokenizer function does and changes nothing else |
| BrainYak.Interpreter.ParseInstruction | src/commands/brainYakCommand.ts:78-111 | the method parses as the parsing function does, an error being the message thrown |
| BrainYak.Interpreter.ParseLoop | src/commands/brainYakCommand.ts:88-101 | the `[` case parses the children as the loop-body function does |
| BrainYak.Interpreter.Parse | src/commands/brainYakCommand.ts:113-121 | the method collects the instructions up to End as the program parser does |
| BrainYak.Interpreter.InterpretInstruction | src/commands/brainYakCommand.ts:129-176 | the tape array is updated in place as the instruction semantics prescribe, or the error thrown is the semantics' error |
| BrainYak.Interpreter.InterpretBasic | src/commands/brainYakCommand.ts:133-175 | the same for the instructions other than a loop |
| BrainYak.Interpreter.InterpretLoop | src/commands/brainYakCommand.ts:152-158 | the `while` runs the children while the cell is non-zero, as the loop semantics prescribe |
| BrainYak.Interpreter.InterpretChildren | src/commands/brainYakCommand.ts:153-155 | the children run in order, stopping at the first error |
| BrainYak.Interpreter.Interpret | src/commands/brainYakCommand.ts:178-187 | the result is that of parsing the whole text and running it on a zeroed tape |
| BrainYak.CommandReply | src/commands/brainYakCommand.ts:235-249 | without code the reply is the help text |
| BrainYak.RunCommand | src/commands/brainYakCommand.ts:232-254 | the reply is the help without code, otherwise the output in a code block or the no-output banner, or the error thrown |
| BrainYak.OutputIsFenced | src/commands/brainYakCommand.ts:244-248 | a program that runs is answered with its output fenced, or with the banner when it prints nothing |
| Man.CleanLine | src/commands/manCommand.ts:164 | a code fence line loses every `*` and keeps every other character as often as it occurs; any other line is kept as it is |
| Man.ScanMarkdown | src/commands/manCommand.ts:139-169 | the loop over the lines leaves the paragraphs, the open paragraph, the truncation flag and the name that the scan function computes with the source's reserve of 4 |
| Man.FieldsOf | src/commands/manCommand.ts:183-188 | every field is the title and content of a shown paragraph, and every shown paragraph gives its field |
| Man.FieldsOfAppend | src/commands/manCommand.ts:183-188 | the fields keep the order of the paragraphs: the fields of two runs of paragraphs are those of the first run, then those of the second |
| Man.CollectFields | src/commands/manCommand.ts:183-188 | the loop adds exactly the fields of the shown paragraphs, in order |
| Man.EmbedForMan | src/commands/manCommand.ts:132-201 | the embed built as the source does is the embed function's with the reserve of 4 as written |
| Man.ScanLineBounded | src/commands/manCommand.ts:158-167 | one line keeps the scan's bounds: an open paragraph still taking lines leaves room for the reserve, no content passes the budget by more than the marker adds, and the name has no line break |
| Man.ScanBounded | src/commands/manCommand.ts:145-169 | the whole scan keeps those bounds |
| Man.FieldsWithin | src/commands/manCommand.ts:159-188 | every field value exceeds its budget by at most 5 minus the reserve, and the name shown has no line break |
| Man.FieldsFit | src/commands/manCommand.ts:159 | with a reserve of 5 every field fits its budget, and so Discord's 1024-character field limit |
| Man.FieldOverflowAsWritten | src/commands/manCommand.ts:159-162 | as written, an Options section with a 1020-character line and one more line gives an expanded field of 1025 characters, over Discord's limit |
| Man.OpenSectionNotShown | src/commands/manCommand.ts:145-169 | lines after the last heading reach neither the fields nor the description: the paragraph still open at the end is dropped |
| Man.Views | src/commands/manCommand.ts:184-198 | the collapsed view shows only Description fields and the expand invitation; the expanded view has a footer exactly when some paragraph was cut short, and it reads the fixed prefix followed by the cut paragraphs' titles joined with ", " |
| Man.TruncatedTitlesExactly | src/commands/manCommand.ts:192-195 | a title is listed in the footer exactly when some paragraph with that non-empty title was cut short |
| Man.CloseRun | src/commands/manCommand.ts:99 | the run of non-`)` characters at the start, stopped by a `)` when one follows |
| Man.ParenGroupOf | src/commands/manCommand.ts:99 | text without `(`, then a parenthesised group without `)`, yields that group |
| Man.LocatorFindsGithubUrl | src/commands/manCommand.ts:99 | with a name free of `(` and an address free of `)`, the pattern finds the GitHub address in the description |
| Man.LocatorMisledByName | src/commands/manCommand.ts:99 | a name with parentheses misleads the pattern to the text inside them |
| Man.Buttons | src/commands/manCommand.ts:112-130 | two buttons whose ids are exactly the command's button data, Maximize first |
| Man.ManCommandReplyShape | src/commands/manCommand.ts:54-76 | the not-found reply comes exactly when the page cannot be fetched; otherwise the collapsed embed titled `page(section)` with the site address, only Description fields, each at most 513 characters (one over the 512 budget, as the reserve of 4 allows), and both buttons |
| Man.ManCommandReply | src/commands/manCommand.ts:54-76 | the not-found reply exactly when the page cannot be fetched, otherwise an embed with two buttons (its title, address and field bounds in `Man.ManCommandReplyShape`) |
| Man.ButtonUpdate | src/commands/manCommand.ts:78-110 | the embed is only updated for a press in a channel by the user who ran the command, on a message with exactly one embed |
| Man.EmbedLocatesPage | src/commands/manCommand.ts:171-179 | whatever reserve the length test uses, the description of a page's embed is not empty and its parenthesised group is the page's GitHub address |
| Man.ToggleKeepsPage | src/commands/manCommand.ts:78-110 | a button pressed by the command's user under a page's embed renders that same page again, as the source renders it, collapsed for Minimize and expanded otherwise |
| Man.CommandThenMaximize | src/commands/manCommand.ts:54-110 | after `/man` with a one-digit section and a plain page name, the Maximize button shows the same page expanded, both rendered as the source renders them |
| GithubApi.FetchManpage | src/apis/githubAPI.ts:113-129 | a page is returned exactly when the request succeeded, with the section and page asked for, the GitHub address of its path and the decoded content |
| GithubApi.WordSlashRun | src/apis/githubAPI.ts:102 | the longest run of `[\w/]` characters at the start: all of it matches and the next character does not |
| GithubApi.LastManDirFrom | src/apis/githubAPI.ts:102 | the last `/man<digit>/` at or before a position, none exactly when there is none: the greedy second group backtracks to it |
| GithubApi.LastSplitFrom | src/apis/githubAPI.ts:102 | the last place group 1 may end, none exactly when there is none |
| GithubApi.GroupsAt | src/apis/githubAPI.ts:102 | the four groups of a match put back together give the matched run, and the section is one digit |
| GithubApi.MatchFrom | src/apis/githubAPI.ts:103 | the match at the leftmost start where the pattern matches, none exactly when it matches nowhere |
| GithubApi.LocateManPage | src/apis/githubAPI.ts:100-110 | a section and page come back only from a match in the bot's repository and man folder, and never without a match |
| GithubApi.FetchManpageByUrl | src/apis/githubAPI.ts:100-110 | an address that names no page of the repository's man folder fetches nothing |
| GithubApi.ManPageUrlRoundTrip | src/apis/githubAPI.ts:100-121 | reading back the GitHub address of a man page gives its section and page, for a one-digit section and a plain page name |
| GithubApi.FetchByPageUrl | src/apis/githubAPI.ts:100-129 | fetching by a page's own address asks for that page |
| GithubApi.ManPageUrlNestedFolder | src/apis/githubAPI.ts:102-107 | a page whose name contains a man folder is misread and rejected, since the greedy second group swallows it |
| GithubApi.NoGithubAddress | src/apis/githubAPI.ts:102 | text whose only colon follows `https` and whose host does not start with `g` never matches |
| GithubApi.ManSiteUrlNeverMatches | src/apis/githubAPI.ts:102 | the man.serenityos.org address of a page never matches the GitHub pattern |
| GithubApi.SearchQuery | src/apis/githubAPI.ts:44-47 | the query comes first, followed by `+repo:` and the repository |
| GithubApi.FirstItem | src/apis/githubAPI.ts:55 | the first result, undefined exactly when the search found nothing |
| GithubApi.Recover | src/apis/githubAPI.ts:58-98 | a lookup gives a value exactly when the request succeeded, and then its data |
| GithubApi.FortunesPull | src/apis/githubAPI.ts:138-163 | the pull request goes to the bot's repository, writes the serialised fortunes and a newline to the fortunes file, on a branch `add-quote-` followed by the time in whole seconds |
| GithubCommand.SpelledOccurs | src/commands/githubCommand.ts:17 | a literal part of the pattern matches character by character exactly when it occurs there |
| GithubCommand.DigitsStart | src/commands/githubCommand.ts:17 | the address part `github.com/SerenityOS/serenity/(issues\|pull)/` matches at a position only where "github" occurs, and the number then starts at a digit |
| GithubCommand.LineEnd | src/commands/githubCommand.ts:17 | `.` stops at the first line terminator after the start |
| GithubCommand.LastHit | src/commands/githubCommand.ts:17 | the greedy `.+` backs off to the last position with an address, none exactly when there is none |
| GithubCommand.MatchFrom | src/commands/githubCommand.ts:17 | a captured group is one or more digits |
| GithubCommand.UrlDigits | src/commands/githubCommand.ts:72-73 | the capture of `url.match(URL_REGEX)` is one or more digits |
| GithubCommand.MatchFromExists | src/commands/githubCommand.ts:17 | a match exists from a position exactly when an address occurs after it with a character of its own line in front |
| GithubCommand.UrlMatches | src/commands/githubCommand.ts:71-72 | `URL_REGEX.test(url)` holds exactly when the address part occurs after some character of its own line |
| GithubCommand.LinkAtLineEnd | src/commands/githubCommand.ts:17 | a link at the end of a line is recognised and its whole number captured, whatever precedes it on that line: the last link of the line wins |
| GithubCommand.BareAddressIgnored | src/commands/githubCommand.ts:17 | an address with nothing in front of it is not recognised, since `.+` needs a character |
| GithubCommand.Precedence | src/commands/githubCommand.ts:60-93 | a number that is found wins, a link is used only when the number is absent or unknown, the query only when both fail, and the ephemeral refusal comes exactly when all three fail |
| GithubCommand.LinkShowsItem | src/commands/githubCommand.ts:71-77 | pasting the link of an item shows that item, whatever precedes the link on its line |
| GithubCommand.Handle | src/commands/githubCommand.ts:60-93 | the ephemeral no-match refusal exactly when the number, the link and the query all fail to give an item (which wins otherwise, in `GithubCommand.Precedence`) |
| GithubCommand.NumberOfLink | src/commands/githubCommand.ts:74-75 | the captured digits are read back with `parseInt` as the number looked up |
| CommitStats.InsertDesc | src/commands/commitStatsCommand.ts:89 | inserting into a list sorted by decreasing count keeps it sorted and adds exactly the new repository |
| CommitStats.SortByCount | src/commands/commitStatsCommand.ts:89 | the repositories sorted by decreasing count, a missing count taken as 0, as a permutation of the fetched ones |
| CommitStats.TotalNonNegative | src/commands/commitStatsCommand.ts:91-96 | with non-negative counts the total is non-negative, and zero only when every count is zero |
| CommitStats.TotalNonPositive | src/commands/commitStatsCommand.ts:91-96 | when no count is positive neither is the total |
| CommitStats.FirstLine | src/commands/commitStatsCommand.ts:120 | the first line of a commit message has no line break and begins the message |
| CommitStats.CommitLines | src/commands/commitStatsCommand.ts:117-122 | one line per commit, in order |
| CommitStats.Shown | src/commands/commitStatsCommand.ts:117 | the first three commits, or all of them when there are fewer |
| CommitStats.SectionLinesShape | src/commands/commitStatsCommand.ts:111-133 | a section has 2 to 5 lines: the header, the first three commits in order, the failure note when no commit loaded, and the view-all link last exactly when the count exceeds 3 |
| CommitStats.Section | src/commands/commitStatsCommand.ts:103-136 | a section exists exactly when the count is present and positive; it is the section's lines joined with line breaks, followed by an empty block |
| CommitStats.FormatSection | src/commands/commitStatsCommand.ts:103-136 | the section built as the source does is the section function's |
| CommitStats.ShownLines | src/commands/commitStatsCommand.ts:117-122 | the loop pushes one line for each of the first three commits |
| CommitStats.FormatSections | src/commands/commitStatsCommand.ts:144-146 | the loop collects the blocks of the sections that exist, in the sorted order |
| CommitStats.FoldConcat | src/commands/commitStatsCommand.ts:166-181 | the finished messages and the one being filled, concatenated, are the blocks so far, each followed by a line break |
| CommitStats.ChunksConcat | src/commands/commitStatsCommand.ts:166-182 | the split loses and reorders nothing: the messages concatenated are exactly the blocks with their line breaks |
| CommitStats.FoldBounded | src/commands/commitStatsCommand.ts:172-181 | for any blocks, every finished message and the one being filled are within 2000 characters or are one too-long block with its line break; an empty message is only ever the first, before a too-long first block; the message being filled is non-empty once a block was seen |
| CommitStats.ChunksBounded | src/commands/commitStatsCommand.ts:166-182 | for any blocks, every message sent is within Discord's 2000-character limit unless it is one block too long for any message, sent alone; an empty message is sent only first, before a too-long first block |
| CommitStats.ChunksFit | src/commands/commitStatsCommand.ts:166-182 | when every block fits with its line break, every message sent is non-empty and within the limit |
| CommitStats.ChunksOversizedFirst | src/commands/commitStatsCommand.ts:175-177 | a first block too long for one message is preceded by an empty message, since the loop pushes the still empty `message` |
| CommitStats.ChunkMessages | src/commands/commitStatsCommand.ts:166-182 | the chunking loop produces exactly the chunks of the specification |
| CommitStats.FollowUps | src/commands/commitStatsCommand.ts:184-191 | one follow-up per message, in order, with the requested visibility |
| CommitStats.DeliveryWhole | src/commands/commitStatsCommand.ts:146-191 | the answer is delivered whole: one edited reply within the limit, or the header followed by follow-ups that together carry every other block, each within the limit unless it is a single too-long block, with an empty one only first |
| CommitStats.SendBlocks | src/commands/commitStatsCommand.ts:146-191 | the replies sent are those of the delivery specification |
| CommitStats.HandleCommand | src/commands/commitStatsCommand.ts:42-191 | the replies are those of the command's specification: sort, sum, sections, delivery |
| CommitStats.StatsShortAnswers | src/commands/commitStatsCommand.ts:45-101 | without an author nothing is sent, an unknown author gets one ephemeral reply, and a user with no positive count gets the deferred reply edited to say so |
| Common.SliceTo | src/util/text.ts:9 | `slice(0, end)`: a prefix of the text, of length `end` capped at the text's length, counted from the end for a negative `end` |
| Common.DropFirst | src/commands/brainYakCommand.ts:69-73 | `substring(start)`: the text after the first `start` characters, empty past the end |
| Common.TakeFirst | src/commands/testCommand.ts:209 | `substring(0, n)`: the first `n` characters, or the whole text when shorter |
| Common.Lower | src/commandHandler.ts:104 | `toLowerCase` on ASCII letters: same length, each character lowered, no upper-case letter left |
| Common.TrimStart | src/commands/manCommand.ts:157 | the result is a suffix of the text that does not start with JavaScript whitespace |
| Common.TrimStartDrops | src/commands/manCommand.ts:157 | what the leading trim drops is whitespace only |
| Common.TrimEnd | src/commands/manCommand.ts:157 | the result is a prefix of the text that does not end with JavaScript whitespace |
| Common.TrimEndDrops | src/commands/manCommand.ts:157 | what the trailing trim drops is whitespace only |
| Common.Trim | src/commands/manCommand.ts:157 | `trim()` is no longer than the text and has no whitespace at either end |
| Common.TrimSpec | src/commands/manCommand.ts:157 | `trim()` is the slice of the text left after its leading and its trailing whitespace, and what it drops on either side is whitespace only |
| Common.NatToDecimal | src/commands/userCommand.ts:77 | `toString()` of a number gives at least one digit and only digits, starting with "0" exactly for 0, so never with a leading zero |
| Common.NatToDecimalValue | src/commands/userCommand.ts:77 | the decimal text of a number reads back as that number |
| Common.ParseIntOfDecimal | src/commands/userCommand.ts:77 | `parseInt` of any integer's decimal text gives the integer back |
| Common.ParseIntDigits | src/commands/githubCommand.ts:74 | `parseInt` of a run of digits is their value |
| Common.IndexOf | src/commands/slapCommand.ts:45-46 | the first occurrence of a pattern, none exactly when it occurs nowhere |
| Common.RemoveChars | src/commands/manCommand.ts:149 | `replace(/[…]/g, "")`: no removed character is left, nothing is added, and a text without them is unchanged |
| Common.RemoveCharsKeeps | src/commands/manCommand.ts:149 | every character outside the class stays, as often as it occurs |
| Common.RemoveCharsAppend | src/commands/manCommand.ts:149 | the characters that stay keep their order: removing from a concatenation removes from each part |
| Common.Split | src/commands/commitStatsCommand.ts:120 | `split` gives at least one part and no part holds the separator |
| Common.JoinSplit | src/commands/manCommand.ts:145 | joining the parts of a split with its separator gives the text back |
| Common.SplitJoin | src/commands/testCommand.ts:216 | splitting lines joined by a separator none of them holds gives the lines back |
| Common.SubstitutionPlain | src/commands/slapCommand.ts:45-46 | a replacement without `$` is inserted as it is |
| Common.ReplaceFirstAt | src/commands/planCommand.ts:46 | `replace` with a string pattern and a replacement without `$` changes only the first occurrence, keeping what stands around it |
| Common.ReplaceBetween | src/commands/slapCommand.ts:45-46 | a replacement where the pattern first occurs splices the substituted text between what stood around it |
| Emoji.EmojiCache.constructor | src/util/emoji.ts:12 | the module's emoji cache starts empty |
| CommandHandler.FirstOwnerAt | src/commandHandler.ts:165-175 | when entry i is the first whose `buttonData` lists the custom id, the button goes to entry i's command, whatever later entries claim |

## Left out

- Network and Discord calls (GitHub REST requests, `fetch`, `guild.emojis`, `interaction.reply`, `message.edit`, reaction removal) are not performed: what they answer is a parameter, and the model states the reply or edit the bot would send.
- `githubAPI.fetchUserIssuesAndPulls`, which `src/commands/userCommand.ts` calls, is not defined in `src/apis/githubAPI.ts`; its answer is a parameter and the function is not part of this model.
- `getUser`, `fetchSerenityRepos` and `getCommitsCount`, which `src/commands/commitStatsCommand.ts` uses, are not defined in `src/apis/githubAPI.ts`; their results are inputs of `CommitStats.HandleCommand`.
- `searchIssue` and `searchIssues`, which `src/commands/issueCommand.ts` calls, and `searchPullRequest` and `searchPullRequests`, which `src/commands/prCommand.ts` calls, are not defined in `src/apis/githubAPI.ts`; their answers are parameters of `IssueCommand.Run` and `PrCommand.Run`.
- Promise ordering and concurrency are not modelled: `Logging.Logger.Start` sends the queue in order, as one sequence, rather than through `Promise.all`.
- Clocks: `Date.now`, `time()` and `toDateString` are parameters; the embed timestamp is left out.
- `Intl.ListFormat` is modelled only for the one- and two-item lists the source formats.
- `Number()` is a parameter function; its grammar for decimal, hexadecimal and white-space inputs is not modelled.
- Non-integer numbers are not modelled. `toFixed`, and the percentage and duration parts of the test result fields, are left out.
- A select menu value that is not a number, and an undefined SerenityOS version in the test result, are not modelled.
- The Brain Yak interpreter's two-second wall-clock budget is replaced by a step budget. It runs out at the same checks and raises the same error message.
- `Array.prototype.sort` is modelled by its result, sorted and a permutation of the input; stability is not stated.
- SlapCommand.ReplyCases: stated only for names without `$`, because `String.prototype.replace` would read `$` sequences in a name as substitution patterns (`Common.Substitution` defines what `replace` does with them).
- `toLowerCase` and `toUpperCase` are modelled for ASCII letters only; Unicode case mapping ("ß" to "SS", "é" to "É") is not. `toUpperCase` is only applied to the ASCII level names.
- The logger's console output, its stack and caller parsing (the method and file name fields), `clear()`, and the `process.exit` of `fatal` are left out.
- The quote command's message fetch and member lookups are parameters.
- `registerInteractions` is modelled as the list of commands and the targets they are registered with; the REST call itself is left out.
- The `help()` texts of the commands are constants without a contract of their own.
- Ephemeral flags are modelled only where a contract states which replies are ephemeral.
- String lengths: JavaScript's `length`, `slice` and `substring` count UTF-16 code units, while a Dafny `string` counts Unicode scalar values, so a character outside the Basic Multilingual Plane counts once here and twice in the source. The members below state their limits in scalar values; for text with such characters the source cuts or splits earlier than the model says.
- Text.TrimString: the `length` limit is counted in scalar values, not UTF-16 code units.
- IssueEmbed.ShortDescription: the 300-character cut is counted in scalar values, not UTF-16 code units.
- IssueCommand.Query: the 256-character cut is counted in scalar values, not UTF-16 code units.
- CommitStats.Step: the 2000-character message test (and so `CommitStats.Chunks` and its lemmas) is counted in scalar values, not UTF-16 code units.
- CommitStats.HandleCommand: the 2000-character test on the complete reply is counted in scalar values, not UTF-16 code units.
- Man.ScanLine: the 512 and 1024 budgets (and so the field bounds proved from them) are counted in scalar values, not UTF-16 code units.
- TestCommand.VersionLineShape: the 7-character short hash is counted in scalar values; commit hashes are ASCII, where the two counts agree.
- Common.SliceTo, Common.TakeFirst, Common.DropFirst: positions are scalar values, not UTF-16 code units.
- The `interactionCreate` listener calls `commandHandler.handleInteraction`, which `src/commandHandler.ts` does not define; `Index.OnInteraction` passes the chat-input command to `handleBaseCommandInteraction`, the dispatcher's method for it.

## Findings

| source | as written | input that shows it | evidently intended | confidence | as-written member | corrected member |
|---|---|---|---|---|---|---|
| src/commands/manCommand.ts:159 | a line is accepted while `content.length + line.length + 4` stays within the cap (1024 expanded), but appending it adds `line.length + 1`, and the `"\n..."` of a later cut adds 4 more, so a field can hold 1025 characters, one over Discord's limit of 1024 | an Options section holding a line of 1020 characters and then one more line | keep every field within its cap by reserving 5: the line's own newline plus the 4 characters of `"\n..."`; the command, the buttons and the reaction handler are modelled as written, with 4 | not executed | Man.EmbedForMan, Man.FieldOverflowAsWritten | Man.FieldsFit |
| src/index.ts:78-82 | the reaction handler locates the man page from the embed's URL, which is always the man.serenityos.org address, and matches it against the GitHub man page pattern, which never matches that address | any minimize or maximize reaction on a man page embed posted by the bot | locate the page from the GitHub address in the description, as the buttons do, so the reaction toggles the view | not executed | Index.ReactionAsWritten, Index.ReactionOnManEmbedIsDead | Index.ReactionCorrected, Index.ReactionCorrectedToggles |

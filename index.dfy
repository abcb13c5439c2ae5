/** The reaction handler of src/index.ts: a reaction with the minimize or
    maximize emoji on a message of the bot re-renders its man page embed,
    collapsed or expanded; and the interaction listener, which passes
    chat-input commands to the dispatcher. */
module Index {
  import opened Common
  import opened GithubApi
  import Man
  import CH = CommandHandler

  /** What the handler does: nothing, or edit the message to show the
      embed and, outside direct messages, remove the user's reaction. */
  datatype ReactionOutcome = NoEffect | EditEmbed(embed: Man.Embed, removeReaction: bool)

  /** The reaction as the handler sees it. Emoji are compared by identity:
      `minimize` and `maximize` are the ids of the guild's emoji, `None`
      when the lookup found none; `botId` is `None` before the client has a
      user. */
  datatype Reaction = Reaction(
    emoji: string,
    minimize: Option<string>,
    maximize: Option<string>,
    userId: string,
    botId: Option<string>,
    authorId: string,
    embeds: seq<Man.PostedEmbed>,
    isDM: bool)

  /** The mode the reaction asks for (lines 63-70): `Some(true)` to
      collapse, `Some(false)` to expand, `None` for any other emoji. */
  function ReactionMode(emoji: string, minimize: Option<string>, maximize: Option<string>): (mode: Option<bool>)
    ensures mode == Some(true) <==> minimize == Some(emoji)
    ensures mode == Some(false) <==> minimize != Some(emoji) && maximize == Some(emoji)
    ensures mode.None? <==> minimize != Some(emoji) && maximize != Some(emoji)
  {
    if minimize == Some(emoji) then Some(true)
    else if maximize == Some(emoji) then Some(false)
    else None
  }

  /** The guards of lines 63-76: the mode, when the emoji is one of the two,
      the user is not the bot, the message is the bot's and carries exactly
      one embed. */
  function Guarded(r: Reaction): (mode: Option<bool>)
    ensures mode.Some? ==>
              && mode == ReactionMode(r.emoji, r.minimize, r.maximize)
              && r.botId.Some? && r.userId != r.botId.value && r.authorId == r.botId.value
              && |r.embeds| == 1
  {
    var mode := ReactionMode(r.emoji, r.minimize, r.maximize);
    if mode.None? then None
    else if r.botId.Some? && r.userId == r.botId.value then None
    else if r.botId.None? || r.authorId != r.botId.value then None
    else if |r.embeds| != 1 then None
    else mode
  }

  /** Lines 56-91 as written: the page is located from the embed's URL. */
  function ReactionAsWritten(r: Reaction, fetch: (string, string) -> Option<string>): (out: ReactionOutcome)
    ensures out.EditEmbed? ==> Guarded(r).Some? && out.removeReaction == !r.isDM
  {
    match Guarded(r)
    case None => NoEffect
    case Some(collapsed) =>
      var url := r.embeds[0].url;
      if url.None? || url.value == "" then NoEffect
      else
        match FetchManpageByUrl(url.value, fetch)
        case None => NoEffect
        case Some(m) => EditEmbed(Man.EmbedFor(m.markdown, m.url, m.section, m.page, collapsed, Man.WrittenReserve), !r.isDM)
  }

  /** The URL of every man page embed is the man.serenityos.org address,
      which the GitHub pattern rejects: as written, a reaction on a man page
      embed never changes anything. */
  lemma ReactionOnManEmbedIsDead(r: Reaction, markdown: string, githubUrl: string, section: string, page: string,
                                 collapsed: bool, reserve: nat, fetch: (string, string) -> Option<string>)
    requires ':' !in section && ':' !in page
    requires r.embeds == [Man.Posted(Man.EmbedFor(markdown, githubUrl, section, page, collapsed, reserve))]
    ensures ReactionAsWritten(r, fetch) == NoEffect
  {
    ManSiteUrlNeverMatches(section, page);
  }

  /** The handler with the page located as the buttons locate it: from the
      GitHub address in the description. */
  function ReactionCorrected(r: Reaction, fetch: (string, string) -> Option<string>): (out: ReactionOutcome)
    ensures out.EditEmbed? ==> Guarded(r).Some? && out.removeReaction == !r.isDM
  {
    match Guarded(r)
    case None => NoEffect
    case Some(collapsed) =>
      var description := r.embeds[0].description;
      if description.None? || description.value == "" then NoEffect
      else
        match Man.ParenGroup(description.value)
        case None => NoEffect
        case Some(loc) =>
          match FetchManpageByUrl(loc, fetch)
          case None => NoEffect
          case Some(m) => EditEmbed(Man.EmbedFor(m.markdown, m.url, m.section, m.page, collapsed, Man.WrittenReserve), !r.isDM)
  }

  /** With the corrected locator, a minimize or maximize reaction by anyone
      but the bot on the bot's embed of a page renders that page again in
      the mode the emoji names. */
  lemma ReactionCorrectedToggles(r: Reaction, d: char, page: string, markdown: string, collapsed: bool,
                                 fetch: (string, string) -> Option<string>)
    requires IsDigit(d) && PlainPage(page) && Man.NameWithoutParen(markdown, collapsed, Man.WrittenReserve)
    requires r.embeds == [Man.Posted(Man.EmbedFor(markdown, ManPageUrl([d], page), [d], page, collapsed, Man.WrittenReserve))]
    requires r.botId.Some? && r.userId != r.botId.value && r.authorId == r.botId.value
    requires ReactionMode(r.emoji, r.minimize, r.maximize).Some?
    requires fetch([d], page).Some?
    ensures ReactionCorrected(r, fetch)
            == EditEmbed(Man.EmbedFor(fetch([d], page).value, ManPageUrl([d], page), [d], page,
                                      r.minimize == Some(r.emoji), Man.WrittenReserve),
                         !r.isDM)
  {
    Man.EmbedLocatesPage(d, page, markdown, collapsed, Man.WrittenReserve);
    FetchByPageUrl(d, page, fetch);
    assert Guarded(r) == Some(r.minimize == Some(r.emoji));
  }

  /** Unlike the buttons, reactions have no requester check: every user
      other than the bot gets the same outcome. */
  lemma AnyUserMayReact(r: Reaction, otherUser: string, fetch: (string, string) -> Option<string>)
    requires r.botId.Some? && r.userId != r.botId.value && otherUser != r.botId.value
    ensures ReactionAsWritten(r.(userId := otherUser), fetch) == ReactionAsWritten(r, fetch)
    ensures ReactionCorrected(r.(userId := otherUser), fetch) == ReactionCorrected(r, fetch)
  {
    assert Guarded(r.(userId := otherUser)) == Guarded(r);
  }

  // ---- the interaction listener (lines 51-55) --------------------------------

  /** The kinds of interaction the gateway delivers. */
  datatype InteractionType = ChatInputType | ContextMenuType | ButtonType | SelectMenuType | AutocompleteType | ModalType

  /** The `interactionCreate` listener: `isCommand()` lets only chat-input
      commands through. It hands them to `handleInteraction`, which the
      dispatcher of this revision does not define; the model hands them to
      `handleBaseCommandInteraction`, the dispatcher's method for them. */
  function OnInteraction(t: InteractionType, entries: seq<CH.Entry>, help: string, commandName: string,
                         userTag: string, outcomeOf: (CH.Handler, CH.HandlerKind) -> CH.HandlerOutcome): (out: CH.Outcome)
    ensures out.Done?
    ensures t != ChatInputType ==> out == CH.Done([])
  {
    if t == ChatInputType then
      CH.BaseCommandSpec(entries, help, CH.ChatInputInteraction, commandName, userTag, outcomeOf)
    else CH.Done([])
  }

  /** A chat-input command reaches the `handleCommand` of the last
      registered command with that name, after a log line naming the user
      and the command; `help` is answered with the help text. */
  lemma ChatInputReachesCommand(entries: seq<CH.Entry>, help: string, commandName: string, userTag: string,
                                outcomeOf: (CH.Handler, CH.HandlerKind) -> CH.HandlerOutcome)
    ensures commandName == "help" ==>
              OnInteraction(ChatInputType, entries, help, commandName, userTag, outcomeOf) == CH.Done([CH.Reply(true, help)])
    ensures commandName != "help" && CH.LastMatch(entries, commandName).Some? ==>
              var c := CH.LastMatch(entries, commandName).value;
              OnInteraction(ChatInputType, entries, help, commandName, userTag, outcomeOf)
              == CH.Done([CH.LogSilly(userTag + " is executing " + commandName)]
                         + CH.CallInteractionHandler(c, CH.OnCommand, outcomeOf(c, CH.OnCommand)))
  {
  }

  /** Through this listener only `handleCommand` is ever called: buttons,
      select menus and context menus never reach their handlers, and an
      interaction of any other kind has no effect at all. */
  lemma OnlyHandleCommandIsCalled(t: InteractionType, entries: seq<CH.Entry>, help: string, commandName: string,
                                  userTag: string, outcomeOf: (CH.Handler, CH.HandlerKind) -> CH.HandlerOutcome)
    ensures var out := OnInteraction(t, entries, help, commandName, userTag, outcomeOf);
            forall e :: e in out.effects && e.Call? ==> e.kind == CH.OnCommand
  {
    var out := OnInteraction(t, entries, help, commandName, userTag, outcomeOf);
    if t == ChatInputType && commandName != "help" && CH.LastMatch(entries, commandName).Some? {
      var c := CH.LastMatch(entries, commandName).value;
      var calls := CH.CallInteractionHandler(c, CH.OnCommand, outcomeOf(c, CH.OnCommand));
      assert out.effects == [CH.LogSilly(userTag + " is executing " + commandName)] + calls;
      assert forall e :: e in calls && e.Call? ==> e.kind == CH.OnCommand;
    }
  }
}

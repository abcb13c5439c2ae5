/** The legacy `quote` command of src/commands/quoteCommand.ts: a member
    holding the quote role names a message (by replying to it, by linking
    it or by its id); the message is appended to the fortunes file and a
    pull request is opened with it. Discord and GitHub calls are
    parameters of `QuoteEnv`; a call that throws or finds nothing is
    `None`. */
module QuoteCommand {
  import opened Common
  import opened CommandParser
  import GithubApi

  /** `matchesName` (lines 18-20). */
  predicate MatchesName(commandName: string)
  {
    commandName == "quote"
  }

  /** `help` (lines 23-25): the command is not advertised. */
  function Help(commandPrefix: string): (h: string)
    ensures h == []
  {
    ""
  }

  // ---- messageLinkRegex (lines 15-16) ---------------------------------------

  const Scheme := "https://"
  const ChannelsPath := "discord.com/channels/"

  /** The parts a message link carries, each a 17 or 18 digit id. */
  datatype MessageLink = MessageLink(guild: string, channel: string, message: string)

  predicate IsId(t: string)
  {
    17 <= |t| <= 18 && AllDigits(t)
  }

  /** Where the first id begins when `https://(?:(?:ptb|canary)\.)?discord\.com\/channels\/`
      matches at `p`; the optional group is tried with each alternative
      before it is skipped. */
  function HostEnd(s: string, p: nat): (h: Option<nat>)
    ensures h.Some? ==> p + |Scheme| + |ChannelsPath| <= h.value <= |s|
  {
    if !OccursAt(s, Scheme, p) then None
    else
      var q := p + |Scheme|;
      if OccursAt(s, "ptb.", q) && OccursAt(s, ChannelsPath, q + 4) then Some(q + 4 + |ChannelsPath|)
      else if OccursAt(s, "canary.", q) && OccursAt(s, ChannelsPath, q + 7) then Some(q + 7 + |ChannelsPath|)
      else if OccursAt(s, ChannelsPath, q) then Some(q + |ChannelsPath|)
      else None
  }

  /** `[0-9]{17,18}\/` at `i`: the position of the slash. Backtracking
      from 18 to 17 digits succeeds only when the run of digits is exactly
      that long, since a slash must follow. */
  function IdThenSlash(s: string, i: nat): (e: Option<nat>)
    ensures e.Some? ==> i < e.value < |s|
  {
    var k := DigitsFrom(s, i);
    if 17 <= k <= 18 && i + k < |s| && s[i + k] == '/' then Some(i + k) else None
  }

  /** What `IdThenSlash` reads is an id, and a slash follows it. */
  lemma IdThenSlashSound(s: string, i: nat)
    requires IdThenSlash(s, i).Some?
    ensures var e := IdThenSlash(s, i).value; s[e] == '/' && IsId(s[i..e])
  {
    DigitsFromSound(s, i);
  }

  /** The final `[0-9]{17,18}` at `i`: greedy, so 18 digits when there
      are that many. */
  function LastId(s: string, i: nat): (e: Option<nat>)
    ensures e.Some? ==> i < e.value <= |s|
  {
    var k := DigitsFrom(s, i);
    if k >= 17 then Some(i + (if k > 18 then 18 else k)) else None
  }

  /** What `LastId` reads is an id, cut at 18 digits or where the digits
      end. */
  lemma LastIdSound(s: string, i: nat)
    requires LastId(s, i).Some?
    ensures var e := LastId(s, i).value;
            IsId(s[i..e]) && (e == |s| || e - i == 18 || !IsDigit(s[e]))
  {
    DigitsFromSound(s, i);
  }

  datatype Bounds = Bounds(host: nat, guild: nat, channel: nat, message: nat)

  /** Where the pieces of the pattern end when it matches at `p`: the
      host part, the guild id, the channel id and the message id. */
  function LinkBounds(s: string, p: nat): (b: Option<Bounds>)
    ensures b.Some? ==> HostEnd(s, p) == Some(b.value.host) && IdThenSlash(s, b.value.host) == Some(b.value.guild)
                        && IdThenSlash(s, b.value.guild + 1) == Some(b.value.channel)
                        && LastId(s, b.value.channel + 1) == Some(b.value.message)
  {
    match HostEnd(s, p)
    case None => None
    case Some(h) =>
      match IdThenSlash(s, h)
      case None => None
      case Some(e1) =>
        match IdThenSlash(s, e1 + 1)
        case None => None
        case Some(e2) =>
          match LastId(s, e2 + 1)
          case None => None
          case Some(e3) => Some(Bounds(h, e1, e2, e3))
  }

  lemma BoundsFrom(s: string, p: nat, h: nat, e1: nat, e2: nat, e3: nat)
    requires HostEnd(s, p) == Some(h) && IdThenSlash(s, h) == Some(e1)
    requires IdThenSlash(s, e1 + 1) == Some(e2) && LastId(s, e2 + 1) == Some(e3)
    ensures LinkBounds(s, p) == Some(Bounds(h, e1, e2, e3))
  {
  }

  lemma LinkAtFromBounds(s: string, p: nat, b: Bounds)
    requires LinkBounds(s, p) == Some(b)
    ensures b.host <= b.guild < b.channel < b.message <= |s|
    ensures LinkAt(s, p) == Some(MessageLink(s[b.host..b.guild], s[b.guild + 1..b.channel], s[b.channel + 1..b.message]))
  {
  }

  /** The whole pattern anchored at `p`, reduced to its three groups. */
  function LinkAt(s: string, p: nat): Option<MessageLink>
  {
    match LinkBounds(s, p)
    case None => None
    case Some(b) => Some(MessageLink(s[b.host..b.guild], s[b.guild + 1..b.channel], s[b.channel + 1..b.message]))
  }

  /** Each part of a match is an id of 17 or 18 digits. */
  lemma LinkAtIds(s: string, p: nat)
    requires LinkAt(s, p).Some?
    ensures var m := LinkAt(s, p).value; IsId(m.guild) && IsId(m.channel) && IsId(m.message)
  {
    var b := LinkBounds(s, p).value;
    IdThenSlashSound(s, b.host);
    IdThenSlashSound(s, b.guild + 1);
    LastIdSound(s, b.channel + 1);
  }

  /** The leftmost match at or after `from`. */
  function FirstLink(s: string, from: nat): (m: Option<MessageLink>)
    ensures m.Some? ==> exists p :: from <= p <= |s| && LinkAt(s, p) == m
    ensures m.None? ==> forall p :: from <= p <= |s| ==> LinkAt(s, p).None?
    decreases |s| + 1 - from
  {
    if from > |s| then None
    else if LinkAt(s, from).Some? then LinkAt(s, from)
    else FirstLink(s, from + 1)
  }

  /** `text.match(messageLinkRegex)` (line 78), reduced to its groups. */
  function FindMessageLink(s: string): Option<MessageLink>
  {
    FirstLink(s, 0)
  }

  /** The hosts the optional group lets through. */
  predicate IsHost(host: string)
  {
    host == "" || host == "ptb." || host == "canary."
  }

  /** The text of a link to the message. */
  function LinkText(host: string, l: MessageLink): string
  {
    Scheme + host + ChannelsPath + l.guild + "/" + l.channel + "/" + l.message
  }

  lemma IdThenSlashAt(a: string, d: string, b: string)
    requires IsId(d)
    ensures IdThenSlash(a + d + "/" + b, |a|) == Some(|a| + |d|)
    ensures (a + d + "/" + b)[|a|..|a| + |d|] == d
  {
    var s := a + d + "/" + b;
    assert forall j :: |a| <= j < |a| + |d| ==> s[j] == d[j - |a|];
    assert s[|a| + |d|] == '/';
    DigitsFromExactly(s, |a|, |d|);
  }

  lemma LastIdAt(a: string, d: string, after: string)
    requires IsId(d)
    requires after == [] || !IsDigit(after[0])
    ensures LastId(a + d + after, |a|) == Some(|a| + |d|)
    ensures (a + d + after)[|a|..|a| + |d|] == d
  {
    var s := a + d + after;
    assert forall j :: |a| <= j < |a| + |d| ==> s[j] == d[j - |a|];
    assert |a| + |d| < |s| ==> s[|a| + |d|] == after[0];
    DigitsFromExactly(s, |a|, |d|);
  }

  lemma HostEndAt(host: string, rest: string)
    requires IsHost(host)
    ensures HostEnd(Scheme + host + ChannelsPath + rest, 0) == Some(|Scheme + host + ChannelsPath|)
  {
    var s := Scheme + host + ChannelsPath + rest;
    var q := |Scheme|;
    assert OccursAt(s, Scheme, 0) by { assert s[..|Scheme|] == Scheme; }
    assert s[q + |host|..q + |host| + |ChannelsPath|] == ChannelsPath;
    assert OccursAt(s, ChannelsPath, q + |host|);
    if host == "" {
      assert s[q] == 'd';
      assert !OccursAt(s, "ptb.", q) by { assert "ptb."[0] == 'p'; }
      assert !OccursAt(s, "canary.", q) by { assert "canary."[0] == 'c'; }
    } else if host == "ptb." {
      assert s[q..q + 4] == "ptb.";
    } else {
      assert s[q] == 'c';
      assert !OccursAt(s, "ptb.", q) by { assert "ptb."[0] == 'p'; }
      assert s[q..q + 7] == "canary.";
    }
  }

  /** A text holding the three ids after `pre`. */
  function WithIds(pre: string, l: MessageLink, after: string): string
  {
    pre + l.guild + "/" + l.channel + "/" + l.message + after
  }

  lemma GuildPart(pre: string, l: MessageLink, after: string, i: nat, e: nat)
    requires IsId(l.guild)
    requires i == |pre| && e == i + |l.guild|
    ensures IdThenSlash(WithIds(pre, l, after), i) == Some(e)
    ensures WithIds(pre, l, after)[i..e] == l.guild
  {
    var s := WithIds(pre, l, after);
    var b := l.channel + "/" + l.message + after;
    assert s == pre + l.guild + "/" + b;
    IdThenSlashAt(pre, l.guild, b);
  }

  lemma ChannelPart(pre: string, l: MessageLink, after: string, i: nat, e: nat)
    requires IsId(l.channel)
    requires i == |pre| + |l.guild| + 1 && e == i + |l.channel|
    ensures IdThenSlash(WithIds(pre, l, after), i) == Some(e)
    ensures WithIds(pre, l, after)[i..e] == l.channel
  {
    var s := WithIds(pre, l, after);
    var a := pre + l.guild + "/";
    var b := l.message + after;
    assert s == a + l.channel + "/" + b;
    IdThenSlashAt(a, l.channel, b);
  }

  lemma MessagePart(pre: string, l: MessageLink, after: string, i: nat, e: nat)
    requires IsId(l.message)
    requires after == [] || !IsDigit(after[0])
    requires i == |pre| + |l.guild| + 1 + |l.channel| + 1 && e == i + |l.message|
    ensures LastId(WithIds(pre, l, after), i) == Some(e)
    ensures WithIds(pre, l, after)[i..e] == l.message
  {
    var s := WithIds(pre, l, after);
    var a := pre + l.guild + "/" + l.channel + "/";
    assert s == a + l.message + after;
    LastIdAt(a, l.message, after);
  }

  /** After the host part, the three ids are read off in order. */
  lemma IdsAfterHost(pre: string, l: MessageLink, after: string, h: nat, e1: nat, e2: nat, e3: nat)
    requires IsId(l.guild) && IsId(l.channel) && IsId(l.message)
    requires after == [] || !IsDigit(after[0])
    requires h == |pre| && e1 == h + |l.guild| && e2 == e1 + 1 + |l.channel| && e3 == e2 + 1 + |l.message|
    ensures IdThenSlash(WithIds(pre, l, after), h) == Some(e1)
    ensures IdThenSlash(WithIds(pre, l, after), e1 + 1) == Some(e2)
    ensures LastId(WithIds(pre, l, after), e2 + 1) == Some(e3)
    ensures var s := WithIds(pre, l, after);
            MessageLink(s[h..e1], s[e1 + 1..e2], s[e2 + 1..e3]) == l
  {
    GuildPart(pre, l, after, h, e1);
    ChannelPart(pre, l, after, e1 + 1, e2);
    MessagePart(pre, l, after, e2 + 1, e3);
  }

  /** A link with any of the three hosts, followed by the end of the text
      or by something other than a digit, yields exactly its three ids. */
  lemma LinkRoundTrip(host: string, l: MessageLink, after: string)
    requires IsHost(host)
    requires IsId(l.guild) && IsId(l.channel) && IsId(l.message)
    requires after == [] || !IsDigit(after[0])
    ensures FindMessageLink(LinkText(host, l) + after) == Some(l)
  {
    var pre := Scheme + host + ChannelsPath;
    var s := WithIds(pre, l, after);
    assert LinkText(host, l) + after == s;
    var h: nat := |pre|;
    var e1: nat := h + |l.guild|;
    var e2: nat := e1 + 1 + |l.channel|;
    var e3: nat := e2 + 1 + |l.message|;
    HostPart(host, l, after);
    IdsAfterHost(pre, l, after, h, e1, e2, e3);
    MatchFromParts(s, l, h, e1, e2, e3);
  }

  /** A match assembled from its pieces at the start of the text is the
      leftmost one. */
  lemma MatchFromParts(s: string, l: MessageLink, h: nat, e1: nat, e2: nat, e3: nat)
    requires HostEnd(s, 0) == Some(h) && IdThenSlash(s, h) == Some(e1)
    requires IdThenSlash(s, e1 + 1) == Some(e2) && LastId(s, e2 + 1) == Some(e3)
    requires MessageLink(s[h..e1], s[e1 + 1..e2], s[e2 + 1..e3]) == l
    ensures FindMessageLink(s) == Some(l)
  {
    LinkAtFromParts(s, l, h, e1, e2, e3);
    FindAtStart(s);
  }

  lemma LinkAtFromParts(s: string, l: MessageLink, h: nat, e1: nat, e2: nat, e3: nat)
    requires HostEnd(s, 0) == Some(h) && IdThenSlash(s, h) == Some(e1)
    requires IdThenSlash(s, e1 + 1) == Some(e2) && LastId(s, e2 + 1) == Some(e3)
    requires MessageLink(s[h..e1], s[e1 + 1..e2], s[e2 + 1..e3]) == l
    ensures LinkAt(s, 0) == Some(l)
  {
    BoundsFrom(s, 0, h, e1, e2, e3);
    LinkAtFromBounds(s, 0, Bounds(h, e1, e2, e3));
  }

  lemma FindAtStart(s: string)
    requires LinkAt(s, 0).Some?
    ensures FindMessageLink(s) == LinkAt(s, 0)
  {
  }

  lemma HostPart(host: string, l: MessageLink, after: string)
    requires IsHost(host)
    ensures HostEnd(WithIds(Scheme + host + ChannelsPath, l, after), 0) == Some(|Scheme + host + ChannelsPath|)
  {
    var pre := Scheme + host + ChannelsPath;
    var rest := l.guild + "/" + l.channel + "/" + l.message + after;
    assert WithIds(pre, l, after) == pre + rest;
    HostEndAt(host, rest);
  }

  /** The host part of a match: the scheme, one of the three hosts and
      the channels path. */
  lemma HostEndSound(s: string, p: nat)
    requires HostEnd(s, p).Some?
    ensures exists host :: IsHost(host) && s[p..HostEnd(s, p).value] == Scheme + host + ChannelsPath
  {
    var h := HostEnd(s, p).value;
    var q := p + |Scheme|;
    var host: string;
    if OccursAt(s, "ptb.", q) && OccursAt(s, ChannelsPath, q + 4) {
      host := "ptb.";
    } else if OccursAt(s, "canary.", q) && OccursAt(s, ChannelsPath, q + 7) {
      host := "canary.";
    } else {
      host := "";
    }
    JoinThree(s, p, q, q + |host|, h, Scheme, host, ChannelsPath);
  }

  lemma JoinThree(s: string, p: nat, q: nat, r: nat, h: nat, a: string, b: string, c: string)
    requires p <= q <= r <= h <= |s|
    requires s[p..q] == a && s[q..r] == b && s[r..h] == c
    ensures s[p..h] == a + b + c
  {
    assert s[p..h] == s[p..q] + s[q..r] + s[r..h];
  }

  lemma SliceAtSlashes(s: string, p: nat, h: nat, e1: nat, e2: nat, e3: nat)
    requires p <= h <= e1 < e2 < e3 <= |s| && s[e1] == '/' && s[e2] == '/'
    ensures s[p..e3] == s[p..h] + s[h..e1] + "/" + s[e1 + 1..e2] + "/" + s[e2 + 1..e3]
  {
    assert s[e1..e1 + 1] == "/" && s[e2..e2 + 1] == "/";
    SliceSplit(s, h, e1, p);
    SliceSplit(s, e1, e1 + 1, p);
    SliceSplit(s, e1 + 1, e2, p);
    SliceSplit(s, e2, e2 + 1, p);
    SliceSplit(s, e2 + 1, e3, p);
  }

  lemma SliceSplit(s: string, b: nat, c: nat, a: nat)
    requires a <= b <= c <= |s|
    ensures s[a..c] == s[a..b] + s[b..c]
  {
  }

  /** Conversely, a match anchored at `p` is a link text with one of the
      three hosts, and its ids are the ones written there. */
  lemma LinkAtSound(s: string, p: nat)
    requires LinkAt(s, p).Some?
    ensures exists host :: IsHost(host) && StartsWith(s[p..], LinkText(host, LinkAt(s, p).value))
  {
    var l := LinkAt(s, p).value;
    var b := LinkBounds(s, p).value;
    var h, e1, e2, e3 := b.host, b.guild, b.channel, b.message;
    assert l == MessageLink(s[h..e1], s[e1 + 1..e2], s[e2 + 1..e3]);
    IdThenSlashSound(s, h);
    IdThenSlashSound(s, e1 + 1);
    HostEndSound(s, p);
    var host :| IsHost(host) && s[p..h] == Scheme + host + ChannelsPath;
    SliceAtSlashes(s, p, h, e1, e2, e3);
    assert s[p..e3] == LinkText(host, l);
    StartsWithSlice(s, p, e3, LinkText(host, l));
  }

  lemma StartsWithSlice(s: string, p: nat, e: nat, t: string)
    requires p <= e <= |s| && s[p..e] == t
    ensures StartsWith(s[p..], t)
  {
    assert s[p..][..e - p] == s[p..e];
  }

  // ---- getMessageReference (lines 67-99) ----------------------------------

  /** A message reference; a reply's reference may lack the message id. */
  datatype Reference = Reference(guildId: string, channelId: string, messageId: Option<string>)

  /** The replied-to message first; otherwise exactly one argument, read
      as a link or else fetched as an id from the channel (`fetchById`,
      `None` when it throws or the message has no guild). */
  function MessageReference(replied: Option<Reference>, args: seq<string>,
                            fetchById: string -> Option<Reference>): (ref: Option<Reference>)
    ensures replied.Some? ==> ref == replied
    ensures replied.None? && ref.Some? ==> |args| == 1
    ensures replied.None? && |args| == 1 && FindMessageLink(args[0]).Some? ==>
              ref.Some? && ref.value.messageId == Some(FindMessageLink(args[0]).value.message)
  {
    if replied.Some? then replied
    else if |args| != 1 then None
    else
      match FindMessageLink(args[0])
      case Some(l) => Some(Reference(l.guild, l.channel, Some(l.message)))
      case None => fetchById(args[0])
  }

  /** A reply wins over any arguments; without one, anything but a single
      argument names nothing; a linked message is taken from the link
      without asking the channel. */
  lemma ReferencePrecedence(replied: Option<Reference>, args: seq<string>,
                            fetchById: string -> Option<Reference>, otherFetch: string -> Option<Reference>)
    ensures replied.Some? ==> MessageReference(replied, args, fetchById) == replied
    ensures replied.None? && |args| != 1 ==> MessageReference(replied, args, fetchById).None?
    ensures replied.None? && |args| == 1 && FindMessageLink(args[0]).Some? ==>
              var l := FindMessageLink(args[0]).value;
              && MessageReference(replied, args, fetchById) == Some(Reference(l.guild, l.channel, Some(l.message)))
              && MessageReference(replied, args, otherFetch) == MessageReference(replied, args, fetchById)
  {
  }

  // ---- run (lines 27-65) --------------------------------------------------

  datatype Author = Author(id: string, username: string)
  datatype Message = Message(cleanContent: string, url: string, author: Author)
  datatype Guild = Guild(id: string)

  /** One entry of the fortunes file. */
  datatype Fortune = Fortune(quote: string, author: string, url: string, utcTime: int)

  /** The list `fetchSerenityFortunes` resolves to, which `run` extends in
      place. */
  class FortuneList {
    var entries: seq<Fortune>

    constructor (entries: seq<Fortune>)
      ensures this.entries == entries
    {
      this.entries := entries;
    }

    /** `push`: the new fortune goes after all the existing ones. */
    method Push(f: Fortune)
      modifies this
      ensures entries == old(entries) + [f]
    {
      entries := entries + [f];
    }
  }

  /** What `run` sees: the quote role and the issuer's roles (`None` when
      the message has no member), the issuer, the reference sources, the
      Discord lookups, the fortunes file, the pull request call, the clock
      in milliseconds and the sad caret emoji. */
  datatype QuoteEnv = QuoteEnv(
    quoteRoleId: Option<string>,
    issuerRoles: Option<set<string>>,
    issuer: Author,
    replied: Option<Reference>,
    args: seq<string>,
    fetchById: string -> Option<Reference>,
    fetchGuild: string -> Option<Guild>,
    fetchMessage: (Guild, string, string) -> Option<Message>,
    displayName: (Guild, Author) -> Option<string>,
    fortunes: seq<Fortune>,
    openPull: (seq<Fortune>, string) -> Option<nat>,
    nowMillis: nat,
    sadcaret: Option<string>)

  /** Lines 28-30: the role must be configured and held by the issuer. */
  predicate Authorized(env: QuoteEnv)
  {
    env.quoteRoleId.Some? && env.quoteRoleId.value != ""
    && env.issuerRoles.Some? && env.quoteRoleId.value in env.issuerRoles.value
  }

  /** `getMessageByReference` (lines 101-113). */
  function MessageByReference(env: QuoteEnv, guild: Guild, ref: Reference): Option<Message>
  {
    if ref.messageId.None? then None else env.fetchMessage(guild, ref.channelId, ref.messageId.value)
  }

  /** The guild and message named, when all lookups succeed (lines 32-40). */
  function Quoted(env: QuoteEnv): Option<(Guild, Message)>
  {
    match MessageReference(env.replied, env.args, env.fetchById)
    case None => None
    case Some(ref) =>
      match env.fetchGuild(ref.guildId)
      case None => None
      case Some(guild) =>
        match MessageByReference(env, guild, ref)
        case None => None
        case Some(message) => Some((guild, message))
  }

  /** `getAuthorNick` (lines 123-126). */
  function AuthorNick(env: QuoteEnv, guild: Guild, author: Author): string
  {
    match env.displayName(guild, author)
    case Some(d) => d
    case None => author.username
  }

  function PullRequestText(number: nat): string
  {
    "Pull Request opened! https://github.com/" + GithubApi.Repository + "/pull/" + NatToDecimal(number)
  }

  function FailureText(sadcaret: Option<string>): string
  {
    "Failed creating a pull request " + EmojiText(sadcaret)
  }

  /** `run`: nothing is replied and nothing submitted unless the issuer is
      authorised and the message is found; then the fortunes sent in the
      pull request are the fetched ones, unchanged and in order, followed
      by the quoted message, and the reply reports the pull request. */
  method Run(env: QuoteEnv) returns (reply: Option<string>, submitted: Option<(seq<Fortune>, string)>)
    ensures submitted.Some? <==> Authorized(env) && Quoted(env).Some?
    ensures reply.Some? <==> submitted.Some?
    ensures submitted.Some? ==>
              var (guild, message) := Quoted(env).value;
              var (fortunes, issuerNick) := submitted.value;
              && |fortunes| == |env.fortunes| + 1
              && fortunes[..|env.fortunes|] == env.fortunes
              && fortunes[|env.fortunes|]
                 == Fortune(message.cleanContent, AuthorNick(env, guild, message.author), message.url, env.nowMillis / 1000)
              && issuerNick == AuthorNick(env, guild, env.issuer)
              && reply.value == match env.openPull(fortunes, issuerNick)
                                case None => FailureText(env.sadcaret)
                                case Some(n) => PullRequestText(n)
  {
    reply, submitted := None, None;
    if env.quoteRoleId.None? || env.quoteRoleId.value == "" {
      return;
    }
    if env.issuerRoles.None? || env.quoteRoleId.value !in env.issuerRoles.value {
      return;
    }
    var ref := MessageReference(env.replied, env.args, env.fetchById);
    if ref.None? {
      return;
    }
    var guild := env.fetchGuild(ref.value.guildId);
    if guild.None? {
      return;
    }
    var message := MessageByReference(env, guild.value, ref.value);
    if message.None? {
      return;
    }
    var nickname := AuthorNick(env, guild.value, message.value.author);
    var fortunes := new FortuneList(env.fortunes);
    fortunes.Push(Fortune(message.value.cleanContent, nickname, message.value.url, env.nowMillis / 1000));
    var issuerNick := AuthorNick(env, guild.value, env.issuer);
    var number := env.openPull(fortunes.entries, issuerNick);
    submitted := Some((fortunes.entries, issuerNick));
    if number.None? {
      reply := Some(FailureText(env.sadcaret));
    } else {
      reply := Some(PullRequestText(number.value));
    }
  }
}

/** The emoji lookup of src/util/emoji.ts: a read-through cache, filled from
    the guild's emoji list, and one alias per emoji the bot uses. */
module Emoji {
  import opened Common

  /** A guild emoji; only its name matters to the lookup. */
  datatype GuildEmoji = GuildEmoji(id: string, name: string)

  /** The first emoji of the guild's list whose name equals `emojiName`
      (`Collection.find`, line 31). */
  function FindByName(emojis: seq<GuildEmoji>, emojiName: string): (r: Option<GuildEmoji>)
    ensures r.Some? ==> r.value.name == emojiName && r.value in emojis
    ensures r.None? <==> forall e :: e in emojis ==> e.name != emojiName
  {
    if emojis == [] then None
    else if emojis[0].name == emojiName then Some(emojis[0])
    else FindByName(emojis[1..], emojiName)
  }

  /** Every cached emoji is stored under its own name. */
  predicate Consistent(cache: map<string, GuildEmoji>)
  {
    forall k :: k in cache ==> cache[k].name == k
  }

  /** `getEmoji` on values: the result and the cache afterwards. `guild` is
      the guild's emoji list, `None` when no GUILD_ID is configured. */
  function Lookup(cache: map<string, GuildEmoji>, emojiName: string, guild: Option<seq<GuildEmoji>>)
    : (r: (Option<GuildEmoji>, map<string, GuildEmoji>))
  {
    if emojiName in cache then (Some(cache[emojiName]), cache)
    else if guild.None? then (None, cache)
    else
      match FindByName(guild.value, emojiName)
      case None => (None, cache)
      case Some(e) => (Some(e), cache[emojiName := e])
  }

  /** A cached name is answered from the cache, whatever the guild holds. */
  lemma CachedWins(cache: map<string, GuildEmoji>, emojiName: string, guild: Option<seq<GuildEmoji>>)
    requires emojiName in cache
    ensures Lookup(cache, emojiName, guild) == (Some(cache[emojiName]), cache)
    ensures Lookup(cache, emojiName, guild) == Lookup(cache, emojiName, None)
  {
  }

  /** Without a guild id a miss is null and caches nothing. */
  lemma NoGuildMiss(cache: map<string, GuildEmoji>, emojiName: string)
    requires emojiName !in cache
    ensures Lookup(cache, emojiName, None) == (None, cache)
  {
  }

  /** A miss answers the guild's first emoji of that name, and caches it
      exactly when one exists. */
  lemma MissConsultsGuild(cache: map<string, GuildEmoji>, emojiName: string, emojis: seq<GuildEmoji>)
    requires emojiName !in cache
    ensures var (r, after) := Lookup(cache, emojiName, Some(emojis));
            && r == FindByName(emojis, emojiName)
            && (r.Some? ==> after == cache[emojiName := r.value])
            && (r.None? ==> after == cache)
  {
  }

  /** The cache only grows, an entry is never overwritten, and entries
      stay under their own names. */
  lemma LookupKeepsCache(cache: map<string, GuildEmoji>, emojiName: string, guild: Option<seq<GuildEmoji>>)
    requires Consistent(cache)
    ensures var (r, after) := Lookup(cache, emojiName, guild);
            && Consistent(after)
            && (forall k :: k in cache ==> k in after && after[k] == cache[k])
            && after.Keys <= cache.Keys + {emojiName}
            && (r.Some? <==> emojiName in after)
            && (r.Some? ==> r.value.name == emojiName && after[emojiName] == r.value)
  {
  }

  /** Once an emoji is found it stays the answer: a second lookup of the
      same name returns it even if the guild has changed or is gone. */
  lemma FoundIsStable(cache: map<string, GuildEmoji>, emojiName: string,
                      guild: Option<seq<GuildEmoji>>, later: Option<seq<GuildEmoji>>)
    requires Lookup(cache, emojiName, guild).0.Some?
    ensures var (r, after) := Lookup(cache, emojiName, guild);
            Lookup(after, emojiName, later) == (r, after)
  {
  }

  /** The module-level `cache` map and `getEmoji`. */
  class EmojiCache {
    var cache: map<string, GuildEmoji>

    constructor ()
      ensures cache == map[]
    {
      cache := map[];
    }

    /** `getEmoji` (lines 15-38). */
    method GetEmoji(emojiName: string, guild: Option<seq<GuildEmoji>>) returns (r: Option<GuildEmoji>)
      modifies this
      ensures (r, cache) == Lookup(old(cache), emojiName, guild)
    {
      if emojiName in cache {
        return Some(cache[emojiName]);
      }
      if guild.None? {
        return None;
      }
      r := FindByName(guild.value, emojiName);
      if r.None? {
        return None;
      }
      cache := cache[emojiName := r.value];
    }

    /** The alias functions of lines 40-133. */
    method GetAlias(a: Alias, guild: Option<seq<GuildEmoji>>) returns (r: Option<GuildEmoji>)
      modifies this
      ensures (r, cache) == Lookup(old(cache), AliasName(a), guild)
    {
      r := GetEmoji(AliasName(a), guild);
    }
  }

  /** The emoji that have an alias function, in the order of the file. */
  datatype Alias =
    | SadCaret | Maximize | Minimize | Poggie | BuggieMagnify | Buggus | YakSlice | SkeleYak
    | YakSplode | NeoYak | LibJs | Thonk | YakStack | OpenIssue | ClosedIssue | OpenPull
    | ClosedPull | MergedPull | Yak

  /** The name each alias function looks up. */
  function AliasName(a: Alias): (name: string)
    ensures name != "" && ':' !in name
  {
    match a
    case SadCaret => "sadcaret"
    case Maximize => "maximize"
    case Minimize => "minimize"
    case Poggie => "poggie"
    case BuggieMagnify => "buggiemagnify"
    case Buggus => "buggus"
    case YakSlice => "yakslice"
    case SkeleYak => "skeleyak"
    case YakSplode => "yaksplode"
    case NeoYak => "neoyak"
    case LibJs => "libjs"
    case Thonk => "thonk"
    case YakStack => "yakstack"
    case OpenIssue => "open_issue"
    case ClosedIssue => "closed_issue"
    case OpenPull => "open_pull"
    case ClosedPull => "closed_pull"
    case MergedPull => "merged_pull"
    case Yak => "yak"
  }

  /** Each alias looks up a name of its own: no two aliases share a cache
      entry. */
  lemma AliasNamesDistinct(a: Alias, b: Alias)
    requires a != b
    ensures AliasName(a) != AliasName(b)
  {
  }
}

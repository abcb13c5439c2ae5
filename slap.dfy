/** The `/slap` command of src/commands/slapCommand.ts: a fixed line with
    the issuer's and the target's names put in place of `$USER` and
    `$TARGET`. */
module SlapCommand {
  import opened Common
  import CommandHandler

  /** One data entry, "slap", with the "target" user option (lines 13-22). */
  const SlapHandler := CommandHandler.Handler(
    "SlapCommand",
    [CommandHandler.CommandData("slap", "Slap someone around a bit with a large trout", None)],
    false, false, false, None)

  const OptionNames: seq<string> := ["target"]

  /** The reply of line 11, cut around its two placeholders. */
  const UserPlaceholder := "$USER"
  const TargetPlaceholder := "$TARGET"
  const Slaps := " slaps "
  const Tail := " around a bit with a large trout*"
  const BaseReply := "*" + UserPlaceholder + Slaps + TargetPlaceholder + Tail

  /** A member as the interaction hands it over: a cached `GuildMember`,
      or the raw API object with its optional nick and, for the issuer,
      the user's name. */
  datatype Member = GuildMember(displayName: string) | ApiMember(nick: Option<string>, username: Option<string>)

  /** The issuer's name (lines 31-36): the display name, else the nick,
      else the user name, else "Someone". */
  function UserName(user: Option<Member>): string
  {
    match user
    case Some(GuildMember(d)) => d
    case Some(ApiMember(nick, username)) =>
      if nick.Some? then nick.value else if username.Some? then username.value else "Someone"
    case None => "Someone"
  }

  /** The target's name (lines 38-43): the display name, else the nick,
      else "Someone". */
  function TargetName(target: Option<Member>): string
  {
    match target
    case Some(GuildMember(d)) => d
    case Some(ApiMember(nick, _)) => if nick.Some? then nick.value else "Someone"
    case None => "Someone"
  }

  /** `handleCommand` (lines 24-51): each placeholder is replaced once,
      and only when its member is there. */
  function Reply(user: Option<Member>, target: Option<Member>): string
  {
    var withUser := if user.Some? then ReplaceFirst(BaseReply, UserPlaceholder, UserName(user)) else BaseReply;
    if target.Some? then ReplaceFirst(withUser, TargetPlaceholder, TargetName(target)) else withUser
  }

  lemma UserStep(name: string)
    requires '$' !in name
    ensures ReplaceFirst(BaseReply, UserPlaceholder, name) == "*" + name + Slaps + TargetPlaceholder + Tail
  {
    var rest := Slaps + TargetPlaceholder + Tail;
    assert BaseReply == "*" + UserPlaceholder + rest;
    assert UserPlaceholder[0] == '$';
    FirstOccurrence("*", UserPlaceholder, rest);
    ReplaceFirstAt(BaseReply, UserPlaceholder, name, 1);
    assert BaseReply[..1] == "*";
    assert BaseReply[1 + |UserPlaceholder|..] == rest;
  }

  /** Before `$TARGET` only the `$` of `$USER` could start it, and the
      letter after that `$` differs. */
  lemma TargetFirstAfterPlaceholder()
    ensures IndexOf(BaseReply, TargetPlaceholder) == Some(|"*" + UserPlaceholder + Slaps|)
  {
    var before := "*" + UserPlaceholder + Slaps;
    var s := BaseReply;
    assert s == before + TargetPlaceholder + Tail;
    assert s[|before|..|before| + |TargetPlaceholder|] == TargetPlaceholder;
    assert OccursAt(s, TargetPlaceholder, |before|);
    assert forall j :: 0 <= j < 13 && j != 1 ==> before[j] != '$';
    forall j: nat | j < |before| ensures !OccursAt(s, TargetPlaceholder, j) {
      assert s[j] == before[j];
      if j == 1 {
        assert s[j + 1] == 'U';
        assert TargetPlaceholder[1] == 'T';
        assert s[j..j + |TargetPlaceholder|][1] == s[j + 1];
      }
    }
  }

  lemma TargetStep(shown: string, name: string)
    requires shown == UserPlaceholder || '$' !in shown
    requires '$' !in name
    ensures ReplaceFirst("*" + shown + Slaps + TargetPlaceholder + Tail, TargetPlaceholder, name)
            == "*" + shown + Slaps + name + Tail
  {
    var before := "*" + shown + Slaps;
    var s := before + TargetPlaceholder + Tail;
    assert "*" + shown + Slaps + TargetPlaceholder + Tail == s;
    if shown == UserPlaceholder {
      TargetFirstAfterPlaceholder();
    } else {
      assert '$' !in Slaps;
      assert '$' !in before;
      FirstOccurrence(before, TargetPlaceholder, Tail);
    }
    ReplaceFirstAt(s, TargetPlaceholder, name, |before|);
    assert s[..|before|] == before;
    assert s[|before| + |TargetPlaceholder|..] == Tail;
  }

  /** For names without `$`, the issuer's name stands where `$USER` was
      exactly when there is an issuer, the target's where `$TARGET` was
      exactly when a target is given, and each placeholder otherwise stays
      as it is; nothing else of the line changes. */
  lemma ReplyCases(user: Option<Member>, target: Option<Member>)
    requires '$' !in UserName(user) && '$' !in TargetName(target)
    ensures Reply(user, target)
            == "*" + (if user.Some? then UserName(user) else UserPlaceholder) + Slaps
               + (if target.Some? then TargetName(target) else TargetPlaceholder) + Tail
  {
    var shown := if user.Some? then UserName(user) else UserPlaceholder;
    if user.Some? {
      UserStep(UserName(user));
    }
    if target.Some? {
      TargetStep(shown, TargetName(target));
    }
  }

  /** The issuer's "Someone" never reaches the reply: without an issuer
      `$USER` is not replaced at all. */
  lemma IssuerFallbackUnused(target: Option<Member>)
    requires '$' !in TargetName(target)
    ensures StartsWith(Reply(None, target), "*" + UserPlaceholder + Slaps)
    ensures UserName(None) == "Someone"
  {
    ReplyCases(None, target);
    var shownTarget := if target.Some? then TargetName(target) else TargetPlaceholder;
    PrefixStartsWith("*" + UserPlaceholder + Slaps, shownTarget + Tail);
  }
}

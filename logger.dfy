/** The logger of src/util/logger.ts: a level gate, a queue of cards held
    back until `start`, and the channel the cards are sent to. The console
    output and the caller lookup through the stack are not modelled. */
module Logging {
  import opened Common

  datatype LogLevel = Fatal | Trace | Error | Warn | Info | Verbose | Debug | Silly

  /** The numeric value of the enum (lines 13-22). */
  function Rank(l: LogLevel): (n: nat)
    ensures n <= 7
  {
    match l
    case Fatal => 0
    case Trace => 1
    case Error => 2
    case Warn => 3
    case Info => 4
    case Verbose => 5
    case Debug => 6
    case Silly => 7
  }

  /** The enum members in declaration order. */
  const Levels: seq<LogLevel> := [Fatal, Trace, Error, Warn, Info, Verbose, Debug, Silly]

  /** The numbering is the declaration order and tells the levels apart. */
  lemma LevelsInOrder(l: LogLevel)
    ensures Rank(l) < |Levels| && Levels[Rank(l)] == l
    ensures forall i :: 0 <= i < |Levels| ==> Rank(Levels[i]) == i
  {
  }

  /** The level from a configured number (`config.logLevel`), when it names
      one. */
  function LevelOf(n: int): (l: Option<LogLevel>)
    ensures l.Some? <==> 0 <= n <= 7
    ensures l.Some? ==> Rank(l.value) == n
  {
    if 0 <= n < |Levels| then Some(Levels[n]) else None
  }

  /** `LogLevel[level]`: the member's name. */
  function LevelName(l: LogLevel): string
  {
    match l
    case Fatal => "Fatal"
    case Trace => "Trace"
    case Error => "Error"
    case Warn => "Warn"
    case Info => "Info"
    case Verbose => "Verbose"
    case Debug => "Debug"
    case Silly => "Silly"
  }

  /** The names are all different. */
  lemma LevelNamesDistinct(a: LogLevel, b: LogLevel)
    ensures LevelName(a) == LevelName(b) <==> a == b
  {
  }

  const Red := "#FF0000"
  const Yellow := "#FFFF00"
  const Green := "#8AE234"
  const Purple := "#800080"
  const Blue := "#729FCF"

  /** `getLevelColor` (lines 98-113). */
  function LevelColor(l: LogLevel): string
  {
    match l
    case Fatal => Red
    case Trace => Red
    case Error => Red
    case Warn => Yellow
    case Verbose => Green
    case Silly => Purple
    case _ => Blue
  }

  /** Red marks exactly the three most severe levels; Info and Debug share
      the default blue; every other level has a colour of its own. */
  lemma LevelColorBySeverity(l: LogLevel)
    ensures LevelColor(l) == Red <==> Rank(l) <= 2
    ensures LevelColor(l) == Blue <==> l == Info || l == Debug
    ensures LevelColor(l) == Yellow <==> l == Warn
    ensures LevelColor(l) == Green <==> l == Verbose
    ensures LevelColor(l) == Purple <==> l == Silly
  {
  }

  /** A log card: colour, title, description and timestamp (lines 198-222;
      the Method and Filename fields come from the stack and are left out). */
  datatype Card = Card(level: LogLevel, color: string, title: string, description: string, timestamp: int)

  const CardSuffix := " - SerenityOS/discord-bot"
  const FenceOpen := "```javascript\n"
  const FenceClose := "```"

  /** The card's title is the level's name in capitals followed by the
      repository; its description is the message in a javascript code
      block. */
  function MakeCard(level: LogLevel, msg: string, now: int): (c: Card)
    ensures c.level == level && c.color == LevelColor(level) && c.timestamp == now
    ensures StartsWith(c.title, Upper(LevelName(level))) && EndsWith(c.title, CardSuffix)
    ensures |c.title| == |LevelName(level)| + |CardSuffix|
    ensures |c.description| == |FenceOpen| + |msg| + |FenceClose|
    ensures c.description[..|FenceOpen|] == FenceOpen && EndsWith(c.description, FenceClose)
    ensures c.description[|FenceOpen|..|c.description| - |FenceClose|] == msg
  {
    var title := Upper(LevelName(level)) + CardSuffix;
    var description := FenceOpen + msg + FenceClose;
    assert title[..|Upper(LevelName(level))|] == Upper(LevelName(level));
    assert title[|title| - |CardSuffix|..] == CardSuffix;
    assert description[..|FenceOpen|] == FenceOpen;
    assert description[|description| - |FenceClose|..] == FenceClose;
    assert description[|FenceOpen|..|description| - |FenceClose|] == msg;
    Card(level, LevelColor(level), title, description, now)
  }

  /** The title of a card tells its level. */
  lemma CardTitleNamesLevel(a: LogLevel, b: LogLevel, msg: string, now: int)
    ensures MakeCard(a, msg, now).title == MakeCard(b, msg, now).title <==> a == b
  {
    if MakeCard(a, msg, now).title == MakeCard(b, msg, now).title {
      var ua, ub := Upper(LevelName(a)), Upper(LevelName(b));
      assert |ua| == |ub| by {
        assert (ua + CardSuffix)[..|ua|] == ua;
      }
      assert ua == (ua + CardSuffix)[..|ua|] == (ub + CardSuffix)[..|ub|] == ub;
      UpperNamesDistinct(a, b);
    }
  }

  lemma UpperNamesDistinct(a: LogLevel, b: LogLevel)
    requires Upper(LevelName(a)) == Upper(LevelName(b))
    ensures a == b
  {
    LowerOfUpper(LevelName(a));
    LowerOfUpper(LevelName(b));
    LowerNamesDistinct(a, b);
  }

  lemma LowerNamesDistinct(a: LogLevel, b: LogLevel)
    requires Lower(LevelName(a)) == Lower(LevelName(b))
    ensures a == b
  {
    var la, lb := Lower(LevelName(a)), Lower(LevelName(b));
    assert |la| == |LevelName(a)| && |lb| == |LevelName(b)|;
    assert la[0] == LowerChar(LevelName(a)[0]) && lb[0] == LowerChar(LevelName(b)[0]);
    if |la| >= 2 {
      assert la[1] == LowerChar(LevelName(a)[1]) && lb[1] == LowerChar(LevelName(b)[1]);
    }
  }

  /** `toUpperCase` on ASCII letters; every other character is kept. */
  function UpperChar(c: char): (r: char)
    ensures !('a' <= r <= 'z')
    ensures 'a' <= c <= 'z' || r == c
  {
    if 'a' <= c <= 'z' then (c as int - 32) as char else c
  }

  function Upper(s: string): (r: string)
    ensures |r| == |s|
    ensures forall i :: 0 <= i < |s| ==> r[i] == UpperChar(s[i])
  {
    if s == [] then [] else [UpperChar(s[0])] + Upper(s[1..])
  }

  /** Upper-casing only changes the case of letters: lower-casing undoes it. */
  lemma LowerOfUpper(s: string)
    ensures Lower(Upper(s)) == Lower(s)
  {
    var u := Upper(s);
    forall i | 0 <= i < |s| ensures Lower(u)[i] == Lower(s)[i] {
      assert Lower(u)[i] == LowerChar(UpperChar(s[i]));
    }
  }

  // ---- ordering the queue by timestamp (line 45) -----------------------------

  predicate SortedByTime(s: seq<Card>)
  {
    forall i, j :: 0 <= i < j < |s| ==> s[i].timestamp <= s[j].timestamp
  }

  /** `c` placed before the first card that is not earlier than it. */
  function InsertByTime(c: Card, s: seq<Card>): (r: seq<Card>)
    requires SortedByTime(s)
    ensures SortedByTime(r) && multiset(r) == multiset(s) + multiset{c}
    ensures forall x :: x in r ==> x == c || x in s
  {
    if s == [] then [c]
    else if c.timestamp <= s[0].timestamp then [c] + s
    else
      var t := InsertByTime(c, s[1..]);
      assert s == [s[0]] + s[1..];
      forall x | x in t ensures s[0].timestamp <= x.timestamp {
        if x != c {
          var k :| 0 <= k < |s[1..]| && s[1..][k] == x;
          assert s[k + 1] == x;
        }
      }
      ConsSorted(s[0], t);
      [s[0]] + t
  }

  lemma ConsSorted(h: Card, t: seq<Card>)
    requires SortedByTime(t) && forall x :: x in t ==> h.timestamp <= x.timestamp
    ensures SortedByTime([h] + t)
  {
    var r := [h] + t;
    forall i, j | 0 <= i < j < |r| ensures r[i].timestamp <= r[j].timestamp {
      assert r[j] == t[j - 1];
      if i > 0 {
        assert r[i] == t[i - 1];
      } else {
        assert t[j - 1] in t;
      }
    }
  }

  /** `startupQueue.sort` by timestamp, as an insertion sort. */
  function SortByTime(s: seq<Card>): (r: seq<Card>)
    ensures SortedByTime(r) && multiset(r) == multiset(s) && |r| == |s|
  {
    if s == [] then []
    else
      var t := SortByTime(s[1..]);
      assert s == [s[0]] + s[1..];
      InsertByTime(s[0], t)
  }

  // ---- the logger object -----------------------------------------------------

  class Logger {
    var running: bool
    var startupQueue: seq<Card>
    /** Whether `setClient` found the log channel. */
    var hasChannel: bool
    var level: LogLevel
    /** The cards sent to the log channel, in order. */
    var sent: seq<Card>

    constructor (configured: LogLevel)
      ensures !running && startupQueue == [] && !hasChannel && level == configured && sent == []
    {
      running := false;
      startupQueue := [];
      hasChannel := false;
      level := configured;
      sent := [];
    }

    /** `setClient` after the guild and channel lookups: the channel exists
        only when both ids are configured and the lookup found it. */
    method SetChannel(found: bool)
      modifies this
      ensures hasChannel == found
      ensures running == old(running) && startupQueue == old(startupQueue)
      ensures level == old(level) && sent == old(sent)
    {
      hasChannel := found;
    }

    /** `setLevel` (lines 90-92): only the level changes. */
    method SetLevel(l: LogLevel)
      modifies this
      ensures level == l
      ensures running == old(running) && startupQueue == old(startupQueue)
      ensures hasChannel == old(hasChannel) && sent == old(sent)
    {
      level := l;
    }

    /** `start` (lines 36-49): the queue is sorted oldest first and sent,
        then emptied. Without a channel the first send throws, so the
        sorted queue stays and nothing goes out. */
    method Start()
      modifies this
      ensures running && hasChannel == old(hasChannel) && level == old(level)
      ensures hasChannel ==> startupQueue == [] && sent == old(sent) + SortByTime(old(startupQueue))
      ensures !hasChannel ==> startupQueue == SortByTime(old(startupQueue)) && sent == old(sent)
    {
      running := true;
      startupQueue := SortByTime(startupQueue);
      if !hasChannel {
        return;
      }
      sent := sent + startupQueue;
      startupQueue := [];
    }

    /** The gate and queue of `handleLogMessage` (lines 196-229); `msg` is
        the formatted message and `now` the clock. */
    method HandleLogMessage(l: LogLevel, msg: string, now: int)
      modifies this
      ensures (running, hasChannel, level) == old((running, hasChannel, level))
      ensures (startupQueue, sent) == Gate(old(running), old(hasChannel), old(level), old(startupQueue), old(sent), l, MakeCard(l, msg, now))
    {
      if (!hasChannel && running) || Rank(l) > Rank(level) {
        return;
      }
      var card := MakeCard(l, msg, now);
      if !running {
        startupQueue := startupQueue + [card];
        return;
      }
      sent := sent + [card];
    }
  }

  /** Where an accepted card goes: the queue before `start`, the channel
      after it; nothing when the level is above the logger's or when the
      logger runs without a channel. */
  function Gate(running: bool, hasChannel: bool, level: LogLevel, queue: seq<Card>, sent: seq<Card>,
                l: LogLevel, card: Card): (r: (seq<Card>, seq<Card>))
  {
    if (!hasChannel && running) || Rank(l) > Rank(level) then (queue, sent)
    else if !running then (queue + [card], sent)
    else (queue, sent + [card])
  }

  /** The gate in terms of the outcome: a message above the level is never
      kept; before `start` every other card is queued, channel or not;
      after `start` it is sent exactly when there is a channel. */
  lemma GateOutcome(running: bool, hasChannel: bool, level: LogLevel, queue: seq<Card>, sent: seq<Card>,
                    l: LogLevel, card: Card)
    ensures Rank(l) > Rank(level) ==> Gate(running, hasChannel, level, queue, sent, l, card) == (queue, sent)
    ensures Rank(l) <= Rank(level) && !running ==> Gate(running, hasChannel, level, queue, sent, l, card) == (queue + [card], sent)
    ensures Rank(l) <= Rank(level) && running ==>
              Gate(running, hasChannel, level, queue, sent, l, card) == (queue, if hasChannel then sent + [card] else sent)
    ensures running ==> Gate(running, hasChannel, level, queue, sent, l, card).0 == queue
  {
  }
}

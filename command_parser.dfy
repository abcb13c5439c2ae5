/** The legacy text-command parser of src/models/commandParser.ts: the
    prefix is cut off, mentions are removed, the rest is trimmed and split
    on runs of spaces; the first token, lower-cased, is the command name. */
module CommandParser {
  import opened Common

  datatype ParsedCommand = ParsedCommand(parsedCommandName: string, args: seq<string>)

  /** Length of the run of spaces at the start of `s`. */
  function SpaceRun(s: string): (k: nat)
    ensures k <= |s|
    ensures forall i :: 0 <= i < k ==> s[i] == ' '
    ensures k < |s| ==> s[k] != ' '
  {
    if s != [] && s[0] == ' ' then 1 + SpaceRun(s[1..]) else 0
  }

  /** `s.split(/ +/g)`: the pieces between maximal runs of spaces. */
  function SplitSpaces(s: string): (parts: seq<string>)
    ensures |parts| >= 1
    decreases |s|
  {
    match IndexOf(s, " ")
    case None => [s]
    case Some(i) =>
      var k := SpaceRun(s[i..]);
      [s[..i]] + SplitSpaces(s[i + k..])
  }

  /** The text with every maximal run of spaces replaced by one space: the
      words of `s` separated by single spaces. */
  function Squeeze(s: string): (r: string)
    ensures r == [] <==> s == []
    ensures r != [] ==> (r[0] == ' ' <==> s[0] == ' ')
    ensures forall i, j :: 0 <= i && j == i + 1 && j < |r| ==> !(r[i] == ' ' && r[j] == ' ')
    decreases |s|
  {
    if s == [] then []
    else if s[0] == ' ' then
      var rest := Squeeze(s[SpaceRun(s)..]);
      assert forall i :: 1 <= i <= |rest| ==> (" " + rest)[i] == rest[i - 1];
      " " + rest
    else
      var rest := Squeeze(s[1..]);
      assert forall i :: 1 <= i <= |rest| ==> ([s[0]] + rest)[i] == rest[i - 1];
      [s[0]] + rest
  }

  /** A space-free start of the text is kept as it is. */
  lemma {:induction false} SqueezeWord(s: string, i: nat)
    requires i <= |s| && ' ' !in s[..i]
    ensures Squeeze(s) == s[..i] + Squeeze(s[i..])
    decreases i
  {
    if i > 0 {
      NoSpaceTail(s, i);
      SqueezeWord(s[1..], i - 1);
      assert s[1..][i - 1..] == s[i..];
      assert s[..i] == [s[0]] + s[1..][..i - 1];
      AppendAssoc([s[0]], s[1..][..i - 1], Squeeze(s[i..]));
    } else {
      assert s[..i] == [] && s[i..] == s;
    }
  }

  lemma NoSpaceTail(s: string, i: nat)
    requires 0 < i <= |s| && ' ' !in s[..i]
    ensures s[0] != ' ' && ' ' !in s[1..][..i - 1]
  {
    assert s[0] == s[..i][0];
    assert forall c :: c in s[1..][..i - 1] ==> c in s[..i] by {
      assert s[1..][..i - 1] == s[..i][1..];
    }
  }

  /** The text with every space removed. */
  function RemoveSpaces(s: string): (r: string)
    ensures ' ' !in r
  {
    if s == [] then [] else (if s[0] == ' ' then [] else [s[0]]) + RemoveSpaces(s[1..])
  }

  lemma {:induction false} RemoveSpacesAppend(a: string, b: string)
    ensures RemoveSpaces(a + b) == RemoveSpaces(a) + RemoveSpaces(b)
  {
    if a != [] {
      assert (a + b)[1..] == a[1..] + b;
      RemoveSpacesAppend(a[1..], b);
    } else {
      assert a + b == b;
    }
  }

  lemma {:induction false} RemoveSpacesOfSpaces(s: string)
    requires forall i :: 0 <= i < |s| ==> s[i] == ' '
    ensures RemoveSpaces(s) == []
  {
    if s != [] {
      RemoveSpacesOfSpaces(s[1..]);
    }
  }

  lemma {:induction false} RemoveSpacesNone(s: string)
    requires ' ' !in s
    ensures RemoveSpaces(s) == s
  {
    if s != [] {
      RemoveSpacesNone(s[1..]);
    }
  }

  /** No piece of the split contains a space. */
  lemma {:induction false} SplitSpacesNoSpace(s: string)
    ensures forall p :: p in SplitSpaces(s) ==> ' ' !in p
    decreases |s|
  {
    IndexOfChar(s, ' ');
    match IndexOf(s, " ")
    case None =>
      assert SplitSpaces(s) == [s];
    case Some(i) =>
      var k := SpaceRun(s[i..]);
      var rest := SplitSpaces(s[i + k..]);
      SplitSpacesNoSpace(s[i + k..]);
      assert SplitSpaces(s) == [s[..i]] + rest;
      assert forall p :: p in [s[..i]] + rest ==> p == s[..i] || p in rest;
  }

  /** The pieces, put back together, are the text without its spaces, in
      the original order and case; joined with single spaces they are the
      text with each run of spaces squeezed to one, so the cuts fall
      exactly at the runs of spaces. */
  lemma {:induction false} SplitSpacesConcat(s: string)
    ensures Concat(SplitSpaces(s)) == RemoveSpaces(s)
    ensures Join(SplitSpaces(s), " ") == Squeeze(s)
    decreases |s|
  {
    match IndexOf(s, " ")
    case None =>
      SplitSpacesNoSpace(s);
      assert SplitSpaces(s) == [s];
      assert Concat([s]) == s + Concat([]);
      RemoveSpacesNone(s);
      IndexOfChar(s, ' ');
      SqueezeWord(s, |s|);
      assert s[..|s|] == s && s[|s|..] == [];
    case Some(i) =>
      var k := SpaceRun(s[i..]);
      var rest := s[i + k..];
      var tail := SplitSpaces(rest);
      assert SplitSpaces(s) == [s[..i]] + tail;
      SplitSpacesConcat(rest);
      IndexOfChar(s, ' ');
      SplitStep(s, i, k, tail);
      JoinCons(s[..i], tail, " ");
      assert s[i] == ' ' by { assert OccursAt(s, " ", i); assert s[i..i + 1] == " "; }
      SqueezeStep(s, i, k);
  }

  lemma JoinCons(head: string, tail: seq<string>, sep: string)
    requires |tail| >= 1
    ensures Join([head] + tail, sep) == head + sep + Join(tail, sep)
  {
    assert ([head] + tail)[1..] == tail;
  }

  lemma SqueezeStep(s: string, i: nat, k: nat)
    requires i + k <= |s| && ' ' !in s[..i] && i < |s| && s[i] == ' '
    requires k == SpaceRun(s[i..])
    ensures Squeeze(s) == s[..i] + " " + Squeeze(s[i + k..])
  {
    SqueezeWord(s, i);
    var t := s[i..];
    SqueezeSpaces(t);
    assert t[k..] == s[i + k..];
    AppendAssoc(s[..i], " ", Squeeze(s[i + k..]));
  }

  /** A leading run of spaces squeezes to one space. */
  lemma SqueezeSpaces(t: string)
    requires t != [] && t[0] == ' '
    ensures Squeeze(t) == " " + Squeeze(t[SpaceRun(t)..])
  {
  }

  lemma AppendAssoc(a: string, b: string, c: string)
    ensures a + (b + c) == a + b + c
  {
  }

  /** The split is the only way to read the text as space-free words
      separated by single spaces. */
  lemma SplitSpacesUnique(s: string, words: seq<string>)
    requires |words| >= 1 && forall w :: w in words ==> ' ' !in w
    requires Join(words, " ") == Squeeze(s)
    ensures words == SplitSpaces(s)
  {
    SplitSpacesConcat(s);
    SplitSpacesNoSpace(s);
    SplitJoin(words, ' ');
    SplitJoin(SplitSpaces(s), ' ');
  }

  lemma SplitStep(s: string, i: nat, k: nat, tail: seq<string>)
    requires i + k <= |s| && ' ' !in s[..i]
    requires forall j :: i <= j < i + k ==> s[j] == ' '
    requires Concat(tail) == RemoveSpaces(s[i + k..])
    ensures Concat([s[..i]] + tail) == RemoveSpaces(s)
  {
    var head, gap, rest := s[..i], s[i..i + k], s[i + k..];
    ConcatCons(head, tail);
    RemoveSpacesNone(head);
    RemoveSpacesOfSpaces(gap);
    RemoveSpacesOfThree(head, gap, rest);
    SliceInThree(s, i, k);
  }

  lemma ConcatCons(head: string, tail: seq<string>)
    ensures Concat([head] + tail) == head + Concat(tail)
  {
    assert ([head] + tail)[1..] == tail;
  }

  lemma RemoveSpacesOfThree(a: string, b: string, c: string)
    ensures RemoveSpaces(a + b + c) == RemoveSpaces(a) + RemoveSpaces(b) + RemoveSpaces(c)
  {
    RemoveSpacesAppend(a, b);
    RemoveSpacesAppend(a + b, c);
  }

  lemma SliceInThree(s: string, i: nat, k: nat)
    requires i + k <= |s|
    ensures s[..i] + s[i..i + k] + s[i + k..] == s
  {
  }

  lemma SplitSpacesEmpty()
    ensures SplitSpaces("") == [""]
  {
    assert IndexOf("", " ") == None;
  }

  /** When the text neither starts nor ends with a space, no piece is
      empty unless the text itself is. */
  lemma {:induction false} SplitSpacesNonEmpty(s: string)
    requires s != [] && s[0] != ' ' && s[|s| - 1] != ' '
    ensures forall p :: p in SplitSpaces(s) ==> p != []
    decreases |s|
  {
    match IndexOf(s, " ")
    case None =>
    case Some(i) =>
      var k := SpaceRun(s[i..]);
      assert i > 0;
      assert i + k < |s|;
      var rest := s[i + k..];
      assert rest[0] != ' ';
      SplitSpacesNonEmpty(rest);
  }

  /** The pieces of a trimmed text are non-empty words without spaces. */
  lemma TrimmedPieces(text: string)
    requires text == [] || (!IsJsWhitespace(text[0]) && !IsJsWhitespace(text[|text| - 1]))
    ensures forall p :: p in SplitSpaces(text) ==> ' ' !in p
    ensures text != [] ==> forall p :: p in SplitSpaces(text) ==> p != []
  {
    SplitSpacesNoSpace(text);
    if text != [] {
      SplitSpacesNonEmpty(text);
    }
  }

  /** `new CommandParser(client, message, prefix)`: the first
      `prefixLength` characters are dropped whatever they are;
      `stripMentions` stands for removing the user mentions. */
  function Parse(content: string, prefixLength: nat, stripMentions: string -> string): (r: ParsedCommand)
    ensures forall i :: 0 <= i < |r.parsedCommandName| ==> !('A' <= r.parsedCommandName[i] <= 'Z')
    ensures forall a :: a in r.args ==> a != [] && ' ' !in a
    ensures Trim(stripMentions(DropFirst(content, prefixLength))) == [] ==> r == ParsedCommand("", [])
    ensures exists first :: ' ' !in first && Lower(first) == r.parsedCommandName
              && Join([first] + r.args, " ") == Squeeze(Trim(stripMentions(DropFirst(content, prefixLength))))
  {
    ParseWords(Trim(stripMentions(DropFirst(content, prefixLength))))
  }

  /** The command name and arguments read from the trimmed text. */
  function ParseWords(text: string): (r: ParsedCommand)
    requires text == [] || (!IsJsWhitespace(text[0]) && !IsJsWhitespace(text[|text| - 1]))
    ensures forall i :: 0 <= i < |r.parsedCommandName| ==> !('A' <= r.parsedCommandName[i] <= 'Z')
    ensures forall a :: a in r.args ==> a != [] && ' ' !in a
    ensures text == [] ==> r == ParsedCommand("", [])
    ensures exists first :: ' ' !in first && Lower(first) == r.parsedCommandName
              && Join([first] + r.args, " ") == Squeeze(text)
  {
    var parts := SplitSpaces(text);
    TrimmedWords(text);
    ParsedCommand(Lower(parts[0]), parts[1..])
  }

  /** A trimmed text splits into a first word and non-empty words after it,
      which joined with single spaces give the text back, squeezed. */
  lemma TrimmedWords(text: string)
    requires text == [] || (!IsJsWhitespace(text[0]) && !IsJsWhitespace(text[|text| - 1]))
    ensures var parts := SplitSpaces(text);
            |parts| >= 1 && ' ' !in parts[0]
            && (forall a :: a in parts[1..] ==> a != [] && ' ' !in a)
            && (text == [] ==> parts == [""])
            && Join([parts[0]] + parts[1..], " ") == Squeeze(text)
  {
    var parts := SplitSpaces(text);
    TrimmedPieces(text);
    SplitSpacesEmpty();
    SplitSpacesConcat(text);
    assert [parts[0]] + parts[1..] == parts;
    assert forall a :: a in parts[1..] ==> a in parts;
  }

  /** The command name and the arguments together are the words of the
      message, in order: lower-casing only touches the name. Any reading of
      the text as space-free words separated by single spaces gives the
      name as the first word lower-cased and the arguments as the rest. */
  lemma ParseKeepsWords(content: string, prefixLength: nat, stripMentions: string -> string)
    ensures var r := Parse(content, prefixLength, stripMentions);
            exists first :: Lower(first) == r.parsedCommandName
              && first + Concat(r.args) == RemoveSpaces(Trim(stripMentions(DropFirst(content, prefixLength))))
    ensures var r := Parse(content, prefixLength, stripMentions);
            forall words ::
              (|words| >= 1 && (forall w :: w in words ==> ' ' !in w)
               && Join(words, " ") == Squeeze(Trim(stripMentions(DropFirst(content, prefixLength)))))
              ==> r.parsedCommandName == Lower(words[0]) && r.args == words[1..]
  {
    var text := Trim(stripMentions(DropFirst(content, prefixLength)));
    var parts := SplitSpaces(text);
    var r := Parse(content, prefixLength, stripMentions);
    assert r == ParsedCommand(Lower(parts[0]), parts[1..]);
    SplitSpacesConcat(text);
    assert Concat(parts) == parts[0] + Concat(parts[1..]);
    ParseWordsUnique(text, parts);
  }

  lemma ParseWordsUnique(text: string, parts: seq<string>)
    requires parts == SplitSpaces(text)
    ensures forall words ::
              (|words| >= 1 && (forall w :: w in words ==> ' ' !in w) && Join(words, " ") == Squeeze(text))
              ==> words == parts
  {
    forall words | |words| >= 1 && (forall w :: w in words ==> ' ' !in w) && Join(words, " ") == Squeeze(text)
      ensures words == parts
    {
      SplitSpacesUnique(text, words);
    }
  }

  /** The prefix characters are never inspected: two messages that agree
      after the first `prefixLength` characters parse alike. */
  lemma ParseIgnoresPrefixText(c1: string, c2: string, prefixLength: nat, stripMentions: string -> string)
    requires |c1| >= prefixLength && |c2| >= prefixLength
    requires c1[prefixLength..] == c2[prefixLength..]
    ensures Parse(c1, prefixLength, stripMentions) == Parse(c2, prefixLength, stripMentions)
  {
  }

  // ---- what a legacy command sends (lines 44-57) --------------------------

  datatype QueryField = QueryField(name: string, value: string, inline: bool)

  /** The embed a legacy command builds on `embed()`; the timestamp is left
      out. */
  datatype QueryEmbed = QueryEmbed(
    footer: string, color: string, title: string, url: string, description: string,
    fields: seq<QueryField>, author: Option<string>, thumbnail: Option<string>)

  /** A message sent to the channel with `send`. */
  datatype Sent = SentText(text: string) | SentEmbed(embed: QueryEmbed)

  /** `embed()`: an empty embed with the "Query by" footer. */
  function BaseEmbed(username: string): (e: QueryEmbed)
    ensures e.footer == "Query by " + username && e.fields == [] && e.author.None? && e.thumbnail.None?
  {
    QueryEmbed("Query by " + username, "", "", "", "", [], None, None)
  }

  /** An emoji or `null` placed in a template literal. */
  function EmojiText(emoji: Option<string>): (t: string)
    ensures emoji.None? ==> t == "null"
    ensures emoji.Some? ==> t == emoji.value
  {
    if emoji.Some? then emoji.value else "null"
  }
}

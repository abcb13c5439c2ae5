/** The BrainYak interpreter of src/commands/brainYakCommand.ts: Brainfuck
    written with eight `:yak…:` emoji tokens. The interpreter is a class
    whose fields the tokenizer, the parser and the tape machine update; each
    of its methods is proved against a function on values. The two-second
    wall clock is replaced by a budget of checks (see README). */
module BrainYak {
  import opened Common

  const TapeSize: nat := 512

  const UnmatchedBrain := "Unmatched ':yakbrain:'"
  const UnmatchedTangle := "Unmatched ':yaktangle:'"
  const TimeExceeded := "Execution stopped due to total time of execution exceeding 2 seconds"
  const RightEdge := "Can't go right on tape when on its rightmost cell"
  const LeftEdge := "Can't go left on tape when on its leftmost cell"
  const NotAscii := "Expected an ascii character as input"

  /** The token table, in the order `for … in` visits it (lines 38-47). */
  const YakMap: seq<(string, char)> := [
    (":yakplus:", '+'), (":yakminus:", '-'), (":yakoverflow:", '>'), (":yakchain:", '<'),
    (":yakbrain:", '['), (":yaktangle:", ']'), (":yaksplode:", '.'), (":yakmagnet:", ',')]

  const Symbols := "+-><[].,"

  // ---- tokens (lines 65-76) -------------------------------------------------

  /** The first entry of the table, from `j` on, whose key starts the text. */
  function KeyFrom(text: string, j: nat): (r: Option<nat>)
    requires j <= |YakMap|
    ensures r.Some? ==> j <= r.value < |YakMap| && StartsWith(text, YakMap[r.value].0)
    ensures r.None? ==> forall k :: j <= k < |YakMap| ==> !StartsWith(text, YakMap[k].0)
    decreases |YakMap| - j
  {
    if j == |YakMap| then None
    else if StartsWith(text, YakMap[j].0) then Some(j)
    else KeyFrom(text, j + 1)
  }

  /** The next token and the text left after it; text that starts no token
      is skipped one character at a time. */
  function NextToken(text: string): (r: (Option<char>, string))
    ensures |r.1| <= |text| && r.1 == text[|text| - |r.1|..]
    ensures r.0.Some? ==> |r.1| < |text| && r.0.value in Symbols
    ensures r.0.None? ==> r.1 == []
    decreases |text|
  {
    if text == [] then (None, [])
    else
      match KeyFrom(text, 0)
      case Some(j) =>
        SymbolOfKey(j);
        (Some(YakMap[j].1), text[|YakMap[j].0|..])
      case None =>
        var r := NextToken(text[1..]);
        SuffixOfTail(text, r.1);
        r
  }

  lemma SymbolOfKey(j: nat)
    requires j < |YakMap|
    ensures YakMap[j].1 in Symbols
  {
  }

  lemma SuffixOfTail(text: string, u: string)
    requires text != [] && |u| <= |text| - 1 && u == text[1..][|text| - 1 - |u|..]
    ensures u == text[|text| - |u|..]
  {
    assert text[1..][|text| - 1 - |u|..] == text[|text| - |u|..];
  }

  // ---- programs (lines 21-35, 78-121) ---------------------------------------

  datatype Instruction = Increment | Decrement | Right | Left | Loop(children: seq<Instruction>) | Put | Get

  /** What a parsing step yields: a value and the text left, or the error
      thrown. */
  datatype Parsed<T> = Parsed(value: T, rest: string) | SyntaxError(message: string)

  /** `parse_instruction`: `None` stands for the End instruction. */
  function ParseToken(token: Option<char>, text: string): (r: Parsed<Option<Instruction>>)
    ensures r.Parsed? ==> |r.rest| <= |text|
    ensures r.Parsed? && token.Some? && token.value in Symbols ==> r.value.Some?
    ensures token.None? ==> r == Parsed(None, text)
    decreases |text|, 1
  {
    if token == Some('+') then Parsed(Some(Increment), text)
    else if token == Some('-') then Parsed(Some(Decrement), text)
    else if token == Some('>') then Parsed(Some(Right), text)
    else if token == Some('<') then Parsed(Some(Left), text)
    else if token == Some('[') then ParseBody(text, [])
    else if token == Some(']') then SyntaxError(UnmatchedTangle)
    else if token == Some('.') then Parsed(Some(Put), text)
    else if token == Some(',') then Parsed(Some(Get), text)
    else Parsed(None, text)
  }

  /** The loop of lines 92-99: the instructions of a `:yakbrain:` up to its
      `:yaktangle:`, after `acc`. */
  function ParseBody(text: string, acc: seq<Instruction>): (r: Parsed<Option<Instruction>>)
    ensures r.Parsed? ==> |r.rest| < |text| && r.value.Some? && r.value.value.Loop?
    decreases |text|, 0
  {
    var (token, rest) := NextToken(text);
    if token.None? then SyntaxError(UnmatchedBrain)
    else if token == Some(']') then Parsed(Some(Loop(acc)), rest)
    else
      match ParseToken(token, rest)
      case SyntaxError(e) => SyntaxError(e)
      case Parsed(i, rest2) => ParseBody(rest2, acc + [i.value])
  }

  /** `parse`: instructions until End, after `acc`. */
  function ParseAll(text: string, acc: seq<Instruction>): (r: Parsed<seq<Instruction>>)
    decreases |text|
  {
    var (token, rest) := NextToken(text);
    match ParseToken(token, rest)
    case SyntaxError(e) => SyntaxError(e)
    case Parsed(None, rest2) => Parsed(acc, rest2)
    case Parsed(Some(i), rest2) => ParseAll(rest2, acc + [i])
  }

  // ---- writing a program back as text ----------------------------------------

  function Key(i: Instruction): string
    requires !i.Loop?
  {
    match i
    case Increment => ":yakplus:"
    case Decrement => ":yakminus:"
    case Right => ":yakoverflow:"
    case Left => ":yakchain:"
    case Put => ":yaksplode:"
    case Get => ":yakmagnet:"
  }

  /** The text of a program in the emoji tokens. */
  function Emit(i: Instruction): string
  {
    match i
    case Loop(cs) => ":yakbrain:" + EmitSeq(cs) + ":yaktangle:"
    case _ => Key(i)
  }

  function EmitSeq(s: seq<Instruction>): string
  {
    if s == [] then "" else Emit(s[0]) + EmitSeq(s[1..])
  }

  /** The keys are told apart by their fifth and sixth characters. */
  lemma KeysDiffer()
    ensures forall i, j :: 0 <= i < |YakMap| && 0 <= j < |YakMap| && i != j ==>
              |YakMap[i].0| >= 6 && |YakMap[j].0| >= 6
              && (YakMap[i].0[4] != YakMap[j].0[4] || YakMap[i].0[5] != YakMap[j].0[5])
  {
  }

  /** A text that starts with a key yields that key's symbol and the text
      after it. */
  lemma TokenizeKey(j: nat, rest: string)
    requires j < |YakMap|
    ensures NextToken(YakMap[j].0 + rest) == (Some(YakMap[j].1), rest)
  {
    var text := YakMap[j].0 + rest;
    assert StartsWith(text, YakMap[j].0) by {
      assert text[..|YakMap[j].0|] == YakMap[j].0;
    }
    KeysDiffer();
    assert text[4] == YakMap[j].0[4] && text[5] == YakMap[j].0[5];
    forall k | 0 <= k < j ensures !StartsWith(text, YakMap[k].0) {
      assert |YakMap[k].0| <= |text| ==> text[..|YakMap[k].0|][4] == text[4] && text[..|YakMap[k].0|][5] == text[5];
    }
    var r := KeyFrom(text, 0);
    assert r == Some(j);
    assert text[|YakMap[j].0|..] == rest;
  }

  lemma TokenizeEmit(i: Instruction, rest: string)
    requires !i.Loop?
    ensures NextToken(Key(i) + rest) == (Some(KeySymbol(i)), rest)
  {
    match i
    case Increment => TokenizeKey(0, rest);
    case Decrement => TokenizeKey(1, rest);
    case Right => TokenizeKey(2, rest);
    case Left => TokenizeKey(3, rest);
    case Put => TokenizeKey(6, rest);
    case Get => TokenizeKey(7, rest);
  }

  function KeySymbol(i: Instruction): char
    requires !i.Loop?
  {
    match i
    case Increment => '+'
    case Decrement => '-'
    case Right => '>'
    case Left => '<'
    case Put => '.'
    case Get => ','
  }

  lemma ParseTokenBasic(i: Instruction, text: string)
    requires !i.Loop?
    ensures ParseToken(Some(KeySymbol(i)), text) == Parsed(Some(i), text)
  {
  }

  lemma ParseTokenOpen(text: string)
    ensures ParseToken(Some('['), text) == ParseBody(text, [])
  {
  }

  /** The text of a loop starts with `:yakbrain:`. */
  lemma LoopText(cs: seq<Instruction>, rest: string)
    ensures Emit(Loop(cs)) + rest == YakMap[4].0 + (EmitSeq(cs) + (":yaktangle:" + rest))
  {
  }

  lemma EmitSeqCons(p: seq<Instruction>, rest: string)
    requires p != []
    ensures EmitSeq(p) + rest == Emit(p[0]) + (EmitSeq(p[1..]) + rest)
  {
  }

  /** Parsing the text of an instruction gives the instruction back. */
  lemma {:induction false} ParseEmit(i: Instruction, rest: string)
    ensures var (token, after) := NextToken(Emit(i) + rest);
            ParseToken(token, after) == Parsed(Some(i), rest)
    decreases i, 1
  {
    match i
    case Loop(cs) =>
      ParseEmitLoop(cs, rest);
    case _ =>
      TokenizeEmit(i, rest);
      ParseTokenBasic(i, rest);
  }

  lemma {:induction false} ParseEmitLoop(cs: seq<Instruction>, rest: string)
    ensures var (token, after) := NextToken(Emit(Loop(cs)) + rest);
            ParseToken(token, after) == Parsed(Some(Loop(cs)), rest)
    decreases Loop(cs), 0
  {
    var body := EmitSeq(cs) + (":yaktangle:" + rest);
    LoopText(cs, rest);
    TokenizeKey(4, body);
    ParseTokenOpen(body);
    ParseBodyEmit(cs, [], rest);
    assert [] + cs == cs;
  }

  lemma CloseText(rest: string)
    ensures EmitSeq([]) + (":yaktangle:" + rest) == YakMap[5].0 + rest
  {
  }

  /** One round of the loop of `ParseBody`. */
  lemma ParseBodyStep(text: string, acc: seq<Instruction>, i: Instruction, rest2: string)
    requires NextToken(text).0.Some? && NextToken(text).0 != Some(']')
    requires ParseToken(NextToken(text).0, NextToken(text).1) == Parsed(Some(i), rest2)
    ensures ParseBody(text, acc) == ParseBody(rest2, acc + [i])
  {
  }

  /** One round of the loop of `ParseAll`. */
  lemma ParseAllStep(text: string, acc: seq<Instruction>, i: Instruction, rest2: string)
    requires ParseToken(NextToken(text).0, NextToken(text).1) == Parsed(Some(i), rest2)
    ensures ParseAll(text, acc) == ParseAll(rest2, acc + [i])
  {
  }

  /** The body of a loop written out and closed parses to the loop. */
  lemma {:induction false} ParseBodyEmit(cs: seq<Instruction>, acc: seq<Instruction>, rest: string)
    ensures ParseBody(EmitSeq(cs) + (":yaktangle:" + rest), acc) == Parsed(Some(Loop(acc + cs)), rest)
    decreases cs, 1
  {
    if cs == [] {
      CloseText(rest);
      TokenizeKey(5, rest);
      assert acc + cs == acc;
    } else {
      ParseBodyEmitAfter(cs, acc, ":yaktangle:" + rest);
      ParseBodyEmit(cs[1..], acc + [cs[0]], rest);
      ShiftFirst(acc, cs);
    }
  }

  /** The loop of `ParseBody` reads the first written-out instruction,
      whatever follows. */
  lemma ParseBodyEmitAfter(cs: seq<Instruction>, acc: seq<Instruction>, rest: string)
    requires cs != []
    ensures ParseBody(EmitSeq(cs) + rest, acc) == ParseBody(EmitSeq(cs[1..]) + rest, acc + [cs[0]])
    decreases cs, 0
  {
    var tail := EmitSeq(cs[1..]) + rest;
    EmitSeqCons(cs, rest);
    ParseEmit(cs[0], tail);
    EmitNotClose(cs[0], tail);
    ParseBodyStep(Emit(cs[0]) + tail, acc, cs[0], tail);
  }

  /** The first token of an instruction's text is never `]`. */
  lemma EmitNotClose(i: Instruction, rest: string)
    ensures NextToken(Emit(i) + rest).0.Some? && NextToken(Emit(i) + rest).0 != Some(']')
  {
    match i
    case Loop(cs) =>
      LoopText(cs, rest);
      TokenizeKey(4, EmitSeq(cs) + (":yaktangle:" + rest));
    case _ =>
      TokenizeEmit(i, rest);
  }

  /** Parsing a written-out program reads it back, then goes on with what
      follows. */
  lemma {:induction false} ParseAllEmit(p: seq<Instruction>, acc: seq<Instruction>, rest: string)
    ensures ParseAll(EmitSeq(p) + rest, acc) == ParseAll(rest, acc + p)
    decreases p
  {
    if p == [] {
      assert EmitSeq(p) + rest == rest;
      assert acc + p == acc;
    } else {
      ParseAllEmitAfter(p, acc, rest);
      ParseAllEmit(p[1..], acc + [p[0]], rest);
      ShiftFirst(acc, p);
    }
  }

  lemma ShiftFirst(acc: seq<Instruction>, p: seq<Instruction>)
    requires p != []
    ensures acc + [p[0]] + p[1..] == acc + p
  {
    assert [p[0]] + p[1..] == p;
  }

  /** The loop of `ParseAll` reads the first written-out instruction. */
  lemma ParseAllEmitAfter(p: seq<Instruction>, acc: seq<Instruction>, rest: string)
    requires p != []
    ensures ParseAll(EmitSeq(p) + rest, acc) == ParseAll(EmitSeq(p[1..]) + rest, acc + [p[0]])
  {
    var tail := EmitSeq(p[1..]) + rest;
    EmitSeqCons(p, rest);
    ParseEmit(p[0], tail);
    ParseAllStep(Emit(p[0]) + tail, acc, p[0], tail);
  }

  lemma ParseAllEnd(acc: seq<Instruction>)
    ensures ParseAll("", acc) == Parsed(acc, "")
  {
    assert NextToken("") == (None, "");
  }

  /** Round trip: a written-out program parses to itself. */
  lemma {:induction false} ParseOfEmit(p: seq<Instruction>)
    ensures ParseAll(EmitSeq(p), []) == Parsed(p, "")
  {
    ParseAllEmit(p, [], "");
    assert EmitSeq(p) + "" == EmitSeq(p);
    assert [] + p == p;
    ParseAllEnd(p);
  }

  /** A `:yakbrain:` whose `:yaktangle:` never comes is an error. */
  lemma {:induction false} UnclosedLoop(cs: seq<Instruction>, acc: seq<Instruction>)
    ensures ParseBody(EmitSeq(cs), acc) == SyntaxError(UnmatchedBrain)
    decreases cs
  {
    if cs == [] {
      ParseBodyEnd(acc);
    } else {
      ParseBodyEmitStep(cs, acc);
      UnclosedLoop(cs[1..], acc + [cs[0]]);
    }
  }

  lemma ParseBodyEnd(acc: seq<Instruction>)
    ensures ParseBody(EmitSeq([]), acc) == SyntaxError(UnmatchedBrain)
  {
    assert NextToken("") == (None, "");
  }

  /** The loop of `ParseBody` reads the first written-out instruction. */
  lemma ParseBodyEmitStep(cs: seq<Instruction>, acc: seq<Instruction>)
    requires cs != []
    ensures ParseBody(EmitSeq(cs), acc) == ParseBody(EmitSeq(cs[1..]), acc + [cs[0]])
  {
    var tail := EmitSeq(cs[1..]);
    assert EmitSeq(cs) == Emit(cs[0]) + tail;
    ParseEmit(cs[0], tail);
    EmitNotClose(cs[0], tail);
    ParseBodyStep(Emit(cs[0]) + tail, acc, cs[0], tail);
  }

  /** A program followed by a `:yaktangle:` of its own does not parse,
      whatever comes after. */
  lemma StrayTangle(p: seq<Instruction>, rest: string)
    ensures ParseAll(EmitSeq(p) + (":yaktangle:" + rest), []) == SyntaxError(UnmatchedTangle)
  {
    ParseAllEmit(p, [], ":yaktangle:" + rest);
    ParseAllTangle([] + p, rest);
  }

  lemma ParseAllTangle(acc: seq<Instruction>, rest: string)
    ensures ParseAll(":yaktangle:" + rest, acc) == SyntaxError(UnmatchedTangle)
  {
    TokenizeKey(5, rest);
  }

  /** A program followed by a `:yakbrain:` left open does not parse. */
  lemma StrayBrain(p: seq<Instruction>, cs: seq<Instruction>)
    ensures ParseAll(EmitSeq(p) + (":yakbrain:" + EmitSeq(cs)), []) == SyntaxError(UnmatchedBrain)
  {
    ParseAllEmit(p, [], ":yakbrain:" + EmitSeq(cs));
    ParseAllOpen(cs, [] + p);
  }

  lemma ParseAllOpen(cs: seq<Instruction>, acc: seq<Instruction>)
    ensures ParseAll(":yakbrain:" + EmitSeq(cs), acc) == SyntaxError(UnmatchedBrain)
  {
    var e := EmitSeq(cs);
    TokenizeKey(4, e);
    assert NextToken(":yakbrain:" + e) == (Some('['), e);
    ParseTokenOpen(e);
    UnclosedLoop(cs, []);
  }

  /** Text that contains no `:` is skipped entirely. */
  lemma {:induction false} TokenizeSkips(junk: string, text: string)
    requires ':' !in junk
    ensures NextToken(junk + text) == NextToken(text)
    decreases |junk|
  {
    if junk != [] {
      var s := junk + text;
      assert s[0] == junk[0] && junk[0] != ':';
      forall k | 0 <= k < |YakMap| ensures !StartsWith(s, YakMap[k].0) {
        assert YakMap[k].0[0] == ':';
        assert |YakMap[k].0| <= |s| ==> s[..|YakMap[k].0|][0] == s[0];
      }
      assert KeyFrom(s, 0).None?;
      assert NextToken(s) == NextToken(s[1..]);
      assert s[1..] == junk[1..] + text;
      TokenizeSkips(junk[1..], text);
    } else {
      assert junk + text == text;
    }
  }

  // ---- the tape machine (lines 51-55, 129-176) -------------------------------

  predicate IsInt8(v: int)
  {
    -128 <= v <= 127
  }

  /** The conversion an `Int8Array` store applies (ToInt8, section 7.1.10 of
      ECMA-262). */
  function ToInt8(x: int): (r: int)
    ensures IsInt8(r) && (r - x) % 256 == 0
    ensures IsInt8(x) ==> r == x
  {
    (x + 128) % 256 - 128
  }

  /** `String.fromCharCode` of a cell: the value taken modulo 2^16. */
  function CellChar(v: int): (c: char)
    requires IsInt8(v)
    ensures c as int == v % 0x1_0000
  {
    (v % 0x1_0000) as char
  }

  datatype Machine = Machine(tape: seq<int>, idx: int, input: string, output: string, budget: nat)

  datatype Exec = Running(m: Machine) | Failed(message: string)

  predicate WellFormed(m: Machine)
  {
    |m.tape| == TapeSize && 0 <= m.idx < TapeSize && forall i :: 0 <= i < |m.tape| ==> IsInt8(m.tape[i])
  }

  function Zeros(): (z: seq<int>)
    ensures |z| == TapeSize && forall i :: 0 <= i < |z| ==> z[i] == 0
  {
    seq(TapeSize, _ => 0)
  }

  /** One instruction other than a loop, after the time check. */
  function Basic(i: Instruction, m: Machine): (r: Exec)
    requires WellFormed(m) && !i.Loop?
    ensures r.Running? ==> WellFormed(r.m) && r.m.budget == m.budget
    ensures i == Right ==> (r.Failed? <==> m.idx == TapeSize - 1)
    ensures i == Left ==> (r.Failed? <==> m.idx == 0)
    ensures i == Get ==> (r.Failed? <==> m.input != [] && m.input[0] as int > 127)
    ensures i == Get && m.input == [] ==> r == Running(m.(tape := m.tape[m.idx := 10]))
    ensures i == Get && m.input != [] && m.input[0] as int <= 127 ==>
              r == Running(m.(tape := m.tape[m.idx := m.input[0] as int], input := m.input[1..]))
    ensures i == Put ==> r == Running(m.(output := m.output + [CellChar(m.tape[m.idx])]))
    ensures i == Right && r.Running? ==> r.m == m.(idx := m.idx + 1)
    ensures i == Left && r.Running? ==> r.m == m.(idx := m.idx - 1)
    ensures i == Increment || i == Decrement ==>
              && r.Running? && r.m.idx == m.idx && r.m.input == m.input && r.m.output == m.output
              && (forall j :: 0 <= j < TapeSize && j != m.idx ==> r.m.tape[j] == m.tape[j])
              && (r.m.tape[m.idx] - m.tape[m.idx] - (if i == Increment then 1 else -1)) % 256 == 0
  {
    var cell := m.tape[m.idx];
    match i
    case Increment => Running(m.(tape := m.tape[m.idx := ToInt8(cell + 1)]))
    case Decrement => Running(m.(tape := m.tape[m.idx := ToInt8(cell - 1)]))
    case Right => if m.idx == TapeSize - 1 then Failed(RightEdge) else Running(m.(idx := m.idx + 1))
    case Left => if m.idx == 0 then Failed(LeftEdge) else Running(m.(idx := m.idx - 1))
    case Put => Running(m.(output := m.output + [CellChar(cell)]))
    case Get =>
      if m.input == [] then Running(m.(tape := m.tape[m.idx := 10]))
      else
        var c := m.input[0] as int;
        if c < -128 || c > 127 then Failed(NotAscii)
        else Running(m.(tape := m.tape[m.idx := c], input := m.input[1..]))
  }

  function Size(i: Instruction): nat
  {
    match i
    case Loop(cs) => 1 + SeqSize(cs)
    case _ => 1
  }

  function SeqSize(s: seq<Instruction>): nat
  {
    if s == [] then 0 else Size(s[0]) + SeqSize(s[1..])
  }

  lemma {:induction false} SeqSizeSuffix(s: seq<Instruction>, k: nat)
    requires k < |s|
    ensures Size(s[k]) + SeqSize(s[k + 1..]) <= SeqSize(s)
    decreases k
  {
    if k > 0 {
      SeqSizeSuffix(s[1..], k - 1);
      assert s[1..][k - 1] == s[k] && s[1..][k..] == s[k + 1..];
    }
  }

  /** `interpret_instruction`: every instruction first spends one check of
      the budget. */
  function Run(i: Instruction, m: Machine): (r: Exec)
    requires WellFormed(m)
    ensures r.Running? ==> WellFormed(r.m) && r.m.budget < m.budget
    ensures m.budget == 0 ==> r == Failed(TimeExceeded)
    decreases m.budget, Size(i), 0
  {
    if m.budget == 0 then Failed(TimeExceeded)
    else
      var m1 := m.(budget := m.budget - 1);
      match i
      case Loop(cs) => RunLoop(cs, m1)
      case _ => Basic(i, m1)
  }

  /** The children of a loop, in order, stopping at the first error. */
  function RunSeq(s: seq<Instruction>, m: Machine): (r: Exec)
    requires WellFormed(m)
    ensures r.Running? ==> WellFormed(r.m) && r.m.budget <= m.budget
    decreases m.budget, SeqSize(s), 1
  {
    if s == [] then Running(m)
    else
      match Run(s[0], m)
      case Failed(e) => Failed(e)
      case Running(m1) => RunSeq(s[1..], m1)
  }

  /** The `while` of lines 152-158: the children again while the cell is not
      zero, with a check of the budget after each round. */
  function RunLoop(cs: seq<Instruction>, m: Machine): (r: Exec)
    requires WellFormed(m)
    ensures r.Running? ==> WellFormed(r.m) && r.m.budget <= m.budget && r.m.tape[r.m.idx] == 0
    decreases m.budget, SeqSize(cs), 2
  {
    if m.tape[m.idx] == 0 then Running(m)
    else
      match RunSeq(cs, m)
      case Failed(e) => Failed(e)
      case Running(m1) =>
        if m1.budget == 0 then Failed(TimeExceeded)
        else RunLoop(cs, m1.(budget := m1.budget - 1))
  }

  /** `interpret` on a fresh tape: the whole text is parsed before anything
      runs; the result is the output or the message of the error. */
  function Execute(text: string, m: Machine): (r: Result<string, string>)
    requires WellFormed(m.(tape := Zeros()))
  {
    match ParseAll(text, [])
    case SyntaxError(e) => Err(e)
    case Parsed(p, _) =>
      match RunSeq(p, m.(tape := Zeros()))
      case Failed(e) => Err(e)
      case Running(m1) => Ok(m1.output)
  }

  /** A loop whose cell is zero on entry only spends its check. */
  lemma LoopSkippedOnZero(cs: seq<Instruction>, m: Machine)
    requires WellFormed(m) && m.budget > 0 && m.tape[m.idx] == 0
    ensures Run(Loop(cs), m) == Running(m.(budget := m.budget - 1))
  {
  }

  /** Increment and decrement wrap around within -128..127. */
  lemma CellsWrap(m: Machine)
    requires WellFormed(m) && m.budget > 0
    ensures m.tape[m.idx] == 127 ==> Run(Increment, m).m.tape[m.idx] == -128
    ensures m.tape[m.idx] == -128 ==> Run(Decrement, m).m.tape[m.idx] == 127
    ensures m.tape[m.idx] < 127 ==> Run(Increment, m).m.tape[m.idx] == m.tape[m.idx] + 1
  {
  }

  /** A syntax error anywhere stops the program before it runs: a program
      followed by a stray `:yaktangle:` prints nothing, whatever it does. */
  lemma SyntaxErrorBeforeOutput(p: seq<Instruction>, m: Machine)
    requires WellFormed(m.(tape := Zeros()))
    ensures Execute(EmitSeq(p) + ":yaktangle:", m) == Err(UnmatchedTangle)
  {
    StrayTangle(p, "");
    assert EmitSeq(p) + (":yaktangle:" + "") == EmitSeq(p) + ":yaktangle:";
  }

  // ---- the interpreter object (lines 37-188) ---------------------------------

  class Interpreter {
    var text: string
    var inputText: string
    var tape: array<int>
    var tapeIdx: int
    var output: string
    /** Checks left before the run is stopped; stands for the clock. */
    var budget: nat

    predicate Valid()
      reads this, tape
    {
      tape.Length == TapeSize && 0 <= tapeIdx < TapeSize && forall i :: 0 <= i < tape.Length ==> IsInt8(tape[i])
    }

    function State(): Machine
      reads this, tape
    {
      Machine(tape[..], tapeIdx, inputText, output, budget)
    }

    constructor (text: string, inputText: string, budget: nat)
      ensures Valid() && fresh(tape)
      ensures this.text == text && State() == Machine(Zeros(), 0, inputText, "", budget)
    {
      this.text := text;
      this.inputText := inputText;
      tape := new int[TapeSize](_ => 0);
      tapeIdx := 0;
      output := "";
      this.budget := budget;
    }

    /** `tokenize`: consumes text up to and including the next token. */
    method Tokenize() returns (token: Option<char>)
      modifies this
      ensures (token, text) == NextToken(old(text))
      ensures inputText == old(inputText) && tape == old(tape) && tapeIdx == old(tapeIdx)
      ensures output == old(output) && budget == old(budget)
    {
      while |text| > 0
        invariant NextToken(text) == NextToken(old(text))
        invariant inputText == old(inputText) && tape == old(tape) && tapeIdx == old(tapeIdx)
        invariant output == old(output) && budget == old(budget)
        decreases |text|
      {
        for k := 0 to |YakMap|
          invariant KeyFrom(text, 0) == KeyFrom(text, k)
        {
          if StartsWith(text, YakMap[k].0) {
            text := text[|YakMap[k].0|..];
            return Some(YakMap[k].1);
          }
        }
        text := text[1..];
      }
      return None;
    }

    /** `parse_instruction`; an error is the message thrown. */
    method ParseInstruction(token: Option<char>) returns (r: Result<Option<Instruction>, string>)
      modifies this
      ensures ParseToken(token, old(text)) == (if r.Ok? then Parsed(r.value, text) else SyntaxError(r.error))
      ensures inputText == old(inputText) && tape == old(tape) && tapeIdx == old(tapeIdx)
      ensures output == old(output) && budget == old(budget)
      decreases |text|, 1
    {
      if token == Some('+') {
        r := Ok(Some(Increment));
      } else if token == Some('-') {
        r := Ok(Some(Decrement));
      } else if token == Some('>') {
        r := Ok(Some(Right));
      } else if token == Some('<') {
        r := Ok(Some(Left));
      } else if token == Some('[') {
        r := ParseLoop();
      } else if token == Some(']') {
        r := Err(UnmatchedTangle);
      } else if token == Some('.') {
        r := Ok(Some(Put));
      } else if token == Some(',') {
        r := Ok(Some(Get));
      } else {
        r := Ok(None);
      }
    }

    /** The `[` case of `parse_instruction` (lines 88-101). */
    method ParseLoop() returns (r: Result<Option<Instruction>, string>)
      modifies this
      ensures ParseBody(old(text), []) == (if r.Ok? then Parsed(r.value, text) else SyntaxError(r.error))
      ensures inputText == old(inputText) && tape == old(tape) && tapeIdx == old(tapeIdx)
      ensures output == old(output) && budget == old(budget)
      decreases |text|, 0
    {
      var instructions: seq<Instruction> := [];
      while true
        invariant ParseBody(text, instructions) == ParseBody(old(text), [])
        invariant |text| <= |old(text)|
        invariant inputText == old(inputText) && tape == old(tape) && tapeIdx == old(tapeIdx)
        invariant output == old(output) && budget == old(budget)
        decreases |text|
      {
        ghost var before := text;
        var token := Tokenize();
        if token.None? {
          return Err(UnmatchedBrain);
        }
        if token == Some(']') {
          return Ok(Some(Loop(instructions)));
        }
        var child := ParseInstruction(token);
        if child.Err? {
          return Err(child.error);
        }
        instructions := instructions + [child.value.value];
      }
    }

    /** `parse`: every instruction up to End. */
    method Parse() returns (r: Result<seq<Instruction>, string>)
      modifies this
      ensures ParseAll(old(text), []) == (if r.Ok? then Parsed(r.value, text) else SyntaxError(r.error))
      ensures inputText == old(inputText) && tape == old(tape) && tapeIdx == old(tapeIdx)
      ensures output == old(output) && budget == old(budget)
    {
      var parsed: seq<Instruction> := [];
      while true
        invariant ParseAll(text, parsed) == ParseAll(old(text), [])
        invariant inputText == old(inputText) && tape == old(tape) && tapeIdx == old(tapeIdx)
        invariant output == old(output) && budget == old(budget)
        decreases |text|
      {
        var token := Tokenize();
        var instruction := ParseInstruction(token);
        if instruction.Err? {
          return Err(instruction.error);
        }
        if instruction.value.None? {
          return Ok(parsed);
        }
        parsed := parsed + [instruction.value.value];
      }
    }

    /** `interpret_instruction`; an error is the message thrown. */
    method InterpretInstruction(i: Instruction) returns (err: Option<string>)
      requires Valid()
      modifies this, tape
      ensures tape == old(tape) && text == old(text)
      ensures err.None? ==> Valid() && Run(i, old(State())) == Running(State())
      ensures err.Some? ==> Run(i, old(State())) == Failed(err.value)
      decreases budget, Size(i), 0
    {
      if budget == 0 {
        return Some(TimeExceeded);
      }
      budget := budget - 1;
      if i.Loop? {
        err := InterpretLoop(i.children);
      } else {
        err := InterpretBasic(i);
      }
    }

    method InterpretBasic(i: Instruction) returns (err: Option<string>)
      requires Valid() && !i.Loop?
      modifies this, tape
      ensures tape == old(tape) && text == old(text)
      ensures err.None? ==> Valid() && Basic(i, old(State())) == Running(State())
      ensures err.Some? ==> Basic(i, old(State())) == Failed(err.value)
    {
      err := None;
      match i
      case Increment =>
        tape[tapeIdx] := ToInt8(tape[tapeIdx] + 1);
      case Decrement =>
        tape[tapeIdx] := ToInt8(tape[tapeIdx] - 1);
      case Right =>
        if tapeIdx == TapeSize - 1 {
          return Some(RightEdge);
        }
        tapeIdx := tapeIdx + 1;
      case Left =>
        if tapeIdx == 0 {
          return Some(LeftEdge);
        }
        tapeIdx := tapeIdx - 1;
      case Put =>
        output := output + [CellChar(tape[tapeIdx])];
      case Get =>
        if |inputText| == 0 {
          tape[tapeIdx] := 10;
        } else {
          var c := inputText[0] as int;
          if c < -128 || c > 127 {
            return Some(NotAscii);
          }
          tape[tapeIdx] := c;
          inputText := inputText[1..];
        }
    }

    /** The `while` of lines 152-158. */
    method InterpretLoop(cs: seq<Instruction>) returns (err: Option<string>)
      requires Valid()
      modifies this, tape
      ensures tape == old(tape) && text == old(text)
      ensures err.None? ==> Valid() && RunLoop(cs, old(State())) == Running(State())
      ensures err.Some? ==> RunLoop(cs, old(State())) == Failed(err.value)
      decreases budget, SeqSize(cs), 2
    {
      while tape[tapeIdx] != 0
        invariant Valid() && tape == old(tape) && text == old(text) && budget <= old(budget)
        invariant RunLoop(cs, State()) == RunLoop(cs, old(State()))
        decreases budget
      {
        err := InterpretChildren(cs);
        if err.Some? {
          return;
        }
        if budget == 0 {
          return Some(TimeExceeded);
        }
        budget := budget - 1;
      }
      return None;
    }

    /** The `for … of` over a loop's children (lines 153-155), and over the
        program in `interpret`. */
    method InterpretChildren(cs: seq<Instruction>) returns (err: Option<string>)
      requires Valid()
      modifies this, tape
      ensures tape == old(tape) && text == old(text)
      ensures err.None? ==> Valid() && RunSeq(cs, old(State())) == Running(State())
      ensures err.Some? ==> RunSeq(cs, old(State())) == Failed(err.value)
      decreases budget, SeqSize(cs), 1
    {
      for k := 0 to |cs|
        invariant Valid() && tape == old(tape) && text == old(text) && budget <= old(budget)
        invariant RunSeq(cs[k..], State()) == RunSeq(cs, old(State()))
        invariant old(budget) == budget ==> SeqSize(cs[k..]) <= SeqSize(cs)
      {
        SeqSizeSuffix(cs, k);
        assert cs[k..][1..] == cs[k + 1..];
        err := InterpretInstruction(cs[k]);
        if err.Some? {
          return;
        }
      }
      return None;
    }

    /** `interpret`: parse, then run on a fresh tape. */
    method Interpret() returns (r: Result<string, string>)
      requires Valid()
      modifies this
      ensures r == Execute(old(text), old(State()))
    {
      ghost var m0 := State();
      var instructions := Parse();
      if instructions.Err? {
        return Err(instructions.error);
      }
      tape := new int[TapeSize](_ => 0);
      assert State() == m0.(tape := Zeros());
      var err := InterpretChildren(instructions.value);
      if err.Some? {
        return Err(err.value);
      }
      return Ok(output);
    }
  }

  // ---- the command (lines 190-255) --------------------------------------------

  const NoOutputBanner :=
    ":yaktangle::yaktangle::yaktangle::yaktangle::yaktangle:\n:yaktangle:`no output`:yaktangle:\n:yaktangle::yaktangle::yaktangle::yaktangle::yaktangle:"

  /** The help text sent when no code is given (lines 191-206). */
  const Description :=
    "BrainYak - BrainFuck, but with \U{1F9AC}s\nHow does it work?\nYou just need to replace your normal brainfuck characters like this:\n"
    + "`+` → :yakplus:\n`-` → :yakminus:\n`>` → :yakoverflow:\n`<` → :yakchain:\n"
    + "`[` → :yakbrain:\n`]` → :yaktangle:\n`.` → :yaksplode:\n`,` → :yakmagnet:\n"
    + "To run your awesome BrainYak code, you need to set the `code` option to it.\n"
    + "To work with inputs (:yakmagnet:), set the `input` option to your input.\n"
    + "Every time :yakmagnet: is called, the next character in the input stream is put into the current cell.\n"
    + "if there are no characters left, a `\\n` is put it instead"

  /** The reply of `run`: the help without code, otherwise the output in a
      code block or the no-output banner; an error is thrown. */
  function CommandReply(code: Option<string>, input: Option<string>, budget: nat): (r: Result<string, string>)
    ensures code.None? || code == Some("") ==> r == Ok(Description)
  {
    if code.None? || code.value == "" then Ok(Description)
    else
      match Execute(code.value, Machine(Zeros(), 0, if input.Some? then input.value else "", "", budget))
      case Err(e) => Err(e)
      case Ok(out) => Ok(if out == "" then NoOutputBanner else ":yakbrain: output:\n```\n" + out + "```")
  }

  method RunCommand(code: Option<string>, input: Option<string>, budget: nat) returns (r: Result<string, string>)
    ensures r == CommandReply(code, input, budget)
  {
    var content := Description;
    if code.Some? && code.value != "" {
      var interpreter := new Interpreter(code.value, if input.Some? then input.value else "", budget);
      var result := interpreter.Interpret();
      if result.Err? {
        return Err(result.error);
      }
      content := result.value;
      if |content| == 0 {
        content := NoOutputBanner;
      } else {
        content := ":yakbrain: output:\n```\n" + content + "```";
      }
    }
    return Ok(content);
  }

  /** A program that runs is answered with its output in a code block, or
      with the no-output banner when it prints nothing. */
  lemma OutputIsFenced(p: seq<Instruction>, input: Option<string>, budget: nat, out: string)
    requires Execute(EmitSeq(p), Machine(Zeros(), 0, if input.Some? then input.value else "", "", budget)) == Ok(out)
    requires EmitSeq(p) != ""
    ensures out == "" ==> CommandReply(Some(EmitSeq(p)), input, budget) == Ok(NoOutputBanner)
    ensures out != "" ==> CommandReply(Some(EmitSeq(p)), input, budget) == Ok(":yakbrain: output:\n```\n" + out + "```")
  {
  }
}

/**
 * The `.b91` object-module parser (src/b91/parser.rs).
 *
 * The source reads the input through one line iterator that the block parsers
 * advance in turn. Here the input is the sequence of its lines and the iterator
 * is the position of the next unread line: each parsing method takes a
 * position and returns the position after the lines it consumed. Each method is
 * proved against a function of the lines not yet read, and the properties of
 * the format are lemmas about those functions.
 */
module B91Parser {
  import opened Wrappers
  import opened Words
  import opened Text
  import opened ObjectModules

  const TOKEN_HEADER: string := "___b91___"
  const TOKEN_CODE: string := "___code___"
  const TOKEN_DATA: string := "___data___"
  const TOKEN_SYMBOLTABLE: string := "___symboltable___"
  const TOKEN_END: string := "___end___"

  /** Each way the source panics while parsing. */
  datatype ParseError =
    | UnexpectedEnd           // `lines.next().unwrap()` with no line left
    | MissingHeader           // first line is not the header
    | MissingCodeSection
    | MissingDataSection
    | MissingSymbolTableSection
    | BadOffsets              // "Could not parse start and end offsets", or an offset that is not a usize
    | BadInstruction          // "Invalid instruction"
    | BadDataValue            // "Invalid data value"
    | BadSymbol               // a symbol line that is not `name address`

  /** `parse_offset_info`: a line of two decimal `usize` offsets separated by one space. */
  function ParseOffsetInfo(s: string): Option<(USize, USize)>
  {
    match SplitPair(s)
    case None => None
    case Some((a, b)) =>
      match (ParseUSize(a), ParseUSize(b))
      case (Some(start), Some(end)) => Some((start, end))
      case _ => None
  }

  /**
   * An offsets line is read exactly when it is two space-free pieces around a
   * single space, each a decimal `usize`.
   */
  lemma {:induction false} OffsetsLineIff(s: string, start: USize, end: USize)
    ensures ParseOffsetInfo(s) == Some((start, end)) <==>
      exists a: string, b: string :: s == a + " " + b && NoSpace(a) && NoSpace(b)
        && ParseUSize(a) == Some(start) && ParseUSize(b) == Some(end)
  {
    if ParseOffsetInfo(s) == Some((start, end)) {
      var (a, b) := SplitPair(s).value;
      SplitPairIff(s, a, b);
    }
    if exists a: string, b: string :: s == a + " " + b && NoSpace(a) && NoSpace(b)
        && ParseUSize(a) == Some(start) && ParseUSize(b) == Some(end) {
      var a: string, b: string :| s == a + " " + b && NoSpace(a) && NoSpace(b)
        && ParseUSize(a) == Some(start) && ParseUSize(b) == Some(end);
      SplitPairIff(s, a, b);
    }
  }

  /** One line of the symbol table: a name, one space and a decimal `usize` address. */
  function SymbolLine(s: string): Option<(string, USize)>
  {
    match SplitPair(s)
    case None => None
    case Some((name, a)) =>
      match ParseUSize(a)
      case None => None
      case Some(address) => Some((name, address))
  }

  /* ---------------- Specification on the unread lines ---------------- */

  /** `assert!(lines.next().unwrap() == token)`: the unread lines after the sentinel. */
  function ExpectSpec(ls: seq<string>, token: string, err: ParseError): Result<seq<string>, ParseError>
  {
    if |ls| == 0 then Err(UnexpectedEnd)
    else if ls[0] != token then Err(err)
    else Ok(ls[1..])
  }

  /**
   * `lines.take(n).map(parse).collect()`: up to `n` words, fewer if the input
   * ends first, failing on the first line that is not a `u32`.
   */
  function TakeWordsSpec(ls: seq<string>, n: nat, err: ParseError): Result<(seq<Word>, seq<string>), ParseError>
  {
    if n == 0 || |ls| == 0 then Ok(([], ls))
    else
      match ParseWord(ls[0])
      case None => Err(err)
      case Some(w) => Prepend([w], TakeWordsSpec(ls[1..], n - 1, err))
  }

  function Prepend(ws: seq<Word>, r: Result<(seq<Word>, seq<string>), ParseError>): Result<(seq<Word>, seq<string>), ParseError>
  {
    match r
    case Err(e) => Err(e)
    case Ok((more, rest)) => Ok((ws + more, rest))
  }

  /**
   * Taking words succeeds exactly when each of the first `n` lines (or all, if
   * fewer) is a `u32`; it then yields those words in order and leaves the rest,
   * and it stops short of `n` only when the input runs out.
   */
  lemma {:induction false} TakeWordsShape(ls: seq<string>, n: nat, err: ParseError)
    ensures var r := TakeWordsSpec(ls, n, err);
      && (r.Ok? <==> forall i :: 0 <= i < n && i < |ls| ==> ParseWord(ls[i]).Some?)
      && (r.Err? ==> r.error == err)
      && (r.Ok? ==> |r.value.0| <= n && |r.value.0| <= |ls| && r.value.1 == ls[|r.value.0|..])
      && (r.Ok? ==> |r.value.0| == n || r.value.1 == [])
      && (r.Ok? ==> forall i :: 0 <= i < |r.value.0| ==> ParseWord(ls[i]) == Some(r.value.0[i]))
  {
    if n > 0 && |ls| > 0 && ParseWord(ls[0]).Some? {
      TakeWordsShape(ls[1..], n - 1, err);
      assert forall i :: 1 <= i < |ls| ==> ls[i] == ls[1..][i - 1];
    }
  }

  /** `parse_code_block`: the offsets line, then as many words as the offsets span. */
  function CodeBlockSpec(ls: seq<string>): Result<(CodeBlock, seq<string>), ParseError>
  {
    if |ls| == 0 then Err(UnexpectedEnd)
    else
      match ParseOffsetInfo(ls[0])
      case None => Err(BadOffsets)
      case Some((start, end)) =>
        match TakeWordsSpec(ls[1..], USizeSpan(start, end), BadInstruction)
        case Err(e) => Err(e)
        case Ok((ws, rest)) => Ok((CodeBlock(start, end, ws), rest))
  }

  /** `parse_data_block`: the same layout as a code block. */
  function DataBlockSpec(ls: seq<string>): Result<(DataBlock, seq<string>), ParseError>
  {
    if |ls| == 0 then Err(UnexpectedEnd)
    else
      match ParseOffsetInfo(ls[0])
      case None => Err(BadOffsets)
      case Some((start, end)) =>
        match TakeWordsSpec(ls[1..], USizeSpan(start, end), BadDataValue)
        case Err(e) => Err(e)
        case Ok((ws, rest)) => Ok((DataBlock(start, end, ws), rest))
  }

  /** The lines before the first end sentinel (all of them if there is none). */
  function UpToEnd(ls: seq<string>): (r: seq<string>)
    ensures |r| <= |ls| && r == ls[..|r|]
    ensures forall i :: 0 <= i < |r| ==> r[i] != TOKEN_END
    ensures |r| < |ls| ==> ls[|r|] == TOKEN_END
  {
    if |ls| == 0 || ls[0] == TOKEN_END then []
    else [ls[0]] + UpToEnd(ls[1..])
  }

  /**
   * `parse_symbol_table`: inserts each line's pair into `table` until the end
   * sentinel or the end of the input.
   */
  function SymbolsSpec(ls: seq<string>, table: SymbolTable): Result<SymbolTable, ParseError>
  {
    if |ls| == 0 || ls[0] == TOKEN_END then Ok(table)
    else
      match SymbolLine(ls[0])
      case None => Err(BadSymbol)
      case Some((name, address)) => SymbolsSpec(ls[1..], table[name := address])
  }

  /** `parse`: the whole format, section by section. */
  function ParseSpec(lines: seq<string>): Result<ObjectModule, ParseError>
  {
    var afterHeader :- ExpectSpec(lines, TOKEN_HEADER, MissingHeader);
    var afterCodeToken :- ExpectSpec(afterHeader, TOKEN_CODE, MissingCodeSection);
    var code :- CodeBlockSpec(afterCodeToken);
    var afterDataToken :- ExpectSpec(code.1, TOKEN_DATA, MissingDataSection);
    var data :- DataBlockSpec(afterDataToken);
    var afterSymbolToken :- ExpectSpec(data.1, TOKEN_SYMBOLTABLE, MissingSymbolTableSection);
    var table :- SymbolsSpec(afterSymbolToken, map[]);
    Ok(ObjectModule(code.0, data.0, table))
  }

  /* ---------------- The parser, advancing a line position ---------------- */

  lemma PrependNothing(r: Result<(seq<Word>, seq<string>), ParseError>)
    ensures Prepend([], r) == r
  {
    if r.Ok? {
      assert [] + r.value.0 == r.value.0;
    }
  }

  lemma PrependTwice(a: seq<Word>, b: seq<Word>, r: Result<(seq<Word>, seq<string>), ParseError>)
    ensures Prepend(a, Prepend(b, r)) == Prepend(a + b, r)
  {
    if r.Ok? {
      assert a + (b + r.value.0) == (a + b) + r.value.0;
    }
  }

  /** One more word read: it moves from what is left to take onto what was taken. */
  lemma TakeWordsAdvance(lines: seq<string>, next: nat, taken: seq<Word>, n: nat, err: ParseError, w: Word)
    requires next < |lines| && |taken| < n && ParseWord(lines[next]) == Some(w)
    ensures Prepend(taken, TakeWordsSpec(lines[next..], n - |taken|, err))
      == Prepend(taken + [w], TakeWordsSpec(lines[next + 1..], n - |taken| - 1, err))
  {
    assert lines[next..][0] == lines[next];
    assert lines[next..][1..] == lines[next + 1..];
    PrependTwice(taken, [w], TakeWordsSpec(lines[next + 1..], n - |taken| - 1, err));
  }

  /** Taking stops with nothing taken when no more words are wanted or the input has ended. */
  lemma TakeWordsStop(lines: seq<string>, next: nat, taken: seq<Word>, k: nat, err: ParseError)
    requires next <= |lines| && (k == 0 || next == |lines|)
    ensures Prepend(taken, TakeWordsSpec(lines[next..], k, err)) == Ok((taken, lines[next..]))
  {
    assert taken + [] == taken;
  }

  /** Taking fails on a line that is not a `u32`. */
  lemma TakeWordsFail(lines: seq<string>, next: nat, taken: seq<Word>, k: nat, err: ParseError)
    requires next < |lines| && k > 0 && ParseWord(lines[next]).None?
    ensures Prepend(taken, TakeWordsSpec(lines[next..], k, err)) == Err(err)
  {
    assert lines[next..][0] == lines[next];
  }

  /** The `take(n).map(parse).collect()` loop, reading from line `pos` on. */
  method ParseWords(lines: seq<string>, pos: nat, n: nat, err: ParseError) returns (r: Result<seq<Word>, ParseError>, next: nat)
    requires pos <= |lines|
    ensures next <= |lines|
    ensures TakeWordsSpec(lines[pos..], n, err) == if r.Ok? then Ok((r.value, lines[next..])) else Err(r.error)
  {
    var words: seq<Word> := [];
    next := pos;
    PrependNothing(TakeWordsSpec(lines[pos..], n, err));
    while |words| < n && next < |lines|
      invariant pos <= next <= |lines| && next - pos == |words| <= n
      invariant TakeWordsSpec(lines[pos..], n, err) == Prepend(words, TakeWordsSpec(lines[next..], n - |words|, err))
    {
      var w := ParseWord(lines[next]);
      if w.None? {
        TakeWordsFail(lines, next, words, n - |words|, err);
        return Err(err), next;
      }
      TakeWordsAdvance(lines, next, words, n, err, w.value);
      words := words + [w.value];
      next := next + 1;
    }
    TakeWordsStop(lines, next, words, n - |words|, err);
    r := Ok(words);
  }

  /** `parse_code_block`, starting at the offsets line. */
  method ParseCodeBlock(lines: seq<string>, pos: nat) returns (r: Result<CodeBlock, ParseError>, next: nat)
    requires pos <= |lines|
    ensures next <= |lines|
    ensures CodeBlockSpec(lines[pos..]) == if r.Ok? then Ok((r.value, lines[next..])) else Err(r.error)
  {
    if pos == |lines| {
      return Err(UnexpectedEnd), pos;
    }
    var offsets := ParseOffsetInfo(lines[pos]);
    if offsets.None? {
      return Err(BadOffsets), pos;
    }
    var (start, end) := offsets.value;
    assert lines[pos..][1..] == lines[pos + 1..];
    var words;
    words, next := ParseWords(lines, pos + 1, USizeSpan(start, end), BadInstruction);
    if words.Err? {
      return Err(words.error), next;
    }
    r := Ok(CodeBlock(start, end, words.value));
  }

  /** `parse_data_block`, starting at the offsets line. */
  method ParseDataBlock(lines: seq<string>, pos: nat) returns (r: Result<DataBlock, ParseError>, next: nat)
    requires pos <= |lines|
    ensures next <= |lines|
    ensures DataBlockSpec(lines[pos..]) == if r.Ok? then Ok((r.value, lines[next..])) else Err(r.error)
  {
    if pos == |lines| {
      return Err(UnexpectedEnd), pos;
    }
    var offsets := ParseOffsetInfo(lines[pos]);
    if offsets.None? {
      return Err(BadOffsets), pos;
    }
    var (start, end) := offsets.value;
    assert lines[pos..][1..] == lines[pos + 1..];
    var words;
    words, next := ParseWords(lines, pos + 1, USizeSpan(start, end), BadDataValue);
    if words.Err? {
      return Err(words.error), next;
    }
    r := Ok(DataBlock(start, end, words.value));
  }

  /** `parse_symbol_table`: the `take_while` loop filling the table. */
  method ParseSymbolTable(lines: seq<string>, pos: nat) returns (r: Result<SymbolTable, ParseError>)
    requires pos <= |lines|
    ensures r == SymbolsSpec(lines[pos..], map[])
  {
    var table: SymbolTable := map[];
    var i := pos;
    while i < |lines| && lines[i] != TOKEN_END
      invariant pos <= i <= |lines|
      invariant SymbolsSpec(lines[pos..], map[]) == SymbolsSpec(lines[i..], table)
    {
      var entry := SymbolLine(lines[i]);
      if entry.None? {
        return Err(BadSymbol);
      }
      assert lines[i..][1..] == lines[i + 1..];
      table := table[entry.value.0 := entry.value.1];
      i := i + 1;
    }
    r := Ok(table);
  }

  /** `lines.next().unwrap() == token`, at line `pos`. */
  method Expect(lines: seq<string>, pos: nat, token: string, err: ParseError) returns (r: Result<nat, ParseError>)
    requires pos <= |lines|
    ensures r.Ok? ==> r.value <= |lines|
    ensures ExpectSpec(lines[pos..], token, err) == if r.Ok? then Ok(lines[r.value..]) else Err(r.error)
  {
    if pos == |lines| {
      return Err(UnexpectedEnd);
    }
    if lines[pos] != token {
      return Err(err);
    }
    assert lines[pos..][1..] == lines[pos + 1..];
    r := Ok(pos + 1);
  }

  /** `parse`. */
  method Parse(lines: seq<string>) returns (r: Result<ObjectModule, ParseError>)
    ensures r == ParseSpec(lines)
  {
    assert lines[0..] == lines;
    var p := Expect(lines, 0, TOKEN_HEADER, MissingHeader);
    if p.Err? { return Err(p.error); }
    p := Expect(lines, p.value, TOKEN_CODE, MissingCodeSection);
    if p.Err? { return Err(p.error); }
    var code, next := ParseCodeBlock(lines, p.value);
    if code.Err? { return Err(code.error); }
    p := Expect(lines, next, TOKEN_DATA, MissingDataSection);
    if p.Err? { return Err(p.error); }
    var data;
    data, next := ParseDataBlock(lines, p.value);
    if data.Err? { return Err(data.error); }
    p := Expect(lines, next, TOKEN_SYMBOLTABLE, MissingSymbolTableSection);
    if p.Err? { return Err(p.error); }
    var table := ParseSymbolTable(lines, p.value);
    if table.Err? { return Err(table.error); }
    r := Ok(ObjectModule(code.value, data.value, table.value));
  }

  /* ---------------- Properties of the format ---------------- */

  /** From line `first` on, the lines are the words `ws` written as `u32`s, one per line, in order. */
  ghost predicate WordsAt(lines: seq<string>, first: nat, ws: seq<Word>)
  {
    first + |ws| <= |lines| && forall i :: 0 <= i < |ws| ==> ParseWord(lines[first + i]) == Some(ws[i])
  }

  /**
   * What a successful block parse from line `at` has read: the offsets line,
   * then the words, one `u32` per line in order, as many as the offsets span
   * unless the input ran out.
   */
  lemma {:induction false} CodeBlockShape(lines: seq<string>, at: nat, first: nat, block: seq<string>, code: CodeBlock, rest: seq<string>)
    requires at <= |lines| && first == at + 1 && block == lines[at..] && CodeBlockSpec(block) == Ok((code, rest))
    ensures |lines| >= first + |code.instructions| && ParseOffsetInfo(lines[at]) == Some((code.start, code.end))
    ensures WordsAt(lines, first, code.instructions)
    ensures rest == lines[first + |code.instructions|..]
    ensures rest != [] ==> |code.instructions| == USizeSpan(code.start, code.end)
  {
    var ls := lines[first..];
    assert block[0] == lines[at] && block[1..] == ls;
    assert ParseOffsetInfo(lines[at]) == Some((code.start, code.end));
    var n := USizeSpan(code.start, code.end);
    assert TakeWordsSpec(ls, n, BadInstruction) == Ok((code.instructions, rest));
    TakeWordsShape(ls, n, BadInstruction);
    assert WordsAt(lines, first, code.instructions) by {
      forall i | 0 <= i < |code.instructions| ensures ParseWord(lines[first + i]) == Some(code.instructions[i]) {
        assert ls[i] == lines[first + i];
      }
    }
    assert ls[|code.instructions|..] == lines[first + |code.instructions|..];
  }

  /** The data-block counterpart of `CodeBlockShape`. */
  lemma {:induction false} DataBlockShape(lines: seq<string>, at: nat, first: nat, block: seq<string>, data: DataBlock, rest: seq<string>)
    requires at <= |lines| && first == at + 1 && block == lines[at..] && DataBlockSpec(block) == Ok((data, rest))
    ensures |lines| >= first + |data.data| && ParseOffsetInfo(lines[at]) == Some((data.start, data.end))
    ensures WordsAt(lines, first, data.data)
    ensures rest == lines[first + |data.data|..]
    ensures rest != [] ==> |data.data| == USizeSpan(data.start, data.end)
  {
    var ls := lines[first..];
    assert block[0] == lines[at] && block[1..] == ls;
    assert ParseOffsetInfo(lines[at]) == Some((data.start, data.end));
    var n := USizeSpan(data.start, data.end);
    assert TakeWordsSpec(ls, n, BadDataValue) == Ok((data.data, rest));
    TakeWordsShape(ls, n, BadDataValue);
    assert WordsAt(lines, first, data.data) by {
      forall i | 0 <= i < |data.data| ensures ParseWord(lines[first + i]) == Some(data.data[i]) {
        assert ls[i] == lines[first + i];
      }
    }
    assert ls[|data.data|..] == lines[first + |data.data|..];
  }

  /** A successful parse, section by section. */
  lemma ParseSteps(lines: seq<string>, m: ObjectModule) returns (codeRest: seq<string>, dataRest: seq<string>)
    requires ParseSpec(lines) == Ok(m)
    ensures |lines| >= 2 && lines[0] == TOKEN_HEADER && lines[1] == TOKEN_CODE
    ensures CodeBlockSpec(lines[2..]) == Ok((m.code, codeRest))
    ensures |codeRest| > 0 && codeRest[0] == TOKEN_DATA
    ensures DataBlockSpec(codeRest[1..]) == Ok((m.data, dataRest))
    ensures |dataRest| > 0 && dataRest[0] == TOKEN_SYMBOLTABLE
    ensures SymbolsSpec(dataRest[1..], map[]) == Ok(m.symbolTable)
  {
    assert lines[1..][1..] == lines[2..];
    codeRest := CodeBlockSpec(lines[2..]).value.1;
    dataRest := DataBlockSpec(codeRest[1..]).value.1;
  }

  /**
   * The lines of a well-formed object module, as a parse reads them: the
   * header, the code sentinel, the code offsets and exactly as many code words
   * as they span, in order, the data sentinel, the data offsets and words
   * likewise, the symbol-table sentinel, and the lines the table is built from.
   */
  ghost predicate ParsedLayout(lines: seq<string>, m: ObjectModule)
  {
    && |m.code.instructions| == USizeSpan(m.code.start, m.code.end)
    && |m.data.data| == USizeSpan(m.data.start, m.data.end)
    && |lines| >= 6 + |m.code.instructions| + |m.data.data|
    && lines[0] == TOKEN_HEADER && lines[1] == TOKEN_CODE
    && ParseOffsetInfo(lines[2]) == Some((m.code.start, m.code.end))
    && WordsAt(lines, 3, m.code.instructions)
    && lines[3 + |m.code.instructions|] == TOKEN_DATA
    && ParseOffsetInfo(lines[4 + |m.code.instructions|]) == Some((m.data.start, m.data.end))
    && WordsAt(lines, 5 + |m.code.instructions|, m.data.data)
    && lines[5 + |m.code.instructions| + |m.data.data|] == TOKEN_SYMBOLTABLE
    && SymbolsSpec(lines[6 + |m.code.instructions| + |m.data.data|..], map[]) == Ok(m.symbolTable)
  }

  /** The layout behind `ParseShape`, from the sections `ParseSteps` names. */
  lemma {:induction false} LayoutShape(lines: seq<string>, m: ObjectModule, codeRest: seq<string>, dataRest: seq<string>)
    requires |lines| >= 2 && lines[0] == TOKEN_HEADER && lines[1] == TOKEN_CODE
    requires CodeBlockSpec(lines[2..]) == Ok((m.code, codeRest))
    requires |codeRest| > 0 && codeRest[0] == TOKEN_DATA
    requires DataBlockSpec(codeRest[1..]) == Ok((m.data, dataRest))
    requires |dataRest| > 0 && dataRest[0] == TOKEN_SYMBOLTABLE
    requires SymbolsSpec(dataRest[1..], map[]) == Ok(m.symbolTable)
    ensures ParsedLayout(lines, m)
  {
    CodeBlockShape(lines, 2, 3, lines[2..], m.code, codeRest);
    assert codeRest[1..] == lines[4 + |m.code.instructions|..];
    DataBlockShape(lines, 4 + |m.code.instructions|, 5 + |m.code.instructions|, codeRest[1..], m.data, dataRest);
    assert dataRest[1..] == lines[6 + |m.code.instructions| + |m.data.data|..];
  }

  /** A successful parse has read a well-formed module's lines: see `ParsedLayout`. */
  lemma {:induction false} ParseShape(lines: seq<string>, m: ObjectModule)
    requires ParseSpec(lines) == Ok(m)
    ensures ParsedLayout(lines, m)
  {
    var codeRest, dataRest := ParseSteps(lines, m);
    LayoutShape(lines, m, codeRest, dataRest);
  }

  /** Lines after the end sentinel never matter. */
  lemma {:induction false} SymbolsUpToEnd(ls: seq<string>, table: SymbolTable)
    ensures SymbolsSpec(ls, table) == SymbolsSpec(UpToEnd(ls), table)
  {
    if |ls| > 0 && ls[0] != TOKEN_END && SymbolLine(ls[0]).Some? {
      var (name, address) := SymbolLine(ls[0]).value;
      SymbolsUpToEnd(ls[1..], table[name := address]);
      assert UpToEnd(ls)[1..] == UpToEnd(ls[1..]);
    }
  }

  /** The table is built exactly when every line before the end sentinel is a `name address` pair. */
  lemma {:induction false} SymbolsOkIff(ls: seq<string>, table: SymbolTable)
    ensures SymbolsSpec(ls, table).Ok? <==>
      forall i :: 0 <= i < |UpToEnd(ls)| ==> SymbolLine(UpToEnd(ls)[i]).Some?
  {
    if |ls| > 0 && ls[0] != TOKEN_END {
      var u := UpToEnd(ls);
      assert u[0] == ls[0] && u[1..] == UpToEnd(ls[1..]);
      if SymbolLine(ls[0]).Some? {
        var entry := SymbolLine(ls[0]).value;
        assert SymbolsSpec(ls, table) == SymbolsSpec(ls[1..], table[entry.0 := entry.1]);
        SymbolsOkIff(ls[1..], table[entry.0 := entry.1]);
        assert forall i :: 1 <= i < |u| ==> u[i] == u[1..][i - 1];
      } else {
        assert SymbolsSpec(ls, table) == Err(BadSymbol);
        assert !(forall i :: 0 <= i < |u| ==> SymbolLine(u[i]).Some?) by {
          assert SymbolLine(u[0]).None?;
        }
        assert !SymbolsSpec(ls, table).Ok?;
        assert !forall i :: 0 <= i < |UpToEnd(ls)| ==> SymbolLine(UpToEnd(ls)[i]).Some?;
      }
    }
  }

  /** A symbol line appended after the others overrides any earlier address of the same name. */
  lemma {:induction false} SymbolsLaterWins(ls: seq<string>, line: string, table: SymbolTable)
    requires forall i :: 0 <= i < |ls| ==> ls[i] != TOKEN_END
    requires SymbolsSpec(ls, table).Ok? && SymbolLine(line).Some?
    ensures SymbolsSpec(ls + [line], table) ==
      Ok(SymbolsSpec(ls, table).value[SymbolLine(line).value.0 := SymbolLine(line).value.1])
  {
    if |ls| == 0 {
      assert ls + [line] == [line];
      assert line != TOKEN_END by {
        var (name, address) := SymbolLine(line).value;
        SplitPairIff(line, name, SplitPair(line).value.1);
        assert line[|name|] == ' ';
      }
    } else {
      var (name, address) := SymbolLine(ls[0]).value;
      assert (ls + [line])[1..] == ls[1..] + [line];
      SymbolsLaterWins(ls[1..], line, table[name := address]);
    }
  }

  /* ---------------- Writing a module, and reading it back ---------------- */

  function ShowWords(ws: seq<Word>): seq<string>
  {
    if ws == [] then [] else [Show(ws[0])] + ShowWords(ws[1..])
  }

  function OffsetsLine(start: USize, end: USize): string
  {
    Show(start) + " " + Show(end)
  }

  function SymbolLines(entries: seq<(string, USize)>): seq<string>
  {
    if entries == [] then [] else [entries[0].0 + " " + Show(entries[0].1)] + SymbolLines(entries[1..])
  }

  /** The table that inserting `entries` in order into `table` gives. */
  function InsertAll(table: SymbolTable, entries: seq<(string, USize)>): SymbolTable
    decreases |entries|
  {
    if entries == [] then table else InsertAll(table[entries[0].0 := entries[0].1], entries[1..])
  }

  /** The text of an object module, one line per element, symbols in the order given. */
  function Render(code: CodeBlock, data: DataBlock, entries: seq<(string, USize)>): seq<string>
  {
    [TOKEN_HEADER] + ([TOKEN_CODE] + ([OffsetsLine(code.start, code.end)] + (ShowWords(code.instructions)
      + ([TOKEN_DATA] + ([OffsetsLine(data.start, data.end)] + (ShowWords(data.data)
      + ([TOKEN_SYMBOLTABLE] + (SymbolLines(entries) + [TOKEN_END]))))))))
  }

  lemma ShowHasNoSpace(n: nat)
    ensures NoSpace(Show(n))
  {
  }

  lemma {:induction false} OffsetsLineParses(start: USize, end: USize)
    ensures ParseOffsetInfo(OffsetsLine(start, end)) == Some((start, end))
  {
    ShowHasNoSpace(start);
    ShowHasNoSpace(end);
    SplitPairIff(OffsetsLine(start, end), Show(start), Show(end));
    ParseShow(start, USIZE_MOD);
    ParseShow(end, USIZE_MOD);
  }

  lemma ShowWordParses(w: Word)
    ensures ParseWord(Show(w)) == Some(w)
  {
    ParseShow(w, WORD_MOD);
  }

  lemma ShowWordsCons(ws: seq<Word>, rest: seq<string>)
    requires ws != []
    ensures |ShowWords(ws) + rest| > 0
    ensures (ShowWords(ws) + rest)[0] == Show(ws[0])
    ensures (ShowWords(ws) + rest)[1..] == ShowWords(ws[1..]) + rest
  {
    assert ShowWords(ws) + rest == [Show(ws[0])] + (ShowWords(ws[1..]) + rest);
  }

  lemma TakeWordsCons(ls: seq<string>, n: nat, err: ParseError, w: Word)
    requires |ls| > 0 && n > 0 && ParseWord(ls[0]) == Some(w)
    ensures TakeWordsSpec(ls, n, err) == Prepend([w], TakeWordsSpec(ls[1..], n - 1, err))
  {
  }

  lemma {:induction false} TakeWordsRender(ws: seq<Word>, rest: seq<string>, err: ParseError)
    ensures TakeWordsSpec(ShowWords(ws) + rest, |ws|, err) == Ok((ws, rest))
  {
    if ws == [] {
      assert ShowWords(ws) + rest == rest;
    } else {
      ShowWordsCons(ws, rest);
      ShowWordParses(ws[0]);
      TakeWordsCons(ShowWords(ws) + rest, |ws|, err, ws[0]);
      TakeWordsRender(ws[1..], rest, err);
      assert [ws[0]] + ws[1..] == ws;
    }
  }

  lemma {:induction false} CodeBlockRender(code: CodeBlock, rest: seq<string>)
    requires USizeSpan(code.start, code.end) == |code.instructions|
    ensures CodeBlockSpec([OffsetsLine(code.start, code.end)] + (ShowWords(code.instructions) + rest)) == Ok((code, rest))
  {
    OffsetsLineParses(code.start, code.end);
    TakeWordsRender(code.instructions, rest, BadInstruction);
  }

  lemma {:induction false} DataBlockRender(data: DataBlock, rest: seq<string>)
    requires USizeSpan(data.start, data.end) == |data.data|
    ensures DataBlockSpec([OffsetsLine(data.start, data.end)] + (ShowWords(data.data) + rest)) == Ok((data, rest))
  {
    OffsetsLineParses(data.start, data.end);
    TakeWordsRender(data.data, rest, BadDataValue);
  }

  /** A rendered symbol line reads back as its name and address, and is not the end sentinel. */
  lemma SymbolLineRender(name: string, address: USize)
    requires NoSpace(name)
    ensures SymbolLine(name + " " + Show(address)) == Some((name, address))
    ensures name + " " + Show(address) != TOKEN_END
  {
    ShowHasNoSpace(address);
    SplitPairIff(name + " " + Show(address), name, Show(address));
    ParseShow(address, USIZE_MOD);
    assert (name + " " + Show(address))[|name|] == ' ';
  }

  lemma SymbolLinesCons(entries: seq<(string, USize)>, rest: seq<string>)
    requires entries != []
    ensures |SymbolLines(entries) + rest| > 0
    ensures (SymbolLines(entries) + rest)[0] == entries[0].0 + " " + Show(entries[0].1)
    ensures (SymbolLines(entries) + rest)[1..] == SymbolLines(entries[1..]) + rest
  {
    assert SymbolLines(entries) + rest == [entries[0].0 + " " + Show(entries[0].1)] + (SymbolLines(entries[1..]) + rest);
  }

  lemma {:induction false} SymbolsRender(entries: seq<(string, USize)>, rest: seq<string>, table: SymbolTable)
    requires forall i :: 0 <= i < |entries| ==> NoSpace(entries[i].0)
    ensures SymbolsSpec(SymbolLines(entries) + ([TOKEN_END] + rest), table) == Ok(InsertAll(table, entries))
  {
    if entries == [] {
      assert SymbolLines(entries) + ([TOKEN_END] + rest) == [TOKEN_END] + rest;
    } else {
      SymbolLinesCons(entries, [TOKEN_END] + rest);
      SymbolLineRender(entries[0].0, entries[0].1);
      SymbolsRender(entries[1..], rest, table[entries[0].0 := entries[0].1]);
    }
  }

  /**
   * Reading back a rendered module gives the same blocks and the table that
   * inserting the symbols in order builds, for every pair of blocks whose word
   * counts match their offsets and every symbol name free of spaces.
   */
  lemma {:induction false} ParseRender(code: CodeBlock, data: DataBlock, entries: seq<(string, USize)>)
    requires USizeSpan(code.start, code.end) == |code.instructions|
    requires USizeSpan(data.start, data.end) == |data.data|
    requires forall i :: 0 <= i < |entries| ==> NoSpace(entries[i].0)
    ensures ParseSpec(Render(code, data, entries)) == Ok(ObjectModule(code, data, InsertAll(map[], entries)))
  {
    var symbols := [TOKEN_SYMBOLTABLE] + (SymbolLines(entries) + [TOKEN_END]);
    var afterData := [TOKEN_DATA] + ([OffsetsLine(data.start, data.end)] + (ShowWords(data.data) + symbols));
    CodeBlockRender(code, afterData);
    DataBlockRender(data, symbols);
    SymbolsRender(entries, [], map[]);
    assert [TOKEN_END] + [] == [TOKEN_END];
  }
}

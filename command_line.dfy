/**
 * The interactive shell of the demo: each input line is read through a string
 * stream, its first word selects a command (case-insensitively), and the command's
 * arguments are read with `readArg`, which accepts a bare word or a quoted string.
 * What the shell would print or send to the network is returned as a list of
 * effects; the network operations themselves are not modelled.
 */
module CommandLine {
  import opened Wrappers
  import opened CType
  import opened Stream

  datatype Command =
    | Get(key: string)
    | Put(key: string, value: string)
    | Addr
    | Help
    | Unknown(word: string)

  /** What handling one line does, in order. */
  datatype Effect =
    | ReportEmptyKey             // "empty key"
    | ReportEmptyValue           // "empty value"
    | IssueGet(key: string)      // "Get(key)" and an asynchronous get on the network
    | IssuePut(key: string, value: string)  // "Put(key,value)" and a signed put on the network
    | ShowAddresses              // the node's public addresses
    | ReportUnknown(word: string)  // "unknown command 'word'"
    | ShowCommands               // the command listing

  predicate IsQuote(c: char) { c == '"' }

  /** Where `discardBlanks` leaves the cursor of a good stream: past spaces and tabs only. */
  function ArgStart(line: string, i: nat): (j: nat)
    requires i <= |line|
  {
    FirstFrom(line, i, NotBlank)
  }

  /** Whether `readArg` from `i` reads a quoted argument. */
  predicate QuotedAt(line: string, i: nat)
    requires i <= |line|
  {
    ArgStart(line, i) < |line| && line[ArgStart(line, i)] == '"'
  }

  /** Index of the closing quote of a quoted argument opened just before `i`, or `|line|`. */
  function QuoteEnd(line: string, i: nat): (e: nat)
    requires i <= |line|
  {
    FirstFrom(line, i, IsQuote)
  }

  /** The string `readArg` returns when the cursor is at `i`. */
  function Arg(line: string, i: nat): (a: string)
    requires i <= |line|
    ensures |a| <= |line| - i
    ensures (forall k :: i <= k < |line| ==> IsBlank(line[k])) ==> a == []
  {
    var j := ArgStart(line, i);
    if j == |line| then []
    else if line[j] == '"' then line[j + 1..QuoteEnd(line, j + 1)]
    else Word(line, j)
  }

  /** Where `readArg` leaves the cursor when it starts at `i`. */
  function ArgEnd(line: string, i: nat): (p: nat)
    requires i <= |line|
    ensures i <= p <= |line|
  {
    var j := ArgStart(line, i);
    if j == |line| then |line|
    else if line[j] == '"' then
      (var e := QuoteEnd(line, j + 1); if e < |line| then e + 1 else |line|)
    else WordEnd(line, j)
  }

  /** When only blanks are left, `readArg` returns the empty string and exhausts the line. */
  lemma ArgOfBlankRest(line: string, i: nat)
    requires i <= |line|
    requires forall k :: i <= k < |line| ==> IsBlank(line[k])
    ensures Arg(line, i) == [] && ArgEnd(line, i) == |line|
  {
  }

  /**
   * A quoted argument is the text after the opening quote up to the next quote or
   * the end of the line, quotes excluded; it may hold blanks but never a quote.
   */
  lemma QuotedArgShape(line: string, i: nat)
    requires i <= |line| && QuotedAt(line, i)
    ensures var j := ArgStart(line, i);
      && (forall k :: i <= k < j ==> IsBlank(line[k]))
      && Arg(line, i) == line[j + 1..j + 1 + |Arg(line, i)|]
      && '"' !in Arg(line, i)
      && (j + 1 + |Arg(line, i)| < |line| ==> line[j + 1 + |Arg(line, i)|] == '"')
  {
    var j := ArgStart(line, i);
    var e := QuoteEnd(line, j + 1);
    forall c | c in Arg(line, i) ensures c != '"' {
      var k :| 0 <= k < e - (j + 1) && Arg(line, i)[k] == c;
      assert line[j + 1 + k] == c;
    }
  }

  /**
   * A bare argument is a maximal run of non-whitespace characters of the line: only
   * whitespace is skipped before it, it holds no blank nor any other whitespace, and
   * it ends at whitespace or at the end of the line.
   */
  lemma BareArgShape(line: string, i: nat)
    requires i <= |line| && !QuotedAt(line, i)
    ensures var e := ArgEnd(line, i); var s := e - |Arg(line, i)|;
      && i <= s && Arg(line, i) == line[s..e]
      && (forall k :: i <= k < s ==> IsSpace(line[k]))
      && (s < |line| ==> !IsSpace(line[s]))
    ensures forall c :: c in Arg(line, i) ==> !IsSpace(c) && !IsBlank(c)
    ensures ArgEnd(line, i) < |line| ==> IsSpace(line[ArgEnd(line, i)])
    ensures Arg(line, i) == [] <==> forall k :: i <= k < |line| ==> IsSpace(line[k])
  {
    var j := ArgStart(line, i);
    if j < |line| {
      WordShape(line, j);
    }
  }

  /** `discardBlanks`: consumes spaces and tabs while the stream is good. */
  method DiscardBlanks(input: StringStream)
    requires input.Valid()
    modifies input
    ensures input.Valid()
    ensures input.pos == if old(input.Good()) then ArgStart(input.line, old(input.pos)) else old(input.pos)
    ensures input.eof == (old(input.eof) || (old(input.Good()) && input.pos == |input.line|))
    ensures input.fail == old(input.fail)
  {
    ghost var start := input.pos;
    while true
      invariant input.Valid()
      invariant input.eof == old(input.eof) && input.fail == old(input.fail)
      invariant start <= input.pos
      invariant !old(input.Good()) ==> input.pos == start
      invariant forall k :: start <= k < input.pos ==> IsBlank(input.line[k])
      decreases |input.line| - input.pos
    {
      if !input.Good() {
        break;
      }
      var c := input.Peek();
      if c.None? || !IsBlank(c.value) {
        FirstFromUnique(input.line, start, NotBlank, input.pos);
        break;
      }
      var _ := input.Get();
    }
  }

  /** `readArg`: skips blanks, then reads a quoted argument or a bare word; "" once the line is exhausted. */
  method ReadArg(input: StringStream) returns (arg: string)
    requires input.Valid()
    modifies input
    ensures input.Valid()
    ensures arg == Arg(input.line, old(input.pos))
    ensures input.pos == ArgEnd(input.line, old(input.pos))
    ensures input.pos < |input.line| ==> input.Good()
  {
    DiscardBlanks(input);
    if !input.Good() {
      return [];
    }
    ghost var j := input.pos;
    var c := input.Peek();
    if c == Some('"') {
      input.IgnoreOne();
      arg := input.GetLine('"');
      forall k | j + 1 <= k < j + 1 + |arg| ensures !IsQuote(input.line[k]) {
        assert input.line[k] == arg[k - (j + 1)];
      }
      FirstFromUnique(input.line, j + 1, IsQuote, j + 1 + |arg|);
    } else {
      arg := input.ExtractWord();
    }
  }

  /** The command `handleCommand` selects when the stream's cursor is at `i`. */
  function ParseAt(line: string, i: nat): (c: Command)
    requires i <= |line|
    ensures c.Unknown? ==>
      (c.word == Lower(Word(line, i)) && c.word != "get" && c.word != "put" && c.word != "addr" && c.word != "help")
    ensures c.Get? ==> c.key == Arg(line, WordEnd(line, i))
    ensures c.Put? ==>
      (c.key == Arg(line, WordEnd(line, i)) && c.value == Arg(line, ArgEnd(line, WordEnd(line, i))))
  {
    var word := Lower(Word(line, i));
    var rest := WordEnd(line, i);
    if word == "get" then Get(Arg(line, rest))
    else if word == "put" then Put(Arg(line, rest), Arg(line, ArgEnd(line, rest)))
    else if word == "addr" then Addr
    else if word == "help" then Help
    else Unknown(word)
  }

  /** `doGet`: an empty key is refused before anything is sent. */
  function DoGet(key: string): (effects: seq<Effect>)
    ensures |effects| == 1
    ensures effects[0].IssueGet? <==> key != []
    ensures effects[0].IssueGet? ==> effects[0].key == key
  {
    if key == [] then [ReportEmptyKey] else [IssueGet(key)]
  }

  /** `doPut`: an empty key, then an empty value, is refused before anything is sent. */
  function DoPut(key: string, value: string): (effects: seq<Effect>)
    ensures |effects| == 1
    ensures effects[0].IssuePut? <==> key != [] && value != []
    ensures effects[0].IssuePut? ==> effects[0].key == key && effects[0].value == value
    ensures key == [] ==> effects[0] == ReportEmptyKey
  {
    if key == [] then [ReportEmptyKey]
    else if value == [] then [ReportEmptyValue]
    else [IssuePut(key, value)]
  }

  /** The effects of one dispatched command. */
  function Execute(c: Command): (effects: seq<Effect>)
    ensures 0 < |effects| <= 2
    ensures ShowCommands in effects <==> c.Help? || c.Unknown?
    ensures effects[0].ReportUnknown? <==> c.Unknown?
  {
    match c
    case Get(key) => DoGet(key)
    case Put(key, value) => DoPut(key, value)
    case Addr => [ShowAddresses]
    case Help => [ShowCommands]
    case Unknown(word) => [ReportUnknown(word), ShowCommands]
  }

  /** No get is issued for an empty key, no put for an empty key or value, and the key is checked first. */
  lemma RequestsNeedArguments(key: string, value: string)
    ensures IssueGet(key) in DoGet(key) <==> key != []
    ensures forall e :: e in DoGet(key) ==> e == ReportEmptyKey || e == IssueGet(key)
    ensures IssuePut(key, value) in DoPut(key, value) <==> key != [] && value != []
    ensures forall e :: e in DoPut(key, value) ==> e == ReportEmptyKey || e == ReportEmptyValue || e == IssuePut(key, value)
    ensures key == [] ==> DoGet(key) == [ReportEmptyKey] && DoPut(key, value) == [ReportEmptyKey]
  {
  }

  /**
   * Dispatch on a line: the first word is compared after lowering; `put` reads its
   * key and then its value from where the key ended; every word other than get, put
   * and addr shows the command listing, and every one of those but help is also
   * reported as unknown. No request ever carries an empty argument.
   */
  lemma DispatchOnFirstWord(line: string, i: nat)
    requires i <= |line|
    ensures var word := Lower(Word(line, i));
      var effects := Execute(ParseAt(line, i));
      && (ParseAt(line, i).Get? <==> word == "get")
      && (ParseAt(line, i).Put? <==> word == "put")
      && (ParseAt(line, i).Put? ==>
            var keyEnd := ArgEnd(line, WordEnd(line, i));
            ParseAt(line, i).key == Arg(line, WordEnd(line, i)) && ParseAt(line, i).value == Arg(line, keyEnd))
      && (ShowCommands in effects <==> word != "get" && word != "put" && word != "addr")
      && (ReportUnknown(word) in effects <==> word != "get" && word != "put" && word != "addr" && word != "help")
      && (forall e :: e in effects && e.IssueGet? ==> e.key != [])
      && (forall e :: e in effects && e.IssuePut? ==> e.key != [] && e.value != [])
  {
  }

  /** `handleCommand`: reads the command word, lowers it, and dispatches. */
  method HandleCommand(input: StringStream) returns (effects: seq<Effect>)
    requires input.Valid()
    modifies input
    ensures input.Valid()
    ensures effects == Execute(ParseAt(input.line, old(input.pos)))
  {
    var command := input.ExtractWord();
    command := Lower(command);
    if command == "get" {
      var key := ReadArg(input);
      effects := DoGet(key);
      return;
    }
    if command == "put" {
      var key := ReadArg(input);
      var value := ReadArg(input);
      effects := DoPut(key, value);
      return;
    }
    if command == "addr" {
      effects := [ShowAddresses];
      return;
    }
    effects := [];
    if command != "help" {
      effects := [ReportUnknown(command)];
    }
    effects := effects + [ShowCommands];
  }

  /** A line that spells out a command, each argument between double quotes. */
  function Render(c: Command): (line: string)
  {
    match c
    case Get(key) => "get \"" + key + "\""
    case Put(key, value) => "put \"" + key + "\" \"" + value + "\""
    case Addr => "addr"
    case Help => "help"
    case Unknown(word) => word
  }

  /** Commands a line can express: quoted arguments hold no quote; an unknown word is one lowered word. */
  predicate Renderable(c: Command)
  {
    match c
    case Get(key) => '"' !in key
    case Put(key, value) => '"' !in key && '"' !in value
    case Unknown(word) =>
      && (forall k :: 0 <= k < |word| ==> !IsSpace(word[k]) && !IsUpper(word[k]))
      && word != "get" && word != "put" && word != "addr" && word != "help"
    case _ => true
  }

  /** A blank followed by a quoted string reads back as that string. */
  lemma ReadQuoted(line: string, i: nat, a: string)
    requires i + |a| + 3 <= |line|
    requires IsBlank(line[i]) && line[i + 1] == '"' && line[i + 2 + |a|] == '"'
    requires line[i + 2..i + 2 + |a|] == a && '"' !in a
    ensures Arg(line, i) == a && ArgEnd(line, i) == i + |a| + 3
  {
    FirstFromUnique(line, i, NotBlank, i + 1);
    forall k | i + 2 <= k < i + 2 + |a| ensures !IsQuote(line[k]) {
      assert line[k] == a[k - (i + 2)];
    }
    FirstFromUnique(line, i + 2, IsQuote, i + 2 + |a|);
  }

  /** A keyword followed by a blank or the end of the line is read as that keyword. */
  lemma ReadKeyword(line: string, keyword: string)
    requires 0 < |keyword| <= |line| && line[..|keyword|] == keyword
    requires forall k :: 0 <= k < |keyword| ==> !IsSpace(keyword[k]) && !IsUpper(keyword[k])
    requires |keyword| < |line| ==> IsBlank(line[|keyword|])
    ensures Lower(Word(line, 0)) == keyword && WordEnd(line, 0) == |keyword|
  {
    FirstFromUnique(line, 0, NotSpace, 0);
    assert forall k :: 0 <= k < |keyword| ==> line[k] == keyword[k];
    FirstFromUnique(line, 0, IsSpace, |keyword|);
    assert Word(line, 0) == keyword;
  }

  lemma ParseRenderedGet(key: string)
    requires '"' !in key
    ensures ParseAt(Render(Get(key)), 0) == Get(key)
  {
    var line := Render(Get(key));
    ReadKeyword(line, "get");
    assert line[5..5 + |key|] == key;
    ReadQuoted(line, 3, key);
  }

  lemma ParseRenderedPut(key: string, value: string)
    requires '"' !in key && '"' !in value
    ensures ParseAt(Render(Put(key, value)), 0) == Put(key, value)
  {
    var line := Render(Put(key, value));
    ReadKeyword(line, "put");
    assert line[5..5 + |key|] == key;
    ReadQuoted(line, 3, key);
    assert line[|key| + 8..|key| + 8 + |value|] == value;
    ReadQuoted(line, |key| + 6, value);
  }

  /** Parsing the rendered line of a command gives the command back. */
  lemma {:induction false} ParseRender(c: Command)
    requires Renderable(c)
    ensures ParseAt(Render(c), 0) == c
  {
    match c
    case Get(key) =>
      ParseRenderedGet(key);
    case Put(key, value) =>
      ParseRenderedPut(key, value);
    case Addr =>
      ReadKeyword(Render(c), "addr");
    case Help =>
      ReadKeyword(Render(c), "help");
    case Unknown(word) =>
      if word == [] {
        assert Word(Render(c), 0) == [];
      } else {
        ReadKeyword(Render(c), word);
      }
  }
}

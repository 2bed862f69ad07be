/** The VM command reader (VMParser.py): cleans the source lines once, then
    walks the cleaned commands with a cursor and answers questions about
    the current one.  The file is given as its list of lines. */
module VMParser {

  import opened Base
  import opened Strings
  import opened Commands

  // ---------------------------------------------------------------------------
  // Cleaning

  /** `line.strip().split('//')[0]`: the stripped line up to its first
      comment; it holds no `"//"`, and it is cut short only where a
      `"//"` begins. */
  function CleanLine(line: string): (r: string)
    ensures r <= Strip(line)
    ensures forall k :: !SlashesAt(r, k)
    ensures r == Strip(line) || SlashesAt(Strip(line), |r|)
    ensures forall k :: 0 <= k < |r| ==> !SlashesAt(Strip(line), k)
  {
    var s := Strip(line);
    var r := BeforeComment(s);
    assert forall k :: 0 <= k < |r| ==> SlashesAt(r, k) ==> SlashesAt(s, k);
    r
  }

  /** A cleaned line never starts with white space, so its first token is
      the command word. */
  lemma CleanLineStartsWithText(line: string)
    ensures var r := CleanLine(line);
      r == [] || !IsSpace(r[0])
  {
    var r := CleanLine(line);
    if r != [] {
      assert r[0] == Strip(line)[0];
    }
  }

  /** The first comprehension: every line cleaned, in file order. */
  function CleanLines(lines: seq<string>): (r: seq<string>)
    ensures |r| == |lines|
    ensures forall k :: 0 <= k < |lines| ==> r[k] == CleanLine(lines[k])
  {
    if |lines| == 0 then [] else [CleanLine(lines[0])] + CleanLines(lines[1..])
  }

  /** The second comprehension: the entries that are not empty, in order. */
  function DropEmpty(cs: seq<string>): seq<string>
    decreases |cs|
  {
    if |cs| == 0 then []
    else DropEmpty(cs[..|cs| - 1]) + (if cs[|cs| - 1] != "" then [cs[|cs| - 1]] else [])
  }

  /** The command list the constructor keeps. */
  function Clean(lines: seq<string>): seq<string> {
    DropEmpty(CleanLines(lines))
  }

  /** The positions of the entries that are not empty, in order. */
  function NonEmptyPositions(cs: seq<string>): seq<nat>
    decreases |cs|
  {
    if |cs| == 0 then []
    else
      var n := |cs| - 1;
      NonEmptyPositions(cs[..n]) + (if cs[n] != "" then [n] else [])
  }

  /** `out` lists, in order and without gaps, exactly the entries of `cs`
      at positions `idx`, which are all its entries that are not empty. */
  predicate SelectsNonEmpty(out: seq<string>, cs: seq<string>, idx: seq<nat>) {
    && |idx| == |out|
    && (forall i :: 0 <= i < |idx| ==> idx[i] < |cs| && out[i] == cs[idx[i]] && out[i] != "")
    && (forall i, j :: 0 <= i < j < |idx| ==> idx[i] < idx[j])
    && (forall k :: 0 <= k < |cs| && cs[k] != "" ==> k in idx)
  }

  /** Dropping keeps, entry for entry, the entries at the listed positions,
      none of which is empty. */
  lemma {:induction false} DropEmptyPicks(cs: seq<string>)
    ensures var out, idx := DropEmpty(cs), NonEmptyPositions(cs);
      && |idx| == |out|
      && (forall i :: 0 <= i < |idx| ==> idx[i] < |cs| && out[i] == cs[idx[i]] && out[i] != "")
    decreases |cs|
  {
    if |cs| > 0 {
      var n := |cs| - 1;
      var init := cs[..n];
      DropEmptyPicks(init);
      var idx := NonEmptyPositions(cs);
      var out := DropEmpty(cs);
      forall i | 0 <= i < |idx|
        ensures idx[i] < |cs| && out[i] == cs[idx[i]] && out[i] != ""
      {
        if i < |NonEmptyPositions(init)| {
          assert idx[i] == NonEmptyPositions(init)[i];
          assert out[i] == DropEmpty(init)[i];
          assert init[idx[i]] == cs[idx[i]];
        }
      }
    }
  }

  /** The positions are listed in increasing order. */
  lemma {:induction false} NonEmptyPositionsIncrease(cs: seq<string>)
    ensures var idx := NonEmptyPositions(cs);
      forall i, j :: 0 <= i < j < |idx| ==> idx[i] < idx[j]
    decreases |cs|
  {
    if |cs| > 0 {
      var n := |cs| - 1;
      var init := cs[..n];
      NonEmptyPositionsIncrease(init);
      DropEmptyPicks(init);
      var prev := NonEmptyPositions(init);
      var idx := NonEmptyPositions(cs);
      forall i, j | 0 <= i < j < |idx|
        ensures idx[i] < idx[j]
      {
        assert idx[i] == prev[i];
        if j < |prev| {
          assert idx[j] == prev[j];
        } else {
          assert idx[j] == n;
        }
      }
    }
  }

  /** Every position holding an entry that is not empty is listed. */
  lemma {:induction false} NonEmptyPositionsComplete(cs: seq<string>)
    ensures var idx := NonEmptyPositions(cs);
      forall k :: 0 <= k < |cs| && cs[k] != "" ==> k in idx
    decreases |cs|
  {
    if |cs| > 0 {
      var n := |cs| - 1;
      var init := cs[..n];
      NonEmptyPositionsComplete(init);
      var prev := NonEmptyPositions(init);
      var idx := NonEmptyPositions(cs);
      forall k | 0 <= k < |cs| && cs[k] != ""
        ensures k in idx
      {
        if k < n {
          assert cs[k] == init[k];
          assert k in prev;
          assert idx == prev + (if cs[n] != "" then [n] else []);
        } else {
          assert idx == prev + [n];
        }
      }
    }
  }

  lemma {:induction false} DropEmptySelects(cs: seq<string>)
    ensures SelectsNonEmpty(DropEmpty(cs), cs, NonEmptyPositions(cs))
  {
    DropEmptyPicks(cs);
    NonEmptyPositionsIncrease(cs);
    NonEmptyPositionsComplete(cs);
  }

  /** `out` lists, in order and without gaps, the cleaned form of exactly
      the lines at positions `idx`, which are all the lines whose cleaned
      form is not empty. */
  predicate CleanedFrom(out: seq<string>, lines: seq<string>, idx: seq<nat>) {
    && |idx| == |out|
    && (forall i :: 0 <= i < |idx| ==> idx[i] < |lines| && out[i] == CleanLine(lines[idx[i]]) && out[i] != "")
    && (forall i, j :: 0 <= i < j < |idx| ==> idx[i] < idx[j])
    && (forall k :: 0 <= k < |lines| && CleanLine(lines[k]) != "" ==> k in idx)
  }

  /** Cleaning keeps order, drops exactly the blank and comment-only lines,
      and keeps every other line as its prefix before the first comment. */
  lemma CleanKeepsCommands(lines: seq<string>)
    ensures CleanedFrom(Clean(lines), lines, NonEmptyPositions(CleanLines(lines)))
  {
    var cs := CleanLines(lines);
    var idx := NonEmptyPositions(cs);
    var out := DropEmpty(cs);
    DropEmptySelects(cs);
    forall i | 0 <= i < |idx|
      ensures idx[i] < |lines| && out[i] == CleanLine(lines[idx[i]]) && out[i] != ""
    {
      assert out[i] == cs[idx[i]];
    }
    forall k | 0 <= k < |lines| && CleanLine(lines[k]) != ""
      ensures k in idx
    {
      assert cs[k] == CleanLine(lines[k]);
    }
  }

  // ---------------------------------------------------------------------------
  // The cursor

  datatype ParseError =
    | NoMoreCommands            // `advance` past the last command: IndexError
    | UnknownCommand(token: string)  // `types[cmd]`: KeyError
    | MissingToken(position: nat)    // `split(' ')[i]` too short: IndexError
    | NotAnInteger(token: string)    // `int(...)`: ValueError

  /** The reader's state: the cleaned commands, the index of the next one
      and the current one (empty before the first `advance`). */
  datatype Parser = Parser(commands: seq<string>, index: nat, current: string)

  /** `Parser.__init__` on the lines of the file. */
  function NewParser(lines: seq<string>): (p: Parser)
    ensures p.commands == Clean(lines) && p.index == 0 && p.current == ""
  {
    Parser(Clean(lines), 0, "")
  }

  /** `has_more_lines` */
  predicate HasMoreLines(p: Parser) {
    p.index < |p.commands|
  }

  /** `advance`: makes the next command current and moves past it; called
      with no command left, it fails as the list index does. */
  function Advance(p: Parser): (r: Result<Parser, ParseError>)
    ensures r.Ok? <==> HasMoreLines(p)
    ensures r.Err? ==> r.error == NoMoreCommands
    ensures r.Ok? ==> r.value.commands == p.commands
    ensures r.Ok? ==> r.value.index == p.index + 1 && r.value.current == p.commands[p.index]
  {
    if p.index < |p.commands| then Ok(Parser(p.commands, p.index + 1, p.commands[p.index]))
    else Err(NoMoreCommands)
  }

  /** The translator's loop: `while has_more_lines(): advance()`, from a
      fresh reader.  It advances exactly once per command, makes each of
      them current once, in order, and stops with no command left. */
  method ReadAll(start: Parser) returns (visited: seq<string>, advances: nat)
    requires start.index == 0
    ensures visited == start.commands
    ensures advances == |start.commands|
  {
    var p := start;
    visited := [];
    advances := 0;
    while HasMoreLines(p)
      invariant p.commands == start.commands
      invariant p.index <= |p.commands|
      invariant visited == p.commands[..p.index]
      invariant advances == p.index
      decreases |p.commands| - p.index
    {
      var r := Advance(p);
      p := r.value;
      assert p.commands[..p.index] == p.commands[..p.index - 1] + [p.current];
      visited := visited + [p.current];
      advances := advances + 1;
    }
    assert p.commands[..p.index] == p.commands;
  }

  // ---------------------------------------------------------------------------
  // Questions about the current command

  /** `current_command.split(' ')` */
  function Tokens(p: Parser): seq<string> {
    Split(p.current, ' ')
  }

  /** The fixed table `command_type` looks the first token up in. */
  const Types: map<string, CommandKind> := map[
    "add" := Arithmetic, "sub" := Arithmetic, "neg" := Arithmetic,
    "eq" := Arithmetic, "gt" := Arithmetic, "lt" := Arithmetic,
    "and" := Arithmetic, "or" := Arithmetic, "not" := Arithmetic,
    "push" := Push, "pop" := Pop, "goto" := Goto, "if-goto" := If,
    "label" := Label, "call" := Call, "function" := Function, "return" := Return]

  /** The nine arithmetic and logical commands. */
  predicate IsArithmeticToken(t: string) {
    t in {"add", "sub", "neg", "eq", "gt", "lt", "and", "or", "not"}
  }

  /** `command_type`: the kind of the first token, or a KeyError. */
  function CommandType(p: Parser): (r: Result<CommandKind, ParseError>)
    ensures r.Err? <==> Tokens(p)[0] !in Types
    ensures r.Err? ==> r.error == UnknownCommand(Tokens(p)[0])
    ensures r.Ok? ==> r.value == Types[Tokens(p)[0]]
  {
    var cmd := Tokens(p)[0];
    if cmd in Types then Ok(Types[cmd]) else Err(UnknownCommand(cmd))
  }

  /** A command is arithmetic exactly when its first token is one of the
      nine arithmetic commands. */
  lemma ArithmeticClassification(p: Parser)
    ensures CommandType(p) == Ok(Arithmetic) <==> IsArithmeticToken(Tokens(p)[0])
  {
    var t := Tokens(p)[0];
    if t in Types && Types[t] == Arithmetic {
      assert t in {"add", "sub", "neg", "eq", "gt", "lt", "and", "or", "not"};
    }
  }

  /** `arg1`: the command itself for an arithmetic command, the second token
      otherwise; fails when the kind is unknown or the token is missing. */
  function Arg1(p: Parser): (r: Result<string, ParseError>)
    ensures r.Ok? ==> r.value in Tokens(p) && ' ' !in r.value
    ensures CommandType(p).Err? ==> r.Err?
    ensures CommandType(p) == Ok(Arithmetic) ==> r == Ok(Tokens(p)[0])
    ensures CommandType(p).Ok? && CommandType(p) != Ok(Arithmetic) ==>
      r == (if |Tokens(p)| > 1 then Ok(Tokens(p)[1]) else Err(MissingToken(1)))
  {
    var kind :- CommandType(p);
    var ts := Tokens(p);
    if kind == Arithmetic then Ok(ts[0])
    else if |ts| > 1 then Ok(ts[1])
    else Err(MissingToken(1))
  }

  /** `arg2`: the third token read as a Python integer; fails when the
      token is missing or is not an integer. */
  function Arg2(p: Parser): (r: Result<int, ParseError>)
    ensures r.Ok? ==> |Tokens(p)| > 2 && ParseInt(Tokens(p)[2]) == Some(r.value)
    ensures |Tokens(p)| <= 2 ==> r == Err(MissingToken(2))
    ensures |Tokens(p)| > 2 ==>
      r == (if ParseInt(Tokens(p)[2]).Some? then Ok(ParseInt(Tokens(p)[2]).value)
            else Err(NotAnInteger(Tokens(p)[2])))
  {
    var ts := Tokens(p);
    if |ts| <= 2 then Err(MissingToken(2))
    else match ParseInt(ts[2])
      case Some(n) => Ok(n)
      case None => Err(NotAnInteger(ts[2]))
  }

  /** The parser at the command `text`. */
  function At(text: string): Parser {
    Parser([text], 1, text)
  }

  /** Reading a command back: for `kind segment n` written with single
      spaces, the reader finds the kind, `segment` as the first argument and
      `n` as the second. */
  lemma ArgumentsRoundTrip(kind: string, segment: string, n: int)
    requires kind in Types && Types[kind] != Arithmetic
    requires ' ' !in kind && ' ' !in segment
    requires FitsStrDigits(n)
    ensures var p := At(kind + " " + segment + " " + IntToString(n));
      CommandType(p) == Ok(Types[kind]) && Arg1(p) == Ok(segment) && Arg2(p) == Ok(n)
  {
    var digits := IntToString(n);
    NoSpaceInNumber(n);
    var parts := [kind, segment, digits];
    assert Join(parts, ' ') == kind + " " + segment + " " + digits by {
      assert Join(parts[1..], ' ') == segment + " " + digits by {
        assert parts[1..][1..] == [digits];
      }
    }
    SplitJoin(parts, ' ');
    ParseIntToString(n);
  }

  /** A comment after a command leaves a trailing space on the cleaned
      line, so the last token is empty; the reader still finds the kind,
      the segment and the number. */
  lemma ArgumentsWithTrailingSpace(kind: string, segment: string, n: int)
    requires kind in Types && Types[kind] != Arithmetic
    requires ' ' !in kind && ' ' !in segment
    requires FitsStrDigits(n)
    ensures var p := At(kind + " " + segment + " " + IntToString(n) + " ");
      |Tokens(p)| == 4
      && CommandType(p) == Ok(Types[kind]) && Arg1(p) == Ok(segment) && Arg2(p) == Ok(n)
  {
    var digits := IntToString(n);
    NoSpaceInNumber(n);
    var parts := [kind, segment, digits, ""];
    assert Join(parts, ' ') == kind + " " + segment + " " + digits + " " by {
      assert Join(parts[1..], ' ') == segment + " " + digits + " " by {
        assert Join(parts[1..][1..], ' ') == digits + " " by {
          assert parts[1..][1..][1..] == [""];
        }
      }
    }
    SplitJoin(parts, ' ');
    ParseIntToString(n);
  }

  /** `int()` rejects a number padded with an ASCII separator, although
      `strip()` would remove it: the second argument of
      `push constant \x1f5` is a ValueError. */
  lemma SeparatorPaddedNumber()
    ensures Arg2(At("push constant \U{1f}5")) == Err(NotAnInteger("\U{1f}5"))
  {
    var number := "\U{1f}5";
    var parts := ["push", "constant", number];
    assert Join(parts, ' ') == "push constant \U{1f}5" by {
      assert Join(parts[1..], ' ') == "constant " + number by {
        assert parts[1..][1..] == [number];
      }
    }
    SplitJoin(parts, ' ');
    assert ParseInt(number) == None by {
      assert IsSeparator(number[0]);
    }
  }

  /** The decimal form of an integer holds no space. */
  lemma NoSpaceInNumber(n: int)
    ensures ' ' !in IntToString(n)
  {
    var digits := IntToString(n);
    forall k | 0 <= k < |digits| ensures digits[k] != ' ' {
      if k > 0 || n >= 0 {
        assert n < 0 ==> digits[k] == NatToString(-n)[k - 1];
      }
    }
  }

  /** Reading an arithmetic command back: the command is its own first
      argument. */
  lemma ArithmeticRoundTrip(op: string)
    requires IsArithmeticToken(op)
    ensures CommandType(At(op)) == Ok(Arithmetic) && Arg1(At(op)) == Ok(op)
  {
    assert ' ' !in op;
    SplitJoin([op], ' ');
    ArithmeticClassification(At(op));
  }
}

/**
 * The interpreter object: its two tables are fields updated in place, the turtle is an object
 * whose methods record the calls made on it, and each method of the source is a method here,
 * proved to compute what the functions of Semantics, Nesting and Lexer say.
 */
module Runtime {
  import opened Wrappers
  import opened Lexer
  import opened Numbers
  import opened Errors
  import opened Nesting
  import opened Semantics

  /** The turtle as the interpreter uses it: the sequence of calls made on it. */
  class Turtle {
    var log: seq<Call>

    constructor ()
      ensures log == []
    {
      log := [];
    }

    method Forward(distance: Num)
      modifies this
      ensures log == old(log) + [Call.Forward(distance)]
    {
      log := log + [Call.Forward(distance)];
    }

    method Right(degrees: Num)
      modifies this
      ensures log == old(log) + [Call.Right(degrees)]
    {
      log := log + [Call.Right(degrees)];
    }

    method Left(degrees: Num)
      modifies this
      ensures log == old(log) + [Call.Left(degrees)]
    {
      log := log + [Call.Left(degrees)];
    }

    method SetPen(down: bool)
      modifies this
      ensures log == old(log) + [Call.SetPen(down)]
    {
      log := log + [Call.SetPen(down)];
    }

    method SetColor(color: string)
      modifies this
      ensures log == old(log) + [Call.SetColor(color)]
    {
      log := log + [Call.SetColor(color)];
    }

    method Reset()
      modifies this
      ensures log == old(log) + [Call.Reset]
    {
      log := log + [Call.Reset];
    }
  }

  class Interpreter {
    const turtle: Turtle
    var variables: map<string, Num>
    var functions: map<string, seq<Token>>

    constructor (turtle: Turtle)
      ensures this.turtle == turtle
      ensures variables == map[] && functions == map[]
    {
      this.turtle := turtle;
      variables := map[];
      functions := map[];
    }

    /** The interpreter's state as the semantic functions see it. */
    function Snapshot(): State
      reads this, turtle
    {
      State(variables, functions, turtle.log)
    }

    /** `run(code)`: tokenize, validate (throwing before anything runs), execute. */
    method Run(code: string, fuel: nat) returns (outcome: Outcome)
      modifies this, turtle
      ensures match BracketCheck(TokensOf(code))
              case Some(e) => outcome == Failed(e) && Snapshot() == old(Snapshot())
              case None => (Snapshot(), outcome) == Exec(old(Snapshot()), TokensOf(code), fuel)
    {
      var tokens := Tokenize(code);
      var err := Validate(tokens);
      if err.Some? {
        return Failed(err.value);
      }
      outcome := Execute(tokens, fuel);
    }

    /** `tokenize(code)`: the tokens of each line of the code in turn, lines numbered from 1. */
    method Tokenize(code: string) returns (tokens: seq<Token>)
      ensures tokens == TokensOf(code)
    {
      tokens := [];
      var lines := SplitLines(code);
      var lineIdx := 0;
      assert lines[0..] == lines;
      while lineIdx < |lines|
        invariant 0 <= lineIdx <= |lines|
        invariant tokens + LinesTokens(lines[lineIdx..], lineIdx + 1) == TokensOf(code)
      {
        LinesTokensSuffix(lines, lineIdx, lineIdx + 1);
        var lineTokens := TokenizeLine(lines[lineIdx], lineIdx + 1);
        assert tokens + lineTokens + LinesTokens(lines[lineIdx + 1..], lineIdx + 2)
            == tokens + LinesTokens(lines[lineIdx..], lineIdx + 1);
        tokens := tokens + lineTokens;
        lineIdx := lineIdx + 1;
      }
      assert lines[|lines|..] == [];
    }

    /**
     * The body of the `forEach` callback of `tokenize`: the global search of one line from
     * `lastIndex` 0, each match becoming a token of that line.
     */
    method TokenizeLine(lineText: string, line: nat) returns (tokens: seq<Token>)
      ensures tokens == LineTokens(lineText, line)
    {
      tokens := [];
      var lastIndex := 0;
      var found := NextMatch(lineText, lastIndex);
      while found.Some?
        invariant lastIndex <= |lineText|
        invariant found == NextMatch(lineText, lastIndex)
        invariant tokens + SpanTokens(lineText, line, Spans(lineText, lastIndex)) == LineTokens(lineText, line)
        decreases |lineText| - lastIndex
      {
        var m := found.value;
        SpansUnfold(lineText, lastIndex);
        var rest := Spans(lineText, m.end);
        assert ([m] + rest)[1..] == rest;
        tokens := tokens + [Token(lineText[m.start..m.end], line)];
        lastIndex := m.end;
        found := NextMatch(lineText, lastIndex);
      }
      SpansUnfold(lineText, lastIndex);
    }

    /** `validate(tokens)`: None when it returns, the thrown error otherwise. */
    method Validate(tokens: seq<Token>) returns (err: Option<Error>)
      ensures err == BracketCheck(tokens)
    {
      var depth := 0;
      var i := 0;
      while i < |tokens|
        invariant 0 <= i <= |tokens|
        invariant CheckFrom(tokens, i, depth) == BracketCheck(tokens)
      {
        var t := tokens[i];
        if t.value == "[" {
          depth := depth + 1;
        }
        if t.value == "]" {
          depth := depth - 1;
        }
        if depth < 0 {
          return Some(Tagged(t.line, ExtraCloseBracket));
        }
        i := i + 1;
      }
      if depth > 0 {
        return Some(Error(None, MissingCloseBracket));
      }
      return None;
    }

    /** `getBracketedContent(tokens, start)` */
    method GetBracketedContent(tokens: seq<Token>, start: nat) returns (body: seq<Token>)
      ensures body == BracketBody(tokens, start)
    {
      body := [];
      var i := start;
      if i >= |tokens| || tokens[i].value != "[" {
        return [];
      }
      i := i + 1;
      var depth := 1;
      while i < |tokens| && depth > 0
        invariant start + 1 <= i <= |tokens| && depth >= 0
        invariant depth > 0 ==> body == tokens[start + 1..i]
                                && MatchEnd(Brackets, tokens, i, depth) == MatchEnd(Brackets, tokens, start + 1, 1)
        invariant depth == 0 ==> start + 2 <= i && body == tokens[start + 1..i - 1]
                                 && i - 1 == MatchEnd(Brackets, tokens, start + 1, 1)
      {
        if tokens[i].value == "[" {
          depth := depth + 1;
        } else if tokens[i].value == "]" {
          depth := depth - 1;
        }
        if depth > 0 {
          body := body + [tokens[i]];
        }
        i := i + 1;
      }
    }

    /**
     * `execute(tokens)` with `fuel` nested calls of it allowed: the cursor loop and its catch
     * block. A throw is the Failed outcome.
     */
    method Execute(tokens: seq<Token>, fuel: nat) returns (outcome: Outcome)
      modifies this, turtle
      ensures (Snapshot(), outcome) == Exec(old(Snapshot()), tokens, fuel)
      decreases fuel, 0
    {
      if fuel == 0 {
        return Failed(Error(None, CallStackExhausted));
      }
      var i := 0;
      while i < |tokens|
        invariant ExecFrom(Snapshot(), tokens, i, fuel - 1) == Exec(old(Snapshot()), tokens, fuel)
        decreases |tokens| - i
      {
        var t := tokens[i];
        var control := Dispatch(tokens, i, fuel - 1);
        match control {
          case Stop(err) =>
            return Failed(Retag(err, t.line));
          case Next(next) =>
            i := next;
        }
      }
      return Done;
    }

    /** The try block of `execute` for the command at cursor i: where the cursor goes next, or what it throws. */
    method Dispatch(tokens: seq<Token>, i: nat, fuel: nat) returns (control: Control)
      requires i < |tokens|
      modifies this, turtle
      ensures (Snapshot(), control) == Semantics.Dispatch(old(Snapshot()), tokens, i, fuel)
      decreases fuel, 1
    {
      var t := tokens[i];
      var cmd := Upper(t.value);
      if cmd == "VAR" {
        if i + 1 >= |tokens| {
          return Stop(Tagged(t.line, MissingVarName));
        }
        var nameToken := tokens[i + 1];
        if i + 2 >= |tokens| {
          return Stop(Tagged(t.line, MissingVarValue(nameToken.value)));
        }
        var value := Evaluate(variables, Some(tokens[i + 2]));
        if value.Failure? {
          return Stop(value.error);
        }
        variables := variables[nameToken.value := ParseFloat(value.value)];
        return Next(i + 3);
      } else if cmd == "DEF" {
        if i + 1 >= |tokens| {
          return Stop(Tagged(t.line, MissingDefName));
        }
        var name := Upper(tokens[i + 1].value);
        var body, next := DefinitionBody(tokens, i + 2);
        if next == |tokens| {
          return Stop(Tagged(t.line, MissingEnd(name)));
        }
        functions := functions[name := body];
        return Next(next + 1);
      } else if cmd == "REPEAT" {
        if i + 1 >= |tokens| {
          return Stop(Tagged(t.line, MissingRepeatCount));
        }
        var countToken := tokens[i + 1];
        var value := Evaluate(variables, Some(countToken));
        if value.Failure? {
          return Stop(value.error);
        }
        var count := ParseInt(value.value);
        if count.None? {
          return Stop(Tagged(countToken.line, RepeatNeedsNumber(countToken.value)));
        }
        var body := GetBracketedContent(tokens, i + 2);
        ghost var st0 := Snapshot();
        var r := 0;
        while r < count.value
          invariant 0 <= r <= Times(count.value)
          invariant Loop(Snapshot(), body, Times(count.value) - r, fuel) == Loop(st0, body, Times(count.value), fuel)
        {
          var o := Execute(body, fuel);
          if o.Failed? {
            return Stop(o.err);
          }
          r := r + 1;
        }
        return Next(i + 4 + |body|);
      } else if cmd == "FD" || cmd == "FORWARD" {
        if i + 1 >= |tokens| {
          return Stop(Tagged(t.line, MissingDistance));
        }
        var valToken := tokens[i + 1];
        var value := Evaluate(variables, Some(valToken));
        if value.Failure? {
          return Stop(value.error);
        }
        var distance := ParseFloat(value.value);
        if distance.NaN? {
          return Stop(Tagged(valToken.line, ForwardNeedsNumber(valToken.value)));
        }
        turtle.Forward(distance);
        return Next(i + 2);
      } else if cmd == "BK" || cmd == "BACK" {
        var value := Evaluate(variables, TokenAt(tokens, i + 1));
        if value.Failure? {
          return Stop(value.error);
        }
        turtle.Forward(Negate(ParseFloat(value.value)));
        return Next(i + 2);
      } else if cmd == "RT" || cmd == "RIGHT" {
        var value := Evaluate(variables, TokenAt(tokens, i + 1));
        if value.Failure? {
          return Stop(value.error);
        }
        turtle.Right(ParseFloat(value.value));
        return Next(i + 2);
      } else if cmd == "LT" || cmd == "LEFT" {
        var value := Evaluate(variables, TokenAt(tokens, i + 1));
        if value.Failure? {
          return Stop(value.error);
        }
        turtle.Left(ParseFloat(value.value));
        return Next(i + 2);
      } else if cmd == "PU" || cmd == "PENUP" {
        turtle.SetPen(false);
      } else if cmd == "PD" || cmd == "PENDOWN" {
        turtle.SetPen(true);
      } else if cmd == "CS" || cmd == "CLEARSCREEN" {
        turtle.Reset();
      } else if cmd == "SETCOLOR" {
        if i + 1 >= |tokens| {
          return Stop(Error(None, ColorTokenMissing));
        }
        turtle.SetColor(tokens[i + 1].value);
        return Next(i + 2);
      } else if cmd in functions {
        var o := Execute(functions[cmd], fuel);
        if o.Failed? {
          return Stop(o.err);
        }
      } else if cmd != "END" && cmd != "[" && cmd != "]" {
        return Stop(Tagged(t.line, UnknownCommand(t.value)));
      }
      return Next(i + 1);
    }

    /**
     * The scan of a DEF body from `from`, counting nested DEF/END: the tokens before the END
     * that closes it and that END's index, or all remaining tokens and |tokens| when none does.
     */
    method DefinitionBody(tokens: seq<Token>, from: nat) returns (body: seq<Token>, end: nat)
      requires from <= |tokens|
      ensures end == MatchEnd(Definitions, tokens, from, 1)
      ensures body == tokens[from..end]
    {
      body := [];
      var j := from;
      var depth := 1;
      while j < |tokens| && depth > 0
        invariant from <= j <= |tokens| && depth >= 0
        invariant depth > 0 ==> body == tokens[from..j]
                                && MatchEnd(Definitions, tokens, j, depth) == MatchEnd(Definitions, tokens, from, 1)
        invariant depth == 0 ==> from + 1 <= j && body == tokens[from..j - 1]
                                 && j - 1 == MatchEnd(Definitions, tokens, from, 1)
      {
        var u := Upper(tokens[j].value);
        if u == "DEF" {
          depth := depth + 1;
        }
        if u == "END" {
          depth := depth - 1;
        }
        if depth > 0 {
          body := body + [tokens[j]];
        }
        j := j + 1;
      }
      end := if depth > 0 then j else j - 1;
    }
  }
}

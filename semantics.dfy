/**
 * What `execute` does to the interpreter's state, as functions: variables, procedures and the
 * sequence of calls made on the turtle. Each function is one part of the source's loop:
 * `Exec` is one call of `execute`, `ExecFrom` its while loop from a cursor, `Step` one pass of
 * the loop body with its catch block, `Dispatch` the if-chain inside the try, `Loop` the
 * REPEAT for loop.
 */
module Semantics {
  import opened Wrappers
  import opened Lexer
  import opened Numbers
  import opened Errors
  import opened Nesting

  /** The turtle's methods as `execute` calls them. `BK` is a `Forward` of the negated value. */
  datatype Call =
    | Forward(distance: Num)
    | Right(degrees: Num)
    | Left(degrees: Num)
    | SetPen(down: bool)
    | SetColor(color: string)
    | Reset

  /**
   * `variables` holds what `parseFloat` made of a VAR's value; `functions` maps an uppercased
   * procedure name to its body tokens; `log` is every turtle call made so far, in order.
   */
  datatype State = State(vars: map<string, Num>, procs: map<string, seq<Token>>, log: seq<Call>)

  /** How a call of `execute` ends: it returns, or it throws err. */
  datatype Outcome = Done | Failed(err: Error)

  /** How one pass of the loop body ends: the cursor continues at next, or err is thrown. */
  datatype Control = Next(next: nat) | Stop(err: Error)

  /** Nothing `execute` does removes a variable, a procedure or a turtle call already made. */
  ghost predicate Extends(s0: State, s1: State) {
    && s0.log <= s1.log
    && s0.vars.Keys <= s1.vars.Keys
    && s0.procs.Keys <= s1.procs.Keys
  }

  function Draw(st: State, c: Call): State {
    st.(log := st.log + [c])
  }

  function TokenAt(ts: seq<Token>, j: nat): Option<Token> {
    if j < |ts| then Some(ts[j]) else None
  }

  /**
   * `evaluate(token)`: an absent token is 0; `:name` is the variable's value and an error at
   * the token's line when there is no such variable; a bare word that names a variable is its
   * value; any other text is itself.
   */
  function Evaluate(vars: map<string, Num>, token: Option<Token>): Result<Value, Error> {
    match token
    case None => Success(Number(Real(0.0)))
    case Some(t) =>
      if IsReference(t.value) then
        var name := t.value[1..];
        if name in vars then Success(Number(vars[name]))
        else Failure(Tagged(t.line, UndefinedVariable(name)))
      else if t.value in vars then Success(Number(vars[t.value]))
      else Success(Text(t.value))
  }

  /** A `:name` variable reference. */
  predicate IsReference(v: string) {
    |v| > 0 && v[0] == ':'
  }

  /**
   * `evaluate` fails exactly on a `:name` reference to a variable that does not exist, and then
   * cites the reference's own line.
   */
  lemma EvaluateFails(vars: map<string, Num>, token: Option<Token>)
    ensures Evaluate(vars, token).Failure? <==>
              token.Some? && IsReference(token.value.value) && token.value.value[1..] !in vars
    ensures Evaluate(vars, token).Failure? ==>
              Evaluate(vars, token).error == Tagged(token.value.line, UndefinedVariable(token.value.value[1..]))
  {
  }

  /**
   * A value stored under a name is what `evaluate` gives back for a reference to it, and for
   * the bare name too, whatever else the table holds.
   */
  lemma EvaluateReadsBack(vars: map<string, Num>, name: string, v: Num, line: nat)
    ensures Evaluate(vars[name := v], Some(Token(":" + name, line))) == Success(Number(v))
    ensures !IsReference(name) ==> Evaluate(vars[name := v], Some(Token(name, line))) == Success(Number(v))
  {
    assert (":" + name)[1..] == name;
  }

  /**
   * A word that names no variable, and is not a reference, evaluates to its own text; an absent
   * token evaluates to 0.
   */
  lemma EvaluateLiteral(vars: map<string, Num>, token: Option<Token>)
    ensures token.None? ==> Evaluate(vars, token) == Success(Number(Real(0.0)))
    ensures token.Some? && !IsReference(token.value.value) && token.value.value !in vars ==>
              Evaluate(vars, token) == Success(Text(token.value.value))
  {
  }

  /** The heads the if-chain of `execute` tests before it looks for a procedure. */
  predicate IsBuiltin(cmd: string) {
    cmd in {"VAR", "DEF", "REPEAT", "FD", "FORWARD", "BK", "BACK", "RT", "RIGHT", "LT", "LEFT",
            "PU", "PENUP", "PD", "PENDOWN", "CS", "CLEARSCREEN", "SETCOLOR"}
  }

  /** The number of times `for (let r = 0; r < count; r++)` runs. */
  function Times(count: int): nat {
    if count > 0 then count else 0
  }

  /** The effect of the program tokens ts, run by a call of `execute` with `fuel` nested calls left. */
  function Exec(st: State, ts: seq<Token>, fuel: nat): (r: (State, Outcome))
    ensures Extends(st, r.0)
    decreases fuel, 0, 0
  {
    if fuel == 0 then (st, Failed(Error(None, CallStackExhausted)))
    else ExecFrom(st, ts, 0, fuel - 1)
  }

  /** `for (let r = 0; r < count; r++) await this.execute(body)`, stopping at the first throw. */
  function Loop(st: State, body: seq<Token>, n: nat, fuel: nat): (r: (State, Outcome))
    ensures Extends(st, r.0)
    decreases fuel, 1, n
  {
    if n == 0 then (st, Done)
    else
      var (st', o) := Exec(st, body, fuel);
      if o.Failed? then (st', o) else Loop(st', body, n - 1, fuel)
  }

  /** The dispatch on the uppercased command at cursor i, inside the try block. */
  function Dispatch(st: State, ts: seq<Token>, i: nat, fuel: nat): (r: (State, Control))
    requires i < |ts|
    ensures r.1.Next? ==> r.1.next > i
    ensures Extends(st, r.0)
    decreases fuel, 2, 0
  {
    var t := ts[i];
    var cmd := Upper(t.value);
    if cmd == "VAR" then
      if i + 1 >= |ts| then (st, Stop(Tagged(t.line, MissingVarName)))
      else if i + 2 >= |ts| then (st, Stop(Tagged(t.line, MissingVarValue(ts[i + 1].value))))
      else
        match Evaluate(st.vars, Some(ts[i + 2]))
        case Failure(e) => (st, Stop(e))
        case Success(v) => (st.(vars := st.vars[ts[i + 1].value := ParseFloat(v)]), Next(i + 3))
    else if cmd == "DEF" then
      if i + 1 >= |ts| then (st, Stop(Tagged(t.line, MissingDefName)))
      else
        var name := Upper(ts[i + 1].value);
        var e := MatchEnd(Definitions, ts, i + 2, 1);
        if e == |ts| then (st, Stop(Tagged(t.line, MissingEnd(name))))
        else (st.(procs := st.procs[name := ts[i + 2..e]]), Next(e + 1))
    else if cmd == "REPEAT" then
      if i + 1 >= |ts| then (st, Stop(Tagged(t.line, MissingRepeatCount)))
      else
        match Evaluate(st.vars, Some(ts[i + 1]))
        case Failure(e) => (st, Stop(e))
        case Success(v) =>
          match ParseInt(v)
          case None => (st, Stop(Tagged(ts[i + 1].line, RepeatNeedsNumber(ts[i + 1].value))))
          case Some(n) =>
            var body := BracketBody(ts, i + 2);
            var (st', o) := Loop(st, body, Times(n), fuel);
            (st', if o.Failed? then Stop(o.err) else Next(i + 4 + |body|))
    else if cmd == "FD" || cmd == "FORWARD" then
      if i + 1 >= |ts| then (st, Stop(Tagged(t.line, MissingDistance)))
      else
        match Evaluate(st.vars, Some(ts[i + 1]))
        case Failure(e) => (st, Stop(e))
        case Success(v) =>
          var d := ParseFloat(v);
          if d.NaN? then (st, Stop(Tagged(ts[i + 1].line, ForwardNeedsNumber(ts[i + 1].value))))
          else (Draw(st, Forward(d)), Next(i + 2))
    else if cmd == "BK" || cmd == "BACK" then
      match Evaluate(st.vars, TokenAt(ts, i + 1))
      case Failure(e) => (st, Stop(e))
      case Success(v) => (Draw(st, Forward(Negate(ParseFloat(v)))), Next(i + 2))
    else if cmd == "RT" || cmd == "RIGHT" then
      match Evaluate(st.vars, TokenAt(ts, i + 1))
      case Failure(e) => (st, Stop(e))
      case Success(v) => (Draw(st, Right(ParseFloat(v))), Next(i + 2))
    else if cmd == "LT" || cmd == "LEFT" then
      match Evaluate(st.vars, TokenAt(ts, i + 1))
      case Failure(e) => (st, Stop(e))
      case Success(v) => (Draw(st, Left(ParseFloat(v))), Next(i + 2))
    else if cmd == "PU" || cmd == "PENUP" then (Draw(st, SetPen(false)), Next(i + 1))
    else if cmd == "PD" || cmd == "PENDOWN" then (Draw(st, SetPen(true)), Next(i + 1))
    else if cmd == "CS" || cmd == "CLEARSCREEN" then (Draw(st, Reset), Next(i + 1))
    else if cmd == "SETCOLOR" then
      if i + 1 >= |ts| then (st, Stop(Error(None, ColorTokenMissing)))
      else (Draw(st, SetColor(ts[i + 1].value)), Next(i + 2))
    else if cmd in st.procs then
      var (st', o) := Exec(st, st.procs[cmd], fuel);
      (st', if o.Failed? then Stop(o.err) else Next(i + 1))
    else if cmd == "END" || cmd == "[" || cmd == "]" then (st, Next(i + 1))
    else (st, Stop(Tagged(t.line, UnknownCommand(t.value))))
  }

  /**
   * One pass of the loop body: the dispatch with its catch block. The cursor always moves
   * forward, and whatever is thrown out of the pass carries a line.
   */
  function Step(st: State, ts: seq<Token>, i: nat, fuel: nat): (r: (State, Control))
    requires i < |ts|
    ensures r.1.Next? ==> r.1.next > i
    ensures r.1.Stop? ==> r.1.err.line.Some?
    ensures Extends(st, r.0)
    decreases fuel, 3, 0
  {
    var (st', c) := Dispatch(st, ts, i, fuel);
    (st', if c.Stop? then Stop(Retag(c.err, ts[i].line)) else c)
  }

  /** The while loop of `execute` from cursor i. Whatever it throws carries a line. */
  function ExecFrom(st: State, ts: seq<Token>, i: nat, fuel: nat): (r: (State, Outcome))
    ensures r.1.Failed? ==> r.1.err.line.Some?
    ensures Extends(st, r.0)
    decreases fuel, 4, |ts| - i
  {
    if i >= |ts| then (st, Done)
    else
      var (st', c) := Step(st, ts, i, fuel);
      match c
      case Stop(e) => (st', Failed(e))
      case Next(j) => ExecFrom(st', ts, j, fuel)
  }
}

/** What `execute` does, command by command, stated over the functions of Semantics. */
module ExecFacts {
  import opened Wrappers
  import opened Lexer
  import opened Numbers
  import opened Errors
  import opened Nesting
  import opened Semantics

  // ---------------------------------------------------------------------------------------
  // Error re-tagging

  /**
   * The catch block: an error thrown by a command that already cites a line leaves the pass
   * unchanged; one that cites none is given the line of the command's head token.
   */
  lemma StepRetags(st: State, ts: seq<Token>, i: nat, f: nat)
    requires i < |ts|
    ensures var (s1, c1) := Dispatch(st, ts, i, f);
            var (s2, c2) := Step(st, ts, i, f);
            && s2 == s1
            && (c1.Next? ==> c2 == c1)
            && (c1.Stop? && c1.err.line.Some? ==> c2 == c1)
            && (c1.Stop? && c1.err.line.None? ==> c2 == Stop(Error(Some(ts[i].line), c1.err.kind)))
  {
  }

  /** A call of `execute` that has fuel left throws only errors that cite a line. */
  lemma ExecErrorsCiteLines(st: State, ts: seq<Token>, f: nat)
    requires f > 0
    ensures Exec(st, ts, f).1.Failed? ==> Exec(st, ts, f).1.err.line.Some?
  {
  }

  // ---------------------------------------------------------------------------------------
  // VAR

  /**
   * `VAR n v` stores what `parseFloat` makes of `evaluate(v)` under the exact text n, changes
   * no other variable, no procedure and no drawing, and continues after v.
   */
  lemma VarAssigns(st: State, ts: seq<Token>, i: nat, f: nat, v: Value)
    requires i + 2 < |ts| && Upper(ts[i].value) == "VAR"
    requires Evaluate(st.vars, Some(ts[i + 2])) == Success(v)
    ensures var (st', c) := Step(st, ts, i, f);
            var name := ts[i + 1].value;
            && c == Next(i + 3)
            && st'.procs == st.procs && st'.log == st.log
            && name in st'.vars && st'.vars[name] == ParseFloat(v)
            && (forall k :: k != name ==> (k in st'.vars <==> k in st.vars))
            && (forall k :: k != name && k in st.vars ==> st'.vars[k] == st.vars[k])
  {
  }

  /** VAR fails without a name or without a value, citing the VAR line and changing nothing. */
  lemma VarMissingOperands(st: State, ts: seq<Token>, i: nat, f: nat)
    requires i < |ts| && Upper(ts[i].value) == "VAR" && i + 2 >= |ts|
    ensures i + 1 >= |ts| ==> Step(st, ts, i, f) == (st, Stop(Tagged(ts[i].line, MissingVarName)))
    ensures i + 1 < |ts| ==>
              Step(st, ts, i, f) == (st, Stop(Tagged(ts[i].line, MissingVarValue(ts[i + 1].value))))
  {
  }

  /** After `VAR n v`, a reference `:n` evaluates to the stored value. */
  lemma VarThenReference(st: State, ts: seq<Token>, i: nat, f: nat, v: Value, line: nat)
    requires i + 2 < |ts| && Upper(ts[i].value) == "VAR"
    requires Evaluate(st.vars, Some(ts[i + 2])) == Success(v)
    ensures Evaluate(Step(st, ts, i, f).0.vars, Some(Token(":" + ts[i + 1].value, line)))
              == Success(Number(ParseFloat(v)))
  {
    EvaluateReadsBack(st.vars, ts[i + 1].value, ParseFloat(v), line);
  }

  // ---------------------------------------------------------------------------------------
  // DEF

  /**
   * `DEF name ... END` stores, under the name uppercased, exactly the tokens strictly between
   * the name and the END that matches it counting nested DEF/END (so the body's own DEFs and
   * ENDs balance), and continues after that END. Without a matching END it fails citing the DEF
   * line and changes nothing.
   */
  lemma DefStoresBody(st: State, ts: seq<Token>, i: nat, f: nat)
    requires i + 1 < |ts| && Upper(ts[i].value) == "DEF"
    ensures var e := MatchEnd(Definitions, ts, i + 2, 1);
            var name := Upper(ts[i + 1].value);
            var (st', c) := Step(st, ts, i, f);
            && (e < |ts| ==>
                  && Upper(ts[e].value) == "END"
                  && NeverBelowZero(Definitions, ts[i + 2..e])
                  && Depth(Definitions, ts[i + 2..e]) == 0
                  && st' == st.(procs := st.procs[name := ts[i + 2..e]])
                  && c == Next(e + 1))
            && (e == |ts| ==> st' == st && c == Stop(Tagged(ts[i].line, MissingEnd(name))))
  {
    Enclosed(Definitions, ts, i + 2);
  }

  /**
   * Redefinition: what a DEF stores does not depend on what the table held before, so a
   * later DEF of the same name, in any letter case, replaces the earlier body.
   */
  lemma DefOverwrites(st: State, ts: seq<Token>, i: nat, f: nat, earlier: map<string, seq<Token>>)
    requires i + 1 < |ts| && Upper(ts[i].value) == "DEF"
    requires MatchEnd(Definitions, ts, i + 2, 1) < |ts|
    ensures var name := Upper(ts[i + 1].value);
            var p := Step(st.(procs := earlier), ts, i, f).0.procs;
            && name in p && p[name] == ts[i + 2..MatchEnd(Definitions, ts, i + 2, 1)]
            && (forall k :: k != name ==> (k in p <==> k in earlier))
            && (forall k :: k != name && k in earlier ==> k in p && p[k] == earlier[k])
  {
  }

  /** `DEF` as the last token fails citing its line. */
  lemma DefMissingName(st: State, ts: seq<Token>, f: nat)
    requires |ts| > 0 && Upper(ts[|ts| - 1].value) == "DEF"
    ensures Step(st, ts, |ts| - 1, f) == (st, Stop(Tagged(ts[|ts| - 1].line, MissingDefName)))
  {
  }

  // ---------------------------------------------------------------------------------------
  // REPEAT

  /** Running m + n times is running m times and then, unless that failed, n more times. */
  lemma {:induction false} LoopSplit(st: State, body: seq<Token>, m: nat, n: nat, f: nat)
    ensures var (s1, o1) := Loop(st, body, m, f);
            Loop(st, body, m + n, f) == if o1.Failed? then (s1, o1) else Loop(s1, body, n, f)
    decreases m
  {
    if m > 0 {
      var (s0, o0) := Exec(st, body, f);
      if o0.Done? {
        LoopSplit(s0, body, m - 1, n, f);
        assert m + n - 1 == (m - 1) + n;
      }
    }
  }

  /** With the variables vars, running body succeeds and only appends L to the turtle calls. */
  ghost predicate AppendsOnly(body: seq<Token>, f: nat, vars: map<string, Num>, L: seq<Call>) {
    forall s: State :: s.vars == vars ==> Exec(s, body, f) == (s.(log := s.log + L), Done)
  }

  /** L repeated n times. */
  function Repeated<T>(L: seq<T>, n: nat): (r: seq<T>)
    ensures |r| == n * |L|
  {
    if n == 0 then [] else L + Repeated(L, n - 1)
  }

  /** m + n copies are m copies followed by n copies: the log-side partner of LoopSplit. */
  lemma {:induction false} RepeatedSplit<T>(L: seq<T>, m: nat, n: nat)
    ensures Repeated(L, m + n) == Repeated(L, m) + Repeated(L, n)
    decreases m
  {
    if m > 0 {
      RepeatedSplit(L, m - 1, n);
      assert m + n - 1 == (m - 1) + n;
    }
  }

  /**
   * A body that, with the variables as they are, succeeds and only appends the turtle calls L,
   * appends L exactly n times when run n times.
   */
  lemma {:induction false} LoopRepeatsCalls(st: State, body: seq<Token>, n: nat, f: nat, L: seq<Call>)
    requires AppendsOnly(body, f, st.vars, L)
    ensures Loop(st, body, n, f) == (st.(log := st.log + Repeated(L, n)), Done)
    decreases n
  {
    if n > 0 {
      var s1 := st.(log := st.log + L);
      LoopAfterOne(st, body, n, f, L);
      LoopRepeatsCalls(s1, body, n - 1, f, L);
      assert s1.log + Repeated(L, n - 1) == st.log + Repeated(L, n);
    } else {
      assert st.log + Repeated(L, 0) == st.log;
    }
  }

  lemma LoopAfterOne(st: State, body: seq<Token>, n: nat, f: nat, L: seq<Call>)
    requires AppendsOnly(body, f, st.vars, L) && n > 0
    ensures Loop(st, body, n, f) == Loop(st.(log := st.log + L), body, n - 1, f)
  {
    assert Exec(st, body, f) == (st.(log := st.log + L), Done);
  }

  /** Running an empty body changes nothing, as long as there is fuel for the calls. */
  lemma {:induction false} LoopEmptyBody(st: State, n: nat, f: nat)
    requires f > 0 || n == 0
    ensures Loop(st, [], n, f) == (st, Done)
    decreases n
  {
    if n > 0 {
      assert Exec(st, [], f) == (st, Done);
      LoopEmptyBody(st, n - 1, f);
    }
  }

  /**
   * `REPEAT count [ B ]` runs B `Times(parseInt(evaluate(count)))` times in sequence. With a
   * matched `[` ... `]` after the count, B is exactly the tokens between them and execution
   * continues after the `]`; with an unmatched `[`, B is every token after it. An error from an
   * iteration stops the loop and is re-thrown, tagged with the REPEAT line if it had none.
   * Without a `[` there, B is empty and the cursor skips the two tokens after the count.
   */
  lemma RepeatRunsBlock(st: State, ts: seq<Token>, i: nat, f: nat, v: Value, n: int)
    requires i + 1 < |ts| && Upper(ts[i].value) == "REPEAT"
    requires Evaluate(st.vars, Some(ts[i + 1])) == Success(v) && ParseInt(v) == Some(n)
    ensures var (st', c) := Step(st, ts, i, f);
            var m := if i + 3 <= |ts| then MatchEnd(Brackets, ts, i + 3, 1) else |ts|;
            && (i + 2 < |ts| && ts[i + 2].value == "[" && m < |ts| ==>
                  && ts[m].value == "]"
                  && st' == Loop(st, ts[i + 3..m], Times(n), f).0
                  && (Loop(st, ts[i + 3..m], Times(n), f).1.Done? ==> c == Next(m + 1)))
            && (i + 2 < |ts| && ts[i + 2].value == "[" && m < |ts| &&
                Loop(st, ts[i + 3..m], Times(n), f).1.Failed? ==>
                  c == Stop(Retag(Loop(st, ts[i + 3..m], Times(n), f).1.err, ts[i].line)))
            && (i + 2 < |ts| && ts[i + 2].value == "[" && m == |ts| ==>
                  && st' == Loop(st, ts[i + 3..], Times(n), f).0
                  && (Loop(st, ts[i + 3..], Times(n), f).1.Done? ==> c == Next(|ts| + 1))
                  && (Loop(st, ts[i + 3..], Times(n), f).1.Failed? ==>
                        c == Stop(Retag(Loop(st, ts[i + 3..], Times(n), f).1.err, ts[i].line))))
            && ((i + 2 >= |ts| || ts[i + 2].value != "[") && (f > 0 || n <= 0) ==>
                  st' == st && c == Next(i + 4))
            && ((i + 2 >= |ts| || ts[i + 2].value != "[") && f == 0 && n > 0 ==>
                  st' == st && c == Stop(Tagged(ts[i].line, CallStackExhausted)))
  {
    BracketBodyIsBlock(ts, i + 2);
    if i + 2 < |ts| && ts[i + 2].value == "[" {
      var m := MatchEnd(Brackets, ts, i + 3, 1);
      if m == |ts| {
        assert BracketBody(ts, i + 2) == ts[i + 3..];
        assert i + 4 + |ts[i + 3..]| == |ts| + 1;
      }
    } else if f > 0 || n <= 0 {
      LoopEmptyBody(st, Times(n), f);
    }
  }

  /** A count that does not parse as an integer fails citing the count's line; nothing changes. */
  lemma RepeatNeedsCount(st: State, ts: seq<Token>, i: nat, f: nat, v: Value)
    requires i + 1 < |ts| && Upper(ts[i].value) == "REPEAT"
    requires Evaluate(st.vars, Some(ts[i + 1])) == Success(v) && ParseInt(v).None?
    ensures Step(st, ts, i, f) == (st, Stop(Tagged(ts[i + 1].line, RepeatNeedsNumber(ts[i + 1].value))))
  {
  }

  // ---------------------------------------------------------------------------------------
  // Drawing commands

  /**
   * FD draws the parsed distance and continues after it. It fails citing the FD line without
   * an operand, and citing the operand's line when the operand is not a number.
   */
  lemma ForwardCases(st: State, ts: seq<Token>, i: nat, f: nat)
    requires i < |ts| && Upper(ts[i].value) in {"FD", "FORWARD"}
    ensures i + 1 >= |ts| ==> Step(st, ts, i, f) == (st, Stop(Tagged(ts[i].line, MissingDistance)))
    ensures i + 1 < |ts| ==>
              match Evaluate(st.vars, Some(ts[i + 1]))
              case Failure(e) => Step(st, ts, i, f) == (st, Stop(e))
              case Success(v) =>
                if ParseFloat(v).NaN?
                then Step(st, ts, i, f) == (st, Stop(Tagged(ts[i + 1].line, ForwardNeedsNumber(ts[i + 1].value))))
                else Step(st, ts, i, f) == (Draw(st, Forward(ParseFloat(v))), Next(i + 2))
  {
  }

  /** BK, RT and LT do not check for a missing operand: at the end of the tokens they use 0. */
  lemma TurnsDefaultToZero(st: State, ts: seq<Token>, f: nat)
    requires |ts| > 0
    ensures var i := |ts| - 1;
            var cmd := Upper(ts[i].value);
            && (cmd in {"BK", "BACK"} ==> Step(st, ts, i, f) == (Draw(st, Forward(Real(0.0))), Next(i + 2)))
            && (cmd in {"RT", "RIGHT"} ==> Step(st, ts, i, f) == (Draw(st, Right(Real(0.0))), Next(i + 2)))
            && (cmd in {"LT", "LEFT"} ==> Step(st, ts, i, f) == (Draw(st, Left(Real(0.0))), Next(i + 2)))
  {
  }

  /**
   * SETCOLOR passes the operand's text as it is, without evaluating it; without an operand the
   * host's TypeError is re-thrown citing the SETCOLOR line.
   */
  lemma SetColorCases(st: State, ts: seq<Token>, i: nat, f: nat)
    requires i < |ts| && Upper(ts[i].value) == "SETCOLOR"
    ensures i + 1 < |ts| ==> Step(st, ts, i, f) == (Draw(st, SetColor(ts[i + 1].value)), Next(i + 2))
    ensures i + 1 >= |ts| ==> Step(st, ts, i, f) == (st, Stop(Tagged(ts[i].line, ColorTokenMissing)))
  {
  }

  // ---------------------------------------------------------------------------------------
  // Procedures and everything else

  /**
   * Built-in commands are tested first: what a built-in does not reading the procedure
   * table is independent of it, so a procedure with a built-in's name is never called.
   */
  lemma BuiltinsShadowProcedures(st: State, ts: seq<Token>, i: nat, f: nat, procs: map<string, seq<Token>>)
    requires i < |ts|
    requires Upper(ts[i].value) in {"VAR", "FD", "FORWARD", "BK", "BACK", "RT", "RIGHT", "LT", "LEFT",
                                    "PU", "PENUP", "PD", "PENDOWN", "CS", "CLEARSCREEN", "SETCOLOR"}
    ensures Step(st.(procs := procs), ts, i, f) == (Step(st, ts, i, f).0.(procs := procs), Step(st, ts, i, f).1)
  {
  }

  /**
   * A DEF ends the same way whatever the procedure table holds: where it resumes, or the
   * error it throws, does not depend on the procedures defined so far.
   */
  lemma DefIgnoresProcedures(st: State, ts: seq<Token>, i: nat, f: nat, procs: map<string, seq<Token>>)
    requires i < |ts| && Upper(ts[i].value) == "DEF"
    ensures Step(st.(procs := procs), ts, i, f).1 == Step(st, ts, i, f).1
  {
  }

  /**
   * A head that is not a built-in and names a procedure runs the latest body stored under it
   * as a nested `execute`, then continues with the next token. An error from inside the body
   * keeps the line it cites there; running out of nesting cites the call's line.
   */
  lemma CallRunsBody(st: State, ts: seq<Token>, i: nat, f: nat)
    requires i < |ts| && !IsBuiltin(Upper(ts[i].value)) && Upper(ts[i].value) in st.procs
    ensures var (st', c) := Step(st, ts, i, f);
            var (s2, o) := Exec(st, st.procs[Upper(ts[i].value)], f);
            && st' == s2
            && (o.Done? ==> c == Next(i + 1))
            && (o.Failed? && f > 0 ==> c == Stop(o.err))
            && (f == 0 ==> c == Stop(Tagged(ts[i].line, CallStackExhausted)))
  {
  }

  /** A loose END, `[` or `]` that names no procedure is skipped. */
  lemma LooseCloserIsNoOp(st: State, ts: seq<Token>, i: nat, f: nat)
    requires i < |ts| && Upper(ts[i].value) in {"END", "[", "]"} && Upper(ts[i].value) !in st.procs
    ensures Step(st, ts, i, f) == (st, Next(i + 1))
  {
  }

  /** Any other head fails citing its line and its text as written, changing nothing. */
  lemma UnknownCommandFails(st: State, ts: seq<Token>, i: nat, f: nat)
    requires i < |ts|
    requires var cmd := Upper(ts[i].value);
             !IsBuiltin(cmd) && cmd !in st.procs && cmd !in {"END", "[", "]"}
    ensures Step(st, ts, i, f) == (st, Stop(Tagged(ts[i].line, UnknownCommand(ts[i].value))))
  {
  }
}

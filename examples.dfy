/** Whole programs run through the model. */
module Examples {
  import opened Wrappers
  import opened Lexer
  import opened Numbers
  import opened Errors
  import opened Nesting
  import opened Semantics
  import opened ExecFacts

  lemma SmallNumerals()
    ensures ParseFloatText("5") == Real(5.0)
    ensures ParseFloatText("10") == Real(10.0)
    ensures ParseFloatText("90") == Real(90.0)
    ensures ParseInt(Text("4")) == Some(4)
  {
    assert DigitRun("5", 0) == 1;
    assert "5"[..1] == "5";
    assert DigitsValue("5") == 5 by { assert "5"[..0] == []; }
    assert DigitRun("10", 0) == 2;
    assert "10"[..2] == "10";
    assert DigitsValue("10") == 10 by { assert "10"[..1] == "1"; assert "1"[..0] == []; }
    assert DigitRun("90", 0) == 2;
    assert "90"[..2] == "90";
    assert DigitsValue("90") == 90 by { assert "90"[..1] == "9"; assert "9"[..0] == []; }
    assert DigitRun("4", 0) == 1;
    assert "4"[..1] == "4";
    assert DigitsValue("4") == 4 by { assert "4"[..0] == []; }
  }

  /** `VAR X 5 FD :X` stores 5 under X and draws a line of length 5. */
  lemma VarThenForward(st: State, f: nat)
    requires "5" !in st.vars
    ensures ExecFrom(st, [Token("VAR", 1), Token("X", 1), Token("5", 1), Token("FD", 1), Token(":X", 1)], 0, f)
            == (st.(vars := st.vars["X" := Real(5.0)], log := st.log + [Forward(Real(5.0))]), Done)
  {
    SmallNumerals();
    var ts := [Token("VAR", 1), Token("X", 1), Token("5", 1), Token("FD", 1), Token(":X", 1)];
    assert Upper("VAR") == "VAR";
    assert Upper("FD") == "FD";
    var s1 := st.(vars := st.vars["X" := Real(5.0)]);
    assert Step(st, ts, 0, f) == (s1, Next(3));
    assert ExecFrom(st, ts, 0, f) == ExecFrom(s1, ts, 3, f);
    assert ":X"[1..] == "X";
    var s2 := Draw(s1, Forward(Real(5.0)));
    assert Step(s1, ts, 3, f) == (s2, Next(5));
    assert ExecFrom(s1, ts, 3, f) == ExecFrom(s2, ts, 5, f) == (s2, Done);
  }

  /** The body `FD 10 RT 90` appends one side and a quarter turn, whatever the state. */
  lemma SquareSide(vars: map<string, Num>, f: nat)
    requires "10" !in vars && "90" !in vars && f > 0
    ensures AppendsOnly([Token("FD", 1), Token("10", 1), Token("RT", 1), Token("90", 1)], f, vars,
                        [Forward(Real(10.0)), Right(Real(90.0))])
  {
    SmallNumerals();
    var body := [Token("FD", 1), Token("10", 1), Token("RT", 1), Token("90", 1)];
    var L := [Forward(Real(10.0)), Right(Real(90.0))];
    assert Upper("FD") == "FD";
    assert Upper("RT") == "RT";
    forall s: State | s.vars == vars ensures Exec(s, body, f) == (s.(log := s.log + L), Done) {
      var s1 := Draw(s, Forward(Real(10.0)));
      var s2 := Draw(s1, Right(Real(90.0)));
      assert Step(s, body, 0, f - 1) == (s1, Next(2));
      assert Step(s1, body, 2, f - 1) == (s2, Next(4));
      assert ExecFrom(s, body, 0, f - 1) == ExecFrom(s1, body, 2, f - 1);
      assert ExecFrom(s1, body, 2, f - 1) == ExecFrom(s2, body, 4, f - 1) == (s2, Done);
      assert s.log + L == s.log + [Forward(Real(10.0))] + [Right(Real(90.0))];
    }
  }

  lemma SquareBracket(ts: seq<Token>)
    requires ts == [Token("REPEAT", 1), Token("4", 1), Token("[", 1), Token("FD", 1), Token("10", 1),
                    Token("RT", 1), Token("90", 1), Token("]", 1)]
    ensures MatchEnd(Brackets, ts, 3, 1) == 7
  {
    assert MatchEnd(Brackets, ts, 7, 1) == 7;
    assert MatchEnd(Brackets, ts, 6, 1) == 7;
    assert MatchEnd(Brackets, ts, 5, 1) == 7;
    assert MatchEnd(Brackets, ts, 4, 1) == 7;
  }

  /** The program `REPEAT 4 [ FD 10 RT 90 ]`. */
  function SquareProgram(): seq<Token> {
    [Token("REPEAT", 1), Token("4", 1), Token("[", 1), Token("FD", 1), Token("10", 1),
     Token("RT", 1), Token("90", 1), Token("]", 1)]
  }

  /** The block of the square program, run four times, appends the side and the turn four times. */
  lemma SquareLoop(st: State, f: nat)
    requires "10" !in st.vars && "90" !in st.vars && f > 0
    ensures Loop(st, SquareProgram()[3..7], 4, f)
            == (st.(log := st.log + Repeated([Forward(Real(10.0)), Right(Real(90.0))], 4)), Done)
  {
    assert SquareProgram()[3..7] == [Token("FD", 1), Token("10", 1), Token("RT", 1), Token("90", 1)];
    SquareSide(st.vars, f);
    LoopRepeatsCalls(st, SquareProgram()[3..7], 4, f, [Forward(Real(10.0)), Right(Real(90.0))]);
  }

  /** The REPEAT at the head of the square program runs its block and resumes after the `]`. */
  lemma SquareStep(st: State, f: nat)
    requires "4" !in st.vars && "10" !in st.vars && "90" !in st.vars && f > 0
    ensures Step(st, SquareProgram(), 0, f)
            == (st.(log := st.log + Repeated([Forward(Real(10.0)), Right(Real(90.0))], 4)), Next(8))
  {
    var ts := SquareProgram();
    SmallNumerals();
    SquareLoop(st, f);
    SquareBracket(ts);
    assert Upper("REPEAT") == "REPEAT";
    RepeatRunsBlock(st, ts, 0, f, Text("4"), 4);
  }

  /** `REPEAT 4 [ FD 10 RT 90 ]` draws the four sides of a square. */
  lemma Square(st: State, f: nat)
    requires "4" !in st.vars && "10" !in st.vars && "90" !in st.vars && f > 0
    ensures ExecFrom(st, SquareProgram(), 0, f)
            == (st.(log := st.log + Repeated([Forward(Real(10.0)), Right(Real(90.0))], 4)), Done)
  {
    var s2 := st.(log := st.log + Repeated([Forward(Real(10.0)), Right(Real(90.0))], 4));
    SquareStep(st, f);
    assert ExecFrom(st, SquareProgram(), 0, f) == ExecFrom(s2, SquareProgram(), 8, f) == (s2, Done);
  }

  /**
   * `DEF F F END F`: a procedure that calls itself never returns; whatever the nesting bound,
   * the calls run out of it, and the error cites the line of the call inside the body.
   */
  lemma {:induction false} SelfCallExhausts(st: State, f: nat, line: nat)
    requires "F" in st.procs && st.procs["F"] == [Token("F", line)]
    ensures Exec(st, [Token("F", line)], f).1 == Failed(Error(if f == 0 then None else Some(line), CallStackExhausted))
    decreases f
  {
    assert Upper("F") == "F";
    if f > 0 {
      var ts := [Token("F", line)];
      SelfCallExhausts(st, f - 1, line);
      assert Step(st, ts, 0, f - 1).1 == Stop(Tagged(line, CallStackExhausted));
    }
  }
}

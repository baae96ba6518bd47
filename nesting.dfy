/**
 * Nesting of `[` ... `]` blocks and of `DEF` ... `END` definitions: the depth counters of
 * `validate`, `getBracketedContent` and the `DEF` scan of `execute`.
 */
module Nesting {
  import opened Wrappers
  import opened Lexer
  import opened Errors

  /** `toUpperCase` on the ASCII characters that tokens consist of. */
  function UpperChar(c: char): char {
    if 'a' <= c <= 'z' then (c as int - 32) as char else c
  }

  function Upper(s: string): string {
    seq(|s|, k requires 0 <= k < |s| => UpperChar(s[k]))
  }

  /** Brackets compare token text exactly; DEF and END compare it uppercased. */
  datatype Kind = Brackets | Definitions

  function Delta(kind: Kind, t: Token): (d: int)
    ensures -1 <= d <= 1
  {
    match kind
    case Brackets => if t.value == "[" then 1 else if t.value == "]" then -1 else 0
    case Definitions =>
      var u := Upper(t.value);
      if u == "DEF" then 1 else if u == "END" then -1 else 0
  }

  /** Openers minus closers in ts. */
  function Depth(kind: Kind, ts: seq<Token>): int
    decreases |ts|
  {
    if ts == [] then 0 else Depth(kind, ts[..|ts| - 1]) + Delta(kind, ts[|ts| - 1])
  }

  /** No prefix of ts closes more than it opens. */
  ghost predicate NeverBelowZero(kind: Kind, ts: seq<Token>) {
    forall k :: 0 <= k <= |ts| ==> Depth(kind, ts[..k]) >= 0
  }

  lemma {:induction false} DepthAppend(kind: Kind, a: seq<Token>, b: seq<Token>)
    ensures Depth(kind, a + b) == Depth(kind, a) + Depth(kind, b)
    decreases |b|
  {
    if b == [] {
      assert a + b == a;
    } else {
      var b' := b[..|b| - 1];
      assert (a + b)[..|a + b| - 1] == a + b';
      assert (a + b)[|a + b| - 1] == b[|b| - 1];
      DepthAppend(kind, a, b');
    }
  }

  lemma DepthOne(kind: Kind, t: Token)
    ensures Depth(kind, [t]) == Delta(kind, t)
  {
    assert [t][..0] == [];
  }

  lemma DepthCons(kind: Kind, ts: seq<Token>, j: nat, k: nat)
    requires j < k <= |ts|
    ensures Depth(kind, ts[j..k]) == Delta(kind, ts[j]) + Depth(kind, ts[j + 1..k])
  {
    assert ts[j..k] == [ts[j]] + ts[j + 1..k];
    DepthAppend(kind, [ts[j]], ts[j + 1..k]);
    DepthOne(kind, ts[j]);
  }

  /**
   * Scanning from j at the given depth, the index of the token that brings the depth to 0, or
   * |ts| when none does.
   */
  function MatchEnd(kind: Kind, ts: seq<Token>, j: nat, depth: nat): (e: nat)
    requires j <= |ts| && depth > 0
    ensures j <= e <= |ts|
    decreases |ts| - j
  {
    if j == |ts| then |ts|
    else
      var d := depth + Delta(kind, ts[j]);
      if d == 0 then j else MatchEnd(kind, ts, j + 1, d)
  }

  /**
   * The scan stops at the first closer that balances: up to it the depth stays above 0, and if
   * it stops before the end, the token there brings the depth to exactly 0.
   */
  lemma MatchEndFirstBalance(kind: Kind, ts: seq<Token>, j: nat, depth: nat)
    requires j <= |ts| && depth > 0
    ensures var e := MatchEnd(kind, ts, j, depth);
            && (forall k :: j <= k <= e ==> depth + Depth(kind, ts[j..k]) > 0)
            && (e < |ts| ==> depth + Depth(kind, ts[j..e]) + Delta(kind, ts[e]) == 0)
  {
    MatchEndPositive(kind, ts, j, depth);
    MatchEndCloses(kind, ts, j, depth);
  }

  lemma {:induction false} MatchEndPositive(kind: Kind, ts: seq<Token>, j: nat, depth: nat)
    requires j <= |ts| && depth > 0
    ensures forall k :: j <= k <= MatchEnd(kind, ts, j, depth) ==> depth + Depth(kind, ts[j..k]) > 0
    decreases |ts| - j
  {
    var e := MatchEnd(kind, ts, j, depth);
    assert ts[j..j] == [];
    if j < |ts| && depth + Delta(kind, ts[j]) != 0 {
      var d: nat := depth + Delta(kind, ts[j]);
      assert e == MatchEnd(kind, ts, j + 1, d);
      MatchEndPositive(kind, ts, j + 1, d);
      forall k | j + 1 <= k <= e ensures depth + Depth(kind, ts[j..k]) > 0 {
        DepthCons(kind, ts, j, k);
      }
    }
  }

  lemma {:induction false} MatchEndCloses(kind: Kind, ts: seq<Token>, j: nat, depth: nat)
    requires j <= |ts| && depth > 0
    ensures var e := MatchEnd(kind, ts, j, depth);
            e < |ts| ==> depth + Depth(kind, ts[j..e]) + Delta(kind, ts[e]) == 0
    decreases |ts| - j
  {
    if j < |ts| {
      var e := MatchEnd(kind, ts, j, depth);
      var d := depth + Delta(kind, ts[j]);
      if d == 0 {
        assert ts[j..j] == [];
      } else {
        var d': nat := d;
        assert e == MatchEnd(kind, ts, j + 1, d');
        MatchEndCloses(kind, ts, j + 1, d');
        if e < |ts| {
          DepthCons(kind, ts, j, e);
        }
      }
    }
  }

  /**
   * What a scan that starts just after an opener finds: the tokens up to the balancing closer,
   * or to the end when there is none. They never close more than they open, and when the closer
   * exists they are balanced and the closer is a closer of this kind.
   */
  lemma Enclosed(kind: Kind, ts: seq<Token>, j: nat)
    requires j <= |ts|
    ensures var e := MatchEnd(kind, ts, j, 1);
            && NeverBelowZero(kind, ts[j..e])
            && (e < |ts| ==> Depth(kind, ts[j..e]) == 0 && Delta(kind, ts[e]) == -1)
  {
    var e := MatchEnd(kind, ts, j, 1);
    MatchEndFirstBalance(kind, ts, j, 1);
    forall k | 0 <= k <= e - j ensures Depth(kind, ts[j..e][..k]) >= 0 {
      assert ts[j..e][..k] == ts[j..j + k];
    }
  }

  // ---------------------------------------------------------------------------------------
  // getBracketedContent

  /** `getBracketedContent(tokens, start)` */
  function BracketBody(ts: seq<Token>, start: nat): seq<Token> {
    if start >= |ts| || ts[start].value != "[" then []
    else ts[start + 1..MatchEnd(Brackets, ts, start + 1, 1)]
  }

  /**
   * Without a `[` at start the body is empty. Otherwise it is exactly the tokens strictly
   * between that `[` and its matching `]`, or all tokens after the `[` when it is unmatched;
   * its brackets never close below its own level, and are balanced when the `]` exists.
   */
  lemma BracketBodyIsBlock(ts: seq<Token>, start: nat)
    ensures start >= |ts| || ts[start].value != "[" ==> BracketBody(ts, start) == []
    ensures start < |ts| && ts[start].value == "[" ==>
              var body := BracketBody(ts, start);
              var e := start + 1 + |body|;
              && e <= |ts|
              && body == ts[start + 1..e]
              && NeverBelowZero(Brackets, body)
              && (e < |ts| ==> ts[e].value == "]" && Depth(Brackets, body) == 0)
  {
    if start < |ts| && ts[start].value == "[" {
      Enclosed(Brackets, ts, start + 1);
    }
  }

  // ---------------------------------------------------------------------------------------
  // validate

  function CheckFrom(ts: seq<Token>, i: nat, depth: int): Option<Error>
    requires i <= |ts|
    decreases |ts| - i
  {
    if i == |ts| then (if depth > 0 then Some(Error(None, MissingCloseBracket)) else None)
    else
      var d := depth + Delta(Brackets, ts[i]);
      if d < 0 then Some(Tagged(ts[i].line, ExtraCloseBracket)) else CheckFrom(ts, i + 1, d)
  }

  /** `validate(tokens)`: None when it returns, the error when it throws. */
  function BracketCheck(ts: seq<Token>): Option<Error> {
    CheckFrom(ts, 0, 0)
  }

  ghost predicate Balanced(ts: seq<Token>) {
    NeverBelowZero(Brackets, ts) && Depth(Brackets, ts) == 0
  }

  /** The first token at which the depth goes below zero is at index k. */
  ghost predicate FirstDropAt(ts: seq<Token>, k: nat) {
    k < |ts| && NeverBelowZero(Brackets, ts[..k]) && Depth(Brackets, ts[..k + 1]) < 0
  }

  lemma PrefixDepth(ts: seq<Token>, i: nat)
    requires i < |ts|
    ensures Depth(Brackets, ts[..i + 1]) == Depth(Brackets, ts[..i]) + Delta(Brackets, ts[i])
  {
    assert ts[..i + 1][..i] == ts[..i];
  }

  lemma {:induction false} CheckFromCases(ts: seq<Token>, i: nat, depth: int)
    requires i <= |ts|
    requires depth == Depth(Brackets, ts[..i]) && NeverBelowZero(Brackets, ts[..i])
    ensures CheckFrom(ts, i, depth) == None <==> Balanced(ts)
    ensures (CheckFrom(ts, i, depth) == Some(Error(None, MissingCloseBracket)))
            <==> NeverBelowZero(Brackets, ts) && Depth(Brackets, ts) > 0
    ensures forall k: nat :: i <= k && FirstDropAt(ts, k) ==> CheckFrom(ts, i, depth) == Some(Tagged(ts[k].line, ExtraCloseBracket))
    ensures CheckFrom(ts, i, depth) == None
            || CheckFrom(ts, i, depth) == Some(Error(None, MissingCloseBracket))
            || exists k: nat :: i <= k && FirstDropAt(ts, k)
    decreases |ts| - i
  {
    if i == |ts| {
      assert ts[..i] == ts;
    } else {
      var d := depth + Delta(Brackets, ts[i]);
      PrefixDepth(ts, i);
      if d < 0 {
        assert FirstDropAt(ts, i);
        assert !NeverBelowZero(Brackets, ts);
        forall k | i < k <= |ts| ensures Depth(Brackets, ts[..k][..i + 1]) < 0 {
          assert ts[..k][..i + 1] == ts[..i + 1];
        }
      } else {
        var p := ts[..i + 1];
        forall k | 0 <= k <= |p| ensures Depth(Brackets, p[..k]) >= 0 {
          if k <= i {
            assert p[..k] == ts[..i][..k];
          } else {
            assert p[..k] == p;
          }
        }
        assert !FirstDropAt(ts, i);
        CheckFromCases(ts, i + 1, d);
      }
    }
  }

  lemma EmptyPrefix(ts: seq<Token>)
    ensures Depth(Brackets, ts[..0]) == 0 && NeverBelowZero(Brackets, ts[..0])
  {
    assert ts[..0] == [];
    assert ts[..0][..0] == [];
  }

  /** A token where the depth first drops below zero is a `]`. */
  lemma DropIsCloser(ts: seq<Token>, k: nat)
    requires FirstDropAt(ts, k)
    ensures ts[k].value == "]"
  {
    PrefixDepth(ts, k);
    assert ts[..k][..k] == ts[..k];
  }

  /**
   * `validate` succeeds exactly when no prefix of the tokens closes more brackets than it opens
   * and the whole sequence is balanced. It fails at the first token that drops the depth below
   * zero, that token being a `]` and the error citing its line; otherwise, if brackets stay
   * open at the end, it fails with an error that cites no line. It fails in no other way.
   */
  lemma BracketCheckCases(ts: seq<Token>)
    ensures BracketCheck(ts) == None <==> Balanced(ts)
    ensures (BracketCheck(ts) == Some(Error(None, MissingCloseBracket)))
            <==> NeverBelowZero(Brackets, ts) && Depth(Brackets, ts) > 0
    ensures forall k: nat :: FirstDropAt(ts, k) ==>
              ts[k].value == "]" && BracketCheck(ts) == Some(Tagged(ts[k].line, ExtraCloseBracket))
    ensures BracketCheck(ts) == None
            || BracketCheck(ts) == Some(Error(None, MissingCloseBracket))
            || exists k: nat :: FirstDropAt(ts, k)
  {
    EmptyPrefix(ts);
    var r := CheckFrom(ts, 0, 0);
    assert BracketCheck(ts) == r;
    CheckFromCases(ts, 0, 0);
    forall k: nat | FirstDropAt(ts, k) ensures ts[k].value == "]" && r == Some(Tagged(ts[k].line, ExtraCloseBracket)) {
      DropIsCloser(ts, k);
    }
  }
}

/**
The evaluator of cond.c as it is written: a parser object that moves over the condition, with
one token of push-back, and loops for '!', '&&' and '||'.
*/
module CondParsing {
  import opened CondExpr

  class CondParser {
    const evalLeaf: Oracle
    var rest: Symbols
    var curr: Token
    var trace: seq<string>

    constructor (evalLeaf: Oracle, cond: Symbols, trace: seq<string>)
      ensures this.evalLeaf == evalLeaf && Now() == Parser(cond, TOK_NONE, trace)
    {
      this.evalLeaf, rest, curr, this.trace := evalLeaf, cond, TOK_NONE, trace;
    }

    function Now(): Parser
      reads this
    {
      Parser(rest, curr, trace)
    }

    method NextToken(doEval: bool) returns (t: Token)
      modifies this
      ensures (t, Now()) == CondExpr.NextToken(evalLeaf, old(Now()), doEval)
    {
      t := curr;
      if t != TOK_NONE {
        curr := TOK_NONE;
        return;
      }
      match rest
      case End =>
        t := TOK_EOF;
      case Cons(x, tail) =>
        rest := tail;
        if x.Leaf? && doEval {
          t := ToToken(evalLeaf(trace, x.text));
          trace := trace + [x.text];
        } else {
          t := Unevaluated(x);
        }
    }

    method Skip(t: Token) returns (skipped: bool)
      requires !t.TOK_NONE?
      modifies this
      ensures (skipped, Now()) == SkipToken(evalLeaf, old(Now()), t)
    {
      var actual := NextToken(false);
      skipped := actual == t;
      if !skipped {
        assert curr == TOK_NONE && actual != TOK_NONE;
        curr := actual;
      }
    }

    method Term(doEval: bool) returns (res: CondResult)
      requires curr.TOK_NONE?
      modifies this
      ensures (res, Now()) == ParseTerm(evalLeaf, old(Now()), doEval, false)
      decreases Length(rest), 0
    {
      var neg := false;
      ghost var start := Now();
      var t := NextToken(doEval);
      while t == TOK_NOT
        invariant start.curr.TOK_NONE? && Length(start.rest) <= old(Length(rest))
        invariant (t, Now()) == CondExpr.NextToken(evalLeaf, start, doEval)
        invariant ParseTerm(evalLeaf, start, doEval, neg) == ParseTerm(evalLeaf, old(Now()), doEval, false)
        decreases Length(start.rest)
      {
        neg := !neg;
        start := Now();
        t := NextToken(doEval);
      }
      if t == TOK_TRUE || t == TOK_FALSE {
        return if neg == (t == TOK_FALSE) then CR_TRUE else CR_FALSE;
      }
      if t == TOK_LPAREN {
        res := Or(doEval);
        if res == CR_ERROR {
          return CR_ERROR;
        }
        var t2 := NextToken(doEval);
        if t2 != TOK_RPAREN {
          return CR_ERROR;
        }
        return if neg == (res == CR_FALSE) then CR_TRUE else CR_FALSE;
      }
      return CR_ERROR;
    }

    method And(doEval: bool) returns (res: CondResult)
      requires curr.TOK_NONE?
      modifies this
      ensures (res, Now()) == ParseAnd(evalLeaf, old(Now()), doEval, CR_TRUE)
      decreases Length(rest), 1
    {
      res := CR_TRUE;
      var eval, more := doEval, true;
      while more
        invariant more ==> curr.TOK_NONE? && !res.CR_ERROR? && Length(rest) <= old(Length(rest))
        invariant (if more then ParseAnd(evalLeaf, Now(), eval, res) else (res, Now()))
               == ParseAnd(evalLeaf, old(Now()), doEval, CR_TRUE)
        decreases more, Length(rest)
      {
        var rhs := Term(eval);
        if rhs == CR_ERROR {
          return CR_ERROR;
        }
        if rhs == CR_FALSE {
          res := CR_FALSE;
          eval := false;
        }
        more := Skip(TOK_AND);
      }
    }

    method Or(doEval: bool) returns (res: CondResult)
      requires curr.TOK_NONE?
      modifies this
      ensures (res, Now()) == ParseOr(evalLeaf, old(Now()), doEval, CR_FALSE)
      decreases Length(rest), 2
    {
      res := CR_FALSE;
      var eval, more := doEval, true;
      while more
        invariant more ==> curr.TOK_NONE? && !res.CR_ERROR? && Length(rest) <= old(Length(rest))
        invariant (if more then ParseOr(evalLeaf, Now(), eval, res) else (res, Now()))
               == ParseOr(evalLeaf, old(Now()), doEval, CR_FALSE)
        decreases more, Length(rest)
      {
        var rhs := And(eval);
        if rhs == CR_ERROR {
          return CR_ERROR;
        }
        if rhs == CR_TRUE {
          res := CR_TRUE;
          eval := false;
        }
        more := Skip(TOK_OR);
      }
    }
  }

  // CondEvalExpression: exactly the conditions of the grammar are accepted, and a condition of
  // the grammar means what short-circuit evaluation says.
  method CondEvalExpression(evalLeaf: Oracle, cond: Symbols, trace: seq<string>)
    returns (rval: CondResult, evaluated: seq<string>)
    ensures forall o :: PrintOr(o, End) == cond ==> (rval, evaluated) == EvalOr(evalLeaf, o, trace)
    ensures (forall o :: PrintOr(o, End) != cond) ==> rval == CR_ERROR
  {
    var par := new CondParser(evalLeaf, cond, trace);
    rval := par.Or(true);
    if par.curr != TOK_EOF {
      rval := CR_ERROR;
    }
    evaluated := par.trace;
    Evaluated(evalLeaf, cond, trace);
  }

  lemma Evaluated(evalLeaf: Oracle, cond: Symbols, trace: seq<string>)
    ensures forall o :: PrintOr(o, End) == cond ==> EvalExpression(evalLeaf, cond, trace) == EvalOr(evalLeaf, o, trace)
    ensures (forall o :: PrintOr(o, End) != cond) ==> EvalExpression(evalLeaf, cond, trace).0 == CR_ERROR
  {
    forall o | PrintOr(o, End) == cond ensures EvalExpression(evalLeaf, cond, trace) == EvalOr(evalLeaf, o, trace) {
      GrammarIsEvaluated(evalLeaf, o, trace);
    }
    EvaluatedIffGrammar(evalLeaf, cond, trace);
  }
}

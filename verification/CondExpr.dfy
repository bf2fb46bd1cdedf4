/**
The recursive-descent evaluator of cond.c for conditions built from '&&', '||', '!' and
parentheses. It reads one token ahead, and a flag tells it not to evaluate what does not
matter any more. It is compared with the grammar and with short-circuit evaluation.
*/
module CondExpr {

  // A condition as the scanner sees it. A leaf is a comparison, a function call or a word; a
  // malformed one is Bad, whether it is evaluated or not.
  datatype Symbol = And | Or | Not | LParen | RParen | Leaf(text: string) | Bad

  // The rest of a condition.
  datatype Symbols = End | Cons(head: Symbol, tail: Symbols)

  datatype Token =
    | TOK_FALSE | TOK_TRUE | TOK_AND | TOK_OR | TOK_NOT
    | TOK_LPAREN | TOK_RPAREN | TOK_EOF | TOK_NONE | TOK_ERROR

  datatype CondResult = CR_TRUE | CR_FALSE | CR_ERROR

  // What a leaf evaluates to, after the leaves evaluated so far.
  type Oracle = (seq<string>, string) -> CondResult

  // ---------------------------------------------------------------- grammar and meaning

  datatype OrExpr = OrLast(last: AndExpr) | OrMore(first: AndExpr, rest: OrExpr)
  datatype AndExpr = AndLast(last: Term) | AndMore(first: Term, rest: AndExpr)
  datatype Term = Simple(text: string) | Negated(term: Term) | Paren(expr: OrExpr)

  // The text of an expression, followed by something else.
  function PrintOr(o: OrExpr, next: Symbols): Symbols {
    match o
    case OrLast(a) => PrintAnd(a, next)
    case OrMore(a, rest) => PrintAnd(a, Cons(Or, PrintOr(rest, next)))
  }

  function PrintAnd(a: AndExpr, next: Symbols): Symbols {
    match a
    case AndLast(t) => PrintTerm(t, next)
    case AndMore(t, rest) => PrintTerm(t, Cons(And, PrintAnd(rest, next)))
  }

  function PrintTerm(t: Term, next: Symbols): Symbols {
    match t
    case Simple(text) => Cons(Leaf(text), next)
    case Negated(t1) => Cons(Not, PrintTerm(t1, next))
    case Paren(o) => Cons(LParen, PrintOr(o, Cons(RParen, next)))
  }

  function Negate(r: CondResult): CondResult {
    match r
    case CR_TRUE => CR_FALSE
    case CR_FALSE => CR_TRUE
    case CR_ERROR => CR_ERROR
  }

  // Left to right, evaluating only what can still decide the result; tr lists the leaves that
  // have been evaluated. An error ends the evaluation.
  function EvalOr(e: Oracle, o: OrExpr, tr: seq<string>): (CondResult, seq<string>) {
    match o
    case OrLast(a) => EvalAnd(e, a, tr)
    case OrMore(a, rest) =>
      var (r, tr1) := EvalAnd(e, a, tr);
      if r.CR_FALSE? then EvalOr(e, rest, tr1) else (r, tr1)
  }

  function EvalAnd(e: Oracle, a: AndExpr, tr: seq<string>): (CondResult, seq<string>) {
    match a
    case AndLast(t) => EvalTerm(e, t, tr)
    case AndMore(t, rest) =>
      var (r, tr1) := EvalTerm(e, t, tr);
      if r.CR_TRUE? then EvalAnd(e, rest, tr1) else (r, tr1)
  }

  function EvalTerm(e: Oracle, t: Term, tr: seq<string>): (CondResult, seq<string>) {
    match t
    case Simple(text) => (e(tr, text), tr + [text])
    case Negated(t1) => var (r, tr1) := EvalTerm(e, t1, tr); (Negate(r), tr1)
    case Paren(o) => EvalOr(e, o, tr)
  }

  // ---------------------------------------------------------------- the parser

  datatype Parser = Parser(rest: Symbols, curr: Token, trace: seq<string>)

  function Length(l: Symbols): nat {
    if l.End? then 0 else 1 + Length(l.tail)
  }

  function ToToken(r: CondResult): Token {
    match r
    case CR_TRUE => TOK_TRUE
    case CR_FALSE => TOK_FALSE
    case CR_ERROR => TOK_ERROR
  }

  // The token of a symbol that is not evaluated.
  function Unevaluated(s: Symbol): Token {
    match s
    case And => TOK_AND
    case Or => TOK_OR
    case Not => TOK_NOT
    case LParen => TOK_LPAREN
    case RParen => TOK_RPAREN
    case Leaf(_) => TOK_FALSE
    case Bad => TOK_ERROR
  }

  // CondParser_Token
  function NextToken(e: Oracle, s: Parser, doEval: bool): (r: (Token, Parser))
    ensures r.1.curr.TOK_NONE? && !r.0.TOK_NONE? && Length(r.1.rest) <= Length(s.rest)
    ensures s.curr.TOK_NONE? && !r.0.TOK_EOF? ==> Length(r.1.rest) < Length(s.rest)
  {
    if !s.curr.TOK_NONE? then (s.curr, s.(curr := TOK_NONE))
    else match s.rest
      case End => (TOK_EOF, s)
      case Cons(x, tail) =>
        if x.Leaf? && doEval then (ToToken(e(s.trace, x.text)), s.(rest := tail, trace := s.trace + [x.text]))
        else (Unevaluated(x), s.(rest := tail))
  }

  // CondParser_Skip: take the next token if it is t, otherwise leave it pushed back.
  function SkipToken(e: Oracle, s: Parser, t: Token): (r: (bool, Parser))
    requires !t.TOK_NONE?
    ensures Length(r.1.rest) <= Length(s.rest) && (r.0 <==> r.1.curr.TOK_NONE?)
  {
    var (actual, s1) := NextToken(e, s, false);
    if actual == t then (true, s1) else (false, s1.(curr := actual))
  }

  // CondParser_Term, with neg telling whether the '!' read so far are odd in number.
  function ParseTerm(e: Oracle, s: Parser, doEval: bool, neg: bool): (r: (CondResult, Parser))
    requires s.curr.TOK_NONE?
    ensures Length(r.1.rest) <= Length(s.rest)
    ensures !r.0.CR_ERROR? ==> Length(r.1.rest) < Length(s.rest) && r.1.curr.TOK_NONE?
    decreases Length(s.rest), 0
  {
    var (t, s1) := NextToken(e, s, doEval);
    match t
    case TOK_NOT => ParseTerm(e, s1, doEval, !neg)
    case TOK_TRUE => (if neg then CR_FALSE else CR_TRUE, s1)
    case TOK_FALSE => (if neg then CR_TRUE else CR_FALSE, s1)
    case TOK_LPAREN =>
      var (res, s2) := ParseOr(e, s1, doEval, CR_FALSE);
      if res.CR_ERROR? then (CR_ERROR, s2)
      else
        var (t2, s3) := NextToken(e, s2, doEval);
        if t2 != TOK_RPAREN then (CR_ERROR, s3)
        else (if neg == res.CR_FALSE? then CR_TRUE else CR_FALSE, s3)
    case _ => (CR_ERROR, s1)
  }

  // CondParser_And, from one iteration on, with the result so far.
  function ParseAnd(e: Oracle, s: Parser, doEval: bool, res: CondResult): (r: (CondResult, Parser))
    requires s.curr.TOK_NONE? && !res.CR_ERROR?
    ensures Length(r.1.rest) <= Length(s.rest)
    ensures !r.0.CR_ERROR? ==> Length(r.1.rest) < Length(s.rest) && !r.1.curr.TOK_NONE?
    decreases Length(s.rest), 1
  {
    var (rhs, s1) := ParseTerm(e, s, doEval, false);
    if rhs.CR_ERROR? then (CR_ERROR, s1)
    else
      var res1 := if rhs.CR_FALSE? then CR_FALSE else res;
      var (more, s2) := SkipToken(e, s1, TOK_AND);
      if more then ParseAnd(e, s2, doEval && !rhs.CR_FALSE?, res1) else (res1, s2)
  }

  // CondParser_Or, from one iteration on, with the result so far.
  function ParseOr(e: Oracle, s: Parser, doEval: bool, res: CondResult): (r: (CondResult, Parser))
    requires s.curr.TOK_NONE? && !res.CR_ERROR?
    ensures Length(r.1.rest) <= Length(s.rest)
    ensures !r.0.CR_ERROR? ==> Length(r.1.rest) < Length(s.rest) && !r.1.curr.TOK_NONE?
    decreases Length(s.rest), 2
  {
    var (rhs, s1) := ParseAnd(e, s, doEval, CR_TRUE);
    if rhs.CR_ERROR? then (CR_ERROR, s1)
    else
      var res1 := if rhs.CR_TRUE? then CR_TRUE else res;
      var (more, s2) := SkipToken(e, s1, TOK_OR);
      if more then ParseOr(e, s2, doEval && !rhs.CR_TRUE?, res1) else (res1, s2)
  }

  // CondEvalExpression
  function EvalExpression(e: Oracle, input: Symbols, tr: seq<string>): (CondResult, seq<string>) {
    var (rval, s) := ParseOr(e, Parser(input, TOK_NONE, tr), true, CR_FALSE);
    (if s.curr != TOK_EOF then CR_ERROR else rval, s.trace)
  }

  // ---------------------------------------------------------------- every expression is accepted

  // The parser in front of the rest, with its first token pushed back.
  function Ahead(rest: Symbols, tr: seq<string>): Parser {
    match rest
    case End => Parser(End, TOK_EOF, tr)
    case Cons(x, tail) => Parser(tail, Unevaluated(x), tr)
  }

  predicate StartsWith(rest: Symbols, x: Symbol) { rest.Cons? && rest.head == x }

  // What the parser makes of a part of the condition that means (v, tr') if it is evaluated.
  ghost predicate Agrees(got: (CondResult, Parser), doEval: bool, meant: (CondResult, seq<string>),
                         after: Parser, tr: seq<string>) {
    if !doEval then !got.0.CR_ERROR? && got.1 == after.(trace := tr)
    else if meant.0.CR_ERROR? then got.0.CR_ERROR? && got.1.trace == meant.1
    else got == (meant.0, after.(trace := meant.1))
  }

  function NegateIf(neg: bool, r: (CondResult, seq<string>)): (CondResult, seq<string>) {
    if neg then (Negate(r.0), r.1) else r
  }

  lemma {:induction false} TermAccepted(e: Oracle, t: Term, rest: Symbols, tr: seq<string>, doEval: bool, neg: bool)
    ensures Agrees(ParseTerm(e, Parser(PrintTerm(t, rest), TOK_NONE, tr), doEval, neg), doEval,
                   NegateIf(neg, EvalTerm(e, t, tr)), Parser(rest, TOK_NONE, []), tr)
    decreases t
  {
    match t
    case Simple(text) =>
    case Negated(t1) =>
      TermAccepted(e, t1, rest, tr, doEval, !neg);
    case Paren(o) =>
      OrAccepted(e, o, Cons(RParen, rest), tr, doEval, CR_FALSE);
  }

  lemma {:induction false} AndAccepted(e: Oracle, a: AndExpr, rest: Symbols, tr: seq<string>, doEval: bool, res: CondResult)
    requires !StartsWith(rest, And) && !res.CR_ERROR? && (doEval ==> res.CR_TRUE?)
    ensures Agrees(ParseAnd(e, Parser(PrintAnd(a, rest), TOK_NONE, tr), doEval, res), doEval,
                   EvalAnd(e, a, tr), Ahead(rest, []), tr)
    ensures res.CR_FALSE? ==> ParseAnd(e, Parser(PrintAnd(a, rest), TOK_NONE, tr), doEval, res).0.CR_FALSE?
    decreases a
  {
    match a
    case AndLast(t) =>
      TermAccepted(e, t, rest, tr, doEval, false);
    case AndMore(t, a1) =>
      var next := Cons(And, PrintAnd(a1, rest));
      TermAccepted(e, t, next, tr, doEval, false);
      var (rhs, s1) := ParseTerm(e, Parser(PrintTerm(t, next), TOK_NONE, tr), doEval, false);
      if !rhs.CR_ERROR? {
        AndAccepted(e, a1, rest, s1.trace, doEval && !rhs.CR_FALSE?, if rhs.CR_FALSE? then CR_FALSE else res);
      }
  }

  lemma {:induction false} OrAccepted(e: Oracle, o: OrExpr, rest: Symbols, tr: seq<string>, doEval: bool, res: CondResult)
    requires !StartsWith(rest, And) && !StartsWith(rest, Or) && !res.CR_ERROR? && (doEval ==> res.CR_FALSE?)
    ensures Agrees(ParseOr(e, Parser(PrintOr(o, rest), TOK_NONE, tr), doEval, res), doEval,
                   EvalOr(e, o, tr), Ahead(rest, []), tr)
    ensures res.CR_TRUE? ==> ParseOr(e, Parser(PrintOr(o, rest), TOK_NONE, tr), doEval, res).0.CR_TRUE?
    decreases o
  {
    match o
    case OrLast(a) =>
      AndAccepted(e, a, rest, tr, doEval, CR_TRUE);
    case OrMore(a, o1) =>
      var next := Cons(Or, PrintOr(o1, rest));
      AndAccepted(e, a, next, tr, doEval, CR_TRUE);
      var (rhs, s1) := ParseAnd(e, Parser(PrintAnd(a, next), TOK_NONE, tr), doEval, CR_TRUE);
      if !rhs.CR_ERROR? {
        OrAccepted(e, o1, rest, s1.trace, doEval && !rhs.CR_TRUE?, if rhs.CR_TRUE? then CR_TRUE else res);
      }
  }

  // ---------------------------------------------------------------- nothing else is accepted

  lemma {:induction false} TermSound(e: Oracle, s: Parser, doEval: bool, neg: bool) returns (t: Term)
    requires s.curr.TOK_NONE?
    ensures var (r, s1) := ParseTerm(e, s, doEval, neg); !r.CR_ERROR? ==> s.rest == PrintTerm(t, s1.rest)
    decreases Length(s.rest), 0
  {
    var (tok, s1) := NextToken(e, s, doEval);
    if tok.TOK_NOT? {
      var t1 := TermSound(e, s1, doEval, !neg);
      t := Negated(t1);
    } else if tok.TOK_LPAREN? {
      var o, rest := OrSound(e, s1, doEval, CR_FALSE);
      t := Paren(o);
    } else {
      t := Simple(if s.rest.Cons? && s.rest.head.Leaf? then s.rest.head.text else "");
    }
  }

  lemma {:induction false} AndSound(e: Oracle, s: Parser, doEval: bool, res: CondResult) returns (a: AndExpr, rest: Symbols)
    requires s.curr.TOK_NONE? && !res.CR_ERROR?
    ensures var (r, s1) := ParseAnd(e, s, doEval, res);
      !r.CR_ERROR? ==>
        && s.rest == PrintAnd(a, rest) && s1 == Ahead(rest, s1.trace)
        && !StartsWith(rest, And)
    decreases Length(s.rest), 1
  {
    var t := TermSound(e, s, doEval, false);
    var (rhs, s1) := ParseTerm(e, s, doEval, false);
    a, rest := AndLast(t), s1.rest;
    if !rhs.CR_ERROR? {
      var (more, s2) := SkipToken(e, s1, TOK_AND);
      if more {
        var a1;
        a1, rest := AndSound(e, s2, doEval && !rhs.CR_FALSE?, if rhs.CR_FALSE? then CR_FALSE else res);
        a := AndMore(t, a1);
      }
    }
  }

  lemma {:induction false} OrSound(e: Oracle, s: Parser, doEval: bool, res: CondResult) returns (o: OrExpr, rest: Symbols)
    requires s.curr.TOK_NONE? && !res.CR_ERROR?
    ensures var (r, s1) := ParseOr(e, s, doEval, res);
      !r.CR_ERROR? ==>
        && s.rest == PrintOr(o, rest) && s1 == Ahead(rest, s1.trace)
        && !StartsWith(rest, And) && !StartsWith(rest, Or)
    decreases Length(s.rest), 2
  {
    var a;
    a, rest := AndSound(e, s, doEval, CR_TRUE);
    var (rhs, s1) := ParseAnd(e, s, doEval, CR_TRUE);
    o := OrLast(a);
    if !rhs.CR_ERROR? {
      var (more, s2) := SkipToken(e, s1, TOK_OR);
      if more {
        var o1;
        o1, rest := OrSound(e, s2, doEval && !rhs.CR_TRUE?, if rhs.CR_TRUE? then CR_TRUE else res);
        o := OrMore(a, o1);
      }
    }
  }

  // ---------------------------------------------------------------- the evaluator

  // A condition that follows the grammar gets the result, and evaluates the leaves, of
  // short-circuit evaluation.
  lemma GrammarIsEvaluated(e: Oracle, o: OrExpr, tr: seq<string>)
    ensures EvalExpression(e, PrintOr(o, End), tr) == EvalOr(e, o, tr)
  {
    OrAccepted(e, o, End, tr, true, CR_FALSE);
  }

  // A condition that gets a result follows the grammar.
  lemma OnlyGrammarIsEvaluated(e: Oracle, input: Symbols, tr: seq<string>) returns (o: OrExpr)
    requires !EvalExpression(e, input, tr).0.CR_ERROR?
    ensures input == PrintOr(o, End)
  {
    var rest;
    o, rest := OrSound(e, Parser(input, TOK_NONE, tr), true, CR_FALSE);
  }

  // The two together: a condition is malformed just when it does not follow the grammar or its
  // evaluation meets a malformed leaf.
  lemma EvaluatedIffGrammar(e: Oracle, input: Symbols, tr: seq<string>)
    ensures !EvalExpression(e, input, tr).0.CR_ERROR? <==>
            exists o :: PrintOr(o, End) == input && !EvalOr(e, o, tr).0.CR_ERROR?
  {
    if !EvalExpression(e, input, tr).0.CR_ERROR? {
      var o := OnlyGrammarIsEvaluated(e, input, tr);
      GrammarIsEvaluated(e, o, tr);
    }
    forall o | PrintOr(o, End) == input ensures EvalExpression(e, input, tr) == EvalOr(e, o, tr) {
      GrammarIsEvaluated(e, o, tr);
    }
  }

  // ---------------------------------------------------------------- the grammar is unambiguous

  lemma {:induction false} TermUnique(t1: Term, t2: Term, r1: Symbols, r2: Symbols)
    requires PrintTerm(t1, r1) == PrintTerm(t2, r2)
    ensures t1 == t2 && r1 == r2
  {
    match t1
    case Simple(_) =>
    case Negated(u1) => TermUnique(u1, t2.term, r1, r2);
    case Paren(o1) => OrUnique(o1, t2.expr, Cons(RParen, r1), Cons(RParen, r2));
  }

  // The first term of a conjunction, and what follows it.
  function FirstTerm(a: AndExpr, rest: Symbols): (Term, Symbols) {
    match a
    case AndLast(t) => (t, rest)
    case AndMore(t, a1) => (t, Cons(And, PrintAnd(a1, rest)))
  }

  lemma {:induction false} AndUnique(a1: AndExpr, a2: AndExpr, r1: Symbols, r2: Symbols)
    requires PrintAnd(a1, r1) == PrintAnd(a2, r2)
    requires !StartsWith(r1, And) && !StartsWith(r2, And)
    ensures a1 == a2 && r1 == r2
  {
    var (t1, n1) := FirstTerm(a1, r1);
    var (t2, n2) := FirstTerm(a2, r2);
    TermUnique(t1, t2, n1, n2);
    if a1.AndMore? {
      AndUnique(a1.rest, a2.rest, r1, r2);
    }
  }

  // The first conjunction of a disjunction, and what follows it.
  function FirstAnd(o: OrExpr, rest: Symbols): (AndExpr, Symbols) {
    match o
    case OrLast(a) => (a, rest)
    case OrMore(a, o1) => (a, Cons(Or, PrintOr(o1, rest)))
  }

  lemma {:induction false} OrUnique(o1: OrExpr, o2: OrExpr, r1: Symbols, r2: Symbols)
    requires PrintOr(o1, r1) == PrintOr(o2, r2)
    requires !StartsWith(r1, And) && !StartsWith(r2, And)
    requires !StartsWith(r1, Or) && !StartsWith(r2, Or)
    ensures o1 == o2 && r1 == r2
  {
    var (a1, n1) := FirstAnd(o1, r1);
    var (a2, n2) := FirstAnd(o2, r2);
    AndUnique(a1, a2, n1, n2);
    if o1.OrMore? {
      OrUnique(o1.rest, o2.rest, r1, r2);
    }
  }
}

/**
Brace expansion of dir.c. A word such as "a{b,c{d,e}}f" is split at its first brace, and each
piece is put back between what stands before and after; the result is compared with the words
that the brace tree stands for, in order. A string is what a pointer into it sees.
*/
module Braces {
  datatype Str = Nul | Cons(c: char, rest: Str)

  // ---------------------------------------------------------------- brace trees

  // A word is a row of characters and of brace groups, a group a row of pieces.
  datatype Word = Done | Lit(c: char, rest: Word) | Group(pieces: Pieces, rest: Word)
  datatype Pieces = Last(w: Word) | More(w: Word, others: Pieces)

  // The text of a word, followed by something else.
  function Text(w: Word, next: Str): Str {
    match w
    case Done => next
    case Lit(c, rest) => Cons(c, Text(rest, next))
    case Group(ps, rest) => Cons('{', PiecesText(ps, Cons('}', Text(rest, next))))
  }

  function PiecesText(ps: Pieces, next: Str): Str {
    match ps
    case Last(w) => Text(w, next)
    case More(w, others) => Text(w, Cons(',', PiecesText(others, next)))
  }

  // Inside braces, a comma separates and a closing brace closes; outside, they are characters.
  predicate Proper(w: Word, inner: bool) {
    match w
    case Done => true
    case Lit(c, rest) => c != '{' && (inner ==> c != ',' && c != '}') && Proper(rest, inner)
    case Group(ps, rest) => ProperPieces(ps) && Proper(rest, inner)
  }

  predicate ProperPieces(ps: Pieces) {
    match ps
    case Last(w) => Proper(w, true)
    case More(w, others) => Proper(w, true) && ProperPieces(others)
  }

  function Prepend(c: char, words: seq<Str>): (r: seq<Str>)
    ensures |r| == |words| && forall i :: 0 <= i < |r| ==> r[i] == Cons(c, words[i])
  {
    seq(|words|, i requires 0 <= i < |words| => Cons(c, words[i]))
  }

  // The words that w stands for, each followed by every one of the tails.
  function Words(w: Word, tails: seq<Str>): seq<Str> {
    match w
    case Done => tails
    case Lit(c, rest) => Prepend(c, Words(rest, tails))
    case Group(ps, rest) => PiecesWords(ps, Words(rest, tails))
  }

  function PiecesWords(ps: Pieces, tails: seq<Str>): seq<Str> {
    match ps
    case Last(w) => Words(w, tails)
    case More(w, others) => Words(w, tails) + PiecesWords(others, tails)
  }

  // ---------------------------------------------------------------- the expansion

  // The number of opening braces.
  function Opening(s: Str): nat {
    if s.Nul? then 0 else (if s.c == '{' then 1 else 0) + Opening(s.rest)
  }

  function Deeper(c: char, depth: nat): nat {
    if c == '{' then depth + 1 else if c == '}' && depth > 0 then depth - 1 else depth
  }

  // closing_brace
  function ClosingBrace(s: Str, depth: nat): (r: Str)
    ensures r.Cons? ==> r.c == '}'
    ensures Opening(r) <= Opening(s)
  {
    if s.Nul? || (s.c == '}' && depth == 0) then s else ClosingBrace(s.rest, Deeper(s.c, depth))
  }

  // separator_comma
  function SeparatorComma(s: Str, depth: nat): Str {
    if s.Nul? || ((s.c == '}' || s.c == ',') && depth == 0) then s else SeparatorComma(s.rest, Deeper(s.c, depth))
  }

  // What stands before the separator, followed by the suffix.
  function Piece(s: Str, depth: nat, suffix: Str): (r: Str)
    ensures Opening(r) + Opening(SeparatorComma(s, depth)) == Opening(s) + Opening(suffix)
  {
    if s.Nul? || ((s.c == '}' || s.c == ',') && depth == 0) then suffix
    else Cons(s.c, Piece(s.rest, Deeper(s.c, depth), suffix))
  }

  // The first opening brace, and what stands before it, followed by something else.
  function FirstBrace(s: Str): (r: Str)
    ensures Opening(r) == Opening(s) && (r.Cons? ==> r.c == '{')
  {
    if s.Nul? || s.c == '{' then s else FirstBrace(s.rest)
  }

  function Prefix(s: Str, next: Str): (r: Str)
    ensures Opening(r) == Opening(next)
  {
    if s.Nul? || s.c == '{' then next else Cons(s.c, Prefix(s.rest, next))
  }

  // The pieces that separator_comma cuts off cover the text up to the closing brace: a piece
  // ends there, or at a comma after which the closing brace is still the same.
  lemma {:induction false} PiecesCover(s: Str, depth: nat)
    ensures var end, close := SeparatorComma(s, depth), ClosingBrace(s, depth);
      end == close || (end.Cons? && end.c == ',' && ClosingBrace(end.rest, 0) == close)
    ensures Opening(ClosingBrace(s, depth)) <= Opening(SeparatorComma(s, depth)) <= Opening(s)
    ensures SeparatorComma(s, depth) == s || SeparatorComma(s, depth) < s
  {
    if s.Cons? && !(s.c == '}' && depth == 0) && !(s.c == ',' && depth == 0) {
      PiecesCover(s.rest, Deeper(s.c, depth));
    }
  }

  predicate IsGlob(c: char) { c == '*' || c == '?' || c == '[' }

  predicate ContainsWildcard(s: Str) { s.Cons? && (IsGlob(s.c) || s.c == '{' || ContainsWildcard(s.rest)) }

  // The files found for a word with wildcards but no braces.
  type Lookup = Str -> seq<Str>

  // SearchPath_Expand
  function Expand(look: Lookup, word: Str): seq<Str>
    decreases Opening(word), 2, word
  {
    var brace := FirstBrace(word);
    if brace.Nul? then look(word)
    else
      var close := ClosingBrace(brace.rest, 0);
      if close.Nul? then [] else ExpandPieces(look, word, brace.rest, close)
  }

  // The loop of DirExpandCurly.
  function ExpandPieces(look: Lookup, word: Str, piece: Str, close: Str): seq<Str>
    requires Opening(piece) < Opening(word) && close == ClosingBrace(piece, 0) && close.Cons?
    decreases Opening(word), 1, piece
  {
    var end := SeparatorComma(piece, 0);
    PiecesCover(piece, 0);
    var file := Prefix(word, Piece(piece, 0, close.rest));
    ExpandFile(look, file) + if end == close then [] else ExpandPieces(look, word, end.rest, close)
  }

  function ExpandFile(look: Lookup, file: Str): seq<Str>
    decreases Opening(file), 3, file
  {
    if ContainsWildcard(file) then Expand(look, file) else [file]
  }

  // ---------------------------------------------------------------- scanning a tree

  // A word inside braces is passed over as a whole, and copied as a whole.
  lemma {:induction false} WordIsSkipped(w: Word, next: Str, depth: nat, suffix: Str)
    requires Proper(w, true)
    ensures ClosingBrace(Text(w, next), depth) == ClosingBrace(next, depth)
    ensures SeparatorComma(Text(w, next), depth) == SeparatorComma(next, depth)
    ensures Piece(Text(w, next), depth, suffix) == Text(w, Piece(next, depth, suffix))
  {
    match w
    case Done =>
    case Lit(c, rest) =>
      WordIsSkipped(rest, next, depth, suffix);
    case Group(ps, rest) =>
      PiecesAreSkipped(ps, Cons('}', Text(rest, next)), depth + 1, suffix);
      WordIsSkipped(rest, next, depth, suffix);
  }

  // Pieces are passed over by the search for the closing brace, and inside another group also
  // by the search for a comma.
  lemma {:induction false} PiecesAreSkipped(ps: Pieces, next: Str, depth: nat, suffix: Str)
    requires ProperPieces(ps)
    ensures ClosingBrace(PiecesText(ps, next), depth) == ClosingBrace(next, depth)
    ensures depth > 0 ==> SeparatorComma(PiecesText(ps, next), depth) == SeparatorComma(next, depth)
    ensures depth > 0 ==> Piece(PiecesText(ps, next), depth, suffix) == PiecesText(ps, Piece(next, depth, suffix))
  {
    match ps
    case Last(w) =>
      WordIsSkipped(w, next, depth, suffix);
    case More(w, others) =>
      WordIsSkipped(w, Cons(',', PiecesText(others, next)), depth, suffix);
      PiecesAreSkipped(others, next, depth, suffix);
  }

  // ---------------------------------------------------------------- putting trees together

  function Append(a: Word, b: Word): Word {
    match a
    case Done => b
    case Lit(c, rest) => Lit(c, Append(rest, b))
    case Group(ps, rest) => Group(ps, Append(rest, b))
  }

  lemma {:induction false} AppendMeans(a: Word, b: Word, next: Str, tails: seq<Str>)
    ensures Text(Append(a, b), next) == Text(a, Text(b, next))
    ensures Words(Append(a, b), tails) == Words(a, Words(b, tails))
    ensures Proper(a, true) && Proper(b, false) ==> Proper(Append(a, b), false)
  {
    match a
    case Done =>
    case Lit(c, rest) => AppendMeans(rest, b, next, tails);
    case Group(ps, rest) => AppendMeans(rest, b, next, tails);
  }

  // A word from its first group on.
  function Back(w: Word): (b: Word)
    ensures !b.Lit?
  {
    if w.Lit? then Back(w.rest) else w
  }

  // The characters of w before its first group, followed by another word.
  function WithFront(w: Word, b: Word): Word {
    if w.Lit? then Lit(w.c, WithFront(w.rest, b)) else b
  }

  function Fronted(w: Word, words: seq<Str>): seq<Str> {
    if w.Lit? then Prepend(w.c, Fronted(w.rest, words)) else words
  }

  lemma {:induction false} FrontMeans(w: Word, b: Word, next: Str, tails: seq<Str>)
    requires Proper(w, false)
    ensures Prefix(Text(w, Nul), Text(b, next)) == Text(WithFront(w, b), next)
    ensures FirstBrace(Text(w, Nul)) == Text(Back(w), Nul) && Proper(Back(w), false)
    ensures Words(WithFront(w, b), tails) == Fronted(w, Words(b, tails))
    ensures Words(w, tails) == Fronted(w, Words(Back(w), tails))
    ensures Proper(b, false) ==> Proper(WithFront(w, b), false)
  {
    if w.Lit? {
      FrontMeans(w.rest, b, next, tails);
    }
  }

  lemma {:induction false} FrontedAppend(w: Word, a: seq<Str>, b: seq<Str>)
    ensures Fronted(w, a + b) == Fronted(w, a) + Fronted(w, b)
  {
    if w.Lit? {
      FrontedAppend(w.rest, a, b);
    }
  }

  // ---------------------------------------------------------------- the meaning of a tree

  predicate ContainsGlob(s: Str) { s.Cons? && (IsGlob(s.c) || ContainsGlob(s.rest)) }

  // A word without braces: the files it matches, or the word itself.
  function Found(look: Lookup, word: Str): seq<Str> {
    if ContainsGlob(word) then look(word) else [word]
  }

  function FoundAll(look: Lookup, words: seq<Str>): seq<Str> {
    if words == [] then [] else Found(look, words[0]) + FoundAll(look, words[1..])
  }

  lemma {:induction false} FoundAllAppend(look: Lookup, a: seq<Str>, b: seq<Str>)
    ensures FoundAll(look, a + b) == FoundAll(look, a) + FoundAll(look, b)
  {
    if a == [] {
      assert a + b == b;
    } else {
      assert (a + b)[1..] == a[1..] + b;
      FoundAllAppend(look, a[1..], b);
    }
  }

  // A word without a group stands for itself.
  lemma {:induction false} PlainWord(w: Word)
    requires Proper(w, false) && Back(w).Done?
    ensures Words(w, [Nul]) == [Text(w, Nul)]
    ensures ContainsWildcard(Text(w, Nul)) == ContainsGlob(Text(w, Nul))
  {
    if w.Lit? {
      PlainWord(w.rest);
    }
  }

  lemma {:induction false} HasBrace(s: Str)
    requires Opening(s) > 0
    ensures ContainsWildcard(s)
  {
    if s.c != '{' {
      HasBrace(s.rest);
    }
  }

  // A word with braces that are nested properly expands to the words of its tree, in order,
  // each looked up if it has other wildcards.
  lemma {:induction false} TreeExpands(look: Lookup, w: Word)
    requires Proper(w, false)
    ensures ExpandFile(look, Text(w, Nul)) == FoundAll(look, Words(w, [Nul]))
    decreases Opening(Text(w, Nul)), 2, Done
  {
    var word, b := Text(w, Nul), Back(w);
    FrontMeans(w, b, Nul, [Nul]);
    if b.Done? {
      PlainWord(w);
      assert FoundAll(look, [word]) == Found(look, word);
    } else {
      HasBrace(word);
      var piece := PiecesText(b.pieces, Cons('}', Text(b.rest, Nul)));
      PiecesAreSkipped(b.pieces, Cons('}', Text(b.rest, Nul)), 0, Nul);
      PiecesExpand(look, w, b.pieces, b.rest);
    }
  }

  lemma {:induction false} PiecesExpand(look: Lookup, w: Word, ps: Pieces, rest: Word)
    requires Proper(w, false) && ProperPieces(ps) && Proper(rest, false)
    requires Opening(PiecesText(ps, Cons('}', Text(rest, Nul)))) < Opening(Text(w, Nul))
    ensures var close := Cons('}', Text(rest, Nul));
      var piece := PiecesText(ps, close);
      ClosingBrace(piece, 0) == close &&
      ExpandPieces(look, Text(w, Nul), piece, close) == FoundAll(look, Fronted(w, PiecesWords(ps, Words(rest, [Nul]))))
    decreases Opening(Text(w, Nul)), 1, ps
  {
    var close := Cons('}', Text(rest, Nul));
    var piece, tails := PiecesText(ps, close), Words(rest, [Nul]);
    PiecesAreSkipped(ps, close, 0, Nul);
    PiecesCover(piece, 0);
    match ps
    case Last(w1) =>
      OnePiece(look, w, w1, close, rest);
    case More(w1, others) =>
      PiecesAreSkipped(others, close, 0, Nul);
      OnePiece(look, w, w1, Cons(',', PiecesText(others, close)), rest);
      PiecesExpand(look, w, others, rest);
      FrontedAppend(w, Words(w1, tails), PiecesWords(others, tails));
      FoundAllAppend(look, Fronted(w, Words(w1, tails)), Fronted(w, PiecesWords(others, tails)));
  }

  lemma {:induction false} OnePiece(look: Lookup, w: Word, w1: Word, next: Str, rest: Word)
    requires Proper(w, false) && Proper(w1, true) && Proper(rest, false)
    requires next.Cons? && (next.c == ',' || next.c == '}')
    requires Opening(Text(w1, next)) < Opening(Text(w, Nul))
    requires Opening(Text(rest, Nul)) <= Opening(next)
    ensures SeparatorComma(Text(w1, next), 0) == next
    ensures ExpandFile(look, Prefix(Text(w, Nul), Piece(Text(w1, next), 0, Text(rest, Nul))))
         == FoundAll(look, Fronted(w, Words(w1, Words(rest, [Nul]))))
    decreases Opening(Text(w, Nul)), 0, Done
  {
    WordIsSkipped(w1, next, 0, Text(rest, Nul));
    var joined := Append(w1, rest);
    AppendMeans(w1, rest, Nul, [Nul]);
    FrontMeans(w, joined, Nul, [Nul]);
    TreeExpands(look, WithFront(w, joined));
  }

  // ---------------------------------------------------------------- words without a tree

  // Every opening brace is closed.
  predicate Balanced(s: Str, depth: nat) {
    if s.Nul? then depth == 0 else Balanced(s.rest, Deeper(s.c, depth))
  }

  function Length(s: Str): nat {
    if s.Nul? then 0 else 1 + Length(s.rest)
  }

  // A balanced string is the text of a tree.
  lemma {:induction false} BuildWord(s: Str, depth: nat) returns (w: Word, next: Str)
    requires Balanced(s, depth)
    ensures s == Text(w, next) && Proper(w, depth > 0) && Balanced(next, depth) && Length(next) <= Length(s)
    ensures if depth == 0 then next.Nul? else next.Cons? && (next.c == ',' || next.c == '}')
    decreases Length(s), 0
  {
    if s.Nul? || (depth > 0 && (s.c == ',' || s.c == '}')) {
      return Done, s;
    }
    if s.c == '{' {
      var ps, after := BuildPieces(s.rest, depth);
      var rest;
      rest, next := BuildWord(after, depth);
      w := Group(ps, rest);
    } else {
      var rest;
      rest, next := BuildWord(s.rest, depth);
      w := Lit(s.c, rest);
    }
  }

  lemma {:induction false} BuildPieces(s: Str, depth: nat) returns (ps: Pieces, after: Str)
    requires Balanced(s, depth + 1)
    ensures s == PiecesText(ps, Cons('}', after)) && ProperPieces(ps) && Balanced(after, depth) && Length(after) < Length(s)
    decreases Length(s), 1
  {
    var w, next := BuildWord(s, depth + 1);
    if next.c == ',' {
      var others;
      others, after := BuildPieces(next.rest, depth);
      ps := More(w, others);
    } else {
      ps, after := Last(w), next.rest;
    }
  }

  lemma {:induction false} TreeIsBalanced(w: Word, next: Str, depth: nat)
    requires Proper(w, depth > 0)
    ensures Balanced(Text(w, next), depth) == Balanced(next, depth)
  {
    match w
    case Done =>
    case Lit(c, rest) => TreeIsBalanced(rest, next, depth);
    case Group(ps, rest) =>
      PiecesAreBalanced(ps, Cons('}', Text(rest, next)), depth + 1);
      TreeIsBalanced(rest, next, depth);
  }

  lemma {:induction false} PiecesAreBalanced(ps: Pieces, next: Str, depth: nat)
    requires ProperPieces(ps) && depth > 0
    ensures Balanced(PiecesText(ps, next), depth) == Balanced(next, depth)
  {
    match ps
    case Last(w) => TreeIsBalanced(w, next, depth);
    case More(w, others) =>
      TreeIsBalanced(w, Cons(',', PiecesText(others, next)), depth);
      PiecesAreBalanced(others, next, depth);
  }

  // The text up to a closing brace, or a piece up to its end, does not change the balance.
  lemma {:induction false} CloseBalance(s: Str, depth: nat, outer: nat)
    requires ClosingBrace(s, depth).Cons?
    ensures Balanced(s, depth + outer + 1) == Balanced(ClosingBrace(s, depth).rest, outer)
  {
    if !(s.c == '}' && depth == 0) {
      CloseBalance(s.rest, Deeper(s.c, depth), outer);
    }
  }

  lemma {:induction false} PieceBalance(s: Str, depth: nat, suffix: Str)
    requires ClosingBrace(s, depth).Cons?
    ensures Balanced(Piece(s, depth, suffix), depth) == Balanced(suffix, 0)
  {
    if !((s.c == '}' || s.c == ',') && depth == 0) {
      PieceBalance(s.rest, Deeper(s.c, depth), suffix);
    }
  }

  lemma {:induction false} FrontBalance(s: Str, next: Str)
    ensures Balanced(Prefix(s, next), 0) == Balanced(next, 0) && Balanced(FirstBrace(s), 0) == Balanced(s, 0)
    ensures FirstBrace(s).Nul? ==> Balanced(s, 0)
  {
    if s.Cons? && s.c != '{' {
      FrontBalance(s.rest, next);
    }
  }

  lemma {:induction false} ClosesIfBalanced(s: Str, depth: nat, outer: nat)
    requires ClosingBrace(s, depth).Nul?
    ensures !Balanced(s, depth + outer + 1)
  {
    if s.Cons? {
      ClosesIfBalanced(s.rest, Deeper(s.c, depth), outer);
    }
  }

  // A word in which some brace is not closed expands to nothing.
  lemma {:induction false} UnbalancedExpands(look: Lookup, word: Str)
    requires !Balanced(word, 0)
    ensures ExpandFile(look, word) == []
    decreases Opening(word), 1, Nul
  {
    FrontBalance(word, Nul);
    var brace := FirstBrace(word);
    HasBrace(word);
    var close := ClosingBrace(brace.rest, 0);
    if close.Cons? {
      CloseBalance(brace.rest, 0, 0);
      UnbalancedPieces(look, word, brace.rest, close);
    }
  }

  lemma {:induction false} UnbalancedPieces(look: Lookup, word: Str, piece: Str, close: Str)
    requires Opening(piece) < Opening(word) && close == ClosingBrace(piece, 0) && close.Cons?
    requires !Balanced(close.rest, 0)
    ensures ExpandPieces(look, word, piece, close) == []
    decreases Opening(word), 0, piece
  {
    var end := SeparatorComma(piece, 0);
    PiecesCover(piece, 0);
    PieceBalance(piece, 0, close.rest);
    FrontBalance(word, Piece(piece, 0, close.rest));
    UnbalancedExpands(look, Prefix(word, Piece(piece, 0, close.rest)));
    if end != close {
      UnbalancedPieces(look, word, end.rest, close);
    }
  }

  // The whole of it: a word is expanded just when its braces are nested properly, to the words
  // that any tree with that text stands for.
  lemma Expansion(look: Lookup, word: Str)
    ensures Balanced(word, 0) <==> exists w :: Proper(w, false) && Text(w, Nul) == word
    ensures forall w :: Proper(w, false) && Text(w, Nul) == word ==>
              ExpandFile(look, word) == FoundAll(look, Words(w, [Nul]))
    ensures !Balanced(word, 0) ==> ExpandFile(look, word) == []
  {
    forall w | Proper(w, false) && Text(w, Nul) == word
      ensures Balanced(word, 0) && ExpandFile(look, word) == FoundAll(look, Words(w, [Nul]))
    {
      TreeIsBalanced(w, Nul, 0);
      TreeExpands(look, w);
    }
    if Balanced(word, 0) {
      var w, next := BuildWord(word, 0);
      assert Proper(w, false) && Text(w, Nul) == word;
    } else {
      UnbalancedExpands(look, word);
    }
  }
}

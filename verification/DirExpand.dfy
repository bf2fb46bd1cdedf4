/**
The code of dir.c that expands braces: scans over the word, and a loop over the pieces that
appends to a list and calls itself for words that still have wildcards.
*/
module DirExpand {
  import opened Braces

  class StringList {
    var items: seq<Str>

    constructor ()
      ensures items == []
    {
      items := [];
    }

    method Append(s: Str)
      modifies this
      ensures items == old(items) + [s]
    {
      items := items + [s];
    }
  }

  method ClosingBrace(s: Str) returns (p: Str)
    ensures p == Braces.ClosingBrace(s, 0)
  {
    var depth: nat := 0;
    p := s;
    while p != Nul
      invariant Braces.ClosingBrace(p, depth) == Braces.ClosingBrace(s, 0)
      decreases p
    {
      if p.c == '}' && depth == 0 {
        break;
      }
      if p.c == '{' {
        depth := depth + 1;
      }
      if p.c == '}' {
        depth := depth - 1;
      }
      p := p.rest;
    }
  }

  method SeparatorComma(s: Str) returns (p: Str)
    ensures p == Braces.SeparatorComma(s, 0)
  {
    var depth: nat := 0;
    p := s;
    while p != Nul
      invariant Braces.SeparatorComma(p, depth) == Braces.SeparatorComma(s, 0)
      decreases p
    {
      if (p.c == '}' || p.c == ',') && depth == 0 {
        break;
      }
      if p.c == '{' {
        depth := depth + 1;
      }
      if p.c == '}' {
        depth := depth - 1;
      }
      p := p.rest;
    }
  }

  method ContainsWildcard(s: Str) returns (found: bool)
    ensures found <==> Braces.ContainsWildcard(s)
  {
    var p := s;
    while p != Nul
      invariant Braces.ContainsWildcard(p) == Braces.ContainsWildcard(s)
      decreases p
    {
      if p.c == '*' || p.c == '?' || p.c == '{' || p.c == '[' {
        return true;
      }
      p := p.rest;
    }
    return false;
  }

  // strchr(s, '{')
  method FindBrace(s: Str) returns (p: Str)
    ensures p == FirstBrace(s)
  {
    p := s;
    while p != Nul && p.c != '{'
      invariant FirstBrace(p) == FirstBrace(s)
      decreases p
    {
      p := p.rest;
    }
  }

  // The first n characters of s, followed by next; concat3 is two of these.
  function Copy(s: Str, n: nat, next: Str): Str {
    if n == 0 || s.Nul? then next else Cons(s.c, Copy(s.rest, n - 1, next))
  }

  lemma {:induction false} CopyPiece(s: Str, depth: nat, suffix: Str)
    ensures Length(Braces.SeparatorComma(s, depth)) <= Length(s)
    ensures Copy(s, Length(s) - Length(Braces.SeparatorComma(s, depth)), suffix) == Piece(s, depth, suffix)
  {
    if s.Cons? && !((s.c == '}' || s.c == ',') && depth == 0) {
      CopyPiece(s.rest, Deeper(s.c, depth), suffix);
    }
  }

  lemma {:induction false} CopyPrefix(s: Str, next: Str)
    ensures Length(FirstBrace(s)) <= Length(s)
    ensures Copy(s, Length(s) - Length(FirstBrace(s)), next) == Prefix(s, next)
  {
    if s.Cons? && s.c != '{' {
      CopyPrefix(s.rest, next);
    }
  }

  method SearchPathExpand(look: Lookup, pattern: Str, expansions: StringList)
    modifies expansions
    ensures expansions.items == old(expansions.items) + Expand(look, pattern)
    decreases Opening(pattern), 2
  {
    var brace := FindBrace(pattern);
    if brace != Nul {
      DirExpandCurly(look, pattern, brace, expansions);
    } else {
      expansions.items := expansions.items + look(pattern);
    }
  }

  // One piece of the loop below.
  method ExpandPiece(look: Lookup, word: Str, brace: Str, piece: Str, pieceEnd: Str, suffix: Str, expansions: StringList)
    requires brace == FirstBrace(word) && pieceEnd == Braces.SeparatorComma(piece, 0)
    requires Opening(piece) < Opening(word) && Opening(suffix) <= Opening(pieceEnd)
    modifies expansions
    ensures expansions.items == old(expansions.items) + ExpandFile(look, Prefix(word, Piece(piece, 0, suffix)))
    decreases Opening(word), 0
  {
    CopyPiece(piece, 0, suffix);
    CopyPrefix(word, Piece(piece, 0, suffix));
    var file := Copy(word, Length(word) - Length(brace), Copy(piece, Length(piece) - Length(pieceEnd), suffix));
    var wild := ContainsWildcard(file);
    if wild {
      SearchPathExpand(look, file, expansions);
    } else {
      expansions.Append(file);
    }
  }

  method DirExpandCurly(look: Lookup, word: Str, brace: Str, expansions: StringList)
    requires brace == FirstBrace(word) && brace.Cons?
    modifies expansions
    ensures expansions.items == old(expansions.items) + Expand(look, word)
    decreases Opening(word), 1
  {
    var middle := brace.rest;
    var middleEnd := ClosingBrace(middle);
    if middleEnd == Nul {
      return;
    }
    var suffix := middleEnd.rest;
    var piece, done := middle, false;
    ghost var all := old(expansions.items) + Expand(look, word);
    while !done
      invariant !done ==> Opening(piece) < Opening(word) && Braces.ClosingBrace(piece, 0) == middleEnd
      invariant all == expansions.items + if done then [] else ExpandPieces(look, word, piece, middleEnd)
      decreases !done, piece
    {
      var pieceEnd := SeparatorComma(piece);
      PiecesCover(piece, 0);
      PiecesStep(look, word, piece, middleEnd, expansions.items);
      ExpandPiece(look, word, brace, piece, pieceEnd, suffix, expansions);
      if pieceEnd == middleEnd {
        done := true;
      } else {
        piece := pieceEnd.rest;
      }
    }
  }

  lemma PiecesStep(look: Lookup, word: Str, piece: Str, close: Str, before: seq<Str>)
    requires Opening(piece) < Opening(word) && close == Braces.ClosingBrace(piece, 0) && close.Cons?
    ensures var end, now := Braces.SeparatorComma(piece, 0), ExpandFile(look, Prefix(word, Piece(piece, 0, close.rest)));
      if end == close then before + ExpandPieces(look, word, piece, close) == before + now
      else
        && end.Cons? && Opening(end.rest) < Opening(word) && close == Braces.ClosingBrace(end.rest, 0)
        && before + ExpandPieces(look, word, piece, close) == (before + now) + ExpandPieces(look, word, end.rest, close)
  {
    PiecesCover(piece, 0);
  }

  // Expanding a word that has wildcards, as the callers do.
  method ExpandWord(look: Lookup, word: Str) returns (files: seq<Str>)
    requires Braces.ContainsWildcard(word)
    ensures !Balanced(word, 0) ==> files == []
    ensures forall w :: Proper(w, false) && Text(w, Nul) == word ==> files == FoundAll(look, Words(w, [Nul]))
  {
    var expansions := new StringList();
    SearchPathExpand(look, word, expansions);
    Expansion(look, word);
    files := expansions.items;
  }
}

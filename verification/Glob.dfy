/**
Str_Match of str.c: a matcher for patterns like "*.[ch]" that keeps only one place to back
up to, skips to the first possible place for a segment and jumps to the end of the string
for the last one. It is compared with the plain recursive meaning of a pattern.
*/
module Glob {
  import opened Wrappers

  // The character at a position of a C string, which ends with a null character.
  function At(s: string, i: nat): char {
    if i < |s| then s[i] else '\0'
  }

  predicate IsCString(s: string) {
    forall i :: 0 <= i < |s| ==> s[i] != '\0'
  }

  predicate InRange(e1: char, c: char, e2: char) {
    (e1 <= c <= e2) || (e2 <= c <= e1)
  }

  // ---------------------------------------------------------------- the meaning of a pattern

  // Whether c is in the character list whose members start at i.
  predicate InList(c: char, p: string, i: nat)
    decreases |p| - i
  {
    if i >= |p| || p[i] == ']' then false
    else if p[i] == c then true
    else if At(p, i + 1) == '-' then InRange(p[i], c, At(p, i + 2)) || InList(c, p, i + 3)
    else InList(c, p, i + 1)
  }

  // Where the character list whose members start at i is closed, or the end of the pattern.
  function ListEnd(p: string, i: nat): (e: nat)
    requires i <= |p|
    ensures i <= e <= |p| && (e < |p| ==> p[e] == ']')
    decreases |p| - i
  {
    if i >= |p| || p[i] == ']' then i
    else if At(p, i + 1) == '-' then (if i + 3 <= |p| then ListEnd(p, i + 3) else |p|)
    else ListEnd(p, i + 1)
  }

  // No range of the list is cut off by the end of the pattern or ends with the ']' that would
  // close the list. A list may run to the end of the pattern.
  predicate ListOk(p: string, i: nat)
    decreases |p| - i
  {
    if i >= |p| || p[i] == ']' then true
    else if At(p, i + 1) == '-' then i + 2 < |p| && p[i + 2] != ']' && ListOk(p, i + 3)
    else ListOk(p, i + 1)
  }

  function ListStart(p: string, j: nat): (i: nat)
    requires j < |p|
    ensures j < i <= |p|
  {
    if At(p, j + 1) == '^' then j + 2 else j + 1
  }

  // Whether the single pattern item at j, which is not a '*', matches the character c.
  predicate ItemMatches(c: char, p: string, j: nat)
    requires j < |p|
  {
    match p[j]
    case '?' => true
    case '[' => InList(c, p, ListStart(p, j)) != (At(p, j + 1) == '^')
    case '\\' => At(p, j + 1) == c
    case _ => p[j] == c
  }

  // Where the item after the one at j starts.
  function ItemEnd(p: string, j: nat): (e: nat)
    requires j < |p|
    ensures j < e <= |p|
  {
    match p[j]
    case '[' =>
      var e := ListEnd(p, ListStart(p, j));
      if e < |p| then e + 1 else e
    case '\\' => if j + 1 < |p| then j + 2 else j + 1
    case _ => j + 1
  }

  // The string from i on matches the pattern from j on.
  predicate Matches(s: string, i: nat, p: string, j: nat)
    requires i <= |s| && j <= |p|
    decreases |p| - j, |s| - i
  {
    if j == |p| then i == |s|
    else if p[j] == '*' then Matches(s, i, p, j + 1) || (i < |s| && Matches(s, i + 1, p, j))
    else i < |s| && ItemMatches(s[i], p, j) && Matches(s, i + 1, p, ItemEnd(p, j))
  }

  // All character lists of the pattern from j on are proper.
  predicate PatternOk(p: string, j: nat)
    requires j <= |p|
    decreases |p| - j
  {
    if j == |p| then true
    else if p[j] == '*' then PatternOk(p, j + 1)
    else (p[j] == '[' ==> ListOk(p, ListStart(p, j))) && PatternOk(p, ItemEnd(p, j))
  }

  // All character lists of the pattern from j on are closed before its end.
  predicate PatternClosed(p: string, j: nat)
    requires j <= |p|
    decreases |p| - j
  {
    if j == |p| then true
    else if p[j] == '*' then PatternClosed(p, j + 1)
    else
      && (p[j] == '[' ==> ListOk(p, ListStart(p, j)) && ListEnd(p, ListStart(p, j)) < |p|)
      && PatternClosed(p, ItemEnd(p, j))
  }

  lemma {:induction false} ClosedIsOk(p: string, j: nat)
    requires j <= |p| && PatternClosed(p, j)
    ensures PatternOk(p, j)
    decreases |p| - j
  {
    if j < |p| {
      ClosedIsOk(p, if p[j] == '*' then j + 1 else ItemEnd(p, j));
    }
  }

  // The ']' that closes a proper list is the first one.
  lemma {:induction false} FirstClose(p: string, i: nat)
    requires i <= |p| && ListOk(p, i)
    ensures forall k :: i <= k < ListEnd(p, i) ==> p[k] != ']'
    decreases |p| - i
  {
    if i < |p| && p[i] != ']' {
      if At(p, i + 1) == '-' {
        FirstClose(p, i + 3);
      } else {
        FirstClose(p, i + 1);
      }
    }
  }

  // ---------------------------------------------------------------- segments

  // Some suffix of the string that starts at or after i matches the pattern from j on.
  ghost predicate MatchesLater(s: string, i: nat, p: string, j: nat)
    requires i <= |s| && j <= |p|
  {
    exists k :: i <= k <= |s| && Matches(s, k, p, j)
  }

  // The items from j to j' match the characters from i to i', one by one.
  ghost predicate Segment(s: string, i: nat, i': nat, p: string, j: nat, j': nat)
    decreases |p| - j
  {
    if j == j' then i == i'
    else
      && j < j' <= |p| && p[j] != '*'
      && i < i' <= |s| && ItemMatches(s[i], p, j)
      && Segment(s, i + 1, i', p, ItemEnd(p, j), j')
  }

  lemma {:induction false} SegmentExtend(s: string, i: nat, i': nat, p: string, j: nat, j': nat)
    requires Segment(s, i, i', p, j, j')
    requires i' < |s| && j' < |p| && p[j'] != '*' && ItemMatches(s[i'], p, j')
    ensures Segment(s, i, i' + 1, p, j, ItemEnd(p, j'))
    decreases |p| - j
  {
    if j == j' {
      assert Segment(s, i' + 1, i' + 1, p, ItemEnd(p, j'), ItemEnd(p, j'));
    } else {
      SegmentExtend(s, i + 1, i', p, ItemEnd(p, j), j');
      SegmentOrder(s, i + 1, i', p, ItemEnd(p, j), j');
    }
  }

  lemma {:induction false} SegmentOrder(s: string, i: nat, i': nat, p: string, j: nat, j': nat)
    requires Segment(s, i, i', p, j, j')
    ensures j <= j' && i <= i'
    decreases |p| - j
  {
    if j != j' {
      SegmentOrder(s, i + 1, i', p, ItemEnd(p, j), j');
    }
  }

  // Behind a matched segment, the rest decides.
  lemma {:induction false} SegmentDecides(s: string, i: nat, i': nat, p: string, j: nat, j': nat)
    requires Segment(s, i, i', p, j, j') && i' <= |s| && j' <= |p|
    ensures i <= |s| && j <= |p| && (Matches(s, i, p, j) <==> Matches(s, i', p, j'))
    decreases |p| - j
  {
    if j != j' {
      SegmentDecides(s, i + 1, i', p, ItemEnd(p, j), j');
    }
  }

  // A segment has a fixed length: wherever else it matches, it takes as many characters.
  lemma {:induction false} SegmentElsewhere(s: string, i: nat, i': nat, p: string, j: nat, j': nat, k: nat)
    requires Segment(s, i, i', p, j, j') && i' <= |s| && j' <= |p|
    requires k <= |s| && j <= |p| && Matches(s, k, p, j)
    ensures i <= i' && k + (i' - i) <= |s| && Matches(s, k + (i' - i), p, j')
    decreases |p| - j
  {
    if j != j' {
      SegmentElsewhere(s, i + 1, i', p, ItemEnd(p, j), j', k + 1);
    }
  }

  // ---------------------------------------------------------------- the shortcuts

  // An asterisk matches any number of characters.
  lemma {:induction false} StarSkips(s: string, i: nat, p: string, j: nat)
    requires i <= |s| && j < |p| && p[j] == '*'
    ensures Matches(s, i, p, j) <==> MatchesLater(s, i, p, j + 1)
    decreases |s| - i
  {
    if i < |s| {
      StarSkips(s, i + 1, p, j);
      if Matches(s, i + 1, p, j) {
        var k :| i + 1 <= k <= |s| && Matches(s, k, p, j + 1);
      }
      if MatchesLater(s, i, p, j + 1) {
        var k :| i <= k <= |s| && Matches(s, k, p, j + 1);
      }
    }
  }

  // Consecutive asterisks are one.
  lemma StarsAreOne(s: string, i: nat, p: string, j: nat)
    requires i <= |s| && j < |p| && p[j] == '*'
    ensures MatchesLater(s, i, p, j) <==> MatchesLater(s, i, p, j + 1)
  {
    if MatchesLater(s, i, p, j) {
      var k :| i <= k <= |s| && Matches(s, k, p, j);
      StarSkips(s, k, p, j);
      var l :| k <= l <= |s| && Matches(s, l, p, j + 1);
    }
    if MatchesLater(s, i, p, j + 1) {
      StarSkips(s, i, p, j);
    }
  }

  // The leftmost place for a segment before an asterisk is as good as any.
  lemma LeftmostSegment(s: string, i: nat, i': nat, p: string, j: nat, j': nat)
    requires Segment(s, i, i', p, j, j') && i' <= |s| && i <= |s| && j <= |p| && j' < |p| && p[j'] == '*'
    ensures MatchesLater(s, i, p, j) <==> MatchesLater(s, i', p, j' + 1)
  {
    SegmentDecides(s, i, i', p, j, j');
    StarSkips(s, i', p, j');
    if MatchesLater(s, i, p, j) {
      var k :| i <= k <= |s| && Matches(s, k, p, j);
      SegmentElsewhere(s, i, i', p, j, j', k);
      StarSkips(s, k + (i' - i), p, j');
      var l :| k + (i' - i) <= l <= |s| && Matches(s, l, p, j' + 1);
    }
  }

  // A segment that runs out of string here runs out of it further right as well.
  lemma TooLong(s: string, i: nat, p: string, j: nat, j': nat)
    requires i <= |s| && j <= |p| && Segment(s, i, |s|, p, j, j') && j' < |p| && p[j'] != '*'
    ensures !MatchesLater(s, i, p, j)
  {
    if MatchesLater(s, i, p, j) {
      var k :| i <= k <= |s| && Matches(s, k, p, j);
      SegmentElsewhere(s, i, |s|, p, j, j', k);
      assert false;
    }
  }

  // The last segment can only match at the very end of the string.
  lemma JumpToEnd(s: string, i: nat, i': nat, p: string, j: nat)
    requires Segment(s, i, i', p, j, |p|) && i <= i' <= |s| && j <= |p|
    ensures MatchesLater(s, i, p, j) <==> MatchesLater(s, i + (|s| - i'), p, j)
  {
    if MatchesLater(s, i, p, j) {
      var k :| i <= k <= |s| && Matches(s, k, p, j);
      SegmentElsewhere(s, i, i', p, j, |p|, k);
    }
  }

  // A place where the first character of the segment differs can be skipped.
  lemma {:induction false} SkipTo(s: string, i: nat, i': nat, p: string, j: nat, ch: char)
    requires i <= i' <= |s| && j < |p| && p[j] != '*'
    requires forall k :: i <= k < i' ==> s[k] != ch
    requires forall c :: c != '\0' && ItemMatches(c, p, j) ==> c == ch
    requires IsCString(s)
    ensures MatchesLater(s, i, p, j) <==> MatchesLater(s, i', p, j)
  {
    if MatchesLater(s, i, p, j) {
      var k :| i <= k <= |s| && Matches(s, k, p, j);
      assert k >= i';
    }
  }

  lemma NotHere(s: string, i: nat, p: string, j: nat)
    requires i < |s| && j <= |p| && !Matches(s, i, p, j)
    ensures MatchesLater(s, i, p, j) <==> MatchesLater(s, i + 1, p, j)
  {
    if MatchesLater(s, i, p, j) {
      var k :| i <= k <= |s| && Matches(s, k, p, j);
      assert k != i;
    }
  }

  // ---------------------------------------------------------------- the matcher

  // A character list that runs to the end of the pattern without the character in it.
  predicate Reports(c: char, p: string, j: nat)
    requires j < |p|
  {
    p[j] == '[' && ListEnd(p, ListStart(p, j)) == |p| && !InList(c, p, ListStart(p, j))
  }

  // The first item to be matched is such a list.
  predicate ReportsFirst(s: string, i: nat, p: string, j: nat) {
    i < |s| && j < |p| && Reports(s[i], p, j)
  }

  datatype ListResult = Matched(next: nat) | Mismatch | BadRange(result: bool)

  // The part of Str_Match from '[' to the end of the character list.
  method MatchList(c: char, pat: string, start: nat) returns (r: ListResult, unfinished: bool)
    requires IsCString(pat) && start < |pat| && pat[start] == '[' && c != '\0'
    ensures r.Matched? ==> start < r.next <= |pat|
    ensures r.BadRange? ==> r.result == (At(pat, start + 1) == '^')
    ensures ListOk(pat, ListStart(pat, start)) ==>
              r == if ItemMatches(c, pat, start) then Matched(ItemEnd(pat, start)) else Mismatch
    ensures ListOk(pat, ListStart(pat, start)) ==> (unfinished <==> Reports(c, pat, start))
  {
    var neg := At(pat, start + 1) == '^';
    var p := if neg then start + 2 else start + 1;
    unfinished := false;
    while true
      invariant start < p <= |pat| && !unfinished
      invariant ListOk(pat, ListStart(pat, start)) ==>
                  && ListOk(pat, p) && (InList(c, pat, p) <==> InList(c, pat, ListStart(pat, start)))
                  && ListEnd(pat, p) == ListEnd(pat, ListStart(pat, start))
      decreases |pat| - p
    {
      if At(pat, p) == '\0' {
        unfinished := true;
      }
      if At(pat, p) == ']' || At(pat, p) == '\0' {
        if neg {
          break;
        }
        return Mismatch, unfinished;
      }
      if At(pat, p) == c {
        break;
      }
      if At(pat, p + 1) == '-' && At(pat, p + 2) == '\0' {
        return BadRange(neg), unfinished;
      }
      if At(pat, p + 1) == '-' {
        if InRange(pat[p], c, At(pat, p + 2)) {
          break;
        }
        p := p + 2;
      }
      p := p + 1;
    }
    if neg && At(pat, p) != ']' && At(pat, p) != '\0' {
      return Mismatch, unfinished;
    }
    ghost var end := ListEnd(pat, ListStart(pat, start));
    if ListOk(pat, p) {
      FirstClose(pat, p);
    }
    while At(pat, p) != ']' && At(pat, p) != '\0'
      invariant start < p <= |pat|
      invariant ListOk(pat, ListStart(pat, start)) ==> p <= end && forall k :: p <= k < end ==> pat[k] != ']'
      decreases |pat| - p
    {
      p := p + 1;
    }
    return Matched(if p < |pat| then p + 1 else p), unfinished;
  }

  // What a proper pattern means for a proper suffix of it.
  ghost predicate Stands(str: string, pat: string, asterisk: bool, i: nat, j: nat) {
    && i <= |str| && j <= |pat|
    && (PatternClosed(pat, 0) ==> PatternClosed(pat, j))
    && (PatternOk(pat, 0) ==>
          && PatternOk(pat, j)
          && (Matches(str, 0, pat, 0) <==>
                if asterisk then MatchesLater(str, i, pat, j) else Matches(str, i, pat, j)))
  }

  datatype StrMatchResult = StrMatchResult(matched: bool, error: Option<string>)

  // How an attempt to match the items up to the next '*' at a fixed place ends.
  datatype Attempt =
    | Decided(res: StrMatchResult)
    | Retry(fixedStr: nat)            // not here; the next place to try
    | Reached(str: nat, pat: nat)     // matched up to a '*' or the end of the pattern

  // The segment does not match at the fixed place.
  lemma Failed(str: string, pat: string, asterisk: bool, i: nat, i': nat, j: nat, j': nat)
    requires Stands(str, pat, asterisk, i, j) && PatternOk(pat, 0) && i <= i' < |str| && j' < |pat|
    requires Segment(str, i, i', pat, j, j') && pat[j'] != '*' && !ItemMatches(str[i'], pat, j')
    ensures if asterisk then Stands(str, pat, true, i + 1, j) else !Matches(str, 0, pat, 0)
  {
    SegmentDecides(str, i, i', pat, j, j');
    if asterisk {
      NotHere(str, i, pat, j);
    }
  }

  // The string ends inside the segment.
  lemma EndOfString(str: string, pat: string, asterisk: bool, i: nat, j: nat, j': nat)
    requires Stands(str, pat, asterisk, i, j) && PatternOk(pat, 0) && j' < |pat| && pat[j'] != '*'
    requires Segment(str, i, |str|, pat, j, j')
    ensures !Matches(str, 0, pat, 0)
  {
    SegmentDecides(str, i, |str|, pat, j, j');
    if asterisk {
      TooLong(str, i, pat, j, j');
    }
  }

  // Whether a character fits an item, and where the next one starts; if not, the character that was
  // looked for, if there is just one.
  datatype ItemResult = Fits(next: nat) | Differs(literal: Option<char>) | Cut(result: bool)

  // The character that the item at j stands for, if it is not a list or a '?'.
  function Literal(p: string, j: nat): char
    requires j < |p|
  {
    if p[j] == '\\' then At(p, j + 1) else p[j]
  }

  // The body of the loop, for one item of the pattern.
  method MatchItem(c: char, pat: string, j: nat, error0: Option<string>) returns (r: ItemResult, error: Option<string>)
    requires IsCString(pat) && j < |pat| && pat[j] != '*' && c != '\0'
    ensures r.Fits? ==> j < r.next <= |pat|
    ensures (pat[j] == '[' ==> ListOk(pat, ListStart(pat, j))) ==>
              if ItemMatches(c, pat, j) then r == Fits(ItemEnd(pat, j)) else r.Differs?
    ensures r.Differs? ==> r.literal == if pat[j] == '[' then None else Some(Literal(pat, j))
    ensures error0.Some? ==> error.Some?
    ensures pat[j] == '[' && ListOk(pat, ListStart(pat, j)) ==>
              error == if Reports(c, pat, j) then Some("Unfinished character list") else error0
    ensures pat[j] != '[' ==> error == error0
    ensures r.Cut? ==> r.result == (At(pat, j + 1) == '^') && error == Some("Unfinished character range")
  {
    error := error0;
    if pat[j] == '?' {
      return Fits(j + 1), error;
    }
    if pat[j] == '[' {
      var list, unfinished := MatchList(c, pat, j);
      if unfinished {
        error := Some("Unfinished character list");
      }
      match list {
        case BadRange(result) =>
          return Cut(result), Some("Unfinished character range");
        case Mismatch =>
          return Differs(None), error;
        case Matched(next) =>
          return Fits(next), error;
      }
    }
    var q := if pat[j] == '\\' then j + 1 else j;
    if At(pat, q) != c {
      return Differs(Some(At(pat, q))), error;
    }
    return Fits(q + 1), error;
  }

  // The code between the label match_fixed_length and the end of its loop.
  method MatchFixed(str0: string, pat0: string, asterisk: bool, fixedStr: nat, fixedPat: nat, error0: Option<string>)
    returns (a: Attempt, error: Option<string>)
    requires IsCString(str0) && IsCString(pat0) && Stands(str0, pat0, asterisk, fixedStr, fixedPat)
    ensures a.Decided? && PatternOk(pat0, 0) ==> (a.res.matched <==> Matches(str0, 0, pat0, 0))
    ensures PatternClosed(pat0, 0) ==> error == error0
    ensures (a.Decided? ==> a.res.error == error) && (error0.Some? ==> error.Some?)
    ensures PatternOk(pat0, 0) && ReportsFirst(str0, fixedStr, pat0, fixedPat) ==> error.Some?
    ensures a.Retry? ==> asterisk && fixedStr < a.fixedStr && Stands(str0, pat0, asterisk, a.fixedStr, fixedPat)
    ensures a.Reached? ==>
              && fixedStr <= a.str <= |str0| && fixedPat <= a.pat <= |pat0|
              && (a.pat < |pat0| ==> pat0[a.pat] == '*')
              && (PatternClosed(pat0, 0) ==> PatternClosed(pat0, a.pat))
              && (PatternOk(pat0, 0) ==>
                    PatternOk(pat0, a.pat) && Segment(str0, fixedStr, a.str, pat0, fixedPat, a.pat))
  {
    error := error0;
    if PatternClosed(pat0, 0) {
      ClosedIsOk(pat0, 0);
    }
    var str, pat := fixedStr, fixedPat;
    while At(pat0, pat) != '\0' && At(pat0, pat) != '*'
      invariant fixedStr <= str <= |str0| && fixedPat <= pat <= |pat0|
      invariant PatternClosed(pat0, 0) ==> PatternClosed(pat0, pat) && error == error0
      invariant (error0.Some? ==> error.Some?) && (pat == fixedPat ==> str == fixedStr)
      invariant PatternOk(pat0, 0) && ReportsFirst(str0, fixedStr, pat0, fixedPat) && pat > fixedPat ==> error.Some?
      invariant PatternOk(pat0, 0) ==> PatternOk(pat0, pat) && Segment(str0, fixedStr, str, pat0, fixedPat, pat)
      decreases |pat0| - pat
    {
      if At(str0, str) == '\0' {
        if PatternOk(pat0, 0) {
          EndOfString(str0, pat0, asterisk, fixedStr, fixedPat, pat);
        }
        return Decided(StrMatchResult(false, error)), error;
      }
      ghost var item := pat;
      if PatternOk(pat0, 0) {
        if ItemMatches(str0[str], pat0, pat) {
          SegmentExtend(str0, fixedStr, str, pat0, fixedPat, pat);
        } else {
          Failed(str0, pat0, asterisk, fixedStr, str, fixedPat, pat);
        }
      }
      var r;
      r, error := MatchItem(str0[str], pat0, pat, error);
      match r {
        case Fits(next) =>
          str, pat := str + 1, next;
        case Cut(result) =>
          return Decided(StrMatchResult(result, error)), error;
        case Differs(literal) =>
          if literal.Some? && asterisk && str == fixedStr {
            while At(str0, str) != '\0' && At(str0, str) != literal.value
              invariant fixedStr <= str <= |str0|
              invariant forall k :: fixedStr <= k < str ==> str0[k] != literal.value
              decreases |str0| - str
            {
              str := str + 1;
            }
            if PatternOk(pat0, 0) {
              assert item == fixedPat;
              SkipTo(str0, fixedStr, str, pat0, item, literal.value);
            }
            return Retry(str), error;
          }
          if !asterisk {
            return Decided(StrMatchResult(false, error)), error;
          }
          return Retry(fixedStr + 1), error;
      }
    }
    return Reached(str, pat), error;
  }

  // Behind an asterisk, the items after it are to be matched anywhere.
  lemma AfterAsterisk(str: string, pat: string, asterisk: bool, i: nat, i': nat, j: nat, j': nat)
    requires Stands(str, pat, asterisk, i, j) && i <= i' <= |str| && j <= j' < |pat| && pat[j'] == '*'
    requires PatternClosed(pat, 0) ==> PatternClosed(pat, j')
    requires PatternOk(pat, 0) ==> PatternOk(pat, j') && Segment(str, i, i', pat, j, j')
    ensures Stands(str, pat, true, i', j' + 1)
  {
    if PatternOk(pat, 0) {
      if asterisk {
        LeftmostSegment(str, i, i', pat, j, j');
      } else {
        SegmentDecides(str, i, i', pat, j, j');
        StarSkips(str, i', pat, j');
      }
    }
  }

  method StrMatch(str0: string, pat0: string) returns (res: StrMatchResult)
    requires IsCString(str0) && IsCString(pat0)
    ensures PatternOk(pat0, 0) ==> (res.matched <==> Matches(str0, 0, pat0, 0))
    ensures PatternClosed(pat0, 0) ==> res.error == None
    ensures PatternOk(pat0, 0) && ReportsFirst(str0, 0, pat0, 0) ==> res.error.Some?
  {
    var error: Option<string> := None;
    var asterisk := false;
    var fixedStr: nat, fixedPat: nat := 0, 0;
    while true
      invariant Stands(str0, pat0, asterisk, fixedStr, fixedPat) && (PatternClosed(pat0, 0) ==> error == None)
      invariant PatternOk(pat0, 0) && ReportsFirst(str0, 0, pat0, 0) && (fixedStr > 0 || fixedPat > 0) ==> error.Some?
      decreases |pat0| - fixedPat, |str0| - fixedStr
    {
      var attempt;
      attempt, error := MatchFixed(str0, pat0, asterisk, fixedStr, fixedPat, error);
      match attempt {
        case Decided(r) =>
          return r;
        case Retry(next) =>
          fixedStr := next;
          continue;
        case Reached(str, pat) =>
          if At(pat0, pat) == '*' {
            AfterAsterisk(str0, pat0, asterisk, fixedStr, str, fixedPat, pat);
            asterisk := true;
            var rest := pat + 1;
            while At(pat0, rest) == '*'
              invariant pat < rest <= |pat0| && Stands(str0, pat0, true, str, rest)
              decreases |pat0| - rest
            {
              StarsAreOne(str0, str, pat0, rest);
              rest := rest + 1;
            }
            if At(pat0, rest) == '\0' {
              assert Matches(str0, |str0|, pat0, |pat0|);
              return StrMatchResult(true, error);
            }
            fixedStr, fixedPat := str, rest;
            continue;
          }
          if PatternOk(pat0, 0) {
            SegmentDecides(str0, fixedStr, str, pat0, fixedPat, pat);
            JumpToEnd(str0, fixedStr, str, pat0, fixedPat);
          }
          if asterisk && At(str0, str) != '\0' {
            fixedStr := fixedStr + (|str0| - str);
            continue;
          }
          return StrMatchResult(At(str0, str) == '\0', error);
      }
    }
  }
}

/** The line tokenizer: trims a raw line, splits it on runs of whitespace,
    rejects a line whose first token starts with the comment marker, and
    strips a trailing comment that starts at a standalone `#` token at
    position 4 or later. */
module Tokenizer {
  import opened Types

  /** Whitespace as trimming and the `\s` class understand it: the
      ECMAScript white-space and line-terminator characters. */
  predicate IsSpace(c: char) {
    || c == '\t' || c == '\n' || c == '\U{000B}' || c == '\U{000C}' || c == '\r' || c == ' '
    || c == '\U{00A0}' || c == '\U{1680}' || ('\U{2000}' <= c <= '\U{200A}')
    || c == '\U{2028}' || c == '\U{2029}' || c == '\U{202F}' || c == '\U{205F}'
    || c == '\U{3000}' || c == '\U{FEFF}'
  }

  predicate NoSpace(s: string) { forall i :: 0 <= i < |s| ==> !IsSpace(s[i]) }

  predicate AllSpace(s: string) { forall i :: 0 <= i < |s| ==> IsSpace(s[i]) }

  /** A string with no whitespace at either end. */
  predicate Trimmed(s: string) { s != [] ==> !IsSpace(s[0]) && !IsSpace(s[|s| - 1]) }

  /** Number of whitespace characters at the start of s. */
  function LeadingSpaces(s: string): (n: nat)
    ensures n <= |s| && AllSpace(s[..n])
    ensures n < |s| ==> !IsSpace(s[n])
  {
    if s == [] || !IsSpace(s[0]) then 0
    else
      var k := LeadingSpaces(s[1..]);
      assert s[..k + 1] == [s[0]] + s[1..][..k];
      k + 1
  }

  /** Number of whitespace characters at the end of s. */
  function TrailingSpaces(s: string): (n: nat)
    ensures n <= |s| && AllSpace(s[|s| - n..])
    ensures n < |s| ==> !IsSpace(s[|s| - 1 - n])
  {
    if s == [] || !IsSpace(s[|s| - 1]) then 0
    else
      var p := s[..|s| - 1];
      var k := TrailingSpaces(p);
      assert s[|s| - (k + 1)..] == p[|p| - k..] + [s[|s| - 1]];
      k + 1
  }

  /** The line with leading and trailing whitespace removed: the text
      between the leading run of whitespace and the trailing one. */
  function Trim(s: string): (r: string)
    ensures Trimmed(r)
    ensures r == [] <==> AllSpace(s)
    ensures var i := LeadingSpaces(s);
      i + |r| <= |s| && s[i..i + |r|] == r && AllSpace(s[i + |r|..])
  {
    var n := LeadingSpaces(s);
    var t := s[n..];
    var m := TrailingSpaces(t);
    var r := t[..|t| - m];
    MiddleIsTrimmed(s, n, t, m, r);
    MiddleEmpty(s, n, t, m, r);
    SliceOfSlice(s, n, |r|);
    r
  }

  /** The text between the two whitespace runs has none at either end ... */
  lemma MiddleIsTrimmed(s: string, n: nat, t: string, m: nat, r: string)
    requires n == LeadingSpaces(s) && t == s[n..] && m == TrailingSpaces(t) && r == t[..|t| - m]
    ensures Trimmed(r)
  {
    if r != [] {
      assert r[0] == s[n];
      assert r[|r| - 1] == t[|t| - 1 - m];
    }
  }

  /** ... and is empty exactly when the whole text is whitespace. */
  lemma MiddleEmpty(s: string, n: nat, t: string, m: nat, r: string)
    requires n == LeadingSpaces(s) && t == s[n..] && m == TrailingSpaces(t) && r == t[..|t| - m]
    ensures r == [] <==> AllSpace(s)
  {
    if n < |s| {
      assert t[0] == s[n] && !IsSpace(s[n]);
      assert t[|t| - m..] == t ==> m < |t|;
    } else {
      assert s[..n] == s;
    }
  }

  /** Slices of a suffix are slices of the whole. */
  lemma SliceOfSlice(s: string, n: nat, k: nat)
    requires n + k <= |s|
    ensures s[n..][..k] == s[n..n + k] && s[n..][k..] == s[n + k..]
  {}

  /** Index of the first whitespace character, or |s| when there is none. */
  function FirstSpace(s: string): (i: nat)
    ensures i <= |s| && NoSpace(s[..i])
    ensures i < |s| ==> IsSpace(s[i])
  {
    if s == [] || IsSpace(s[0]) then 0
    else
      var k := FirstSpace(s[1..]);
      assert s[..k + 1] == [s[0]] + s[1..][..k];
      k + 1
  }

  /** End of the whitespace run that starts at i. */
  function SkipSpaces(s: string, i: nat): (j: nat)
    requires i <= |s|
    ensures i <= j <= |s| && AllSpace(s[i..j])
    ensures j < |s| ==> !IsSpace(s[j])
    decreases |s| - i
  {
    if i < |s| && IsSpace(s[i]) then
      var j := SkipSpaces(s, i + 1);
      assert s[i..j] == [s[i]] + s[i + 1..j];
      j
    else i
  }

  /** Splitting on runs of whitespace, as `split(/\s+/)` does: the pieces
      between consecutive runs, with an empty piece for a run at either end. */
  function Split(s: string): (parts: seq<string>)
    ensures |parts| >= 1
    ensures forall k :: 0 <= k < |parts| ==> NoSpace(parts[k])
    decreases |s|
  {
    var i := FirstSpace(s);
    if i == |s| then
      assert s[..i] == s;
      [s]
    else
      var j := SkipSpaces(s, i);
      [s[..i]] + Split(s[j..])
  }

  /** s is the pieces in order, each run of whitespace between two of them
      non-empty and maximal: s = parts[0] + w1 + parts[1] + ... + parts[n]
      with every wi a non-empty whitespace run that no whitespace follows. */
  ghost predicate Separated(s: string, parts: seq<string>)
    decreases |parts|
  {
    && |parts| >= 1 && NoSpace(parts[0])
    && |parts[0]| <= |s| && s[..|parts[0]|] == parts[0]
    && if |parts| == 1 then s == parts[0]
       else exists j: nat :: SeparatorEnd(s, |parts[0]|, j) && Separated(s[j..], parts[1..])
  }

  /** s[i..j] is a non-empty whitespace run not followed by whitespace. */
  predicate SeparatorEnd(s: string, i: nat, j: nat)
  {
    i < j <= |s| && AllSpace(s[i..j]) && (j < |s| ==> !IsSpace(s[j]))
  }

  /** FirstSpace is characterized by its two ensures. */
  lemma {:induction false} FirstSpaceIs(s: string, n: nat)
    requires n <= |s| && NoSpace(s[..n]) && (n < |s| ==> IsSpace(s[n]))
    ensures FirstSpace(s) == n
    decreases n
  {
    if n > 0 {
      assert s[0] == s[..n][0];
      assert s[1..][..n - 1] == s[..n][1..];
      FirstSpaceIs(s[1..], n - 1);
    }
  }

  /** SkipSpaces is characterized by its ensures. */
  lemma {:induction false} SkipSpacesIs(s: string, i: nat, j: nat)
    requires i <= j <= |s| && AllSpace(s[i..j]) && (j < |s| ==> !IsSpace(s[j]))
    ensures SkipSpaces(s, i) == j
    decreases j - i
  {
    if i < j {
      assert s[i] == s[i..j][0];
      assert s[i + 1..j] == s[i..j][1..];
      SkipSpacesIs(s, i + 1, j);
    }
  }

  /** Split cuts s into its whitespace-free pieces, in order, at each
      maximal whitespace run. */
  lemma {:induction false} SplitSeparated(s: string)
    ensures Separated(s, Split(s))
    decreases |s|
  {
    var i := FirstSpace(s);
    var parts := Split(s);
    if i == |s| {
      assert s[..i] == s;
    } else {
      var j := SkipSpaces(s, i);
      assert parts == [s[..i]] + Split(s[j..]);
      assert SeparatorEnd(s, i, j);
      SplitSeparated(s[j..]);
      assert parts[1..] == Split(s[j..]);
    }
  }

  /** Conversely, pieces that make up s in that way are its split. */
  lemma {:induction false} SeparatedSplit(s: string, parts: seq<string>)
    requires Separated(s, parts)
    ensures Split(s) == parts
    decreases |parts|
  {
    var n := |parts[0]|;
    if |parts| == 1 {
      FirstSpaceIs(s, |s|);
      assert s[..|s|] == s;
    } else {
      var j: nat :| SeparatorEnd(s, n, j) && Separated(s[j..], parts[1..]);
      assert s[n] == s[n..j][0];
      FirstSpaceIs(s, n);
      SkipSpacesIs(s, n, j);
      SeparatedSplit(s[j..], parts[1..]);
      assert Split(s) == [s[..n]] + Split(s[j..]);
    }
  }

  /** Pieces joined with single spaces. */
  function Join(parts: seq<string>): (s: string)
  {
    if |parts| == 0 then ""
    else if |parts| == 1 then parts[0]
    else parts[0] + " " + Join(parts[1..])
  }

  /** Index of the first element equal to x, if any. */
  function FindIndex(xs: seq<string>, x: string): (r: Option<nat>)
    ensures r.None? <==> x !in xs
    ensures r.Some? ==> r.value < |xs| && xs[r.value] == x && x !in xs[..r.value]
  {
    if xs == [] then None
    else if xs[0] == x then Some(0)
    else match FindIndex(xs[1..], x)
      case None => None
      case Some(k) =>
        assert xs[..k + 1] == [xs[0]] + xs[1..][..k];
        Some(k + 1)
  }

  /** The comment marker. */
  const Marker: string := "#"

  /** Positions 0 to 3 (command name and three arguments) never start a comment. */
  const FirstCommentIndex: nat := 4

  datatype ParsedLine =
    | Blank
    | Malformed
    | Command(tokens: seq<string>, comment: Option<string>)

  /** The tokenizer, after trimming and splitting: the words of a
      non-blank line. The tokens are a prefix of the words, all of them when
      there is no comment; with a comment, the first marker follows the
      tokens at position 4 or later, and the comment is the words after it
      joined by single spaces. */
  function ParseWords(parts: seq<string>): (r: ParsedLine)
    requires |parts| >= 1
    ensures r.Blank? <==> parts[0] == ""
    ensures r.Malformed? <==> parts[0] != "" && parts[0][0] == '#'
    ensures r.Command? ==> |r.tokens| >= 1 && r.tokens[0] != "" && r.tokens[0][0] != '#'
    ensures r.Command? && r.comment.None? ==> r.tokens == parts
    ensures r.Command? && r.comment.Some? ==>
      var k := |r.tokens|;
      && FirstCommentIndex <= k < |parts| && r.tokens == parts[..k]
      && parts[k] == Marker && Marker !in r.tokens
      && r.comment.value == Join(parts[k + 1..])
  {
    if parts[0] == "" then Blank
    else if parts[0][0] == '#' then Malformed
    else match FindIndex(parts, Marker)
      case None => Command(parts, None)
      case Some(k) =>
        if k < FirstCommentIndex then Command(parts, None)
        else Command(parts[..k], Some(Join(parts[k + 1..])))
  }

  /** The tokenizer. A command has at least one token, its first token
      does not start with the marker, and a line with a comment keeps at
      least four tokens, none of them the marker. */
  function ParseTokens(line: string): (r: ParsedLine)
    ensures r.Command? ==> |r.tokens| >= 1 && r.tokens[0] != "" && r.tokens[0][0] != '#'
    ensures r.Command? && r.comment.Some? ==> |r.tokens| >= FirstCommentIndex && Marker !in r.tokens
  {
    var trimmed := Trim(line);
    if trimmed == "" then Blank else ParseWords(Split(trimmed))
  }

  /** The whitespace-separated words of a line. */
  function Words(line: string): seq<string>
  {
    Split(Trim(line))
  }

  /** The words of a line are exactly the pieces that make up its trimmed
      text, separated by maximal whitespace runs. */
  lemma WordsAre(line: string, xs: seq<string>)
    ensures Words(line) == xs <==> Separated(Trim(line), xs)
  {
    SplitSeparated(Trim(line));
    if Separated(Trim(line), xs) {
      SeparatedSplit(Trim(line), xs);
    }
  }

  /** A whitespace run inside a string that ends in a non-space character
      stops before the end. */
  lemma {:induction false} SkipSpacesBeforeEnd(s: string, i: nat)
    requires i < |s| && !IsSpace(s[|s| - 1])
    ensures SkipSpaces(s, i) < |s|
    decreases |s| - i
  {
    if IsSpace(s[i]) {
      SkipSpacesBeforeEnd(s, i + 1);
    }
  }

  lemma {:induction false} SplitOfTrimmed(s: string)
    requires Trimmed(s) && s != []
    ensures forall k :: 0 <= k < |Split(s)| ==> Split(s)[k] != ""
    decreases |s|
  {
    var i := FirstSpace(s);
    if i < |s| {
      var j := SkipSpaces(s, i);
      SkipSpacesBeforeEnd(s, i);
      var rest := s[j..];
      assert rest[|rest| - 1] == s[|s| - 1];
      SplitOfTrimmed(rest);
      assert Split(s) == [s[..i]] + Split(rest);
    }
  }

  lemma {:induction false} JoinStart(xs: seq<string>)
    requires |xs| >= 1
    ensures |Join(xs)| >= |xs[0]| && Join(xs)[..|xs[0]|] == xs[0]
    ensures |xs| > 1 ==> Join(xs) == xs[0] + " " + Join(xs[1..])
  {
  }

  /** When the pieces hold no whitespace, the only whitespace in their join
      is the single spaces between them, one fewer than the pieces. */
  lemma {:induction false} JoinSeparators(xs: seq<string>)
    requires forall k :: 0 <= k < |xs| ==> NoSpace(xs[k])
    ensures forall i :: 0 <= i < |Join(xs)| && IsSpace(Join(xs)[i]) ==> Join(xs)[i] == ' '
    ensures |xs| >= 1 ==> |Join(xs)| + 1 == |xs| + SumLengths(xs)
    decreases |xs|
  {
    if |xs| > 1 {
      var t := Join(xs[1..]);
      JoinSeparators(xs[1..]);
      assert Join(xs) == xs[0] + " " + t;
      forall i | 0 <= i < |Join(xs)| && IsSpace(Join(xs)[i])
        ensures Join(xs)[i] == ' '
      {
        if i > |xs[0]| {
          assert Join(xs)[i] == t[i - |xs[0]| - 1];
        }
      }
    }
  }

  /** Total length of the pieces. */
  function SumLengths(xs: seq<string>): nat
  {
    if xs == [] then 0 else |xs[0]| + SumLengths(xs[1..])
  }

  /** Joining two non-empty lists of pieces joins their joins with one space. */
  lemma {:induction false} JoinAppend(a: seq<string>, b: seq<string>)
    requires |a| >= 1 && |b| >= 1
    ensures Join(a + b) == Join(a) + " " + Join(b)
    decreases |a|
  {
    if |a| > 1 {
      assert (a + b)[1..] == a[1..] + b;
      JoinAppend(a[1..], b);
    }
  }

  lemma {:induction false} FirstSpaceAfterWord(w: string, rest: string)
    requires NoSpace(w)
    ensures FirstSpace(w + " " + rest) == |w|
    decreases |w|
  {
    if w != [] {
      assert (w + " " + rest)[1..] == w[1..] + " " + rest;
      FirstSpaceAfterWord(w[1..], rest);
    }
  }

  /** A word, one space and a text starting with a non-space character
      split into the word and the pieces of that text. */
  lemma SplitAfterWord(w: string, rest: string)
    requires NoSpace(w) && rest != [] && !IsSpace(rest[0])
    ensures Split(w + " " + rest) == [w] + Split(rest)
  {
    var s := w + " " + rest;
    FirstSpaceAfterWord(w, rest);
    assert s[|w| + 1] == rest[0];
    assert SkipSpaces(s, |w| + 1) == |w| + 1;
    assert SkipSpaces(s, |w|) == |w| + 1;
    assert s[..|w|] == w;
    assert s[|w| + 1..] == rest;
  }

  /** Splitting the words of a comment back out of their joined text
      gives the words again. */
  lemma {:induction false} SplitJoin(xs: seq<string>)
    requires |xs| >= 1
    requires forall k :: 0 <= k < |xs| ==> xs[k] != "" && NoSpace(xs[k])
    ensures Split(Join(xs)) == xs
    decreases |xs|
  {
    if |xs| == 1 {
      assert FirstSpace(xs[0]) == |xs[0]|;
    } else {
      var tail := Join(xs[1..]);
      JoinStart(xs[1..]);
      assert tail[0] == xs[1][0];
      SplitAfterWord(xs[0], tail);
      SplitJoin(xs[1..]);
      assert Split(Join(xs)) == [xs[0]] + xs[1..];
    }
  }

  /** Blank lines are exactly the empty and all-whitespace ones. */
  lemma ParseBlank(line: string)
    ensures ParseTokens(line).Blank? <==> AllSpace(line)
  {
    var trimmed := Trim(line);
    if trimmed != "" {
      SplitOfTrimmed(trimmed);
    }
  }

  /** The first piece of a non-empty trimmed string is non-empty and starts
      with the string's first character. */
  lemma SplitHead(s: string)
    requires Trimmed(s) && s != []
    ensures Split(s)[0] != "" && Split(s)[0][0] == s[0]
  {
    assert FirstSpace(s) > 0;
    assert Split(s)[0] == s[..FirstSpace(s)];
  }

  /** A line is malformed exactly when its first non-whitespace character
      is the comment marker (so `#abc` is rejected as well as `#`). */
  lemma ParseMalformed(line: string)
    ensures ParseTokens(line).Malformed? <==> !AllSpace(line) && line[LeadingSpaces(line)] == '#'
  {
    var trimmed := Trim(line);
    if trimmed != "" {
      SplitHead(trimmed);
    }
  }

  /** The tokens of a parsed line are non-empty words without whitespace,
      the first of which does not start with the marker. */
  lemma ParseTokensWords(line: string)
    requires ParseTokens(line).Command?
    ensures var ts := ParseTokens(line).tokens;
      && |ts| >= 1
      && ts[0][0] != '#'
      && (forall k :: 0 <= k < |ts| ==> ts[k] != "" && NoSpace(ts[k]))
      && ts == Words(line)[..|ts|]
  {
    var trimmed := Trim(line);
    SplitOfTrimmed(trimmed);
  }

  /** Without a comment, the tokens are all the words of the line, and a
      standalone marker among them, if any, first occurs among the first four. */
  lemma ParseWithoutComment(line: string)
    requires ParseTokens(line).Command? && ParseTokens(line).comment.None?
    ensures var ts := ParseTokens(line).tokens;
      && ts == Words(line)
      && (Marker in ts ==> exists k :: 1 <= k < FirstCommentIndex && k < |ts| && ts[k] == Marker && Marker !in ts[..k])
  {
    var ts := ParseTokens(line).tokens;
    var trimmed := Trim(line);
    SplitOfTrimmed(trimmed);
    if Marker in ts {
      var k := FindIndex(ts, Marker).value;
      assert 0 < k < FirstCommentIndex;
    }
  }

  /** Cutting a list of words at a marker and splitting the joined words
      after it gives the list back. */
  lemma CutAtMarker(parts: seq<string>, k: nat)
    requires k < |parts| && parts[k] == Marker
    requires forall i :: 0 <= i < |parts| ==> parts[i] != "" && NoSpace(parts[i])
    ensures var c := Join(parts[k + 1..]);
      && (c == "" ==> parts == parts[..k] + [Marker])
      && (c != "" ==> parts == parts[..k] + [Marker] + Split(c))
  {
    var rest := parts[k + 1..];
    assert parts == parts[..k] + [Marker] + rest;
    if rest != [] {
      JoinEnds(rest);
      SplitJoin(rest);
    }
  }

  /** With a comment, the words of the line are the tokens, the marker and
      the words of the comment; the marker is the first one in the line and
      stands at position 4 or later. */
  lemma ParseWithComment(line: string)
    requires ParseTokens(line).Command? && ParseTokens(line).comment.Some?
    ensures var ts, c := ParseTokens(line).tokens, ParseTokens(line).comment.value;
      && |ts| >= FirstCommentIndex
      && Marker !in ts
      && c == Join(Words(line)[|ts| + 1..])
      && (c == "" ==> Words(line) == ts + [Marker])
      && (c != "" ==> Words(line) == ts + [Marker] + Split(c))
  {
    var trimmed := Trim(line);
    SplitOfTrimmed(trimmed);
    var parts := Split(trimmed);
    CutAtMarker(parts, FindIndex(parts, Marker).value);
  }

  lemma {:induction false} JoinEnds(xs: seq<string>)
    requires |xs| >= 1 && forall k :: 0 <= k < |xs| ==> xs[k] != ""
    ensures |Join(xs)| > 0
    ensures Join(xs)[0] == xs[0][0]
    ensures Join(xs)[|Join(xs)| - 1] == xs[|xs| - 1][|xs[|xs| - 1]| - 1]
    decreases |xs|
  {
    if |xs| > 1 {
      var tail := xs[1..];
      assert tail[|tail| - 1] == xs[|xs| - 1];
      JoinEnds(tail);
    }
  }

  /** Trimming a string without whitespace at either end changes nothing. */
  lemma TrimOfTrimmed(s: string)
    requires Trimmed(s)
    ensures Trim(s) == s
  {
    assert LeadingSpaces(s) == 0;
    assert s[0..] == s;
    assert TrailingSpaces(s) == 0;
  }

  /** The words of a line made by joining words with single spaces are
      those words. */
  lemma WordsOfJoin(xs: seq<string>)
    requires |xs| >= 1
    requires forall k :: 0 <= k < |xs| ==> xs[k] != "" && NoSpace(xs[k])
    ensures Trim(Join(xs)) == Join(xs)
    ensures Words(Join(xs)) == xs
  {
    JoinEnds(xs);
    TrimOfTrimmed(Join(xs));
    SplitJoin(xs);
  }

  lemma {:induction false} FindIndexOfFirst(xs: seq<string>, x: string, k: nat)
    requires k < |xs| && xs[k] == x && x !in xs[..k]
    ensures FindIndex(xs, x) == Some(k)
    decreases k
  {
    if k > 0 {
      assert xs[0] == xs[..k][0];
      assert xs[1..][..k - 1] == xs[..k][1..];
      FindIndexOfFirst(xs[1..], x, k - 1);
    }
  }

  /** A line made of given words is tokenized from those words. */
  lemma ParseOfJoin(xs: seq<string>)
    requires |xs| >= 1
    requires forall k :: 0 <= k < |xs| ==> xs[k] != "" && NoSpace(xs[k])
    ensures ParseTokens(Join(xs)) == ParseWords(xs)
  {
    JoinEnds(xs);
    WordsOfJoin(xs);
  }

  /** The converse of the lemmas above, for a line without a standalone
      marker: the line made of given words parses to all of them. */
  lemma ParseJoinedWithoutMarker(xs: seq<string>)
    requires |xs| >= 1
    requires forall k :: 0 <= k < |xs| ==> xs[k] != "" && NoSpace(xs[k])
    requires xs[0][0] != '#' && Marker !in xs
    ensures ParseTokens(Join(xs)) == Command(xs, None)
  {
    ParseOfJoin(xs);
  }

  /** Words whose first standalone marker is at position k. */
  lemma ParseWordsWithMarker(xs: seq<string>, k: nat)
    requires |xs| >= 1 && xs[0] != "" && xs[0][0] != '#'
    requires k < |xs| && xs[k] == Marker && Marker !in xs[..k]
    ensures ParseWords(xs) ==
      if k < FirstCommentIndex then Command(xs, None)
      else Command(xs[..k], Some(Join(xs[k + 1..])))
  {
    FindIndexOfFirst(xs, Marker, k);
  }

  /** The converse of the lemmas above, for a line whose first standalone
      marker is at position k: the marker is an ordinary token when k < 4,
      and otherwise splits the tokens from the comment. */
  lemma ParseJoinedWithMarker(xs: seq<string>, k: nat)
    requires |xs| >= 1
    requires forall i :: 0 <= i < |xs| ==> xs[i] != "" && NoSpace(xs[i])
    requires xs[0][0] != '#'
    requires k < |xs| && xs[k] == Marker && Marker !in xs[..k]
    ensures ParseTokens(Join(xs)) ==
      if k < FirstCommentIndex then Command(xs, None)
      else Command(xs[..k], Some(Join(xs[k + 1..])))
  {
    ParseOfJoin(xs);
    ParseWordsWithMarker(xs, k);
  }
}

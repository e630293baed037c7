/** The tokenizer's behaviour on the example lines of its unit tests, derived
    from the general lemmas of module Tokenizer. The small lemmas without a
    body only evaluate the joining of concrete words; each stands alone so
    that every literal is unfolded in a small proof context of its own. */
module TokenizerExamples {
  import opened Types
  import opened Tokenizer

  predicate WellFormedWords(xs: seq<string>)
  {
    |xs| >= 1 && xs[0] != "" && xs[0][0] != '#'
    && forall i :: 0 <= i < |xs| ==> xs[i] != "" && NoSpace(xs[i])
  }

  // "CREATE P1 10.00 MYR M01"

  lemma PlainLineWords(xs: seq<string>)
    requires xs == ["CREATE", "P1", "10.00", "MYR", "M01"]
    ensures WellFormedWords(xs) && Marker !in xs
  {}

  lemma PlainLineJoined()
    ensures Join(["CREATE", "P1", "10.00", "MYR", "M01"]) == "CREATE P1 10.00 MYR M01"
  {}

  /** A line without a marker keeps all its words and has no comment. */
  lemma PlainLine()
    ensures ParseTokens("CREATE P1 10.00 MYR M01")
         == Command(["CREATE", "P1", "10.00", "MYR", "M01"], None)
  {
    var xs := ["CREATE", "P1", "10.00", "MYR", "M01"];
    PlainLineWords(xs);
    PlainLineJoined();
    ParseJoinedWithoutMarker(xs);
  }

  // "AUTHORIZE P1 123 MYR # retry later"

  lemma CommentAfterFourWords(xs: seq<string>)
    requires xs == ["AUTHORIZE", "P1", "123", "MYR", "#", "retry", "later"]
    ensures WellFormedWords(xs) && xs[4] == Marker && Marker !in xs[..4]
    ensures xs[..4] == ["AUTHORIZE", "P1", "123", "MYR"] && xs[5..] == ["retry", "later"]
  {}

  lemma CommentAfterFourHead()
    ensures Join(["AUTHORIZE", "P1", "123", "MYR"]) == "AUTHORIZE P1 123 MYR"
  {}

  lemma CommentAfterFourTail()
    ensures Join(["#", "retry", "later"]) == "# retry later"
  {}

  lemma CommentAfterFourText()
    ensures "AUTHORIZE P1 123 MYR" + " " + "# retry later" == "AUTHORIZE P1 123 MYR # retry later"
  {}

  lemma CommentAfterFourJoined(xs: seq<string>)
    requires xs == ["AUTHORIZE", "P1", "123", "MYR", "#", "retry", "later"]
    ensures Join(xs) == "AUTHORIZE P1 123 MYR # retry later"
  {
    assert xs == ["AUTHORIZE", "P1", "123", "MYR"] + ["#", "retry", "later"];
    JoinAppend(["AUTHORIZE", "P1", "123", "MYR"], ["#", "retry", "later"]);
    CommentAfterFourHead();
    CommentAfterFourTail();
    CommentAfterFourText();
  }

  lemma RetryLaterJoined()
    ensures Join(["retry", "later"]) == "retry later"
  {}

  /** A marker at position 4 starts a comment; it and the words after it
      leave the tokens. */
  lemma CommentAfterFour()
    ensures ParseTokens("AUTHORIZE P1 123 MYR # retry later")
         == Command(["AUTHORIZE", "P1", "123", "MYR"], Some("retry later"))
  {
    var xs := ["AUTHORIZE", "P1", "123", "MYR", "#", "retry", "later"];
    CommentAfterFourWords(xs);
    CommentAfterFourJoined(xs);
    RetryLaterJoined();
    ParseJoinedWithMarker(xs, 4);
  }

  // "CREATE # P1 10.00 MYR"

  lemma MarkerAsArgumentWords(xs: seq<string>)
    requires xs == ["CREATE", "#", "P1", "10.00", "MYR"]
    ensures WellFormedWords(xs) && xs[1] == Marker && Marker !in xs[..1]
  {}

  lemma MarkerAsArgumentJoined()
    ensures Join(["CREATE", "#", "P1", "10.00", "MYR"]) == "CREATE # P1 10.00 MYR"
  {}

  /** A marker at position 1 is an ordinary argument: nothing is stripped. */
  lemma MarkerAsArgument()
    ensures ParseTokens("CREATE # P1 10.00 MYR")
         == Command(["CREATE", "#", "P1", "10.00", "MYR"], None)
  {
    var xs := ["CREATE", "#", "P1", "10.00", "MYR"];
    MarkerAsArgumentWords(xs);
    MarkerAsArgumentJoined();
    ParseJoinedWithMarker(xs, 1);
  }

  // "SETTLE P99 IDK YES # settlement batch"

  lemma SettleCommentWords(xs: seq<string>)
    requires xs == ["SETTLE", "P99", "IDK", "YES", "#", "settlement", "batch"]
    ensures WellFormedWords(xs) && xs[4] == Marker && Marker !in xs[..4]
    ensures xs[..4] == ["SETTLE", "P99", "IDK", "YES"] && xs[5..] == ["settlement", "batch"]
  {}

  lemma SettleCommentHead()
    ensures Join(["SETTLE", "P99", "IDK", "YES"]) == "SETTLE P99 IDK YES"
  {}

  lemma SettleCommentTail()
    ensures Join(["#", "settlement", "batch"]) == "# settlement batch"
  {}

  lemma SettleCommentText()
    ensures "SETTLE P99 IDK YES" + " " + "# settlement batch" == "SETTLE P99 IDK YES # settlement batch"
  {}

  lemma SettleCommentJoined(xs: seq<string>)
    requires xs == ["SETTLE", "P99", "IDK", "YES", "#", "settlement", "batch"]
    ensures Join(xs) == "SETTLE P99 IDK YES # settlement batch"
  {
    assert xs == ["SETTLE", "P99", "IDK", "YES"] + ["#", "settlement", "batch"];
    JoinAppend(["SETTLE", "P99", "IDK", "YES"], ["#", "settlement", "batch"]);
    SettleCommentHead();
    SettleCommentTail();
    SettleCommentText();
  }

  lemma SettlementBatchJoined()
    ensures Join(["settlement", "batch"]) == "settlement batch"
  {}

  /** Four words before the marker stay tokens; the rest is the comment. */
  lemma SettleComment()
    ensures ParseTokens("SETTLE P99 IDK YES # settlement batch")
         == Command(["SETTLE", "P99", "IDK", "YES"], Some("settlement batch"))
  {
    var xs := ["SETTLE", "P99", "IDK", "YES", "#", "settlement", "batch"];
    SettleCommentWords(xs);
    SettleCommentJoined(xs);
    SettlementBatchJoined();
    ParseJoinedWithMarker(xs, 4);
  }

  /** A line starting with the marker is malformed. */
  lemma LeadingMarker()
    ensures ParseTokens("# CREATE P1") == Malformed
  {
    var line := "# CREATE P1";
    assert line[0] == '#' && !IsSpace(line[0]);
    ParseMalformed(line);
  }

  /** A whitespace-only line is blank, not an error. */
  lemma WhitespaceOnly()
    ensures ParseTokens("   ") == Blank
  {
    ParseBlank("   ");
  }
}

/** When stripping a stripped text changes nothing: exactly when no two commas in a row came before a closer. */
module JsoncTwice {
  import opened Jsonc

  /** Past white space a comma follows, and past more white space a closer. */
  predicate CommaThenCloses(s: string) {
    s != "" && if IsSpace(s[0]) then CommaThenCloses(s[1..]) else s[0] == ',' && ClosesNext(s[1..])
  }

  /** Outside strings, two commas with only white space between and after them stand before a closer. */
  predicate Doubled(s: string)
    decreases |s|
  {
    s != "" &&
    if s[0] == '"' then Doubled(s[StringLength(s)..])
    else (s[0] == ',' && CommaThenCloses(s[1..])) || Doubled(s[1..])
  }

  /** No comment starts outside strings. */
  predicate CommentFree(s: string)
    decreases |s|
  {
    if s == "" then true
    else if s[0] == '"' then CommentFree(s[StringLength(s)..])
    else !StartsLine(s) && !StartsBlock(s) && CommentFree(s[1..])
  }

  lemma {:induction false} CommentFreeIsKept(s: string)
    requires CommentFree(s)
    ensures WithoutComments(s) == s
    decreases |s|
  {
    if s != "" {
      CommentFreeIsKept(s[(if s[0] == '"' then StringLength(s) else 1)..]);
    }
  }

  /** A literal in front of a text is the literal of the whole. */
  lemma LiteralInFront(s: string, t: string)
    requires s != "" && s[0] == '"' && (StringLength(s) == |s| ==> t == "")
    ensures var w := s[..StringLength(s)] + t;
      w != "" && w[0] == '"' && StringLength(w) == StringLength(s) && w[StringLength(w)..] == t
      && w[..StringLength(w)] == s[..StringLength(s)]
  {
    LengthAgain(s, StringLength(s), t);
  }

  /** The first pass leaves no comment: the character after a slash it keeps is kept too. */
  lemma {:induction false} FirstPassIsCommentFree(s: string)
    ensures CommentFree(WithoutComments(s))
    decreases |s|
  {
    if s == "" {
    } else if s[0] == '"' {
      FirstPassIsCommentFree(s[StringLength(s)..]);
      LiteralInFront(s, WithoutComments(s[StringLength(s)..]));
    } else if StartsLine(s) {
      FirstPassIsCommentFree(s[2 + LineLength(s[2..])..]);
    } else if StartsBlock(s) {
      FirstPassIsCommentFree(s[2 + BlockRest(s[2..])..]);
    } else {
      FirstPassIsCommentFree(s[1..]);
      FirstPassKeepsHead(s[1..]);
      assert WithoutComments(s)[1..] == WithoutComments(s[1..]);
    }
  }

  lemma FirstPassKeepsHead(s: string)
    ensures s == "" ==> WithoutComments(s) == ""
    ensures s != "" && s[0] != '/' ==> WithoutComments(s) != "" && WithoutComments(s)[0] == s[0]
  {
  }

  /** What the second pass puts in front is what was there, or what followed a deleted comma. */
  lemma SecondPassHead(s: string)
    ensures WithoutTrailingCommas(s) != "" ==>
              var c := WithoutTrailingCommas(s)[0];
              s != "" && (c == s[0] || (s[0] == ',' && (IsSpace(c) || IsCloser(c))))
  {
  }

  lemma {:induction false} SecondPassIsCommentFree(s: string)
    requires CommentFree(s)
    ensures CommentFree(WithoutTrailingCommas(s))
    decreases |s|
  {
    if s == "" {
    } else if s[0] == '"' {
      SecondPassIsCommentFree(s[StringLength(s)..]);
      LiteralInFront(s, WithoutTrailingCommas(s[StringLength(s)..]));
    } else {
      SecondPassIsCommentFree(s[1..]);
      SecondPassHead(s[1..]);
      if !(s[0] == ',' && ClosesNext(s[1..])) {
        assert WithoutTrailingCommas(s)[1..] == WithoutTrailingCommas(s[1..]);
      }
    }
  }

  lemma {:induction false} NeverLonger(s: string)
    ensures |WithoutTrailingCommas(s)| <= |s|
    decreases |s|
  {
    if s != "" {
      NeverLonger(s[(if s[0] == '"' then StringLength(s) else 1)..]);
    }
  }

  /** After the second pass a closer comes next if one did before, or only a deleted comma was in between. */
  lemma {:induction false} ClosesAfterSecondPass(s: string)
    ensures ClosesNext(WithoutTrailingCommas(s)) <==> ClosesNext(s) || CommaThenCloses(s)
    decreases |s|
  {
    if s == "" {
    } else if s[0] == '"' {
      assert WithoutTrailingCommas(s)[0] == '"';
    } else {
      ClosesAfterSecondPass(s[1..]);
      if s[0] == ',' && ClosesNext(s[1..]) {
        assert WithoutTrailingCommas(s) == WithoutTrailingCommas(s[1..]);
      } else {
        assert WithoutTrailingCommas(s)[1..] == WithoutTrailingCommas(s[1..]);
      }
    }
  }

  lemma {:induction false} ClosingIsNotComma(s: string)
    ensures !(ClosesNext(s) && CommaThenCloses(s))
  {
    if s != "" {
      ClosingIsNotComma(s[1..]);
    }
  }

  /** The second pass is its own fixpoint exactly when it met no doubled comma. */
  lemma {:induction false} SecondPassTwiceIff(s: string)
    ensures WithoutTrailingCommas(WithoutTrailingCommas(s)) == WithoutTrailingCommas(s) <==> !Doubled(s)
    decreases |s|
  {
    var w := WithoutTrailingCommas(s);
    if s == "" {
    } else if s[0] == '"' {
      var t := WithoutTrailingCommas(s[StringLength(s)..]);
      SecondPassTwiceIff(s[StringLength(s)..]);
      LiteralInFront(s, t);
      assert WithoutTrailingCommas(w) == s[..StringLength(s)] + WithoutTrailingCommas(t);
    } else {
      SecondPassTwiceIff(s[1..]);
      ClosingIsNotComma(s[1..]);
      if !(s[0] == ',' && ClosesNext(s[1..])) {
        KeptCharacter(s[0], s[1..]);
      }
    }
  }

  lemma KeptCharacter(c: char, rest: string)
    requires c != '"' && !(c == ',' && ClosesNext(rest))
    ensures var t := WithoutTrailingCommas(rest); var w := [c] + t;
      WithoutTrailingCommas(w) == w <==> !(c == ',' && CommaThenCloses(rest)) && WithoutTrailingCommas(t) == t
  {
    var t := WithoutTrailingCommas(rest);
    var w := [c] + t;
    assert w[1..] == t;
    ClosesAfterSecondPass(rest);
    NeverLonger(t);
    if c == ',' && CommaThenCloses(rest) {
      assert |WithoutTrailingCommas(w)| < |w|;
    } else {
      assert WithoutTrailingCommas(w) == [c] + WithoutTrailingCommas(t);
      assert WithoutTrailingCommas(w)[1..] == WithoutTrailingCommas(t);
    }
  }

  /**
    Stripping again changes nothing exactly when, comments aside, no two commas outside strings
    stand before one closer.
   */
  lemma StrippedTwiceIff(text: string)
    ensures Stripped(Stripped(text)) == Stripped(text) <==> !Doubled(WithoutComments(text))
  {
    FirstPassIsCommentFree(text);
    SecondPassIsCommentFree(WithoutComments(text));
    CommentFreeIsKept(Stripped(text));
    SecondPassTwiceIff(WithoutComments(text));
  }
}

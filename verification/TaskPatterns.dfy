/** What a reference's wildcards stand for, and which namespace a relative reference belongs to. */
module TaskPatterns {
  import opened TaskGraph

  /** The texts that one piece of a pattern stands for. */
  predicate StandsFor(piece: Piece, part: string) {
    match piece
    case Literal(c) => part == [c]
    case Star => forall i :: 0 <= i < |part| ==> !LineEnd(part[i])
    case Colonless => ':' !in part
    case Ellipsis => part == "" || (|part| >= 2 && part[0] == '/' && ':' !in part[1..])
  }

  function Joined(parts: seq<string>): string {
    if parts == [] then "" else parts[0] + Joined(parts[1..])
  }

  ghost predicate Spells(pieces: seq<Piece>, parts: seq<string>, name: string) {
    |parts| == |pieces| && Joined(parts) == name && forall i :: 0 <= i < |pieces| ==> StandsFor(pieces[i], parts[i])
  }

  lemma SpellFirst(pieces: seq<Piece>, part: string, parts: seq<string>, rest: string)
    requires pieces != [] && StandsFor(pieces[0], part) && Spells(pieces[1..], parts, rest)
    ensures Spells(pieces, [part] + parts, part + rest)
  {
    forall i | 0 <= i < |pieces| ensures StandsFor(pieces[i], ([part] + parts)[i]) {
      assert i > 0 ==> StandsFor(pieces[1..][i - 1], parts[i - 1]);
    }
    assert ([part] + parts)[1..] == parts;
  }

  lemma SpellRest(pieces: seq<Piece>, parts: seq<string>, name: string)
    requires pieces != [] && Spells(pieces, parts, name)
    ensures parts != [] && StandsFor(pieces[0], parts[0]) && name == parts[0] + Joined(parts[1..])
    ensures Spells(pieces[1..], parts[1..], Joined(parts[1..]))
  {
    forall i | 0 <= i < |pieces| - 1 ensures StandsFor(pieces[1..][i], parts[1..][i]) {
      assert StandsFor(pieces[i + 1], parts[i + 1]);
    }
  }

  /** A first part that is longer in front. */
  lemma SpellLonger(pieces: seq<Piece>, first: Piece, front: string, parts: seq<string>, name: string)
    requires pieces != [] && Spells([first] + pieces[1..], parts, name)
    requires parts != [] && StandsFor(pieces[0], front + parts[0])
    ensures Spells(pieces, [front + parts[0]] + parts[1..], front + name)
  {
    var others := [first] + pieces[1..];
    SpellRest(others, parts, name);
    assert others[1..] == pieces[1..];
    var rest := Joined(parts[1..]);
    SpellFirst(pieces, front + parts[0], parts[1..], rest);
    assert front + parts[0] + rest == front + (parts[0] + rest);
  }

  lemma {:induction false} MatchIsSpelled(pieces: seq<Piece>, name: string) returns (parts: seq<string>)
    requires Matches(pieces, name)
    ensures Spells(pieces, parts, name)
    decreases |name|, |pieces|
  {
    if pieces == [] {
      parts := [];
    } else if pieces[0].Literal? {
      var rest := MatchIsSpelled(pieces[1..], name[1..]);
      SpellFirst(pieces, [name[0]], rest, name[1..]);
      assert [name[0]] + name[1..] == name;
      parts := [[name[0]]] + rest;
    } else if Matches(pieces[1..], name) {
      var rest := MatchIsSpelled(pieces[1..], name);
      SpellFirst(pieces, "", rest, name);
      assert "" + name == name;
      parts := [""] + rest;
    } else if pieces[0].Ellipsis? {
      var front := name[..2];
      var rest := MatchIsSpelled([Colonless] + pieces[1..], name[2..]);
      SpellRest([Colonless] + pieces[1..], rest, name[2..]);
      assert (front + rest[0])[1..] == [name[1]] + rest[0];
      SpellLonger(pieces, Colonless, front, rest, name[2..]);
      assert front + name[2..] == name;
      parts := [front + rest[0]] + rest[1..];
    } else {
      var rest := MatchIsSpelled(pieces, name[1..]);
      assert [pieces[0]] + pieces[1..] == pieces;
      SpellRest(pieces, rest, name[1..]);
      SpellLonger(pieces, pieces[0], [name[0]], rest, name[1..]);
      assert [name[0]] + name[1..] == name;
      parts := [[name[0]] + rest[0]] + rest[1..];
    }
  }

  lemma SpellInstead(pieces: seq<Piece>, first: Piece, part: string, parts: seq<string>, rest: string)
    requires pieces != [] && StandsFor(first, part) && Spells(pieces[1..], parts, rest)
    ensures Spells([first] + pieces[1..], [part] + parts, part + rest)
  {
    assert ([first] + pieces[1..])[1..] == pieces[1..];
    SpellFirst([first] + pieces[1..], part, parts, rest);
  }

  lemma {:induction false} SpelledMatches(pieces: seq<Piece>, parts: seq<string>, name: string)
    requires Spells(pieces, parts, name)
    ensures Matches(pieces, name)
    decreases |name|, |pieces|
  {
    if pieces != [] {
      var part, rest := parts[0], Joined(parts[1..]);
      SpellRest(pieces, parts, name);
      if part == "" {
        assert name == rest;
        SpelledMatches(pieces[1..], parts[1..], rest);
      } else if pieces[0].Literal? {
        assert name[1..] == rest;
        SpelledMatches(pieces[1..], parts[1..], rest);
      } else if pieces[0].Ellipsis? {
        assert part[1..][0] == part[1] && part[1..][1..] == part[2..] && name[2..] == part[2..] + rest;
        SpellInstead(pieces, Colonless, part[2..], parts[1..], rest);
        SpelledMatches([Colonless] + pieces[1..], [part[2..]] + parts[1..], name[2..]);
      } else {
        assert name[1..] == part[1..] + rest && [pieces[0]] + pieces[1..] == pieces;
        SpellInstead(pieces, pieces[0], part[1..], parts[1..], rest);
        SpelledMatches(pieces, [part[1..]] + parts[1..], name[1..]);
      }
    }
  }

  /** A name matches exactly when it can be cut into one text for each piece. */
  lemma MatchesIff(pieces: seq<Piece>, name: string)
    ensures Matches(pieces, name) <==> exists parts :: Spells(pieces, parts, name)
  {
    if Matches(pieces, name) {
      var parts := MatchIsSpelled(pieces, name);
    }
    if parts :| Spells(pieces, parts, name) {
      SpelledMatches(pieces, parts, name);
    }
  }

  // ----- patterns as they are written -----

  /** A text without wildcards. */
  ghost predicate Plain(text: string) {
    '*' !in text && forall i :: 0 <= i <= |text| ==> !("/..." <= text[i..])
  }

  function Literals(text: string): seq<Piece> {
    if text == "" then [] else [Literal(text[0])] + Literals(text[1..])
  }

  /** The pattern goes on with a wildcard, or ends. */
  predicate WildcardNext(rest: string) {
    rest == "" || rest[0] == '*' || "/..." <= rest
  }

  /** A wildcard does not begin inside the plain text before another. */
  lemma PlainUpTo(text: string, rest: string)
    requires Plain(text) && text != "" && WildcardNext(rest)
    ensures !("/..." <= text + rest)
  {
    var w := text + rest;
    assert text[0..] == text;
    assert |text| >= 4 ==> w[..4] == text[..4];
    assert rest != "" ==> w[|text|] == rest[0];
    assert "/..."[1] == '.' && "/..."[2] == '.' && "/..."[3] == '.';
  }

  lemma PlainTail(text: string)
    requires Plain(text) && text != ""
    ensures Plain(text[1..])
  {
    forall i | 0 <= i <= |text| - 1 ensures !("/..." <= text[1..][i..]) {
      assert text[1..][i..] == text[i + 1..];
    }
  }

  lemma LiteralPiece(pattern: string, c: char, rest: string)
    requires pattern == [c] + rest && c != '*' && !("/..." <= pattern)
    ensures Pieces(pattern) == [Literal(c)] + Pieces(rest)
  {
    assert pattern[1..] == rest;
  }

  lemma StarPiece(rest: string)
    ensures Pieces("*" + rest) == [Star] + Pieces(rest)
  {
    assert ("*" + rest)[1..] == rest && ("*" + rest)[0] == '*';
  }

  lemma EllipsisPiece(rest: string)
    ensures Pieces("/..." + rest) == [Ellipsis] + Pieces(rest)
  {
    assert ("/..." + rest)[4..] == rest;
  }

  lemma HeadFirst(text: string, rest: string)
    requires text != ""
    ensures text + rest == [text[0]] + (text[1..] + rest)
  {
  }

  lemma PrependPiece(first: Piece, front: seq<Piece>, back: seq<Piece>)
    ensures [first] + (front + back) == [first] + front + back
  {
  }

  lemma {:induction false} PlainPieces(text: string, rest: string, after: seq<Piece>)
    requires Plain(text) && WildcardNext(rest) && Pieces(rest) == after
    ensures Pieces(text + rest) == Literals(text) + after
  {
    if text == "" {
      assert text + rest == rest;
    } else {
      PlainUpTo(text, rest);
      PlainTail(text);
      HeadFirst(text, rest);
      LiteralPiece(text + rest, text[0], text[1..] + rest);
      PlainPieces(text[1..], rest, after);
      PrependPiece(Literal(text[0]), Literals(text[1..]), after);
    }
  }

  /** A pattern is read as its plain texts with its wildcards between them. */
  lemma PatternIsRead(text: string, rest: string)
    requires Plain(text)
    ensures Pieces(text) == Literals(text)
    ensures Pieces(text + ("*" + rest)) == Literals(text) + ([Star] + Pieces(rest))
    ensures Pieces(text + ("/..." + rest)) == Literals(text) + ([Ellipsis] + Pieces(rest))
  {
    PlainPieces(text, "", []);
    assert text + "" == text;
    StarPiece(rest);
    PlainPieces(text, "*" + rest, [Star] + Pieces(rest));
    EllipsisPiece(rest);
    PlainPieces(text, "/..." + rest, [Ellipsis] + Pieces(rest));
  }

  lemma {:induction false} UpToFirstColon(space: string, task: string)
    requires ':' !in space
    ensures UpToColon(space + ":" + task) == space
  {
    if space == "" {
      assert (space + ":" + task)[0] == ':';
    } else {
      UpToFirstColon(space[1..], task);
      assert (space + ":" + task)[1..] == space[1..] + ":" + task;
    }
  }

  /** A relative reference names a task of its owner's own namespace, with or without its colon; an absolute one stands. */
  lemma RelativeIsOwn(space: string, task: string, reference: string)
    requires ':' !in space
    ensures Absolute(":" + reference, space + ":" + task) == space + ":" + reference
    ensures !("//" <= reference) && !(":" <= reference) ==> Absolute(reference, space + ":" + task) == space + ":" + reference
    ensures Absolute("//" + reference, space + ":" + task) == "//" + reference
  {
    UpToFirstColon(space, task);
    assert (space + ":" + task)[|space|] == ':';
    assert (":" + reference)[1..] == reference;
  }
}

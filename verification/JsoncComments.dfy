/**
  What stripping is for: a JSON text with comments in its white space and a comma after its last elements
  is stripped to that JSON text.
*/
module JsoncComments {
  import opened Jsonc
  import opened Wrappers

  // ----- where comments end -----

  predicate HasStarSlash(s: string) {
    exists i :: 0 <= i < |s| - 1 && s[i] == '*' && s[i + 1] == '/'
  }

  lemma {:induction false} LineEndsAtLineFeed(line: string, rest: string)
    requires '\n' !in line
    ensures LineLength(line + ['\n'] + rest) == |line| && LineLength(line) == |line|
  {
    if line != "" {
      LineEndsAtLineFeed(line[1..], rest);
      assert (line + ['\n'] + rest)[1..] == line[1..] + ['\n'] + rest;
    }
  }

  lemma {:induction false} BlockEndsAtStarSlash(body: string, rest: string)
    requires !HasStarSlash(body)
    ensures BlockRest(body + ['*', '/'] + rest) == |body| + 2
  {
    var w := body + ['*', '/'] + rest;
    if body != "" {
      assert w[0] == body[0] && w[1] == if |body| == 1 then '*' else body[1];
      assert !(w[0] == '*' && w[1] == '/');
      forall i | 0 <= i < |body| - 2 ensures !(body[1..][i] == '*' && body[1..][i + 1] == '/') {
        assert body[1..][i] == body[i + 1] && body[1..][i + 1] == body[i + 2];
      }
      BlockEndsAtStarSlash(body[1..], rest);
      assert w[1..] == body[1..] + ['*', '/'] + rest;
    }
  }

  /** A line comment goes up to its line feed, which stays. */
  lemma LineCommentIsDropped(line: string, rest: string)
    requires '\n' !in line
    ensures WithoutComments(['/', '/'] + line + ['\n'] + rest) == ['\n'] + WithoutComments(rest)
  {
    var w := ['/', '/'] + line + ['\n'] + rest;
    LineEndsAtLineFeed(line, rest);
    assert w[2..] == line + ['\n'] + rest;
    assert w[2 + |line|..] == ['\n'] + rest;
    assert (['\n'] + rest)[1..] == rest;
  }

  /** A line comment that nothing ends goes up to the end of the text. */
  lemma LastLineIsDropped(line: string)
    requires '\n' !in line
    ensures WithoutComments(['/', '/'] + line) == ""
  {
    var w := ['/', '/'] + line;
    LineEndsAtLineFeed(line, "");
    assert w[2..] == line;
    assert w[2 + |line|..] == "";
  }

  /** A block comment goes up to its first star and slash, which go too. */
  lemma BlockCommentIsDropped(body: string, rest: string)
    requires !HasStarSlash(body)
    ensures WithoutComments(['/', '*'] + body + ['*', '/'] + rest) == WithoutComments(rest)
  {
    var w := ['/', '*'] + body + ['*', '/'] + rest;
    BlockEndsAtStarSlash(body, rest);
    assert w[2..] == body + ['*', '/'] + rest;
    assert w[2 + |body| + 2..] == rest;
  }

  lemma {:induction false} OpenBlockGoesOn(body: string)
    requires !HasStarSlash(body)
    ensures BlockRest(body) == |body|
  {
    if |body| >= 2 {
      forall i | 0 <= i < |body| - 2 ensures !(body[1..][i] == '*' && body[1..][i + 1] == '/') {
        assert body[1..][i] == body[i + 1] && body[1..][i + 1] == body[i + 2];
      }
      OpenBlockGoesOn(body[1..]);
    }
  }

  /** A block comment that nothing ends goes up to the end of the text. */
  lemma OpenBlockIsDropped(body: string)
    requires !HasStarSlash(body)
    ensures WithoutComments(['/', '*'] + body) == ""
  {
    var w := ['/', '*'] + body;
    OpenBlockGoesOn(body);
    assert w[2..] == body && w[2 + |body|..] == "";
  }

  /** JSON's own white space, of section 2 of RFC 8259, is white space to the stripper, and its punctuation is not. */
  lemma JsonSpaceIsSpace()
    ensures forall c :: c in [' ', '\t', '\n', '\r'] ==> IsSpace(c)
    ensures forall c :: c in ['[', ']', '{', '}', ':', ',', '"', '/'] ==> !IsSpace(c)
  {
  }

  // ----- JSON with comments and trailing commas -----

  /** What may stand where JSON has white space; a line comment with its line feed. */
  datatype Note = Blank(c: char) | Line(text: string) | Block(text: string)

  predicate NoteOk(n: Note) {
    match n
    case Blank(c) => IsSpace(c)
    case Line(text) => '\n' !in text
    case Block(text) => !HasStarSlash(text)
  }

  predicate NotesOk(notes: seq<Note>) {
    forall i :: 0 <= i < |notes| ==> NoteOk(notes[i])
  }

  /** A JSON value with notes for white space; a list's last element may be followed by a comma and more notes. */
  datatype Noted =
    | NotedToken(chars: string)
    | NotedText(items: seq<StringItem>)
    | NotedEmpty(open: char, inside: seq<Note>, close: char)
    | NotedArray(elements: NotedElements)
    | NotedObject(members: NotedMembers)

  datatype NotedPadded = NotedPadded(before: seq<Note>, value: Noted, after: seq<Note>)

  datatype NotedElements =
    | LastElement(element: NotedPadded, trailing: Option<seq<Note>>)
    | MoreElements(element: NotedPadded, rest: NotedElements)

  datatype NotedMember = NotedMember(before: seq<Note>, name: seq<StringItem>, after: seq<Note>, value: NotedPadded)

  datatype NotedMembers =
    | LastMember(member: NotedMember, trailing: Option<seq<Note>>)
    | MoreMembers(member: NotedMember, rest: NotedMembers)

  predicate NotedOk(v: Noted) {
    match v
    case NotedToken(chars) => chars != "" && forall i :: 0 <= i < |chars| ==> TokenChar(chars[i])
    case NotedText(items) => ItemsOk(items)
    case NotedEmpty(open, inside, close) =>
      ((open == '[' && close == ']') || (open == '{' && close == '}')) && NotesOk(inside)
    case NotedArray(elements) => NotedElementsOk(elements)
    case NotedObject(members) => NotedMembersOk(members)
  }

  predicate NotedPaddedOk(p: NotedPadded) {
    NotesOk(p.before) && NotedOk(p.value) && NotesOk(p.after)
  }

  predicate TrailingOk(trailing: Option<seq<Note>>) {
    trailing.Some? ==> NotesOk(trailing.value)
  }

  predicate NotedElementsOk(e: NotedElements) {
    NotedPaddedOk(e.element) && if e.MoreElements? then NotedElementsOk(e.rest) else TrailingOk(e.trailing)
  }

  predicate NotedMemberOk(m: NotedMember) {
    NotesOk(m.before) && ItemsOk(m.name) && NotesOk(m.after) && NotedPaddedOk(m.value)
  }

  predicate NotedMembersOk(m: NotedMembers) {
    NotedMemberOk(m.member) && if m.MoreMembers? then NotedMembersOk(m.rest) else TrailingOk(m.trailing)
  }

  // ----- as written, with its comments or without them -----

  function WriteNote(n: Note, comments: bool): string {
    match n
    case Blank(c) => [c]
    case Line(text) => if comments then ['/', '/'] + text + ['\n'] else ['\n']
    case Block(text) => if comments then ['/', '*'] + text + ['*', '/'] else ""
  }

  function WriteNotes(notes: seq<Note>, comments: bool): string {
    if notes == [] then "" else WriteNote(notes[0], comments) + WriteNotes(notes[1..], comments)
  }

  function WriteNoted(v: Noted, comments: bool): string {
    match v
    case NotedToken(chars) => chars
    case NotedText(items) => WriteText(items)
    case NotedEmpty(open, inside, close) => [open] + WriteNotes(inside, comments) + [close]
    case NotedArray(elements) => ['['] + (WriteNotedElements(elements, comments) + [']'])
    case NotedObject(members) => ['{'] + (WriteNotedMembers(members, comments) + ['}'])
  }

  function WriteNotedPadded(p: NotedPadded, comments: bool): string {
    WriteNotes(p.before, comments) + WriteNoted(p.value, comments) + WriteNotes(p.after, comments)
  }

  function WriteTrailing(trailing: Option<seq<Note>>, comments: bool): string {
    if trailing.None? then "" else [','] + WriteNotes(trailing.value, comments)
  }

  function WriteNotedElements(e: NotedElements, comments: bool): string {
    WriteNotedPadded(e.element, comments) +
    if e.MoreElements? then [','] + WriteNotedElements(e.rest, comments) else WriteTrailing(e.trailing, comments)
  }

  function WriteNotedMember(m: NotedMember, comments: bool): string {
    WriteNotes(m.before, comments) + WriteText(m.name) + WriteNotes(m.after, comments) + [':']
    + WriteNotedPadded(m.value, comments)
  }

  function WriteNotedMembers(m: NotedMembers, comments: bool): string {
    WriteNotedMember(m.member, comments) +
    if m.MoreMembers? then [','] + WriteNotedMembers(m.rest, comments) else WriteTrailing(m.trailing, comments)
  }

  // ----- the JSON it stands for -----

  /** The white space that is left of the notes: blanks, and the line feeds of line comments. */
  function Blanks(notes: seq<Note>): string {
    WriteNotes(notes, false)
  }

  function TrailingBlanks(trailing: Option<seq<Note>>): string {
    if trailing.None? then "" else Blanks(trailing.value)
  }

  function Plainly(v: Noted): Value {
    match v
    case NotedToken(chars) => Token(chars)
    case NotedText(items) => Text(items)
    case NotedEmpty(open, inside, close) => Empty(open, Blanks(inside), close)
    case NotedArray(elements) => Array(PlainElements(elements))
    case NotedObject(members) => Object(PlainMembers(members))
  }

  function PlainPadded(p: NotedPadded, more: string): Padded {
    Padded(Blanks(p.before), Plainly(p.value), Blanks(p.after) + more)
  }

  function PlainElements(e: NotedElements): Elements {
    if e.MoreElements? then More(PlainPadded(e.element, ""), PlainElements(e.rest))
    else One(PlainPadded(e.element, TrailingBlanks(e.trailing)))
  }

  function PlainMember(m: NotedMember, more: string): Member {
    Member(Blanks(m.before), m.name, Blanks(m.after), PlainPadded(m.value, more))
  }

  function PlainMembers(m: NotedMembers): Members {
    if m.MoreMembers? then Further(PlainMember(m.member, ""), PlainMembers(m.rest))
    else Single(PlainMember(m.member, TrailingBlanks(m.trailing)))
  }

  // ----- what the two passes make of a piece -----

  /** Whatever follows, the first pass makes `t` of `w`, and the second makes `j` of that. */
  ghost predicate Becomes(w: string, t: string, j: string) {
    forall u :: BecomesBefore(w, t, j, u)
  }

  predicate BecomesBefore(w: string, t: string, j: string, u: string) {
    && WithoutComments(w + u) == t + WithoutComments(u)
    && WithoutTrailingCommas(t + u) == j + WithoutTrailingCommas(u)
  }

  lemma BecomesConcat(w: string, t: string, j: string, w': string, t': string, j': string)
    requires Becomes(w, t, j) && Becomes(w', t', j')
    ensures Becomes(w + w', t + t', j + j')
  {
    forall u ensures BecomesBefore(w + w', t + t', j + j', u) {
      assert BecomesBefore(w', t', j', u) && BecomesBefore(w, t, j, w' + u) && BecomesBefore(w, t, j, t' + u);
      assert w + w' + u == w + (w' + u) && t + t' + u == t + (t' + u);
      Associate(t, t', WithoutComments(u));
      Associate(j, j', WithoutTrailingCommas(u));
    }
  }

  lemma CopiedBecomes(w: string)
    requires Copied(w)
    ensures Becomes(w, w, w)
  {
    forall u ensures BecomesBefore(w, w, w, u) {
      assert CopiedBefore(w, u);
    }
  }

  lemma NoteBecomes(n: Note)
    requires NoteOk(n)
    ensures Becomes(WriteNote(n, true), WriteNote(n, false), WriteNote(n, false)) && AllSpace(WriteNote(n, false))
  {
    match n
    case Blank(c) =>
      CopiedChar(c);
      CopiedBecomes([c]);
    case Line(text) =>
      forall u ensures BecomesBefore(WriteNote(n, true), ['\n'], ['\n'], u) {
        LineCommentIsDropped(text, u);
        assert (['\n'] + u)[1..] == u;
      }
    case Block(text) =>
      forall u: string ensures BecomesBefore(WriteNote(n, true), "", "", u) {
        BlockCommentIsDropped(text, u);
        assert "" + u == u;
      }
  }

  lemma {:induction false} NotesBecome(notes: seq<Note>)
    requires NotesOk(notes)
    ensures Becomes(WriteNotes(notes, true), Blanks(notes), Blanks(notes)) && AllSpace(Blanks(notes))
  {
    if notes == [] {
      forall u: string ensures BecomesBefore("", "", "", u) {
        assert "" + u == u;
      }
    } else {
      NoteBecomes(notes[0]);
      NotesBecome(notes[1..]);
      BecomesConcat(WriteNote(notes[0], true), WriteNote(notes[0], false), WriteNote(notes[0], false),
                    WriteNotes(notes[1..], true), Blanks(notes[1..]), Blanks(notes[1..]));
    }
  }

  lemma CommaBecomes(w: string, t: string, j: string)
    requires Becomes(w, t, j) && Opens(t)
    ensures Becomes([','] + w, [','] + t, [','] + j)
  {
    forall u ensures BecomesBefore([','] + w, [','] + t, [','] + j, u) {
      assert BecomesBefore(w, t, j, u) && OpensBefore(t, u);
      assert ([','] + w + u)[1..] == w + u && ([','] + t + u)[1..] == t + u;
      assert [','] + (t + WithoutComments(u)) == [','] + t + WithoutComments(u);
      assert [','] + (j + WithoutTrailingCommas(u)) == [','] + j + WithoutTrailingCommas(u);
    }
  }

  lemma {:induction false} ClosesAfterBlanks(blank: string, close: char, u: string)
    requires AllSpace(blank) && IsCloser(close)
    ensures ClosesNext(blank + [close] + u)
  {
    if blank == "" {
      assert (blank + [close] + u)[0] == close;
    } else {
      ClosesAfterBlanks(blank[1..], close, u);
      assert (blank + [close] + u)[1..] == blank[1..] + [close] + u;
    }
  }

  lemma DroppedComma(w: string, t: string, u: string)
    requires BecomesBefore(w, t, t, u) && ClosesNext(t + u)
    ensures BecomesBefore([','] + w, [','] + t, t, u)
  {
    Associate([','], w, u);
    Associate([','], t, u);
    Associate([','], t, WithoutComments(u));
    CommaIsCopied(w + u);
    CommaIsDropped(t + u);
  }

  lemma CommaIsCopied(rest: string)
    ensures WithoutComments([','] + rest) == [','] + WithoutComments(rest)
  {
    assert ([','] + rest)[1..] == rest;
  }

  lemma CommaIsDropped(rest: string)
    requires ClosesNext(rest)
    ensures WithoutTrailingCommas([','] + rest) == WithoutTrailingCommas(rest)
  {
    assert ([','] + rest)[1..] == rest;
  }

  /** A comma before nothing but notes and a closer is dropped with the comments. */
  lemma TrailingCommaBecomes(notes: seq<Note>, close: char)
    requires NotesOk(notes) && IsCloser(close)
    ensures Becomes([','] + WriteNotes(notes, true) + [close], [','] + Blanks(notes) + [close], Blanks(notes) + [close])
  {
    NotesBecome(notes);
    CopiedChar(close);
    CopiedBecomes([close]);
    var w, t := WriteNotes(notes, true) + [close], Blanks(notes) + [close];
    BecomesConcat(WriteNotes(notes, true), Blanks(notes), Blanks(notes), [close], [close], [close]);
    forall u ensures BecomesBefore([','] + w, [','] + t, t, u) {
      assert BecomesBefore(w, t, t, u);
      ClosesAfterBlanks(Blanks(notes), close, u);
      DroppedComma(w, t, u);
    }
    Associate([','], WriteNotes(notes, true), [close]);
    Associate([','], Blanks(notes), [close]);
  }

  /** Where a list ends: a comma and notes, or nothing, and the closer. */
  lemma EndBecomes(trailing: Option<seq<Note>>, close: char)
    requires TrailingOk(trailing) && IsCloser(close)
    ensures Becomes(WriteTrailing(trailing, true) + [close], WriteTrailing(trailing, false) + [close],
                    TrailingBlanks(trailing) + [close])
  {
    if trailing.Some? {
      TrailingCommaBecomes(trailing.value, close);
    } else {
      CopiedChar(close);
      CopiedBecomes([close]);
      assert "" + [close] == [close];
    }
  }

  // ----- values -----

  lemma {:induction false} NotedBecomes(v: Noted)
    requires NotedOk(v)
    ensures Becomes(WriteNoted(v, true), WriteNoted(v, false), Write(Plainly(v))) && Opens(WriteNoted(v, false))
    decreases v
  {
    match v
    case NotedToken(chars) =>
      ValueCopied(Token(chars));
      CopiedBecomes(chars);
    case NotedText(items) =>
      CopiedText(items);
      CopiedBecomes(WriteText(items));
    case NotedEmpty(open, inside, close) =>
      NotesBecome(inside);
      Enclosed(open, WriteNotes(inside, true), Blanks(inside), Blanks(inside), close);
    case NotedArray(elements) =>
      NotedElementsBecome(elements, ']');
      Wrapped('[', WriteNotedElements(elements, true) + [']'], WriteNotedElements(elements, false) + [']'],
              WriteElements(PlainElements(elements)) + [']']);
      assert ['['] + (WriteElements(PlainElements(elements)) + [']']) == Write(Plainly(v));
    case NotedObject(members) =>
      NotedMembersBecome(members, '}');
      Wrapped('{', WriteNotedMembers(members, true) + ['}'], WriteNotedMembers(members, false) + ['}'],
              WriteMembers(PlainMembers(members)) + ['}']);
      assert ['{'] + (WriteMembers(PlainMembers(members)) + ['}']) == Write(Plainly(v));
  }

  lemma Wrapped(open: char, w: string, t: string, j: string)
    requires (open == '[' || open == '{') && Becomes(w, t, j)
    ensures Becomes([open] + w, [open] + t, [open] + j) && Opens([open] + t)
  {
    CopiedChar(open);
    CopiedBecomes([open]);
    BecomesConcat([open], [open], [open], w, t, j);
    OpensChar(open, t);
  }

  lemma Enclosed(open: char, w: string, t: string, j: string, close: char)
    requires (open == '[' || open == '{') && IsCloser(close) && Becomes(w, t, j)
    ensures Becomes([open] + w + [close], [open] + t + [close], [open] + j + [close]) && Opens([open] + t + [close])
  {
    CopiedChar(close);
    CopiedBecomes([close]);
    BecomesConcat(w, t, j, [close], [close], [close]);
    Wrapped(open, w + [close], t + [close], j + [close]);
    assert [open] + (w + [close]) == [open] + w + [close] && [open] + (t + [close]) == [open] + t + [close];
    assert [open] + (j + [close]) == [open] + j + [close];
  }

  lemma {:induction false} NotedPaddedBecomes(p: NotedPadded)
    requires NotedPaddedOk(p)
    ensures Becomes(WriteNotedPadded(p, true), WriteNotedPadded(p, false), WritePadded(PlainPadded(p, "")))
    ensures Opens(WriteNotedPadded(p, false))
    decreases p
  {
    NotedBecomes(p.value);
    NotesBecome(p.before);
    NotesBecome(p.after);
    BecomesConcat(WriteNotes(p.before, true), Blanks(p.before), Blanks(p.before),
                  WriteNoted(p.value, true), WriteNoted(p.value, false), Write(Plainly(p.value)));
    BecomesConcat(WriteNotes(p.before, true) + WriteNoted(p.value, true), Blanks(p.before) + WriteNoted(p.value, false),
                  Blanks(p.before) + Write(Plainly(p.value)), WriteNotes(p.after, true), Blanks(p.after), Blanks(p.after));
    assert Blanks(p.after) + "" == Blanks(p.after);
    OpensAfterSpace(Blanks(p.before), WriteNoted(p.value, false));
    StillOpens(Blanks(p.before) + WriteNoted(p.value, false), Blanks(p.after));
  }

  /** More white space after the value. */
  lemma PlainPaddedMore(p: NotedPadded, more: string)
    ensures WritePadded(PlainPadded(p, more)) == WritePadded(PlainPadded(p, "")) + more
  {
    assert Blanks(p.after) + "" == Blanks(p.after);
    var front := Blanks(p.before) + Write(Plainly(p.value));
    assert front + (Blanks(p.after) + more) == front + Blanks(p.after) + more;
  }

  /** Elements with the bracket that closes them. */
  lemma {:induction false} NotedElementsBecome(e: NotedElements, close: char)
    requires NotedElementsOk(e) && IsCloser(close)
    ensures Becomes(WriteNotedElements(e, true) + [close], WriteNotedElements(e, false) + [close],
                    WriteElements(PlainElements(e)) + [close])
    ensures Opens(WriteNotedElements(e, false)) && Opens(WriteNotedElements(e, false) + [close])
    decreases e
  {
    var w, t := WriteNotedPadded(e.element, true), WriteNotedPadded(e.element, false);
    var j := WritePadded(PlainPadded(e.element, ""));
    NotedPaddedBecomes(e.element);
    if e.MoreElements? {
      var w', t' := WriteNotedElements(e.rest, true), WriteNotedElements(e.rest, false);
      var j' := WriteElements(PlainElements(e.rest));
      NotedElementsBecome(e.rest, close);
      CommaBecomes(w' + [close], t' + [close], j' + [close]);
      BecomesConcat(w, t, j, [','] + (w' + [close]), [','] + (t' + [close]), [','] + (j' + [close]));
      Regroup(w, w', close);
      Regroup(t, t', close);
      Regroup(j, j', close);
      StillOpens(t, [','] + t');
    } else {
      EndBecomes(e.trailing, close);
      BecomesConcat(w, t, j, WriteTrailing(e.trailing, true) + [close], WriteTrailing(e.trailing, false) + [close],
                    TrailingBlanks(e.trailing) + [close]);
      PlainPaddedMore(e.element, TrailingBlanks(e.trailing));
      Associate(w, WriteTrailing(e.trailing, true), [close]);
      Associate(t, WriteTrailing(e.trailing, false), [close]);
      Associate(j, TrailingBlanks(e.trailing), [close]);
      StillOpens(t, WriteTrailing(e.trailing, false));
      assert WriteElements(PlainElements(e)) == j + TrailingBlanks(e.trailing);
    }
    StillOpens(WriteNotedElements(e, false), [close]);
  }

  lemma Regroup(a: string, b: string, close: char)
    ensures a + ([','] + (b + [close])) == a + ([','] + b) + [close]
  {
  }

  lemma {:induction false} NotedMemberBecomes(m: NotedMember)
    requires NotedMemberOk(m)
    ensures Becomes(WriteNotedMember(m, true), WriteNotedMember(m, false), WriteMember(PlainMember(m, "")))
    ensures Opens(WriteNotedMember(m, false))
    decreases m
  {
    var name := WriteText(m.name);
    NotesBecome(m.before);
    CopiedText(m.name);
    CopiedBecomes(name);
    NotesBecome(m.after);
    CopiedChar(':');
    CopiedBecomes([':']);
    NotedPaddedBecomes(m.value);
    var b, a := Blanks(m.before), Blanks(m.after);
    var wb, wa := WriteNotes(m.before, true), WriteNotes(m.after, true);
    BecomesConcat(wb, b, b, name, name, name);
    BecomesConcat(wb + name, b + name, b + name, wa, a, a);
    BecomesConcat(wb + name + wa, b + name + a, b + name + a, [':'], [':'], [':']);
    BecomesConcat(wb + name + wa + [':'], b + name + a + [':'], b + name + a + [':'],
                  WriteNotedPadded(m.value, true), WriteNotedPadded(m.value, false), WritePadded(PlainPadded(m.value, "")));
    OpensAfterSpace(b, name);
    StillOpens(b + name, a);
    StillOpens(b + name + a, [':']);
    StillOpens(b + name + a + [':'], WriteNotedPadded(m.value, false));
  }

  lemma PlainMemberMore(m: NotedMember, more: string)
    ensures WriteMember(PlainMember(m, more)) == WriteMember(PlainMember(m, "")) + more
  {
    PlainPaddedMore(m.value, more);
    var front := Blanks(m.before) + WriteText(m.name) + Blanks(m.after) + [':'];
    Associate(front, WritePadded(PlainPadded(m.value, "")), more);
  }

  lemma {:induction false} NotedMembersBecome(m: NotedMembers, close: char)
    requires NotedMembersOk(m) && IsCloser(close)
    ensures Becomes(WriteNotedMembers(m, true) + [close], WriteNotedMembers(m, false) + [close],
                    WriteMembers(PlainMembers(m)) + [close])
    ensures Opens(WriteNotedMembers(m, false)) && Opens(WriteNotedMembers(m, false) + [close])
    decreases m
  {
    var w, t := WriteNotedMember(m.member, true), WriteNotedMember(m.member, false);
    var j := WriteMember(PlainMember(m.member, ""));
    NotedMemberBecomes(m.member);
    if m.MoreMembers? {
      var w', t' := WriteNotedMembers(m.rest, true), WriteNotedMembers(m.rest, false);
      var j' := WriteMembers(PlainMembers(m.rest));
      NotedMembersBecome(m.rest, close);
      CommaBecomes(w' + [close], t' + [close], j' + [close]);
      BecomesConcat(w, t, j, [','] + (w' + [close]), [','] + (t' + [close]), [','] + (j' + [close]));
      Regroup(w, w', close);
      Regroup(t, t', close);
      Regroup(j, j', close);
      StillOpens(t, [','] + t');
    } else {
      EndBecomes(m.trailing, close);
      BecomesConcat(w, t, j, WriteTrailing(m.trailing, true) + [close], WriteTrailing(m.trailing, false) + [close],
                    TrailingBlanks(m.trailing) + [close]);
      PlainMemberMore(m.member, TrailingBlanks(m.trailing));
      Associate(w, WriteTrailing(m.trailing, true), [close]);
      Associate(t, WriteTrailing(m.trailing, false), [close]);
      Associate(j, TrailingBlanks(m.trailing), [close]);
      StillOpens(t, WriteTrailing(m.trailing, false));
      assert WriteMembers(PlainMembers(m)) == j + TrailingBlanks(m.trailing);
    }
    StillOpens(WriteNotedMembers(m, false), [close]);
  }

  // ----- what is left is JSON -----

  lemma SpacesJoin(a: string, b: string)
    requires AllSpace(a) && AllSpace(b)
    ensures AllSpace(a + b)
  {
  }

  lemma {:induction false} PlainlyIsWritten(v: Noted)
    requires NotedOk(v)
    ensures Written(Plainly(v))
    decreases v
  {
    match v
    case NotedToken(_) =>
    case NotedText(_) =>
    case NotedEmpty(_, inside, _) => NotesBecome(inside);
    case NotedArray(elements) => PlainElementsOk(elements);
    case NotedObject(members) => PlainMembersOk(members);
  }

  lemma {:induction false} PlainPaddedOk(p: NotedPadded, more: string)
    requires NotedPaddedOk(p) && AllSpace(more)
    ensures PaddedOk(PlainPadded(p, more))
    decreases p
  {
    PlainlyIsWritten(p.value);
    NotesBecome(p.before);
    NotesBecome(p.after);
    SpacesJoin(Blanks(p.after), more);
  }

  lemma TrailingIsSpace(trailing: Option<seq<Note>>)
    requires TrailingOk(trailing)
    ensures AllSpace(TrailingBlanks(trailing))
  {
    if trailing.Some? {
      NotesBecome(trailing.value);
    }
  }

  lemma {:induction false} PlainElementsOk(e: NotedElements)
    requires NotedElementsOk(e)
    ensures ElementsOk(PlainElements(e))
    decreases e
  {
    if e.MoreElements? {
      PlainPaddedOk(e.element, "");
      PlainElementsOk(e.rest);
    } else {
      TrailingIsSpace(e.trailing);
      PlainPaddedOk(e.element, TrailingBlanks(e.trailing));
    }
  }

  lemma {:induction false} PlainMembersOk(m: NotedMembers)
    requires NotedMembersOk(m)
    ensures MembersOk(PlainMembers(m))
    decreases m
  {
    NotesBecome(m.member.before);
    NotesBecome(m.member.after);
    if m.MoreMembers? {
      PlainPaddedOk(m.member.value, "");
      PlainMembersOk(m.rest);
    } else {
      TrailingIsSpace(m.trailing);
      PlainPaddedOk(m.member.value, TrailingBlanks(m.trailing));
    }
  }

  /**
    A JSON text with comments for white space, a comma after the last element or member of any list, and
    perhaps a line comment that ends the text, is stripped to a JSON text: the one without all these.
   */
  lemma StrippedIsTheJson(p: NotedPadded, last: Option<string>)
    requires NotedPaddedOk(p) && (last.Some? ==> '\n' !in last.value)
    ensures PaddedOk(PlainPadded(p, ""))
    ensures Stripped(WriteNotedPadded(p, true) + if last.Some? then ['/', '/'] + last.value else "")
            == WritePadded(PlainPadded(p, ""))
  {
    PlainPaddedOk(p, "");
    NotedPaddedBecomes(p);
    var tail := if last.Some? then ['/', '/'] + last.value else "";
    if last.Some? {
      LastLineIsDropped(last.value);
    }
    var w, t, j := WriteNotedPadded(p, true), WriteNotedPadded(p, false), WritePadded(PlainPadded(p, ""));
    assert BecomesBefore(w, t, j, tail) && BecomesBefore(w, t, j, "");
    assert t + "" == t && j + "" == j;
  }
}

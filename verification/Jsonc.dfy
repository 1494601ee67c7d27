/**
  The one-pass JSONC stripper against its meaning in two passes: first delete the
  comments outside strings, then delete each comma outside strings whose next
  character that is not white space closes an array or object.
*/
module Jsonc {
  import opened Wrappers

  /** The `\s` class. */
  predicate IsSpace(c: char) {
    || '\t' <= c <= '\r' || c == ' ' || c == '\U{00A0}' || c == '\U{1680}' || '\U{2000}' <= c <= '\U{200A}'
    || c == '\U{2028}' || c == '\U{2029}' || c == '\U{202F}' || c == '\U{205F}' || c == '\U{3000}' || c == '\U{FEFF}'
  }

  predicate IsCloser(c: char) {
    c == ']' || c == '}'
  }

  /** How much of `s` the inside of a string literal takes, with its closing quote if it has one. */
  function StringRest(s: string): (n: nat)
    ensures n <= |s|
  {
    if s == "" then 0
    else if s[0] == '\\' then (if |s| == 1 then 1 else 2 + StringRest(s[2..]))
    else if s[0] == '"' then 1
    else 1 + StringRest(s[1..])
  }

  /** The length of the string literal that `s` starts with; an unterminated one runs to the end. */
  function StringLength(s: string): (n: nat)
    requires s != "" && s[0] == '"'
    ensures 0 < n <= |s|
  {
    1 + StringRest(s[1..])
  }

  /** The length up to the first line feed. */
  function LineLength(s: string): (n: nat)
    ensures n <= |s|
  {
    if s == "" || s[0] == '\n' then 0 else 1 + LineLength(s[1..])
  }

  /** The length up to and with the first star and slash. */
  function BlockRest(s: string): (n: nat)
    ensures n <= |s|
  {
    if |s| < 2 then |s| else if s[0] == '*' && s[1] == '/' then 2 else 1 + BlockRest(s[1..])
  }

  predicate StartsLine(s: string) {
    |s| >= 2 && s[0] == '/' && s[1] == '/'
  }

  predicate StartsBlock(s: string) {
    |s| >= 2 && s[0] == '/' && s[1] == '*'
  }

  /** The first pass. */
  function WithoutComments(s: string): string
    decreases |s|
  {
    if s == "" then ""
    else if s[0] == '"' then s[..StringLength(s)] + WithoutComments(s[StringLength(s)..])
    else if StartsLine(s) then WithoutComments(s[2 + LineLength(s[2..])..])
    else if StartsBlock(s) then WithoutComments(s[2 + BlockRest(s[2..])..])
    else [s[0]] + WithoutComments(s[1..])
  }

  /** Whether the next character that is not white space closes an array or object. */
  predicate ClosesNext(s: string) {
    s != "" && if IsSpace(s[0]) then ClosesNext(s[1..]) else IsCloser(s[0])
  }

  /** The second pass. */
  function WithoutTrailingCommas(s: string): string
    decreases |s|
  {
    if s == "" then ""
    else if s[0] == '"' then s[..StringLength(s)] + WithoutTrailingCommas(s[StringLength(s)..])
    else if s[0] == ',' && ClosesNext(s[1..]) then WithoutTrailingCommas(s[1..])
    else [s[0]] + WithoutTrailingCommas(s[1..])
  }

  function Stripped(text: string): string {
    WithoutTrailingCommas(WithoutComments(text))
  }

  // ----- the scan -----

  predicate AllSpace(s: string) {
    forall i :: 0 <= i < |s| ==> IsSpace(s[i])
  }

  /** The pending comma is in `out`, with only white space after it. */
  predicate PendingOk(out: string, pending: Option<nat>) {
    pending.Some? ==> pending.value < |out| && out[pending.value] == ',' && AllSpace(out[pending.value + 1..])
  }

  function WithoutAt(out: string, p: nat): string
    requires p < |out|
  {
    out[..p] + out[p + 1..]
  }

  /** What the scan will have written once the comment-free `tail` is read too. */
  function Outcome(out: string, pending: Option<nat>, tail: string): string
    requires PendingOk(out, pending)
  {
    if pending.Some? && ClosesNext(tail) then WithoutAt(out, pending.value) + WithoutTrailingCommas(tail)
    else out + WithoutTrailingCommas(tail)
  }

  lemma {:induction false} StringRestOfPrefix(s: string, u: string)
    requires StringRest(s) < |s|
    ensures StringRest(s[..StringRest(s)] + u) == StringRest(s)
  {
    var n := StringRest(s);
    if s[0] == '\\' {
      StringRestOfPrefix(s[2..], u);
      assert (s[..n] + u)[2..] == s[2..][..n - 2] + u;
    } else if s[0] != '"' {
      StringRestOfPrefix(s[1..], u);
      assert (s[..n] + u)[1..] == s[1..][..n - 1] + u;
    }
  }

  /** Another text after a literal leaves the literal's length as it is; an unterminated one has nothing after it. */
  lemma LengthAgain(s: string, n: nat, t: string)
    requires s != "" && s[0] == '"' && n == StringLength(s)
    requires n < |s| || t == ""
    ensures s[..n] + t != "" && (s[..n] + t)[0] == '"' && StringLength(s[..n] + t) == n
  {
    if n < |s| {
      StringRestOfPrefix(s[1..], t);
      assert (s[..n] + t)[1..] == s[1..][..n - 1] + t;
    } else {
      assert s[..n] + t == s;
    }
  }

  lemma LiteralFirst(w: string, n: nat)
    requires w != "" && w[0] == '"' && n == StringLength(w)
    ensures WithoutTrailingCommas(w) == w[..n] + WithoutTrailingCommas(w[n..])
    ensures !ClosesNext(w)
  {
  }

  /** A literal copied by the first pass is the same literal to the second. */
  lemma LiteralSurvives(s: string)
    requires s != "" && s[0] == '"'
    ensures var n := StringLength(s); var t := WithoutComments(s[n..]);
      && WithoutComments(s) == s[..n] + t
      && WithoutTrailingCommas(s[..n] + t) == s[..n] + WithoutTrailingCommas(t)
      && !ClosesNext(s[..n] + t)
  {
    var n := StringLength(s);
    var t := WithoutComments(s[n..]);
    LengthAgain(s, n, t);
    var w := s[..n] + t;
    LiteralFirst(w, n);
    assert w[..n] == s[..n] && w[n..] == t;
  }

  /** One plain character, as the scan handles it. */
  lemma CharacterStep(out: string, pending: Option<nat>, c: char, tail: string)
    requires PendingOk(out, pending) && c != '"'
    ensures IsCloser(c) && pending.Some? ==>
              Outcome(out, pending, [c] + tail) == Outcome(WithoutAt(out, pending.value) + [c], None, tail)
    ensures c == ',' ==> PendingOk(out + [c], Some(|out|))
                         && Outcome(out, pending, [c] + tail) == Outcome(out + [c], Some(|out|), tail)
    ensures IsSpace(c) ==> PendingOk(out + [c], pending)
                           && Outcome(out, pending, [c] + tail) == Outcome(out + [c], pending, tail)
    ensures c != ',' && !IsSpace(c) && (!IsCloser(c) || pending.None?) ==>
              Outcome(out, pending, [c] + tail) == Outcome(out + [c], None, tail)
  {
    assert ([c] + tail)[1..] == tail;
    var dropped := WithoutTrailingCommas(tail);
    assert (out + [c]) + dropped == out + ([c] + dropped);
    if pending.Some? {
      var p := pending.value;
      assert (WithoutAt(out, p) + [c]) + dropped == WithoutAt(out, p) + ([c] + dropped);
      assert WithoutAt(out + [c], p) == WithoutAt(out, p) + [c];
      assert (out + [c])[p + 1..] == out[p + 1..] + [c];
    }
    assert WithoutAt(out + [c], |out|) == out;
  }

  method SkipString(text: string, from: nat) returns (index: nat)
    requires from < |text| && text[from] == '"'
    ensures from < index <= |text| && index - from == StringLength(text[from..])
  {
    var i := from + 1;
    assert text[from..][1..] == text[i..];
    while i < |text|
      invariant from < i
      invariant i <= |text| ==> StringLength(text[from..]) == i - from + StringRest(text[i..])
      invariant i > |text| ==> StringLength(text[from..]) == |text| - from
    {
      var inner := text[i];
      assert text[i..][1..] == text[i + 1..];
      if inner == '\\' {
        if i + 1 < |text| {
          assert text[i..][2..] == text[i + 2..];
        }
        i := i + 2;
        continue;
      }
      i := i + 1;
      if inner == '"' {
        return i;
      }
    }
    index := |text|;
  }

  method SkipLine(text: string, from: nat) returns (index: nat)
    requires from <= |text|
    ensures from <= index <= |text| && index - from == LineLength(text[from..])
  {
    index := from;
    while index < |text| && text[index] != '\n'
      invariant from <= index <= |text| && LineLength(text[from..]) == index - from + LineLength(text[index..])
    {
      assert text[index..][1..] == text[index + 1..];
      index := index + 1;
    }
  }

  /** Just past the next star and slash from `from`, or the end. */
  method SkipBlock(text: string, from: nat) returns (index: nat)
    requires from <= |text|
    ensures from <= index <= |text| && index - from == BlockRest(text[from..])
  {
    index := from;
    while index + 1 < |text|
      invariant from <= index <= |text| && BlockRest(text[from..]) == index - from + BlockRest(text[index..])
    {
      if text[index] == '*' && text[index + 1] == '/' {
        return index + 2;
      }
      assert text[index..][1..] == text[index + 1..];
      index := index + 1;
    }
    index := |text|;
  }

  /** A string literal, copied from `start` to `index`. */
  lemma LiteralStep(text: string, start: nat, index: nat, out: string, pending: Option<nat>)
    requires start < index <= |text| && text[start] == '"' && index - start == StringLength(text[start..])
    requires PendingOk(out, pending)
    ensures Outcome(out, pending, WithoutComments(text[start..]))
            == Outcome(out + text[start..index], None, WithoutComments(text[index..]))
  {
    var rest := text[start..];
    LiteralSurvives(rest);
    assert rest[..index - start] == text[start..index] && rest[index - start..] == text[index..];
    var tail := WithoutTrailingCommas(WithoutComments(text[index..]));
    assert out + text[start..index] + tail == out + (text[start..index] + tail);
  }

  lemma LineStep(text: string, start: nat, index: nat)
    requires start + 2 <= index <= |text| && text[start] == '/' && text[start + 1] == '/'
    requires index - (start + 2) == LineLength(text[start + 2..])
    ensures WithoutComments(text[start..]) == WithoutComments(text[index..])
  {
    var rest := text[start..];
    assert rest[2..] == text[start + 2..] && rest[index - start..] == text[index..];
  }

  lemma BlockStep(text: string, start: nat, index: nat)
    requires start + 2 <= index <= |text| && text[start] == '/' && text[start + 1] == '*'
    requires index - (start + 2) == BlockRest(text[start + 2..])
    ensures WithoutComments(text[start..]) == WithoutComments(text[index..])
  {
    var rest := text[start..];
    assert rest[2..] == text[start + 2..] && rest[index - start..] == text[index..];
  }

  /** Any other character is copied by the first pass. */
  lemma PlainStep(text: string, index: nat)
    requires index < |text| && text[index] != '"'
    requires index + 1 < |text| && text[index] == '/' ==> text[index + 1] != '/' && text[index + 1] != '*'
    ensures WithoutComments(text[index..]) == [text[index]] + WithoutComments(text[index + 1..])
  {
    assert text[index..][1..] == text[index + 1..];
  }

  /** The one-pass scan computes the two-pass result on every text. */
  method StripJsonc(text: string) returns (out: string)
    ensures out == Stripped(text)
  {
    out := "";
    var index := 0;
    var pendingComma: Option<nat> := None;
    assert text[0..] == text;
    while index < |text|
      invariant index <= |text| && PendingOk(out, pendingComma)
      invariant Outcome(out, pendingComma, WithoutComments(text[index..])) == Stripped(text)
    {
      var character := text[index];
      if character == '"' {
        var start := index;
        index := SkipString(text, start);
        LiteralStep(text, start, index, out, pendingComma);
        out := out + text[start..index];
        pendingComma := None;
        continue;
      }
      if character == '/' && index + 1 < |text| && text[index + 1] == '/' {
        ghost var start := index;
        index := SkipLine(text, index + 2);
        LineStep(text, start, index);
        continue;
      }
      if character == '/' && index + 1 < |text| && text[index + 1] == '*' {
        ghost var start := index;
        index := SkipBlock(text, index + 2);
        BlockStep(text, start, index);
        continue;
      }
      PlainStep(text, index);
      CharacterStep(out, pendingComma, character, WithoutComments(text[index + 1..]));
      if IsCloser(character) && pendingComma.Some? {
        out := out[..pendingComma.value] + out[pendingComma.value + 1..];
        pendingComma := None;
      } else if character == ',' {
        pendingComma := Some(|out|);
      } else if !IsSpace(character) {
        pendingComma := None;
      }
      out := out + [character];
      index := index + 1;
    }
    assert text[|text|..] == "";
    assert out + "" == out;
  }

  // ----- JSON texts are left alone -----

  /** A character of a JSON string as written: itself, or a backslash and the character after it. */
  datatype StringItem = Plain(c: char) | Escaped(c: char)

  /** A JSON value as written, with its white space. */
  datatype Value =
    | Token(chars: string)                      // a number or one of the three literal names
    | Text(items: seq<StringItem>)
    | Empty(open: char, blank: string, close: char)
    | Array(elements: Elements)
    | Object(members: Members)

  datatype Padded = Padded(before: string, value: Value, after: string)

  datatype Elements = One(element: Padded) | More(element: Padded, rest: Elements)

  datatype Members = Single(member: Member) | Further(member: Member, rest: Members)

  datatype Member = Member(before: string, name: seq<StringItem>, after: string, value: Padded)

  predicate TokenChar(c: char) {
    'a' <= c <= 'z' || 'A' <= c <= 'Z' || '0' <= c <= '9' || c == '-' || c == '+' || c == '.'
  }

  predicate Written(v: Value) {
    match v
    case Token(chars) => chars != "" && forall i :: 0 <= i < |chars| ==> TokenChar(chars[i])
    case Text(items) => ItemsOk(items)
    case Empty(open, blank, close) => ((open == '[' && close == ']') || (open == '{' && close == '}')) && AllSpace(blank)
    case Array(elements) => ElementsOk(elements)
    case Object(members) => MembersOk(members)
  }

  predicate ItemsOk(items: seq<StringItem>) {
    forall i :: 0 <= i < |items| && items[i].Plain? ==> items[i].c != '"' && items[i].c != '\\'
  }

  predicate PaddedOk(p: Padded) {
    AllSpace(p.before) && Written(p.value) && AllSpace(p.after)
  }

  predicate ElementsOk(e: Elements) {
    PaddedOk(e.element) && (e.More? ==> ElementsOk(e.rest))
  }

  predicate MembersOk(m: Members) {
    && AllSpace(m.member.before) && ItemsOk(m.member.name) && AllSpace(m.member.after) && PaddedOk(m.member.value)
    && (m.Further? ==> MembersOk(m.rest))
  }

  function WriteItems(items: seq<StringItem>): string {
    if items == [] then ""
    else (if items[0].Plain? then [items[0].c] else ['\\', items[0].c]) + WriteItems(items[1..])
  }

  function WriteText(items: seq<StringItem>): string {
    ['"'] + WriteItems(items) + ['"']
  }

  function Write(v: Value): string {
    match v
    case Token(chars) => chars
    case Text(items) => WriteText(items)
    case Empty(open, blank, close) => [open] + blank + [close]
    case Array(elements) => ['['] + WriteElements(elements) + [']']
    case Object(members) => ['{'] + WriteMembers(members) + ['}']
  }

  function WritePadded(p: Padded): string {
    p.before + Write(p.value) + p.after
  }

  function WriteElements(e: Elements): string {
    WritePadded(e.element) + if e.More? then [','] + WriteElements(e.rest) else ""
  }

  function WriteMember(m: Member): string {
    m.before + WriteText(m.name) + m.after + [':'] + WritePadded(m.value)
  }

  function WriteMembers(m: Members): string {
    WriteMember(m.member) + if m.Further? then [','] + WriteMembers(m.rest) else ""
  }

  predicate CopiedBefore(w: string, u: string) {
    && WithoutComments(w + u) == w + WithoutComments(u)
    && WithoutTrailingCommas(w + u) == w + WithoutTrailingCommas(u)
  }

  /** Both passes copy `w` whatever follows it. */
  ghost predicate Copied(w: string) {
    forall u :: CopiedBefore(w, u)
  }

  predicate OpensBefore(w: string, u: string) {
    !ClosesNext(w + u)
  }

  /** `w` starts, after white space, with something that closes nothing. */
  ghost predicate Opens(w: string) {
    forall u :: OpensBefore(w, u)
  }

  lemma Associate(a: string, b: string, c: string)
    ensures a + b + c == a + (b + c)
  {
  }

  lemma CopiedBeforeBoth(a: string, b: string, u: string)
    requires CopiedBefore(b, u) && CopiedBefore(a, b + u)
    ensures CopiedBefore(a + b, u)
  {
    Associate(a, b, u);
    Associate(a, b, WithoutComments(u));
    Associate(a, b, WithoutTrailingCommas(u));
  }

  lemma CopiedConcat(a: string, b: string)
    requires Copied(a) && Copied(b)
    ensures Copied(a + b)
  {
    forall u ensures CopiedBefore(a + b, u) {
      assert CopiedBefore(b, u) && CopiedBefore(a, b + u);
      CopiedBeforeBoth(a, b, u);
    }
  }

  lemma CopiedChar(c: char)
    requires c != '"' && c != '/' && c != ','
    ensures Copied([c])
  {
    forall u ensures CopiedBefore([c], u) {
      assert ([c] + u)[1..] == u;
    }
  }

  lemma {:induction false} CopiedChars(w: string)
    requires forall i :: 0 <= i < |w| ==> w[i] != '"' && w[i] != '/' && w[i] != ','
    ensures Copied(w)
  {
    if w == "" {
      forall u: string ensures CopiedBefore("", u) {
        assert "" + u == u;
      }
    } else {
      CopiedChar(w[0]);
      CopiedChars(w[1..]);
      CopiedConcat([w[0]], w[1..]);
      assert [w[0]] + w[1..] == w;
    }
  }

  lemma {:induction false} ItemsRest(items: seq<StringItem>, u: string)
    requires ItemsOk(items)
    ensures StringRest(WriteItems(items) + ['"'] + u) == |WriteItems(items)| + 1
  {
    var w := WriteItems(items) + ['"'] + u;
    if items == [] {
      assert w[0] == '"';
    } else {
      ItemsRest(items[1..], u);
      var n := if items[0].Plain? then 1 else 2;
      assert w[n..] == WriteItems(items[1..]) + ['"'] + u;
    }
  }

  lemma CopiedText(items: seq<StringItem>)
    requires ItemsOk(items)
    ensures Copied(WriteText(items)) && Opens(WriteText(items))
  {
    var t := WriteText(items);
    forall u ensures CopiedBefore(t, u) && OpensBefore(t, u) {
      var w := t + u;
      ItemsRest(items, u);
      assert w[1..] == WriteItems(items) + ['"'] + u;
      assert StringLength(w) == |t| && w[..|t|] == t && w[|t|..] == u;
    }
  }

  lemma {:induction false} OpensAfterSpace(blank: string, w: string)
    requires AllSpace(blank) && Opens(w)
    ensures Opens(blank + w)
  {
    if blank == "" {
      assert blank + w == w;
    } else {
      OpensAfterSpace(blank[1..], w);
      forall u ensures OpensBefore(blank + w, u) {
        assert OpensBefore(blank[1..] + w, u);
        assert (blank + w + u)[1..] == blank[1..] + w + u;
      }
    }
  }

  /** A comma before something that opens is data. */
  lemma CopiedComma(w: string)
    requires Copied(w) && Opens(w)
    ensures Copied([','] + w)
  {
    forall u ensures CopiedBefore([','] + w, u) {
      assert CopiedBefore(w, u) && OpensBefore(w, u);
      assert ([','] + w + u)[1..] == w + u;
      assert [','] + (w + WithoutComments(u)) == [','] + w + WithoutComments(u);
      assert [','] + (w + WithoutTrailingCommas(u)) == [','] + w + WithoutTrailingCommas(u);
    }
  }

  lemma StillOpens(w: string, more: string)
    requires Opens(w)
    ensures Opens(w + more)
  {
    forall u ensures OpensBefore(w + more, u) {
      assert OpensBefore(w, more + u);
      assert w + more + u == w + (more + u);
    }
  }

  lemma OpensChar(c: char, more: string)
    requires !IsSpace(c) && !IsCloser(c)
    ensures Opens([c] + more)
  {
    forall u ensures OpensBefore([c] + more, u) {
      assert ([c] + more + u)[0] == c;
    }
  }

  lemma {:induction false} ValueCopied(v: Value)
    requires Written(v)
    ensures Copied(Write(v)) && Opens(Write(v))
    decreases v
  {
    match v
    case Token(chars) =>
      CopiedChars(chars);
      assert [chars[0]] + chars[1..] == chars;
      OpensChar(chars[0], chars[1..]);
    case Text(items) => CopiedText(items);
    case Empty(open, blank, close) =>
      CopiedChars([open] + blank + [close]);
      OpensChar(open, blank + [close]);
      assert [open] + (blank + [close]) == [open] + blank + [close];
    case Array(elements) =>
      ElementsCopied(elements);
      Bracketed('[', WriteElements(elements), ']');
    case Object(members) =>
      MembersCopied(members);
      Bracketed('{', WriteMembers(members), '}');
  }

  lemma Bracketed(open: char, w: string, close: char)
    requires (open == '[' && close == ']') || (open == '{' && close == '}')
    requires Copied(w)
    ensures Copied([open] + w + [close]) && Opens([open] + w + [close])
  {
    CopiedChar(open);
    CopiedChar(close);
    CopiedConcat([open], w);
    CopiedConcat([open] + w, [close]);
    assert [open] + (w + [close]) == [open] + w + [close];
    OpensChar(open, w + [close]);
  }

  lemma {:induction false} PaddedCopied(p: Padded)
    requires PaddedOk(p)
    ensures Copied(WritePadded(p)) && Opens(WritePadded(p))
    decreases p
  {
    ValueCopied(p.value);
    CopiedChars(p.before);
    CopiedChars(p.after);
    CopiedConcat(p.before, Write(p.value));
    CopiedConcat(p.before + Write(p.value), p.after);
    OpensAfterSpace(p.before, Write(p.value));
    StillOpens(p.before + Write(p.value), p.after);
  }

  lemma {:induction false} ElementsCopied(e: Elements)
    requires ElementsOk(e)
    ensures Copied(WriteElements(e)) && Opens(WriteElements(e))
    decreases e
  {
    PaddedCopied(e.element);
    if e.More? {
      ElementsCopied(e.rest);
      CopiedComma(WriteElements(e.rest));
      CopiedConcat(WritePadded(e.element), [','] + WriteElements(e.rest));
      StillOpens(WritePadded(e.element), [','] + WriteElements(e.rest));
    } else {
      assert WriteElements(e) == WritePadded(e.element);
    }
  }

  lemma {:induction false} MembersCopied(m: Members)
    requires MembersOk(m)
    ensures Copied(WriteMembers(m)) && Opens(WriteMembers(m))
    decreases m
  {
    MemberCopied(m.member);
    if m.Further? {
      MembersCopied(m.rest);
      CopiedComma(WriteMembers(m.rest));
      CopiedConcat(WriteMember(m.member), [','] + WriteMembers(m.rest));
      StillOpens(WriteMember(m.member), [','] + WriteMembers(m.rest));
    } else {
      assert WriteMembers(m) == WriteMember(m.member);
    }
  }

  lemma {:induction false} MemberCopied(m: Member)
    requires AllSpace(m.before) && ItemsOk(m.name) && AllSpace(m.after) && PaddedOk(m.value)
    ensures Copied(WriteMember(m)) && Opens(WriteMember(m))
    decreases m
  {
    var name, value := WriteText(m.name), WritePadded(m.value);
    CopiedChars(m.before);
    CopiedText(m.name);
    CopiedChars(m.after);
    CopiedChar(':');
    PaddedCopied(m.value);
    CopiedConcat(m.before, name);
    CopiedConcat(m.before + name, m.after);
    CopiedConcat(m.before + name + m.after, [':']);
    CopiedConcat(m.before + name + m.after + [':'], value);
    OpensAfterSpace(m.before, name);
    StillOpens(m.before + name, m.after);
    StillOpens(m.before + name + m.after, [':']);
    StillOpens(m.before + name + m.after + [':'], value);
  }

  /** Stripping leaves every JSON text as it is. */
  lemma JsonIsUntouched(p: Padded)
    requires PaddedOk(p)
    ensures Stripped(WritePadded(p)) == WritePadded(p)
  {
    PaddedCopied(p);
    var w := WritePadded(p);
    assert w + "" == w && CopiedBefore(w, "");
  }

  /** One pass is not enough for a doubled comma: stripping is not idempotent. */
  lemma DoubledComma()
    ensures Stripped("[1,,]") == "[1,]" && Stripped("[1,]") == "[1]"
  {
    BracketOneComma("]");
    BracketOneComma(",]");
    assert ",]"[1..] == "]" && "]"[1..] == "" && ",,]"[1..] == ",]";
    assert WithoutTrailingCommas("]") == "]" && WithoutTrailingCommas(",]") == "]" && WithoutTrailingCommas(",,]") == ",]";
    assert ['[', '1'] + ",,]" == "[1,,]" && ['[', '1'] + ",]" == "[1,]" && ['[', '1'] + "]" == "[1]";
    assert [','] + "]" == ",]" && [','] + ",]" == ",,]";
  }

  lemma BracketOneComma(w: string)
    requires w == "]" || w == ",]"
    ensures Stripped(['[', '1'] + [','] + w) == ['[', '1'] + WithoutTrailingCommas([','] + w)
  {
    var c := [','] + w;
    assert (['[', '1'] + c)[1..] == ['1'] + c && (['1'] + c)[1..] == c;
    assert c[1..] == w && w[1..] == (if w == "]" then "" else "]") && "]"[1..] == "";
    assert WithoutComments(w) == w && WithoutComments(c) == c;
    assert WithoutComments(['1'] + c) == ['1'] + c;
    assert ['[', '1'] + [','] + w == ['[', '1'] + c && ['['] + (['1'] + c) == ['[', '1'] + c;
    assert WithoutComments(['[', '1'] + c) == ['[', '1'] + c;
    assert WithoutTrailingCommas(['1'] + c) == ['1'] + WithoutTrailingCommas(c);
    assert ['['] + (['1'] + WithoutTrailingCommas(c)) == ['[', '1'] + WithoutTrailingCommas(c);
  }
}

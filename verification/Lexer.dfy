/**
 The small Rust lexer behind the generated-binding policy. A text is a sequence of
 bytes written as characters. Each skipper is specified by the rest of the text it
 leaves, and the cursor-based methods are proved to land exactly there.
 */
module Lexer {
  import opened Results

  type Text = seq<char>

  datatype Token = Identifier(name: Text) | Punctuation(byte: char)

  // ----- Character classes -----

  predicate IsWhitespace(c: char) { c == ' ' || c == '\t' || c == '\n' || c == '\r' || c == '\U{0C}' }

  predicate IsLetter(c: char) { 'a' <= c <= 'z' || 'A' <= c <= 'Z' || c == '_' }

  predicate IsWord(c: char) { IsLetter(c) || '0' <= c <= '9' }

  /** The length a UTF-8 lead byte announces; none for a continuation byte. */
  function Utf8Length(c: char): (n: Option<nat>) {
    if c < '\U{80}' then Some(1)
    else if c < '\U{C0}' then None
    else if c < '\U{E0}' then Some(2)
    else if c < '\U{F0}' then Some(3)
    else Some(4)
  }

  predicate StartsWith(s: Text, p: Text) { p <= s }

  // ----- What each skipper leaves -----

  function SkipWhitespace(s: Text): (r: Text)
    ensures |r| <= |s|
    ensures r != [] ==> !IsWhitespace(r[0])
  {
    if s != [] && IsWhitespace(s[0]) then SkipWhitespace(s[1..]) else s
  }

  function SkipLine(s: Text): (r: Text)
    ensures |r| <= |s|
  {
    if s != [] && s[0] != '\n' then SkipLine(s[1..]) else s
  }

  function SkipBlock(s: Text, depth: nat): (r: Text)
    ensures |r| <= |s|
  {
    if s == [] || depth == 0 then s
    else if StartsWith(s, "/*") then SkipBlock(s[2..], depth + 1)
    else if StartsWith(s, "*/") then SkipBlock(s[2..], depth - 1)
    else SkipBlock(s[1..], depth)
  }

  function SkipWord(s: Text): (r: Text)
    ensures |r| <= |s|
    ensures s != [] && IsWord(s[0]) ==> |r| < |s|
  {
    if s != [] && IsWord(s[0]) then SkipWord(s[1..]) else s
  }

  /** The rest after a quoted string whose opening quote is already gone. */
  function QuotedRest(s: Text): (r: Text)
    ensures |r| <= |s|
    decreases |s|
  {
    if s == [] then s
    else if s[0] == '\\' then QuotedRest(if |s| >= 2 then s[2..] else [])
    else if s[0] == '"' then s[1..]
    else QuotedRest(s[1..])
  }

  function Hashes(s: Text): (n: nat)
    ensures n <= |s|
    ensures forall i :: 0 <= i < n ==> s[i] == '#'
    ensures n < |s| ==> s[n] != '#'
  {
    if s != [] && s[0] == '#' then 1 + Hashes(s[1..]) else 0
  }

  predicate Closes(s: Text, hashes: nat) {
    |s| >= 1 + hashes && s[0] == '"' && forall i :: 1 <= i < 1 + hashes ==> s[i] == '#'
  }

  function RawBody(s: Text, hashes: nat): (r: Text)
    ensures |r| <= |s|
  {
    if s == [] then s
    else if Closes(s, hashes) then s[1 + hashes..]
    else RawBody(s[1..], hashes)
  }

  /** The rest after a raw string whose letters are already gone, if this is one. */
  function RawRest(s: Text): (r: Option<Text>)
    ensures r.Some? ==> |r.value| < |s|
  {
    var n := Hashes(s);
    if n < |s| && s[n] == '"' then Some(RawBody(s[n + 1..], n)) else None
  }

  function FindBrace(s: Text): (n: nat)
    ensures n <= |s|
    ensures n < |s| ==> s[n] == '}'
    ensures forall i :: 0 <= i < n ==> s[i] != '}'
  {
    if s != [] && s[0] != '}' then 1 + FindBrace(s[1..]) else 0
  }

  /** The length of an escape that starts with the backslash at the front. */
  function EscapeLength(s: Text): (n: Option<nat>)
    requires s != []
    ensures n.Some? ==> n.value >= 2
  {
    if |s| < 2 then None
    else if s[1] == 'x' then (if |s| > 3 then Some(4) else None)
    else if s[1] == 'u' && |s| > 2 && s[2] == '{' then
      var k := 3 + FindBrace(s[3..]);
      if k < |s| then Some(k + 1) else None
    else Some(2)
  }

  /** The rest after a character literal whose opening quote is already gone, if it closes. */
  function CharRest(s: Text): (r: Option<Text>)
    ensures r.Some? ==> |r.value| < |s|
  {
    if s == [] then None
    else
      var n := if s[0] == '\\' then EscapeLength(s) else Utf8Length(s[0]);
      if n.Some? && n.value < |s| && s[n.value] == '\'' then Some(s[n.value + 1..]) else None
  }

  function RawLiteralRest(s: Text): (r: Option<Text>)
    ensures r.Some? ==> |r.value| < |s|
  {
    if StartsWith(s, "br") && RawRest(s[2..]).Some? then RawRest(s[2..])
    else if StartsWith(s, "cr") && RawRest(s[2..]).Some? then RawRest(s[2..])
    else if StartsWith(s, "r") && RawRest(s[1..]).Some? then RawRest(s[1..])
    else None
  }

  function LiteralRest(s: Text): (r: Option<Text>)
    requires s != []
    ensures r.Some? ==> |r.value| < |s|
  {
    if RawLiteralRest(s).Some? then RawLiteralRest(s)
    else if StartsWith(s, "b\"") then Some(QuotedRest(s[2..]))
    else if StartsWith(s, "c\"") then Some(QuotedRest(s[2..]))
    else if StartsWith(s, "\"") then Some(QuotedRest(s[1..]))
    else if StartsWith(s, "b'") then CharRest(s[2..])
    else if s[0] == '\'' then CharRest(s[1..])
    else None
  }

  /** The next token and what follows it; the end of the text otherwise. */
  datatype Lexed = Done | Next(token: Token, rest: Text)

  function RawIdentifierAhead(s: Text): (b: bool) { StartsWith(s, "r#") && |s| > 2 && IsLetter(s[2]) }

  function TokenAt(s: Text): (r: Lexed)
    requires s != []
    ensures r.Next? && |r.rest| < |s|
  {
    if RawIdentifierAhead(s) then
      var rest := SkipWord(s[2..]);
      Next(Identifier(s[2..|s| - |rest|]), rest)
    else if IsLetter(s[0]) then
      var rest := SkipWord(s);
      Next(Identifier(s[..|s| - |rest|]), rest)
    else Next(Punctuation(s[0]), s[1..])
  }

  function NextToken(s: Text): (r: Lexed)
    ensures r.Next? ==> |r.rest| < |s|
    decreases |s|
  {
    var t := SkipWhitespace(s);
    if t == [] then Done
    else if StartsWith(t, "//") then NextToken(SkipLine(t[2..]))
    else if StartsWith(t, "/*") then NextToken(SkipBlock(t[2..], 1))
    else if LiteralRest(t).Some? then NextToken(LiteralRest(t).value)
    else TokenAt(t)
  }

  /** All tokens of a text. */
  function Lex(s: Text): (ts: seq<Token>)
    decreases |s|
  {
    match NextToken(s)
    case Done => []
    case Next(token, rest) => [token] + Lex(rest)
  }

  // ----- The cursor -----

  lemma SuffixStep(s: Text, i: nat, k: nat)
    requires i + k <= |s|
    ensures s[i..][k..] == s[i + k..]
  {}

  method IdentifierEnd(bytes: Text, start: nat) returns (index: nat)
    requires start <= |bytes|
    ensures start <= index <= |bytes| && bytes[index..] == SkipWord(bytes[start..])
  {
    index := start;
    while index < |bytes| && IsWord(bytes[index])
      invariant start <= index <= |bytes| && SkipWord(bytes[index..]) == SkipWord(bytes[start..])
    {
      SuffixStep(bytes, index, 1);
      index := index + 1;
    }
  }

  method SkipNestedBlockComment(bytes: Text, start: nat) returns (index: nat)
    requires start <= |bytes|
    ensures start <= index <= |bytes| && bytes[index..] == SkipBlock(bytes[start..], 1)
  {
    hide SkipBlock;
    index := start;
    var depth: nat := 1;
    while index < |bytes| && depth > 0
      invariant start <= index <= |bytes|
      invariant SkipBlock(bytes[index..], depth) == SkipBlock(bytes[start..], 1)
      decreases |bytes| - index
    {
      BlockStep(bytes[index..], depth);
      if StartsWith(bytes[index..], "/*") {
        SuffixStep(bytes, index, 2);
        depth, index := depth + 1, index + 2;
      } else if StartsWith(bytes[index..], "*/") {
        SuffixStep(bytes, index, 2);
        depth, index := depth - 1, index + 2;
      } else {
        SuffixStep(bytes, index, 1);
        index := index + 1;
      }
    }
    BlockStep(bytes[index..], depth);
  }

  lemma BlockStep(s: Text, depth: nat)
    ensures s == [] || depth == 0 ==> SkipBlock(s, depth) == s
    ensures s != [] && depth > 0 ==>
      SkipBlock(s, depth) == if StartsWith(s, "/*") then SkipBlock(s[2..], depth + 1)
                             else if StartsWith(s, "*/") then SkipBlock(s[2..], depth - 1)
                             else SkipBlock(s[1..], depth)
  {}

  method QuotedStringEnd(bytes: Text, quote: nat) returns (index: nat)
    requires quote < |bytes|
    ensures quote < index <= |bytes| && bytes[index..] == QuotedRest(bytes[quote + 1..])
  {
    index := quote + 1;
    while index < |bytes|
      invariant quote < index <= |bytes| && QuotedRest(bytes[index..]) == QuotedRest(bytes[quote + 1..])
      decreases |bytes| - index
    {
      SuffixStep(bytes, index, 1);
      if bytes[index] == '\\' {
        if index + 2 <= |bytes| { SuffixStep(bytes, index, 2); }
        index := if index + 2 < |bytes| then index + 2 else |bytes|;
      } else if bytes[index] == '"' {
        return index + 1;
      } else {
        index := index + 1;
      }
    }
  }

  method RawStringEnd(bytes: Text, start: nat) returns (end: Option<nat>)
    requires start <= |bytes|
    ensures end.None? <==> RawRest(bytes[start..]).None?
    ensures end.Some? ==> start < end.value <= |bytes| && RawRest(bytes[start..]) == Some(bytes[end.value..])
  {
    hide RawBody, Hashes;
    var index := start;
    while index < |bytes| && bytes[index] == '#'
      invariant start <= index <= |bytes| && index - start + Hashes(bytes[index..]) == Hashes(bytes[start..])
    {
      HashesStep(bytes[index..]);
      SuffixStep(bytes, index, 1);
      index := index + 1;
    }
    HashesStep(bytes[index..]);
    SuffixStep(bytes, start, index - start);
    if index == |bytes| || bytes[index] != '"' {
      return None;
    }
    SuffixStep(bytes, start, index - start + 1);
    var e := RawBodyEnd(bytes, index + 1, index - start);
    return Some(e);
  }

  lemma HashesStep(s: Text)
    ensures Hashes(s) == if s != [] && s[0] == '#' then 1 + Hashes(s[1..]) else 0
  {}

  method RawBodyEnd(bytes: Text, start: nat, hashes: nat) returns (index: nat)
    requires start <= |bytes|
    ensures start <= index <= |bytes| && bytes[index..] == RawBody(bytes[start..], hashes)
  {
    hide Closes;
    index := start;
    while index < |bytes|
      invariant start <= index <= |bytes| && RawBody(bytes[index..], hashes) == RawBody(bytes[start..], hashes)
    {
      if Closes(bytes[index..], hashes) {
        ClosesFits(bytes[index..], hashes);
        SuffixStep(bytes, index, 1 + hashes);
        return index + 1 + hashes;
      }
      SuffixStep(bytes, index, 1);
      index := index + 1;
    }
  }

  lemma ClosesFits(s: Text, hashes: nat)
    requires Closes(s, hashes)
    ensures |s| >= 1 + hashes
  {}

  method EscapedCharEnd(bytes: Text, slash: nat) returns (end: Option<nat>)
    requires slash < |bytes|
    ensures var n := EscapeLength(bytes[slash..]);
            end == if n.Some? then Some(slash + n.value) else None
  {
    if slash + 1 >= |bytes| {
      return None;
    }
    if bytes[slash + 1] == 'x' {
      return if slash + 3 < |bytes| then Some(slash + 4) else None;
    }
    if bytes[slash + 1] == 'u' && slash + 2 < |bytes| && bytes[slash + 2] == '{' {
      var index := slash + 3;
      SuffixStep(bytes, slash, 3);
      while index < |bytes| && bytes[index] != '}'
        invariant slash + 3 <= index <= |bytes|
        invariant index - (slash + 3) + FindBrace(bytes[index..]) == FindBrace(bytes[slash + 3..])
      {
        SuffixStep(bytes, index, 1);
        index := index + 1;
      }
      return if index < |bytes| then Some(index + 1) else None;
    }
    return Some(slash + 2);
  }

  method CharLiteralEnd(bytes: Text, quote: nat) returns (end: Option<nat>)
    requires quote < |bytes|
    ensures end.None? <==> CharRest(bytes[quote + 1..]).None?
    ensures end.Some? ==> quote < end.value <= |bytes| && CharRest(bytes[quote + 1..]) == Some(bytes[end.value..])
  {
    hide EscapeLength, Utf8Length;
    var content := quote + 1;
    if content == |bytes| {
      return None;
    }
    var after: Option<nat>;
    if bytes[content] == '\\' {
      after := EscapedCharEnd(bytes, content);
    } else {
      var n := Utf8Length(bytes[content]);
      after := if n.Some? then Some(content + n.value) else None;
    }
    if after.None? || after.value >= |bytes| || bytes[after.value] != '\'' {
      return None;
    }
    SuffixStep(bytes, content, after.value + 1 - content);
    return Some(after.value + 1);
  }

  method LiteralEnd(bytes: Text, index: nat) returns (end: Option<nat>)
    requires index < |bytes|
    ensures end.None? <==> LiteralRest(bytes[index..]).None?
    ensures end.Some? ==> index < end.value <= |bytes| && LiteralRest(bytes[index..]) == Some(bytes[end.value..])
  {
    hide QuotedRest, CharRest, RawRest;
    var s := bytes[index..];
    SuffixStep(bytes, index, 1);
    if StartsWith(s, "br") || StartsWith(s, "cr") {
      SuffixStep(bytes, index, 2);
      end := RawStringEnd(bytes, index + 2);
      if end.Some? { return; }
    }
    if StartsWith(s, "r") {
      end := RawStringEnd(bytes, index + 1);
      if end.Some? { return; }
    }
    if StartsWith(s, "b\"") || StartsWith(s, "c\"") {
      SuffixStep(bytes, index, 2);
      var e := QuotedStringEnd(bytes, index + 1);
      return Some(e);
    }
    if StartsWith(s, "\"") {
      var e := QuotedStringEnd(bytes, index);
      return Some(e);
    }
    if StartsWith(s, "b'") {
      SuffixStep(bytes, index, 2);
      end := CharLiteralEnd(bytes, index + 1);
      return;
    }
    if s[0] == '\'' {
      end := CharLiteralEnd(bytes, index);
      return;
    }
    return None;
  }

  class RustTokens {
    const source: Text
    var index: nat

    ghost predicate Valid()
      reads this
    {
      index <= |source|
    }

    constructor (text: Text)
      ensures Valid() && source == text && index == 0
    {
      source, index := text, 0;
    }

    /** Advances past trivia to the next token; always moves forward and never past the end. */
    method NextOne() returns (token: Option<Token>)
      requires Valid()
      modifies this
      ensures Valid() && old(index) <= index
      ensures match NextToken(source[old(index)..])
              case Done => token == None && index == |source|
              case Next(t, rest) => token == Some(t) && source[index..] == rest && old(index) < index
    {
      hide LiteralRest, SkipBlock, SkipWord, SkipWhitespace, SkipLine, NextToken, TokenAt, StartsWith;
      ghost var start := NextToken(source[index..]);
      while true
        invariant old(index) <= index <= |source|
        invariant NextToken(source[index..]) == start
        decreases |source| - index
      {
        NextTokenCases(source[index..]);
        index := WhitespaceEnd(source, index);
        if index == |source| {
          return None;
        }
        PrefixLengths(source[index..]);
        if StartsWith(source[index..], "//") {
          SuffixStep(source, index, 2);
          index := LineEnd(source, index + 2);
          continue;
        }
        if StartsWith(source[index..], "/*") {
          SuffixStep(source, index, 2);
          index := SkipNestedBlockComment(source, index + 2);
          continue;
        }
        var end := LiteralEnd(source, index);
        if end.Some? {
          index := end.value;
          continue;
        }
        var t := ReadToken();
        return Some(t);
      }
    }

    /** The identifier or byte at the cursor. */
    method ReadToken() returns (token: Token)
      requires Valid() && index < |source|
      modifies this
      ensures Valid() && old(index) < index
      ensures TokenAt(source[old(index)..]) == Next(token, source[index..])
    {
      hide SkipWord, TokenAt;
      var s := source[index..];
      TokenCases(s);
      if RawIdentifierAhead(s) {
        var from := index + 2;
        SuffixStep(source, index, 2);
        index := IdentifierEnd(source, from);
        SliceOf(source, from - 2, 2, index);
        return Identifier(source[from..index]);
      }
      if IsLetter(s[0]) {
        var from := index;
        WordStarts(s);
        index := IdentifierEnd(source, from);
        SliceOf(source, from, 0, index);
        return Identifier(source[from..index]);
      }
      SuffixStep(source, index, 1);
      index := index + 1;
      return Punctuation(s[0]);
    }
  }

  lemma WordStarts(s: Text)
    requires s != [] && IsLetter(s[0])
    ensures |SkipWord(s)| < |s|
  {}

  lemma PrefixLengths(s: Text)
    ensures StartsWith(s, "//") || StartsWith(s, "/*") ==> |s| >= 2
  {}

  lemma NextTokenCases(before: Text)
    ensures var s := SkipWhitespace(before);
            NextToken(before) ==
            if s == [] then Done
            else if StartsWith(s, "//") then NextToken(SkipLine(s[2..]))
            else if StartsWith(s, "/*") then NextToken(SkipBlock(s[2..], 1))
            else if LiteralRest(s).Some? then NextToken(LiteralRest(s).value)
            else TokenAt(s)
  {}

  lemma TokenCases(s: Text)
    requires s != []
    ensures RawIdentifierAhead(s) ==>
              TokenAt(s) == Next(Identifier(s[2..|s| - |SkipWord(s[2..])|]), SkipWord(s[2..]))
    ensures !RawIdentifierAhead(s) && IsLetter(s[0]) ==>
              TokenAt(s) == Next(Identifier(s[..|s| - |SkipWord(s)|]), SkipWord(s))
    ensures !RawIdentifierAhead(s) && !IsLetter(s[0]) ==> TokenAt(s) == Next(Punctuation(s[0]), s[1..])
  {
    hide SkipWord, IsLetter, RawIdentifierAhead;
    if RawIdentifierAhead(s) { LetterAhead(s); }
  }

  lemma LetterAhead(s: Text)
    requires RawIdentifierAhead(s)
    ensures |s| > 2 && IsLetter(s[2])
  {}

  lemma SliceOf(s: Text, from: nat, skip: nat, end: nat)
    requires from + skip <= end <= |s|
    ensures s[from..][skip..|s[from..]| - |s[end..]|] == s[from + skip..end]
  {}

  method WhitespaceEnd(bytes: Text, start: nat) returns (index: nat)
    requires start <= |bytes|
    ensures start <= index <= |bytes| && bytes[index..] == SkipWhitespace(bytes[start..])
  {
    index := start;
    while index < |bytes| && IsWhitespace(bytes[index])
      invariant start <= index <= |bytes| && SkipWhitespace(bytes[index..]) == SkipWhitespace(bytes[start..])
    {
      SuffixStep(bytes, index, 1);
      index := index + 1;
    }
  }

  method LineEnd(bytes: Text, start: nat) returns (index: nat)
    requires start <= |bytes|
    ensures start <= index <= |bytes| && bytes[index..] == SkipLine(bytes[start..])
  {
    index := start;
    while index < |bytes| && bytes[index] != '\n'
      invariant start <= index <= |bytes| && SkipLine(bytes[index..]) == SkipLine(bytes[start..])
    {
      SuffixStep(bytes, index, 1);
      index := index + 1;
    }
  }
}

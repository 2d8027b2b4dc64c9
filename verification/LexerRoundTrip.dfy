/**
 Printing and lexing agree: any list of identifiers and punctuation, separated by
 a space and any mix of whitespace, comments and literals, lexes back to itself.
 */
module LexerRoundTrip {
  import opened Results
  import opened Lexer

  // ----- What can be printed -----

  datatype Item = Word(name: Text, raw: bool) | Mark(byte: char)

  predicate ValidName(name: Text) {
    name != [] && IsLetter(name[0]) && forall i :: 0 <= i < |name| ==> IsWord(name[i])
  }

  /** An ASCII byte that is no letter, no quote and no whitespace. */
  predicate ValidMark(c: char) {
    c < '\U{80}' && !IsLetter(c) && !IsWhitespace(c) && c != '"' && c != '\''
  }

  predicate ValidItem(item: Item) { if item.Word? then ValidName(item.name) else ValidMark(item.byte) }

  function PrintItem(item: Item): (s: Text) {
    match item
    case Word(name, raw) => (if raw then "r#" else "") + name
    case Mark(c) => [c]
  }

  function TokenOf(item: Item): (t: Token) {
    match item
    case Word(name, _) => Identifier(name)
    case Mark(c) => Punctuation(c)
  }

  /** The inside of a block comment: bytes and properly nested comments. */
  datatype Body = Empty | Byte(c: char, tail: Body) | Nested(inner: Body, tail: Body)

  function PrintBody(b: Body): (s: Text) {
    match b
    case Empty => []
    case Byte(c, tail) => [c] + PrintBody(tail)
    case Nested(inner, tail) => "/*" + PrintBody(inner) + "*/" + PrintBody(tail)
  }

  /** No byte accidentally opens or closes a comment with what follows it. */
  predicate WellNested(b: Body) {
    match b
    case Empty => true
    case Byte(c, tail) =>
      && WellNested(tail)
      && (c == '/' ==> !tail.Empty? && !(tail.Byte? && tail.c == '*'))
      && (c == '*' ==> !tail.Nested? && !(tail.Byte? && tail.c == '/'))
    case Nested(inner, tail) => WellNested(inner) && WellNested(tail)
  }

  /** One position inside a string literal. */
  datatype Piece = Plain(c: char) | Escaped(c: char)

  predicate ValidPieces(ps: seq<Piece>) {
    forall i :: 0 <= i < |ps| && ps[i].Plain? ==> ps[i].c != '"' && ps[i].c != '\\'
  }

  function PrintPieces(ps: seq<Piece>): (s: Text) {
    if ps == [] then []
    else (if ps[0].Plain? then [ps[0].c] else ['\\', ps[0].c]) + PrintPieces(ps[1..])
  }

  datatype Character =
    | Ascii(c: char)
    | Multibyte(bytes: Text)
    | Short(c: char)
    | Hex(high: char, low: char)
    | Unicode(digits: Text)

  predicate ValidCharacter(ch: Character) {
    match ch
    case Ascii(c) => c < '\U{80}' && c != '\\'
    case Multibyte(bytes) =>
      bytes != [] && bytes[0] >= '\U{C0}' && Utf8Length(bytes[0]) == Some(|bytes|)
    case Short(c) => c != 'x'
    case Hex(_, _) => true
    case Unicode(digits) => forall i :: 0 <= i < |digits| ==> digits[i] != '}'
  }

  function PrintCharacter(ch: Character): (s: Text) {
    match ch
    case Ascii(c) => [c]
    case Multibyte(bytes) => bytes
    case Short(c) => ['\\', c]
    case Hex(high, low) => ['\\', 'x', high, low]
    case Unicode(digits) => "\\u{" + digits + "}"
  }

  function HashRun(n: nat): (s: Text)
    ensures |s| == n && forall i :: 0 <= i < n ==> s[i] == '#'
  {
    seq(n, _ => '#')
  }

  datatype Trivia =
    | White(c: char)
    | LineComment(text: Text)
    | BlockComment(body: Body)
    | Quoted(prefix: Text, pieces: seq<Piece>)
    | RawString(prefix: Text, hashes: nat, text: Text)
    | CharLiteral(byte: bool, ch: Character)

  predicate ValidTrivia(t: Trivia) {
    match t
    case White(c) => IsWhitespace(c)
    case LineComment(text) => forall i :: 0 <= i < |text| ==> text[i] != '\n'
    case BlockComment(body) => WellNested(body)
    case Quoted(prefix, pieces) => (prefix == "" || prefix == "b" || prefix == "c") && ValidPieces(pieces)
    case RawString(prefix, hashes, text) =>
      && (prefix == "r" || prefix == "br" || prefix == "cr")
      && forall i :: 0 <= i < |text| ==> !Closes(text[i..], hashes)
    case CharLiteral(_, ch) => ValidCharacter(ch)
  }

  function PrintTrivia(t: Trivia): (s: Text) {
    match t
    case White(c) => [c]
    case LineComment(text) => "//" + text + "\n"
    case BlockComment(body) => "/*" + PrintBody(body) + "*/"
    case Quoted(prefix, pieces) => prefix + "\"" + PrintPieces(pieces) + "\""
    case RawString(prefix, hashes, text) => prefix + HashRun(hashes) + "\"" + text + "\"" + HashRun(hashes)
    case CharLiteral(byte, ch) => (if byte then "b'" else "'") + PrintCharacter(ch) + "'"
  }

  function PrintAll(ts: seq<Trivia>): (s: Text) {
    if ts == [] then [] else PrintTrivia(ts[0]) + PrintAll(ts[1..])
  }

  /** An item, and what separates it from the next one. */
  datatype Entry = Entry(item: Item, after: seq<Trivia>)

  ghost predicate ValidEntry(e: Entry) {
    ValidItem(e.item) && forall i :: 0 <= i < |e.after| ==> ValidTrivia(e.after[i])
  }

  function Print(es: seq<Entry>): (s: Text) {
    if es == [] then [] else PrintItem(es[0].item) + " " + PrintAll(es[0].after) + Print(es[1..])
  }

  function Tokens(es: seq<Entry>): (ts: seq<Token>) {
    if es == [] then [] else [TokenOf(es[0].item)] + Tokens(es[1..])
  }

  // ----- Comments -----

  lemma {:induction false} LineSkips(text: Text, rest: Text)
    requires forall i :: 0 <= i < |text| ==> text[i] != '\n'
    ensures SkipLine(text + "\n" + rest) == "\n" + rest
  {
    if text == [] {
      assert text + "\n" + rest == "\n" + rest;
    } else {
      LineSkips(text[1..], rest);
      assert (text + "\n" + rest)[1..] == text[1..] + "\n" + rest;
    }
  }

  lemma BlockOpens(s: Text, depth: nat)
    requires depth >= 1
    ensures SkipBlock("/*" + s, depth) == SkipBlock(s, depth + 1)
  {
    hide SkipBlock;
    var t := "/*" + s;
    assert t[0] == '/' && t[1] == '*' && t[2..] == s;
    TwoByteStart(t, "/*");
    BlockStep(t, depth);
  }

  lemma BlockCloses(s: Text, depth: nat)
    requires depth >= 1
    ensures SkipBlock("*/" + s, depth) == SkipBlock(s, depth - 1)
  {
    hide SkipBlock;
    var t := "*/" + s;
    assert t[0] == '*' && t[1] == '/' && t[2..] == s;
    TwoByteStart(t, "/*");
    TwoByteStart(t, "*/");
    BlockStep(t, depth);
  }

  lemma BlockPasses(c: char, s: Text, depth: nat)
    requires depth >= 1 && s != [] && !(c == '/' && s[0] == '*') && !(c == '*' && s[0] == '/')
    ensures SkipBlock([c] + s, depth) == SkipBlock(s, depth)
  {
    hide SkipBlock;
    var t := [c] + s;
    assert t[0] == c && t[1] == s[0] && t[1..] == s;
    TwoByteStart(t, "/*");
    TwoByteStart(t, "*/");
    BlockStep(t, depth);
  }

  lemma TwoByteStart(t: Text, p: Text)
    requires |t| >= 2 && |p| == 2
    ensures StartsWith(t, p) <==> t[0] == p[0] && t[1] == p[1]
  {
    if t[0] == p[0] && t[1] == p[1] { assert t[..2] == p; }
  }

  /** A well-nested body and its closer are consumed together, at any depth. */
  lemma {:induction false} BodySkips(b: Body, rest: Text, depth: nat)
    requires WellNested(b) && depth >= 1
    ensures SkipBlock(PrintBody(b) + ("*/" + rest), depth) == SkipBlock(rest, depth - 1)
    decreases b
  {
    hide SkipBlock;
    match b
    case Empty =>
      assert PrintBody(b) + ("*/" + rest) == "*/" + rest;
      BlockCloses(rest, depth);
    case Byte(c, tail) =>
      var more := PrintBody(tail) + ("*/" + rest);
      assert PrintBody(b) + ("*/" + rest) == [c] + more;
      BodyStart(tail, rest);
      BlockPasses(c, more, depth);
      BodySkips(tail, rest, depth);
    case Nested(inner, tail) =>
      var more := PrintBody(tail) + ("*/" + rest);
      assert PrintBody(b) + ("*/" + rest) == "/*" + (PrintBody(inner) + ("*/" + more));
      BlockOpens(PrintBody(inner) + ("*/" + more), depth);
      BodySkips(inner, more, depth + 1);
      BodySkips(tail, rest, depth);
  }

  lemma BodyStart(b: Body, rest: Text)
    ensures var s := PrintBody(b) + ("*/" + rest);
            && s != []
            && s[0] == (match b case Empty => '*' case Byte(c, _) => c case Nested(_, _) => '/')
  {}

  // ----- Literals -----

  lemma {:induction false} PiecesSkip(ps: seq<Piece>, rest: Text)
    requires ValidPieces(ps)
    ensures QuotedRest(PrintPieces(ps) + ("\"" + rest)) == rest
  {
    var s := PrintPieces(ps) + ("\"" + rest);
    if ps == [] {
      assert s == "\"" + rest && s[1..] == rest;
    } else {
      var more := PrintPieces(ps[1..]) + ("\"" + rest);
      PiecesSkip(ps[1..], rest);
      if ps[0].Plain? {
        assert s == [ps[0].c] + more && s[1..] == more;
      } else {
        assert s == ['\\', ps[0].c] + more && s[2..] == more;
      }
    }
  }

  lemma {:induction false} HashesOf(n: nat, rest: Text)
    requires rest == [] || rest[0] != '#'
    ensures Hashes(HashRun(n) + rest) == n
  {
    if n == 0 {
      assert HashRun(0) + rest == rest;
    } else {
      HashesOf(n - 1, rest);
      assert (HashRun(n) + rest)[1..] == HashRun(n - 1) + rest;
    }
  }

  /** A text that hides no closer stops exactly at the real one. */
  lemma {:induction false} RawTextSkips(text: Text, hashes: nat, rest: Text)
    requires forall i :: 0 <= i < |text| ==> !Closes(text[i..], hashes)
    ensures RawBody(text + ("\"" + HashRun(hashes) + rest), hashes) == rest
  {
    var close := "\"" + HashRun(hashes) + rest;
    var s := text + close;
    if text == [] {
      assert s == close;
      assert Closes(s, hashes);
      assert s[1 + hashes..] == rest;
    } else {
      assert text[0..] == text;
      StillOpen(text, hashes, close);
      assert s[1..] == text[1..] + close;
      forall i | 0 <= i < |text[1..]| ensures !Closes(text[1..][i..], hashes) {
        assert text[1..][i..] == text[i + 1..];
      }
      RawTextSkips(text[1..], hashes, rest);
    }
  }

  /** Appending the closing quote cannot complete an earlier closer. */
  lemma StillOpen(text: Text, hashes: nat, close: Text)
    requires text != [] && !Closes(text, hashes) && close != [] && close[0] == '"'
    ensures !Closes(text + close, hashes)
  {
    var s := text + close;
    if text[0] == '"' {
      if |text| < 1 + hashes {
        assert s[|text|] == '"';
      } else {
        var i :| 1 <= i < 1 + hashes && text[i] != '#';
        assert s[i] == text[i];
      }
    }
  }

  lemma RawSkips(hashes: nat, text: Text, rest: Text)
    requires forall i :: 0 <= i < |text| ==> !Closes(text[i..], hashes)
    ensures RawRest(HashRun(hashes) + ("\"" + (text + ("\"" + HashRun(hashes) + rest)))) == Some(rest)
  {
    hide RawBody, Hashes;
    var body := text + ("\"" + HashRun(hashes) + rest);
    var s := HashRun(hashes) + ("\"" + body);
    HashesOf(hashes, "\"" + body);
    RawTextSkips(text, hashes, rest);
    assert s[hashes] == '"';
    assert s[hashes + 1..] == body;
  }

  lemma {:induction false} BraceAt(digits: Text, rest: Text)
    requires forall i :: 0 <= i < |digits| ==> digits[i] != '}'
    ensures FindBrace(digits + ("}" + rest)) == |digits|
  {
    if digits == [] {
      assert digits + ("}" + rest) == "}" + rest;
    } else {
      BraceAt(digits[1..], rest);
      assert (digits + ("}" + rest))[1..] == digits[1..] + ("}" + rest);
    }
  }

  lemma CharacterSkips(ch: Character, rest: Text)
    requires ValidCharacter(ch)
    ensures CharRest(PrintCharacter(ch) + ("'" + rest)) == Some(rest)
  {
    var p := PrintCharacter(ch);
    var s := p + ("'" + rest);
    assert s[|p|] == '\'' && s[|p| + 1..] == rest;
    CharacterLength(ch, rest);
  }

  lemma CharacterLength(ch: Character, rest: Text)
    requires ValidCharacter(ch)
    ensures var p := PrintCharacter(ch);
            var s := p + ("'" + rest);
            && p != []
            && (if s[0] == '\\' then EscapeLength(s) else Utf8Length(s[0])) == Some(|p|)
  {
    var p := PrintCharacter(ch);
    var s := p + ("'" + rest);
    match ch
    case Ascii(c) =>
    case Multibyte(bytes) => assert s[0] == bytes[0];
    case Short(c) => assert s[1] == c && s[2] == '\'';
    case Hex(high, low) => assert s[1] == 'x' && |s| > 4;
    case Unicode(digits) =>
      BraceAt(digits, "'" + rest);
      assert s[1] == 'u' && s[2] == '{';
      assert s[3..] == digits + ("}" + ("'" + rest));
  }

  // ----- Trivia disappears -----

  lemma NextTokenBySkip(s: Text, t: Text)
    requires SkipWhitespace(s) == SkipWhitespace(t)
    ensures NextToken(s) == NextToken(t)
  {
    hide NextToken, SkipWhitespace, StartsWith, LiteralRest, SkipLine, SkipBlock, TokenAt;
    NextTokenCases(s);
    NextTokenCases(t);
  }

  lemma WhiteVanishes(c: char, rest: Text)
    requires IsWhitespace(c)
    ensures NextToken([c] + rest) == NextToken(rest)
  {
    assert ([c] + rest)[1..] == rest;
    NextTokenBySkip([c] + rest, rest);
  }

  /** A text that does not start with whitespace is where the lexer looks first. */
  lemma LooksHere(s: Text)
    requires s != [] && !IsWhitespace(s[0])
    ensures StartsWith(s, "//") ==> NextToken(s) == NextToken(SkipLine(s[2..]))
    ensures !StartsWith(s, "//") && StartsWith(s, "/*") ==> NextToken(s) == NextToken(SkipBlock(s[2..], 1))
    ensures !StartsWith(s, "//") && !StartsWith(s, "/*") && LiteralRest(s).Some? ==>
              NextToken(s) == NextToken(LiteralRest(s).value)
    ensures !StartsWith(s, "//") && !StartsWith(s, "/*") && LiteralRest(s).None? ==> NextToken(s) == TokenAt(s)
  {
    hide NextToken, LiteralRest, SkipLine, SkipBlock, TokenAt;
    assert SkipWhitespace(s) == s;
    NextTokenCases(s);
  }

  lemma LineVanishes(text: Text, rest: Text)
    requires forall i :: 0 <= i < |text| ==> text[i] != '\n'
    ensures NextToken("//" + text + "\n" + rest) == NextToken(rest)
  {
    hide NextToken, LiteralRest, SkipLine, SkipBlock, TokenAt;
    var s := "//" + text + "\n" + rest;
    assert s[0] == '/' && s[1] == '/';
    assert s[2..] == text + "\n" + rest;
    LooksHere(s);
    LineSkips(text, rest);
    WhiteVanishes('\n', rest);
  }

  lemma BlockVanishes(body: Body, rest: Text)
    requires WellNested(body)
    ensures NextToken("/*" + PrintBody(body) + "*/" + rest) == NextToken(rest)
  {
    hide NextToken, LiteralRest, SkipLine, TokenAt, PrintBody;
    var s := "/*" + PrintBody(body) + "*/" + rest;
    assert s[0] == '/' && s[1] == '*';
    assert s[2..] == PrintBody(body) + ("*/" + rest);
    LooksHere(s);
    BodySkips(body, rest, 1);
  }

  lemma LiteralVanishes(s: Text, rest: Text)
    requires s != [] && !IsWhitespace(s[0]) && s[0] != '/' && LiteralRest(s) == Some(rest)
    ensures NextToken(s) == NextToken(rest)
  {
    hide NextToken, LiteralRest, SkipLine, SkipBlock, TokenAt;
    LooksHere(s);
  }

  lemma QuotedVanishes(prefix: Text, pieces: seq<Piece>, rest: Text)
    requires (prefix == "" || prefix == "b" || prefix == "c") && ValidPieces(pieces)
    ensures NextToken(prefix + "\"" + PrintPieces(pieces) + "\"" + rest) == NextToken(rest)
  {
    hide NextToken, PrintPieces, QuotedRest, RawRest, CharRest;
    var body := PrintPieces(pieces) + ("\"" + rest);
    var s := prefix + "\"" + PrintPieces(pieces) + "\"" + rest;
    PiecesSkip(pieces, rest);
    if prefix == "" {
      assert s[0] == '"' && s[1..] == body;
    } else {
      assert s[0] == prefix[0] && s[1] == '"' && s[2..] == body;
    }
    LiteralVanishes(s, rest);
  }

  lemma RawVanishes(prefix: Text, hashes: nat, text: Text, rest: Text)
    requires prefix == "r" || prefix == "br" || prefix == "cr"
    requires forall i :: 0 <= i < |text| ==> !Closes(text[i..], hashes)
    ensures NextToken(prefix + HashRun(hashes) + "\"" + text + "\"" + HashRun(hashes) + rest) == NextToken(rest)
  {
    hide NextToken, QuotedRest, RawRest, CharRest, HashRun;
    var body := HashRun(hashes) + ("\"" + (text + ("\"" + HashRun(hashes) + rest)));
    var s := prefix + HashRun(hashes) + "\"" + text + "\"" + HashRun(hashes) + rest;
    assert s == prefix + body;
    RawSkips(hashes, text, rest);
    if prefix == "r" {
      assert s[0] == 'r' && s[1..] == body;
    } else {
      assert s[0] == prefix[0] && s[1] == 'r' && s[2..] == body;
    }
    LiteralVanishes(s, rest);
  }

  lemma CharVanishes(byte: bool, ch: Character, rest: Text)
    requires ValidCharacter(ch)
    ensures NextToken((if byte then "b'" else "'") + PrintCharacter(ch) + "'" + rest) == NextToken(rest)
  {
    hide NextToken, QuotedRest, RawRest, CharRest, PrintCharacter;
    var body := PrintCharacter(ch) + ("'" + rest);
    var s := (if byte then "b'" else "'") + PrintCharacter(ch) + "'" + rest;
    CharacterSkips(ch, rest);
    if byte {
      assert s[0] == 'b' && s[1] == '\'' && s[2..] == body;
    } else {
      assert s[0] == '\'' && s[1..] == body;
    }
    LiteralVanishes(s, rest);
  }

  /** The lexer sees through every piece of trivia. */
  lemma TriviaVanishes(t: Trivia, rest: Text)
    requires ValidTrivia(t)
    ensures NextToken(PrintTrivia(t) + rest) == NextToken(rest)
  {
    hide NextToken, PrintBody, PrintPieces, PrintCharacter, HashRun, WellNested, ValidPieces, ValidCharacter;
    match t
    case White(c) => WhiteVanishes(c, rest);
    case LineComment(text) => LineVanishes(text, rest);
    case BlockComment(body) => BlockVanishes(body, rest);
    case Quoted(prefix, pieces) => QuotedVanishes(prefix, pieces, rest);
    case RawString(prefix, hashes, text) => RawVanishes(prefix, hashes, text, rest);
    case CharLiteral(byte, ch) => CharVanishes(byte, ch, rest);
  }

  lemma {:induction false} AllTriviaVanishes(ts: seq<Trivia>, rest: Text)
    requires forall i :: 0 <= i < |ts| ==> ValidTrivia(ts[i])
    ensures NextToken(PrintAll(ts) + rest) == NextToken(rest)
  {
    hide NextToken, PrintTrivia, ValidTrivia;
    if ts == [] {
      assert PrintAll(ts) + rest == rest;
    } else {
      AllTriviaVanishes(ts[1..], rest);
      TriviaVanishes(ts[0], PrintAll(ts[1..]) + rest);
      assert PrintAll(ts) + rest == PrintTrivia(ts[0]) + (PrintAll(ts[1..]) + rest);
    }
  }

  // ----- Items come back -----

  lemma {:induction false} WordSkips(name: Text, rest: Text)
    requires (forall i :: 0 <= i < |name| ==> IsWord(name[i])) && rest != [] && !IsWord(rest[0])
    ensures SkipWord(name + rest) == rest
  {
    if name == [] {
      assert name + rest == rest;
    } else {
      WordSkips(name[1..], rest);
      assert (name + rest)[1..] == name[1..] + rest;
    }
  }

  /** The bytes of a name and the space after it: none starts or closes a literal. */
  predicate WordBytes(s: Text, n: nat) {
    1 <= n < |s| && s[n] == ' ' && IsLetter(s[0]) && forall i :: 0 <= i < n ==> IsWord(s[i])
  }

  lemma QuietByte(s: Text, n: nat, i: nat)
    requires WordBytes(s, n) && i <= n
    ensures s[i] != '"' && s[i] != '#' && s[i] != '\''
    ensures Hashes(s[i..]) == 0 && RawRest(s[i..]).None?
  {
    assert s[i..][0] == s[i];
  }

  lemma NoRawLiteral(s: Text, n: nat)
    requires WordBytes(s, n)
    ensures RawLiteralRest(s).None?
  {
    hide RawRest, WordBytes, StartsWith;
    PrefixBytes(s, n);
    QuietByte(s, n, 1);
    if n >= 2 { QuietByte(s, n, 2); }
  }

  /** A two-letter prefix of a longer text that is a word is inside the word. */
  lemma PrefixBytes(s: Text, n: nat)
    requires WordBytes(s, n)
    ensures 1 <= n < |s|
    ensures StartsWith(s, "br") || StartsWith(s, "cr") ==> n >= 2
    ensures !StartsWith(s, "b\"") && !StartsWith(s, "c\"") && !StartsWith(s, "\"") && !StartsWith(s, "b'")
    ensures s[0] != '\''
  {
    QuietByte(s, n, 0);
    QuietByte(s, n, 1);
    TwoByteStart(s, "br");
    TwoByteStart(s, "cr");
    TwoByteStart(s, "b\"");
    TwoByteStart(s, "c\"");
    TwoByteStart(s, "b'");
    OneByteStart(s, "\"");
  }

  lemma OneByteStart(t: Text, p: Text)
    requires |t| >= 1 && |p| == 1
    ensures StartsWith(t, p) ==> t[0] == p[0]
  {}

  /** A name is never mistaken for a literal. */
  lemma PlainIsNoLiteral(s: Text, n: nat)
    requires WordBytes(s, n)
    ensures LiteralRest(s).None?
  {
    hide RawLiteralRest, QuotedRest, CharRest, StartsWith, WordBytes;
    NoRawLiteral(s, n);
    PrefixBytes(s, n);
  }

  /** Nor is its raw spelling. */
  lemma RawIsNoLiteral(s: Text, n: nat)
    requires WordBytes(s, n)
    ensures LiteralRest("r#" + s).None?
  {
    hide RawRest, QuotedRest, CharRest, WordBytes;
    var t := "r#" + s;
    assert t[0] == 'r' && t[1] == '#';
    assert t[1..] == "#" + s;
    OneHash(s, n);
  }

  lemma OneHash(s: Text, n: nat)
    requires WordBytes(s, n)
    ensures RawRest("#" + s).None?
  {
    var t := "#" + s;
    QuietByte(s, n, 0);
    assert t[0] == '#' && t[1] == s[0];
    assert t[1..] == s && s[0..] == s;
    HashesStep(t);
  }

  /** Neither a name nor its raw spelling is mistaken for a literal. */
  lemma WordIsNoLiteral(name: Text, raw: bool, rest: Text)
    requires ValidName(name)
    ensures LiteralRest((if raw then "r#" else "") + name + " " + rest).None?
  {
    hide LiteralRest;
    var s := name + " " + rest;
    assert s[|name|] == ' ';
    assert forall i :: 0 <= i < |name| ==> s[i] == name[i];
    if raw {
      RawIsNoLiteral(s, |name|);
      assert "r#" + name + " " + rest == "r#" + s;
    } else {
      PlainIsNoLiteral(s, |name|);
      assert "" + name + " " + rest == s;
    }
  }

  lemma WordReads(name: Text, raw: bool, rest: Text)
    requires ValidName(name)
    ensures TokenAt((if raw then "r#" else "") + name + " " + rest) == Next(Identifier(name), " " + rest)
  {
    var s := (if raw then "r#" else "") + name + " " + rest;
    WordSkips(name, " " + rest);
    if raw {
      assert s[2..] == name + (" " + rest);
      assert s[2] == name[0];
      assert s[2..2 + |name|] == name;
    } else {
      assert s == name + (" " + rest);
      assert s[..|name|] == name;
      assert |name| >= 2 ==> s[1] == name[1];
      assert |name| == 1 ==> s[1] == ' ';
    }
  }

  lemma WordLexes(name: Text, raw: bool, rest: Text)
    requires ValidName(name)
    ensures NextToken((if raw then "r#" else "") + name + " " + rest) == Next(Identifier(name), " " + rest)
  {
    hide NextToken, LiteralRest, SkipLine, SkipBlock, TokenAt;
    var s := (if raw then "r#" else "") + name + " " + rest;
    assert s[0] == if raw then 'r' else name[0];
    WordIsNoLiteral(name, raw, rest);
    WordReads(name, raw, rest);
    LooksHere(s);
  }

  lemma MarkLexes(c: char, rest: Text)
    requires ValidMark(c)
    ensures NextToken([c] + " " + rest) == Next(Punctuation(c), " " + rest)
  {
    hide NextToken, SkipLine, SkipBlock, QuotedRest, CharRest, RawRest;
    var s := [c] + " " + rest;
    assert s[0] == c && s[1] == ' ' && s[1..] == " " + rest;
    LooksHere(s);
  }

  lemma ItemLexes(item: Item, rest: Text)
    requires ValidItem(item)
    ensures NextToken(PrintItem(item) + " " + rest) == Next(TokenOf(item), " " + rest)
  {
    hide NextToken;
    match item
    case Word(name, raw) => WordLexes(name, raw, rest);
    case Mark(c) => MarkLexes(c, rest);
  }

  lemma LexByNext(s: Text, t: Text)
    requires NextToken(s) == NextToken(t)
    ensures Lex(s) == Lex(t)
  {
    hide NextToken;
  }

  /** Printing any list of items with any trivia between them lexes back to exactly that list. */
  lemma {:induction false} PrintLexes(es: seq<Entry>)
    requires forall i :: 0 <= i < |es| ==> ValidEntry(es[i])
    ensures Lex(Print(es)) == Tokens(es)
  {
    hide NextToken, PrintItem, PrintAll, TokenOf, ValidItem, ValidTrivia;
    if es == [] {
      NothingLexes();
    } else {
      var e, more := es[0], Print(es[1..]);
      assert ValidEntry(e);
      PrintLexes(es[1..]);
      var rest := PrintAll(e.after) + more;
      ItemLexes(e.item, rest);
      assert Print(es) == PrintItem(e.item) + " " + rest;
      AllTriviaVanishes(e.after, more);
      WhiteVanishes(' ', rest);
      LexByNext(" " + rest, more);
    }
  }

  lemma NothingLexes()
    ensures Lex([]) == []
  {}

  /** Leading trivia is invisible too. */
  lemma LeadingTriviaLexes(ts: seq<Trivia>, es: seq<Entry>)
    requires (forall i :: 0 <= i < |ts| ==> ValidTrivia(ts[i])) && (forall i :: 0 <= i < |es| ==> ValidEntry(es[i]))
    ensures Lex(PrintAll(ts) + Print(es)) == Tokens(es)
  {
    hide NextToken, PrintAll, Print, ValidTrivia, ValidEntry;
    PrintLexes(es);
    AllTriviaVanishes(ts, Print(es));
    LexByNext(PrintAll(ts) + Print(es), Print(es));
  }
}

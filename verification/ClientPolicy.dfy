/** The policy itself: find a module whose name ends in `_client` in generated bindings. */
module ClientPolicy {
  import opened Results
  import opened Lexer
  import opened LexerRoundTrip

  const MOD: Token := Identifier("mod")

  predicate EndsWith(s: Text, suffix: Text) { |s| >= |suffix| && s[|s| - |suffix|..] == suffix }

  predicate NamesClient(t: Token) { t.Identifier? && EndsWith(t.name, "_client") }

  predicate OpensModule(t: Token) { t.Punctuation? && (t.byte == '{' || t.byte == ';') }

  /** The scan over tokens: after `mod` it takes an identifier and a byte, and keeps what it took. */
  function FindClient(ts: seq<Token>): (r: Option<Text>)
    decreases |ts|
  {
    if ts == [] then None
    else if ts[0] != MOD then FindClient(ts[1..])
    else if |ts| < 2 then None
    else if !ts[1].Identifier? then FindClient(ts[2..])
    else if |ts| < 3 then None
    else if NamesClient(ts[1]) && OpensModule(ts[2]) then Some(ts[1].name)
    else FindClient(ts[3..])
  }

  /** The loop over the cursor computes the scan over all tokens of the text. */
  method GrpcClientModule(source: Text) returns (r: Option<Text>)
    ensures r == FindClient(Lex(source))
  {
    hide NextToken, NamesClient, FindClient, Lex;
    var tokens := new RustTokens(source);
    assert source[0..] == source;
    FindStep(MOD, []);
    while true
      invariant tokens.Valid() && fresh(tokens) && tokens.source == source
      invariant FindClient(Lex(source[tokens.index..])) == FindClient(Lex(source))
      decreases |source| - tokens.index
    {
      ghost var s := source[tokens.index..];
      LexStep(s);
      var token := tokens.NextOne();
      if token.None? {
        return None;
      }
      FindStep(token.value, Lex(source[tokens.index..]));
      if token.value != MOD {
        continue;
      }
      LexStep(source[tokens.index..]);
      var second := tokens.NextOne();
      if second.None? || !second.value.Identifier? {
        if second.None? {
          LexEnd(source[tokens.index..]);
        } else {
          assert ([second.value] + Lex(source[tokens.index..]))[1..] == Lex(source[tokens.index..]);
        }
        continue;
      }
      LexStep(source[tokens.index..]);
      var third := tokens.NextOne();
      if third.None? || !third.value.Punctuation? {
        if third.None? { LexEnd(source[tokens.index..]); }
        FindTake(second.value, third, Lex(source[tokens.index..]));
        continue;
      }
      FindTake(second.value, third, Lex(source[tokens.index..]));
      if NamesClient(second.value) && OpensModule(third.value) {
        return Some(second.value.name);
      }
    }
  }

  lemma LexStep(s: Text)
    ensures match NextToken(s) case Done => Lex(s) == [] case Next(t, rest) => Lex(s) == [t] + Lex(rest)
  {}

  lemma LexEnd(s: Text)
    requires s == []
    ensures Lex(s) == []
  {}

  lemma FindStep(t: Token, rest: seq<Token>)
    ensures t != MOD ==> FindClient([t] + rest) == FindClient(rest)
    ensures t == MOD && rest == [] ==> FindClient([t] + rest) == None
    ensures t == MOD && rest != [] && !rest[0].Identifier? ==> FindClient([t] + rest) == FindClient(rest[1..])
    ensures FindClient([]) == None
  {
    assert ([t] + rest)[1..] == rest;
    if rest != [] { assert ([t] + rest)[2..] == rest[1..]; }
  }

  lemma FindTake(second: Token, third: Option<Token>, rest: seq<Token>)
    requires second.Identifier?
    ensures third.None? ==> FindClient([MOD] + ([second] + [])) == None
    ensures third.Some? ==> FindClient([MOD] + ([second] + ([third.value] + rest)))
                            == if NamesClient(second) && OpensModule(third.value) then Some(second.name)
                               else FindClient(rest)
  {
    if third.Some? {
      var all := [MOD] + ([second] + ([third.value] + rest));
      assert all[1] == second && all[2] == third.value && all[3..] == rest;
    }
  }

  // ----- What the scan finds and what it misses -----

  /** A client module declaration starts at token `i`. */
  predicate ClientAt(ts: seq<Token>, i: nat) {
    i + 2 < |ts| && ts[i] == MOD && NamesClient(ts[i + 1]) && OpensModule(ts[i + 2])
  }

  /** The scan takes token `i` as an operand of an earlier `mod`, so it never reads it as a `mod` of its own. */
  predicate Eaten(ts: seq<Token>, i: nat)
    requires i < |ts|
  {
    || (i >= 1 && ts[i - 1] == MOD && !Eaten(ts, i - 1))
    || (i >= 2 && ts[i - 2] == MOD && !Eaten(ts, i - 2) && ts[i - 1].Identifier?)
  }

  ghost predicate Found(ts: seq<Token>, i: nat) { ClientAt(ts, i) && !Eaten(ts, i) }

  ghost predicate FirstFrom(ts: seq<Token>, from: nat, r: Option<Text>) {
    match r
    case None => forall i :: from <= i < |ts| ==> !Found(ts, i)
    case Some(name) =>
      exists i :: from <= i < |ts| && Found(ts, i) && ts[i + 1].name == name
                  && forall j :: from <= j < i ==> !Found(ts, j)
  }

  lemma FreshAfter(ts: seq<Token>, p: nat, k: nat)
    requires p < |ts| && !Eaten(ts, p) && p + k <= |ts|
    requires if ts[p] != MOD then k == 1
             else if p + 1 < |ts| && !ts[p + 1].Identifier? then k == 2
             else k == 3 && p + 1 < |ts|
    ensures p + k < |ts| ==> !Eaten(ts, p + k)
    ensures forall j :: p < j < p + k ==> !Found(ts, j)
  {}

  lemma FirstSkips(ts: seq<Token>, p: nat, q: nat, r: Option<Text>)
    requires p <= q <= |ts| && FirstFrom(ts, q, r) && forall j :: p <= j < q ==> !Found(ts, j)
    ensures FirstFrom(ts, p, r)
  {
    hide Found;
  }

  lemma {:induction false} ScanFrom(ts: seq<Token>, p: nat)
    requires p <= |ts| && (p < |ts| ==> !Eaten(ts, p))
    ensures FirstFrom(ts, p, FindClient(ts[p..]))
    decreases |ts| - p
  {
    hide FirstFrom, Eaten, EndsWith, OpensModule;
    var s := ts[p..];
    if p == |ts| {
      NothingFrom(ts, p);
    } else if ts[p] != MOD {
      SkipTo(ts, p, 1);
    } else if p + 1 == |ts| {
      NothingFrom(ts, p);
    } else if !ts[p + 1].Identifier? {
      SkipTo(ts, p, 2);
    } else if p + 2 == |ts| {
      NothingFrom(ts, p);
    } else if NamesClient(ts[p + 1]) && OpensModule(ts[p + 2]) {
      FoundHere(ts, p);
    } else {
      assert !ClientAt(ts, p);
      SkipTo(ts, p, 3);
    }
  }

  lemma SkipTo(ts: seq<Token>, p: nat, k: nat)
    requires p < |ts| && !Eaten(ts, p) && p + k <= |ts| && !ClientAt(ts, p)
    requires if ts[p] != MOD then k == 1
             else if p + 1 < |ts| && !ts[p + 1].Identifier? then k == 2
             else k == 3 && p + 1 < |ts|
    ensures FirstFrom(ts, p, FindClient(ts[p + k..]))
    decreases |ts| - p, 0
  {
    hide FirstFrom, Eaten, NamesClient, OpensModule, FindClient;
    FreshAfter(ts, p, k);
    ScanFrom(ts, p + k);
    FirstSkips(ts, p, p + k, FindClient(ts[p + k..]));
  }

  lemma NothingFrom(ts: seq<Token>, p: nat)
    requires p <= |ts| && p + 2 >= |ts|
    ensures FirstFrom(ts, p, None)
  {}

  lemma FoundHere(ts: seq<Token>, p: nat)
    requires ClientAt(ts, p) && !Eaten(ts, p)
    ensures FirstFrom(ts, p, Some(ts[p + 1].name))
  {
    assert Found(ts, p);
  }

  /** The policy reports the first client module whose `mod` no earlier `mod` has eaten, and nothing else. */
  lemma FindsFirstUneaten(ts: seq<Token>)
    ensures FirstFrom(ts, 0, FindClient(ts))
  {
    assert ts[0..] == ts;
    ScanFrom(ts, 0);
  }

  /** A module goes unreported exactly when every declaration of one is eaten. */
  lemma MissesIffAllEaten(ts: seq<Token>)
    ensures FindClient(ts).None? <==> forall i :: 0 <= i < |ts| && ClientAt(ts, i) ==> Eaten(ts, i)
  {
    hide FindClient, Eaten, NamesClient, OpensModule;
    FindsFirstUneaten(ts);
    if FindClient(ts).None? {
      forall i | 0 <= i < |ts| && ClientAt(ts, i) ensures Eaten(ts, i) {
        assert !Found(ts, i);
      }
    } else {
      var i :| 0 <= i < |ts| && Found(ts, i);
    }
  }

  /** No `mod`, plain or raw, within two tokens of another. */
  ghost predicate ModsApart(ts: seq<Token>) {
    forall i, j :: 0 <= i < j < |ts| && j <= i + 2 && ts[i] == MOD ==> ts[j] != MOD
  }

  /** On such tokens the policy misses nothing: it reports a module exactly when there is one. */
  lemma CompleteOnModsApart(ts: seq<Token>)
    requires ModsApart(ts)
    ensures FindClient(ts).Some? <==> exists i :: 0 <= i < |ts| && ClientAt(ts, i)
  {
    hide FindClient, NamesClient, OpensModule;
    MissesIffAllEaten(ts);
    forall i | 0 <= i < |ts| && ClientAt(ts, i) ensures !Eaten(ts, i) {
      ModsApartUneaten(ts, i);
    }
  }

  lemma ModsApartUneaten(ts: seq<Token>, i: nat)
    requires ModsApart(ts) && i < |ts| && ts[i] == MOD
    ensures !Eaten(ts, i)
  {}

  /** Over printed text: whatever whitespace, comments and literals surround the items, none of it is mistaken for a
      declaration and no declaration is lost to it. */
  lemma PolicyIgnoresTrivia(es: seq<Entry>)
    requires forall i :: 0 <= i < |es| ==> ValidEntry(es[i])
    ensures FirstFrom(Tokens(es), 0, FindClient(Lex(Print(es))))
  {
    hide FirstFrom, Lex, Print, ValidEntry, FindClient;
    PrintLexes(es);
    FindsFirstUneaten(Tokens(es));
  }

  const HIDDEN: Text := "mod mod a_client ; "

  /** Two adjacent `mod`s hide the module behind the second. */
  lemma AdjacentModsHide()
    ensures ClientAt(Lex(HIDDEN), 1) && FindClient(Lex(HIDDEN)) == None
  {
    hide Lex, FindClient;
    HiddenLexes();
    HiddenScan();
  }

  lemma HiddenScan()
    ensures var ts := [MOD, MOD, Identifier("a_client"), Punctuation(';')];
            ClientAt(ts, 1) && FindClient(ts) == None
  {
    var ts := [MOD, MOD, Identifier("a_client"), Punctuation(';')];
    assert "a_client"[1..] == "_client";
    assert !EndsWith("mod", "_client");
    FindStep(Punctuation(';'), []);
    assert ts[3..] == [Punctuation(';')] + [];
    assert FindClient(ts[3..]) == None;
  }

  const MODULE: Entry := Entry(Word("mod", false), [])
  const NAME: Entry := Entry(Word("a_client", false), [])
  const END: Entry := Entry(Mark(';'), [])

  const PRINTED: seq<Entry> := [MODULE, MODULE, NAME, END]

  lemma HiddenLexes()
    ensures Lex(HIDDEN) == [MOD, MOD, Identifier("a_client"), Punctuation(';')]
  {
    hide Lex, Print, Tokens, ValidEntry;
    EntriesValid();
    HiddenPrints();
    assert forall i :: 0 <= i < |PRINTED| ==> ValidEntry(PRINTED[i]);
    PrintLexes(PRINTED);
  }

  lemma HiddenPrints()
    ensures Print(PRINTED) == HIDDEN
    ensures Tokens(PRINTED) == [MOD, MOD, Identifier("a_client"), Punctuation(';')]
  {
    hide Print, Tokens, ValidEntry, PrintItem, TokenOf;
    EntriesValid();
    TailPrints();
    OneMorePrinted(MODULE, [NAME, END]);
    OneMorePrinted(MODULE, [MODULE, NAME, END]);
    assert [MODULE] + [NAME, END] == [MODULE, NAME, END];
    assert [MODULE] + [MODULE, NAME, END] == PRINTED;
    Spelling();
  }

  lemma Spelling()
    ensures "mod" + " " + ("mod" + " " + "a_client ; ") == HIDDEN
  {}

  lemma EntriesValid()
    ensures ValidEntry(MODULE) && ValidEntry(NAME) && ValidEntry(END)
    ensures PrintItem(MODULE.item) == "mod" && TokenOf(MODULE.item) == MOD
  {
    assert "" + "mod" == "mod";
  }

  lemma TailPrints()
    ensures Print([NAME, END]) == "a_client ; "
    ensures Tokens([NAME, END]) == [Identifier("a_client"), Punctuation(';')]
  {
    hide Print, Tokens;
    NothingPrinted();
    OneMorePrinted(END, []);
    OneMorePrinted(NAME, [END]);
    assert [END] + [] == [END] && [NAME] + [END] == [NAME, END];
    assert "" + "a_client" == "a_client";
    assert [';'] + " " + [] == "; ";
    assert "a_client" + " " + "; " == "a_client ; ";
  }

  lemma OneMorePrinted(e: Entry, es: seq<Entry>)
    requires e.after == []
    ensures Print([e] + es) == PrintItem(e.item) + " " + Print(es)
    ensures Tokens([e] + es) == [TokenOf(e.item)] + Tokens(es)
  {
    assert ([e] + es)[1..] == es;
    assert PrintAll(e.after) == [];
  }

  lemma NothingPrinted()
    ensures Print([]) == [] && Tokens([]) == []
  {}
}

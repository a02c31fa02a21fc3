/**
 * The lexical analyzer: one left-to-right pass over the program text that
 * produces the token list (ended by the end marker) and enters every
 * identifier that is not a keyword into the symbol table.
 *
 * Characters are classified with ASCII predicates. The set of kind names the
 * grammar knows (`TokenKind.isAllowed`) is the parameter `keywords`.
 */
module Lexer {
  import opened Wrappers
  import opened Tokens
  import opened SymTab

  /** The lexer's per-character status: what the character at `i` starts. */
  datatype CharClass = Skip | Punctuation | Letter | Digit | Invalid

  predicate IsLetter(c: char) { 'a' <= c <= 'z' || 'A' <= c <= 'Z' }

  predicate IsDigit(c: char) { '0' <= c <= '9' }

  predicate IsLetterOrDigit(c: char) { IsLetter(c) || IsDigit(c) }

  predicate IsSpace(c: char) { c == ' ' || c == '\n' || c == '\r' || c == '\t' }

  predicate IsPunctuation(c: char) { c in ",;=+-*/()" }

  /**
   * What a character starts. Exactly the characters outside the alphabet
   * are invalid, and a letter or digit belongs to the run it starts.
   */
  function Classify(c: char): (cls: CharClass)
    ensures cls == Invalid <==> !IsSpace(c) && !IsPunctuation(c) && !IsLetterOrDigit(c)
    ensures cls == Letter || cls == Digit ==> Extends(cls, c)
  {
    if IsSpace(c) then Skip
    else if IsPunctuation(c) then Punctuation
    else if IsLetter(c) then Letter
    else if IsDigit(c) then Digit
    else Invalid
  }

  /** Which characters extend a run that started with a letter or a digit. */
  predicate Extends(cls: CharClass, c: char)
  {
    if cls == Letter then IsLetterOrDigit(c) else IsDigit(c)
  }

  /**
   * End (exclusive) of the maximal run that starts at `i`: every character
   * after `s[i]` up to the end extends the run and the next one does not.
   */
  function RunEnd(s: string, i: nat, cls: CharClass): (e: nat)
    requires i < |s|
    ensures i < e <= |s|
    ensures forall k :: i < k < e ==> Extends(cls, s[k])
    ensures e == |s| || !Extends(cls, s[e])
    decreases |s| - i
  {
    if i + 1 < |s| && Extends(cls, s[i + 1]) then RunEnd(s, i + 1, cls) else i + 1
  }

  /** The token for one punctuation character. */
  function PunctuationToken(c: char): Token
  {
    if c == ';' then Simple("Semicolon") else Simple([c])
  }

  /** A letter-initial word is a keyword token when allowed, else an `id`. */
  function WordToken(w: string, keywords: set<string>): Token
  {
    if w in keywords then Simple(w) else Normal("id", w)
  }

  /** A character the lexer rejects, and where. */
  datatype InvalidChar = InvalidChar(position: nat, c: char)

  /** What a scan produces: tokens, identifiers to declare, rejected characters. */
  datatype Scanned = Scanned(tokens: seq<Token>, idents: seq<string>, invalid: seq<InvalidChar>)

  function Then(a: Scanned, b: Scanned): Scanned
  {
    Scanned(a.tokens + b.tokens, a.idents + b.idents, a.invalid + b.invalid)
  }

  const Nothing := Scanned([], [], [])

  /** What the character at `i` contributes, and where scanning resumes. */
  function Lexeme(s: string, i: nat, keywords: set<string>): (r: (Scanned, nat))
    requires i < |s|
    ensures i < r.1 <= |s|
  {
    match Classify(s[i])
    case Skip => (Nothing, i + 1)
    case Punctuation => (Scanned([PunctuationToken(s[i])], [], []), i + 1)
    case Letter =>
      var e := RunEnd(s, i, Letter);
      var w := s[i..e];
      (Scanned([WordToken(w, keywords)], if w in keywords then [] else [w], []), e)
    case Digit =>
      var e := RunEnd(s, i, Digit);
      (Scanned([Normal("IntConst", s[i..e])], [], []), e)
    case Invalid => (Scanned([], [], [InvalidChar(i, s[i])]), i + 1)
  }

  /** Everything the scan produces from position `i` to the end. */
  function ScanFrom(s: string, i: nat, keywords: set<string>): (r: Scanned)
    requires i <= |s|
    ensures |r.idents| <= |r.tokens|
    ensures forall k :: 0 <= k < |r.invalid| ==> i <= r.invalid[k].position < |s|
    decreases |s| - i
  {
    if i == |s| then Nothing
    else
      var (piece, next) := Lexeme(s, i, keywords);
      Then(piece, ScanFrom(s, next, keywords))
  }

  /** The whole scan: at most one token or rejection per character, and never the end marker. */
  function Scan(s: string, keywords: set<string>): (r: Scanned)
    ensures |r.tokens| + |r.invalid| <= |s|
    ensures forall t :: t in r.tokens ==> WellFormed(t, keywords) && t.kindId != EofKind
  {
    ScanLength(s, 0, keywords);
    ScanWellFormed(s, 0, keywords);
    ScanFrom(s, 0, keywords)
  }

  /** Entering one identifier: an existing entry is left as it is. */
  function DeclareOne(m: map<string, Option<SourceType>>, x: string): map<string, Option<SourceType>>
  {
    if x in m then m else m[x := None]
  }

  /** The symbol table after entering `ids` in order. */
  function Declare(m: map<string, Option<SourceType>>, ids: seq<string>): (r: map<string, Option<SourceType>>)
    ensures forall x :: x in ids ==> x in r
    ensures forall x :: x in m ==> x in r && r[x] == m[x]
  {
    if ids == [] then m else DeclareOne(Declare(m, ids[..|ids| - 1]), ids[|ids| - 1])
  }

  lemma ThenAssoc(a: Scanned, b: Scanned, c: Scanned)
    ensures Then(Then(a, b), c) == Then(a, Then(b, c))
  {
    assert (a.tokens + b.tokens) + c.tokens == a.tokens + (b.tokens + c.tokens);
    assert (a.idents + b.idents) + c.idents == a.idents + (b.idents + c.idents);
    assert (a.invalid + b.invalid) + c.invalid == a.invalid + (b.invalid + c.invalid);
  }

  lemma DeclareSnoc(m: map<string, Option<SourceType>>, ids: seq<string>, x: string)
    ensures Declare(m, ids + [x]) == DeclareOne(Declare(m, ids), x)
  {
    assert (ids + [x])[..|ids|] == ids;
  }

  /** Entering at most one more identifier, as one turn of the scan does. */
  lemma DeclareShort(m: map<string, Option<SourceType>>, ids: seq<string>, more: seq<string>)
    requires |more| <= 1
    ensures Declare(m, ids + more) ==
              if more == [] then Declare(m, ids) else DeclareOne(Declare(m, ids), more[0])
  {
    if more == [] {
      assert ids + more == ids;
    } else {
      assert more == [more[0]];
      DeclareSnoc(m, ids, more[0]);
    }
  }

  // ---------------------------------------------------------------------
  // What a scanned token looks like

  predicate AllDigits(w: string) { forall k :: 0 <= k < |w| ==> IsDigit(w[k]) }

  predicate IsWord(w: string)
  {
    |w| > 0 && IsLetter(w[0]) && forall k :: 0 <= k < |w| ==> IsLetterOrDigit(w[k])
  }

  /**
   * The shapes a token can have: one punctuation character (`;` named
   * "Semicolon"), an allowed keyword, an `id` with a word that is not a
   * keyword, or an `IntConst` with a non-empty run of digits.
   */
  predicate WellFormed(t: Token, keywords: set<string>)
  {
    || (t.text == "" && (t.kindId == "Semicolon" || (|t.kindId| == 1 && t.kindId[0] != ';' && IsPunctuation(t.kindId[0]))))
    || (t.text == "" && t.kindId in keywords && IsWord(t.kindId))
    || (t.kindId == "id" && IsWord(t.text) && t.text !in keywords)
    || (t.kindId == "IntConst" && |t.text| > 0 && AllDigits(t.text))
  }

  /** Every token of a scan is well formed, and none of them is the end marker. */
  lemma {:induction false} ScanWellFormed(s: string, i: nat, keywords: set<string>)
    requires i <= |s|
    ensures forall t :: t in ScanFrom(s, i, keywords).tokens ==> WellFormed(t, keywords)
    ensures forall t :: t in ScanFrom(s, i, keywords).tokens ==> t.kindId != EofKind
    decreases |s| - i
  {
    if i < |s| {
      var (piece, next) := Lexeme(s, i, keywords);
      ScanWellFormed(s, next, keywords);
      if Classify(s[i]) == Letter {
        var e := RunEnd(s, i, Letter);
        assert IsWord(s[i..e]);
      } else if Classify(s[i]) == Digit {
        var e := RunEnd(s, i, Digit);
        assert AllDigits(s[i..e]);
      }
    }
  }

  /** A scan never yields more tokens than there are characters. */
  lemma {:induction false} ScanLength(s: string, i: nat, keywords: set<string>)
    requires i <= |s|
    ensures |ScanFrom(s, i, keywords).tokens| + |ScanFrom(s, i, keywords).invalid| <= |s| - i
    decreases |s| - i
  {
    if i < |s| {
      var (piece, next) := Lexeme(s, i, keywords);
      ScanLength(s, next, keywords);
    }
  }

  /**
   * The identifiers to declare are exactly the texts of the `id` tokens
   * built from words (a bare `id` keyword has an empty text and declares
   * nothing).
   */
  lemma {:induction false} ScanIdents(s: string, i: nat, keywords: set<string>)
    requires i <= |s|
    ensures forall x :: x in ScanFrom(s, i, keywords).idents <==>
              Normal("id", x) in ScanFrom(s, i, keywords).tokens && x != ""
    decreases |s| - i
  {
    if i < |s| {
      var (piece, next) := Lexeme(s, i, keywords);
      ScanIdents(s, next, keywords);
      ScanWellFormed(s, next, keywords);
      if Classify(s[i]) == Letter {
        var e := RunEnd(s, i, Letter);
        assert |s[i..e]| > 0;
      }
    }
  }

  /**
   * Declaring keeps every existing entry as it was and adds exactly the
   * identifiers that were missing, each with an unknown type.
   */
  lemma {:induction false} DeclareSpec(m: map<string, Option<SourceType>>, ids: seq<string>)
    ensures Declare(m, ids).Keys == m.Keys + set x | x in ids
    ensures forall x :: x in m ==> Declare(m, ids)[x] == m[x]
    ensures forall x :: x in ids && x !in m ==> Declare(m, ids)[x] == None
  {
    if ids != [] {
      var front := ids[..|ids| - 1];
      DeclareSpec(m, front);
      assert ids == front + [ids[|ids| - 1]];
    }
  }

  /** Rejected characters are reported in order, each with its position. */
  lemma {:induction false} ScanInvalid(s: string, i: nat, keywords: set<string>)
    requires i <= |s|
    ensures forall k :: 0 <= k < |ScanFrom(s, i, keywords).invalid| ==>
              var bad := ScanFrom(s, i, keywords).invalid[k];
              i <= bad.position < |s| && s[bad.position] == bad.c && Classify(bad.c) == Invalid
    ensures forall k, l :: 0 <= k < l < |ScanFrom(s, i, keywords).invalid| ==>
              ScanFrom(s, i, keywords).invalid[k].position < ScanFrom(s, i, keywords).invalid[l].position
    decreases |s| - i
  {
    if i < |s| {
      var (piece, next) := Lexeme(s, i, keywords);
      ScanInvalid(s, next, keywords);
    }
  }

  class LexicalAnalyzer {
    const symbolTable: SymbolTable
    var s: string
    var tokens: seq<Token>

    constructor (symbolTable: SymbolTable)
      ensures this.symbolTable == symbolTable && s == "" && tokens == []
    {
      this.symbolTable := symbolTable;
      s := "";
      tokens := [];
    }

    /** The effect of `loadFile` once the file's lines have been joined. */
    method Load(text: string)
      modifies this
      ensures s == text && tokens == old(tokens)
    {
      s := text;
    }

    /**
     * The inner loop of `run()` that advances over a word or a number: the
     * index of the last character of the run that starts at `i`.
     */
    method LastOfRun(i: nat, cls: CharClass) returns (p: nat)
      requires i < |s|
      ensures i <= p < |s| && p + 1 == RunEnd(s, i, cls)
    {
      p := i;
      while p + 1 < |s| && Extends(cls, s[p + 1])
        invariant i <= p < |s|
        invariant RunEnd(s, i, cls) == RunEnd(s, p, cls)
        decreases |s| - p
      {
        p := p + 1;
      }
    }

    /**
     * One turn of the loop in `run()`: the tokens, identifier and rejected
     * character that the character at `i` contributes, and the index where
     * the loop resumes.
     */
    method LexOne(i: nat, keywords: set<string>) returns (next: nat, bad: seq<InvalidChar>)
      requires i < |s|
      modifies this`tokens, symbolTable
      ensures next == Lexeme(s, i, keywords).1
      ensures tokens == old(tokens) + Lexeme(s, i, keywords).0.tokens
      ensures |Lexeme(s, i, keywords).0.idents| <= 1
      ensures symbolTable.entries ==
                if Lexeme(s, i, keywords).0.idents == [] then old(symbolTable.entries)
                else DeclareOne(old(symbolTable.entries), Lexeme(s, i, keywords).0.idents[0])
      ensures bad == Lexeme(s, i, keywords).0.invalid
    {
      bad := [];
      next := i + 1;
      var c := s[i];
      var now := Classify(c);
      match now {
        case Skip =>
        case Punctuation =>
          if c == ';' {
            tokens := tokens + [Simple("Semicolon")];
          } else {
            tokens := tokens + [Simple([c])];
          }
        case Letter =>
          var p := LastOfRun(i, Letter);
          var v := s[i..p + 1];
          if v in keywords {
            tokens := tokens + [Simple(v)];
          } else {
            tokens := tokens + [Normal("id", v)];
            var has := symbolTable.Has(v);
            if !has {
              symbolTable.Add(v);
            }
          }
          next := p + 1;
        case Digit =>
          var p := LastOfRun(i, Digit);
          tokens := tokens + [Normal("IntConst", s[i..p + 1])];
          next := p + 1;
        case Invalid =>
          bad := [InvalidChar(i, c)];
      }
    }

    /**
     * One iteration of `run()`'s loop: `LexOne`, and how the scan so far
     * grows by the character's piece.
     */
    method Advance(i: nat, keywords: set<string>, ghost done: Scanned, ghost base: seq<Token>,
                   ghost table: map<string, Option<SourceType>>)
      returns (next: nat, bad: seq<InvalidChar>, ghost done': Scanned)
      requires i < |s|
      requires Scan(s, keywords) == Then(done, ScanFrom(s, i, keywords))
      requires tokens == base + done.tokens
      requires symbolTable.entries == Declare(table, done.idents)
      modifies this`tokens, symbolTable
      ensures i < next <= |s|
      ensures Scan(s, keywords) == Then(done', ScanFrom(s, next, keywords))
      ensures tokens == base + done'.tokens
      ensures symbolTable.entries == Declare(table, done'.idents)
      ensures done'.invalid == done.invalid + bad
    {
      ghost var piece := Lexeme(s, i, keywords).0;
      ThenAssoc(done, piece, ScanFrom(s, Lexeme(s, i, keywords).1, keywords));
      next, bad := LexOne(i, keywords);
      DeclareShort(table, done.idents, piece.idents);
      done' := Then(done, piece);
    }

    /**
     * `run()`: appends the scan of `s` and the end marker to `tokens`,
     * declares the scanned identifiers, and reports the rejected characters.
     */
    method Run(keywords: set<string>) returns (invalid: seq<InvalidChar>)
      modifies this`tokens, symbolTable
      ensures s == old(s)
      ensures tokens == old(tokens) + Scan(s, keywords).tokens + [Eof()]
      ensures symbolTable.entries == Declare(old(symbolTable.entries), Scan(s, keywords).idents)
      ensures invalid == Scan(s, keywords).invalid
    {
      ghost var done := Nothing;
      invalid := [];
      var i := 0;
      while i < |s|
        invariant 0 <= i <= |s|
        invariant Scan(s, keywords) == Then(done, ScanFrom(s, i, keywords))
        invariant tokens == old(tokens) + done.tokens
        invariant symbolTable.entries == Declare(old(symbolTable.entries), done.idents)
        invariant invalid == done.invalid
        decreases |s| - i
      {
        var bad;
        i, bad, done := Advance(i, keywords, done, old(tokens), old(symbolTable.entries));
        invalid := invalid + bad;
      }
      assert ScanFrom(s, i, keywords) == Nothing;
      assert done.tokens + [] == done.tokens && done.idents + [] == done.idents && done.invalid + [] == done.invalid;
      assert Scan(s, keywords) == done;
      tokens := tokens + [Eof()];
    }
  }

  /**
   * After a run on a fresh lexer the token list ends with the end marker and
   * holds it exactly once; every token before it is well formed.
   */
  lemma RunEndsWithOneEof(before: seq<Token>, after: seq<Token>, s: string, keywords: set<string>)
    requires before == []
    requires after == before + Scan(s, keywords).tokens + [Eof()]
    ensures |after| > 0 && after[|after| - 1] == Eof()
    ensures forall k :: 0 <= k < |after| - 1 ==> after[k].kindId != EofKind && WellFormed(after[k], keywords)
  {
    ScanWellFormed(s, 0, keywords);
    forall k | 0 <= k < |after| - 1
      ensures after[k].kindId != EofKind && WellFormed(after[k], keywords)
    {
      assert after[k] in Scan(s, keywords).tokens;
    }
  }

  /**
   * After a run every identifier token of the scan is in the symbol table,
   * and entries that existed before keep their types.
   */
  lemma RunDeclaresIdents(before: map<string, Option<SourceType>>, s: string, keywords: set<string>)
    ensures forall x :: Normal("id", x) in Scan(s, keywords).tokens && x != "" ==>
              x in Declare(before, Scan(s, keywords).idents)
    ensures forall x :: x in before ==>
              x in Declare(before, Scan(s, keywords).idents) && Declare(before, Scan(s, keywords).idents)[x] == before[x]
  {
    ScanIdents(s, 0, keywords);
    DeclareSpec(before, Scan(s, keywords).idents);
  }
}

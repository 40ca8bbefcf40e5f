/** Properties of whole scans with the standard character classes: what a
    single word followed by an ignorable character records in the tables of
    a fresh scanner. */
module ScanProps {
  import opened Models
  import opened Lexer
  import opened SetsUtils
  import opened Tables
  import opened LexerProps

  /** A word of letters, followed by one ignorable character that is not the
      global-variable symbol, is a whole lexeme: a configured service word is
      finalized as a service word; otherwise an identifier longer than the
      limit stops the scan, and any other is finalized as an identifier. */
  lemma OneWord(cfg: Config, w: string, c: char)
    requires |w| >= 1 && forall k :: 0 <= k < |w| ==> w[k] in Letters()
    requires c in GenerateE() && [c] != cfg.globalVariableSymbol
    ensures var r := Lex(cfg, StandardSets(), w + [c]);
      && (w in cfg.serviceWords ==> r == Outcome([Token(w, Service)], Success))
      && (w !in cfg.serviceWords && |w| > cfg.identifierMaxLength ==> r == Outcome([], Failure(IdentifierTooLong(w))))
      && (w !in cfg.serviceWords && |w| <= cfg.identifierMaxLength ==> r == Outcome([Token(w, Identifier)], Success))
  {
    ClassesOverlap(c);
    OneWordIn(cfg, StandardSets(), w, c);
  }

  /** OneWord for any classes: a word of L-characters followed by one
      E-character that starts no lexeme. */
  lemma OneWordIn(cfg: Config, sets: Sets, w: string, c: char)
    requires |w| >= 1 && forall k :: 0 <= k < |w| ==> w[k] in sets.L
    requires c in sets.E && Ignorable(cfg, sets, c)
    ensures var r := Lex(cfg, sets, w + [c]);
      && (w in cfg.serviceWords ==> r == Outcome([Token(w, Service)], Success))
      && (w !in cfg.serviceWords && |w| > cfg.identifierMaxLength ==> r == Outcome([], Failure(IdentifierTooLong(w))))
      && (w !in cfg.serviceWords && |w| <= cfg.identifierMaxLength ==> r == Outcome([Token(w, Identifier)], Success))
  {
    var text := w + [c];
    assert text[0] == w[0];
    assert UnsetMove(cfg, sets, text, 0) == Advance([], 1, InIdentifier([w[0]]));
    assert Lex(cfg, sets, text) == Run(cfg, sets, text, 1, InIdentifier([w[0]]));
    forall k | 1 <= k < |w|
      ensures text[k] in sets.L
    {
      assert text[k] == w[k];
    }
    assert text[|w|] == c;
    IdentifierLexeme(cfg, sets, text, 1, |w|, [w[0]]);
    assert [w[0]] + text[1..|w|] == w;
    IgnorableSkipped(cfg, sets, text, |w|);
  }

  /** The first lexeme recorded by a fresh scanner, a service word or an
      identifier, lands at index 0 of its table. */
  lemma RecordFirstWord(cfg: Config, t: Token)
    requires t.kind == Service || t.kind == Identifier
    ensures var s := RecordAll(cfg, EmptyStore, [t]);
      && s.literals == [] && s.separators == []
      && (t.kind == Service ==>
            s.serviceWords == [t.text] && s.identifiers == [] && s.standardTable == [TokenAddress(1, 0)])
      && (t.kind == Identifier ==>
            s.serviceWords == [] && s.identifiers == [t.text] && s.standardTable == [TokenAddress(2, 0)])
  {
    RecordOne(cfg, EmptyStore, t);
  }

  /** Scanning such a word into a fresh scanner records it at index 0 of the
      service-word table (address (1, 0)) or of the identifier table (address
      (2, 0)), and nothing else; a too-long identifier records nothing. */
  lemma OneWordTables(cfg: Config, w: string, c: char)
    requires |w| >= 1 && forall k :: 0 <= k < |w| ==> w[k] in Letters()
    requires c in GenerateE() && [c] != cfg.globalVariableSymbol
    ensures var s := RecordAll(cfg, EmptyStore, Lex(cfg, StandardSets(), w + [c]).emitted);
      && s.literals == [] && s.separators == []
      && (w in cfg.serviceWords ==>
            s.serviceWords == [w] && s.identifiers == [] && s.standardTable == [TokenAddress(1, 0)])
      && (w !in cfg.serviceWords && |w| > cfg.identifierMaxLength ==>
            s.serviceWords == [] && s.identifiers == [] && s.standardTable == [])
      && (w !in cfg.serviceWords && |w| <= cfg.identifierMaxLength ==>
            s.serviceWords == [] && s.identifiers == [w] && s.standardTable == [TokenAddress(2, 0)])
  {
    OneWord(cfg, w, c);
    if w in cfg.serviceWords {
      RecordFirstWord(cfg, Token(w, Service));
    } else if |w| <= cfg.identifierMaxLength {
      RecordFirstWord(cfg, Token(w, Identifier));
    }
  }
}

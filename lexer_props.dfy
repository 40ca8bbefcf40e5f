/** Properties of the scanning automaton: how each kind of lexeme is built
    and ended, what a scan does with characters that start no lexeme, which
    shapes the finalized lexemes have, and what happens to a lexeme still
    being built when the input runs out. */
module LexerProps {
  import opened Models
  import opened Lexer
  import opened SetsUtils

  /** Identifier shape: a first character that is the global-variable symbol
      or a letter, then letters and digits. */
  predicate IdentifierShaped(cfg: Config, sets: Sets, w: string) {
    && |w| >= 1
    && ([w[0]] == cfg.globalVariableSymbol || w[0] in sets.L)
    && forall k :: 1 <= k < |w| ==> w[k] in sets.L || w[k] in sets.D
  }

  /** Literal shape: one or more digits. */
  predicate LiteralShaped(sets: Sets, w: string) {
    |w| >= 1 && forall k :: 0 <= k < |w| ==> w[k] in sets.D
  }

  /** Punctuation-run shape: one or more punctuation characters. */
  predicate PunctuationShaped(sets: Sets, w: string) {
    |w| >= 1 && forall k :: 0 <= k < |w| ==> w[k] in sets.P
  }

  /** The lexeme being built always has the shape of its phase. */
  predicate PhaseOk(cfg: Config, sets: Sets, phase: Phase) {
    match phase
    case Unset => true
    case InIdentifier(token) => IdentifierShaped(cfg, sets, token)
    case InLiteral(token) => LiteralShaped(sets, token)
    case InSeparator(token) => PunctuationShaped(sets, token)
  }

  /** What a finalized lexeme of each type looks like: a service word is one
      of the configured service words; an identifier is not one of them and
      is within the length limit; a literal is all digits; a separator is a
      configured operator made of punctuation that is neither comment
      marker; a comment starts with the single-line marker and has no
      carriage return after it, or runs from the start marker to the end
      marker. */
  predicate WellClassified(cfg: Config, sets: Sets, t: Token) {
    match t.kind
    case Service =>
      t.text in cfg.serviceWords && IdentifierShaped(cfg, sets, t.text)
    case Identifier =>
      && t.text !in cfg.serviceWords
      && |t.text| <= cfg.identifierMaxLength
      && IdentifierShaped(cfg, sets, t.text)
    case Literal =>
      LiteralShaped(sets, t.text)
    case Separator =>
      && t.text in cfg.operators
      && t.text != cfg.comment.single && t.text != cfg.comment.start
      && PunctuationShaped(sets, t.text)
    case Comment =>
      || (&& cfg.comment.single <= t.text
          && forall k :: |cfg.comment.single| <= k < |t.text| ==> t.text[k] != CR)
      || (&& |t.text| >= |cfg.comment.start| + |cfg.comment.end|
          && cfg.comment.start <= t.text
          && t.text[|t.text| - |cfg.comment.end|..] == cfg.comment.end)
  }

  /** Every lexeme of a sequence is well classified. */
  predicate AllWellClassified(cfg: Config, sets: Sets, ts: seq<Token>) {
    forall k {:trigger ts[k]} :: 0 <= k < |ts| ==> WellClassified(cfg, sets, ts[k])
  }

  /** A lexeme that a pass finalizes, if any, is well classified. */
  predicate EmitOk(cfg: Config, sets: Sets, m: Move) {
    m.Advance? ==> AllWellClassified(cfg, sets, m.emit)
  }

  /** A pass while an identifier is built keeps its shape, and finalizes
      only a service word or an identifier within the length limit. */
  lemma IdentifierMoveOk(cfg: Config, sets: Sets, text: string, i: nat, token: string)
    requires i < |text| && IdentifierShaped(cfg, sets, token)
    ensures var m := IdentifierMove(cfg, sets, text, i, token);
      m.Advance? ==> PhaseOk(cfg, sets, m.phase) && EmitOk(cfg, sets, m)
  {
    var c := text[i];
    if c in sets.L || c in sets.D {
      assert (token + [c])[0] == token[0];
      assert forall k :: 1 <= k < |token| ==> (token + [c])[k] == token[k];
    }
  }

  /** A pass while a literal is built keeps it all digits. */
  lemma LiteralMoveOk(cfg: Config, sets: Sets, text: string, i: nat, token: string)
    requires i < |text| && LiteralShaped(sets, token)
    ensures var m := LiteralMove(cfg, sets, text, i, token);
      m.Advance? ==> PhaseOk(cfg, sets, m.phase) && EmitOk(cfg, sets, m)
  {
  }

  /** The end of a punctuation run finalizes a well-formed multi-line comment
      or an operator that is neither comment marker. */
  lemma SeparatorEndOk(cfg: Config, sets: Sets, text: string, i: nat, token: string)
    requires i < |text| && PunctuationShaped(sets, token) && token != cfg.comment.single
    ensures EmitOk(cfg, sets, SeparatorEnd(cfg, text, i, token))
  {
    var start, end := cfg.comment.start, cfg.comment.end;
    if CommentStartCandidate(token, text[i..], |start|) == start {
      var k := i + (|start| - |token|);
      var close := FindEnd(text, k, end);
      if close.Some? {
        var w := start + text[k..close.value] + end;
        assert w[..|start|] == start;
        assert w[|w| - |end|..] == end;
      }
    }
  }

  /** A pass while a punctuation run is built keeps it punctuation, and
      finalizes a single-line comment with no carriage return after its
      marker, or whatever the end of the run finalizes. */
  lemma SeparatorMoveOk(cfg: Config, sets: Sets, text: string, i: nat, token: string)
    requires i < |text| && PunctuationShaped(sets, token)
    ensures var m := SeparatorMove(cfg, sets, text, i, token);
      m.Advance? ==> PhaseOk(cfg, sets, m.phase) && EmitOk(cfg, sets, m)
  {
    if token == cfg.comment.single {
      var j := LineEnd(text, i);
      var w := token + text[i..j];
      assert forall k :: |token| <= k < |w| ==> w[k] == text[i + k - |token|];
    } else if text[i] in sets.P {
    } else {
      SeparatorEndOk(cfg, sets, text, i, token);
    }
  }

  /** One pass keeps the phase's shape and finalizes only well-classified
      lexemes. */
  lemma NextMoveOk(cfg: Config, sets: Sets, text: string, i: nat, phase: Phase)
    requires i < |text| && PhaseOk(cfg, sets, phase)
    ensures var m := NextMove(cfg, sets, text, i, phase);
      m.Advance? ==> PhaseOk(cfg, sets, m.phase) && EmitOk(cfg, sets, m)
  {
    match phase {
      case Unset =>
      case InIdentifier(token) => IdentifierMoveOk(cfg, sets, text, i, token);
      case InLiteral(token) => LiteralMoveOk(cfg, sets, text, i, token);
      case InSeparator(token) => SeparatorMoveOk(cfg, sets, text, i, token);
    }
  }

  /** Every lexeme a scan finalizes is well classified. */
  lemma {:induction false} RunWellClassified(cfg: Config, sets: Sets, text: string, i: nat, phase: Phase)
    requires i <= |text| && PhaseOk(cfg, sets, phase)
    ensures AllWellClassified(cfg, sets, Run(cfg, sets, text, i, phase).emitted)
    decreases Measure(text, i, phase)
  {
    if i < |text| {
      var m := NextMove(cfg, sets, text, i, phase);
      NextMoveOk(cfg, sets, text, i, phase);
      if m.Advance? {
        RunWellClassified(cfg, sets, text, m.next, m.phase);
        var rest := Run(cfg, sets, text, m.next, m.phase).emitted;
        var out := m.emit + rest;
        assert Run(cfg, sets, text, i, phase).emitted == out;
        forall k | 0 <= k < |out|
          ensures WellClassified(cfg, sets, out[k])
        {
          if k < |m.emit| {
            assert out[k] == m.emit[k];
          } else {
            assert out[k] == rest[k - |m.emit|];
          }
        }
      }
    }
  }

  /** Every lexeme of a whole scan is well classified. */
  lemma LexWellClassified(cfg: Config, sets: Sets, text: string)
    ensures AllWellClassified(cfg, sets, Lex(cfg, sets, text).emitted)
  {
    RunWellClassified(cfg, sets, text, 0, Unset);
  }

  /** A character that starts no lexeme. */
  predicate Ignorable(cfg: Config, sets: Sets, c: char) {
    [c] != cfg.globalVariableSymbol && c !in sets.L && c !in sets.D && c !in sets.P
  }

  /** With no lexeme under way, characters that start no lexeme are skipped
      one by one: a span of them leaves the scan where it was, before
      whatever follows. */
  lemma {:induction false} IgnorableSpan(cfg: Config, sets: Sets, text: string, i: nat, j: nat)
    requires i <= j <= |text|
    requires forall k :: i <= k < j ==> Ignorable(cfg, sets, text[k])
    ensures Run(cfg, sets, text, i, Unset) == Run(cfg, sets, text, j, Unset)
    decreases j - i
  {
    if i < j {
      assert UnsetMove(cfg, sets, text, i) == Advance([], i + 1, Unset);
      assert Run(cfg, sets, text, i, Unset) == Run(cfg, sets, text, i + 1, Unset);
      IgnorableSpan(cfg, sets, text, i + 1, j);
    }
  }

  /** If only characters that start no lexeme remain, the scan succeeds and
      finalizes nothing. */
  lemma IgnorableSkipped(cfg: Config, sets: Sets, text: string, i: nat)
    requires i <= |text|
    requires forall k :: i <= k < |text| ==> Ignorable(cfg, sets, text[k])
    ensures Run(cfg, sets, text, i, Unset) == Outcome([], Success)
  {
    IgnorableSpan(cfg, sets, text, i, |text|);
  }

  /** With no lexeme under way, the global-variable symbol or a letter
      starts an identifier, which takes the letters and digits after it. */
  lemma IdentifierAt(cfg: Config, sets: Sets, text: string, i: nat, j: nat)
    requires i < j <= |text|
    requires [text[i]] == cfg.globalVariableSymbol || text[i] in sets.L
    requires forall k :: i < k < j ==> text[k] in sets.L || text[k] in sets.D
    ensures Run(cfg, sets, text, i, Unset) == Run(cfg, sets, text, j, InIdentifier(text[i..j]))
  {
    assert UnsetMove(cfg, sets, text, i) == Advance([], i + 1, InIdentifier([text[i]]));
    assert Run(cfg, sets, text, i, Unset) == Run(cfg, sets, text, i + 1, InIdentifier([text[i]]));
    IdentifierMunch(cfg, sets, text, i + 1, j, [text[i]]);
    ShiftOne([], text, i, j);
    RunSamePhase(cfg, sets, text, j, InIdentifier([text[i]] + text[i + 1..j]), InIdentifier(text[i..j]));
  }

  /** With no lexeme under way, a digit that is neither the global-variable
      symbol nor a letter starts a literal, which takes the digits after
      it. */
  lemma LiteralAt(cfg: Config, sets: Sets, text: string, i: nat, j: nat)
    requires i < j <= |text|
    requires text[i] in sets.D && [text[i]] != cfg.globalVariableSymbol && text[i] !in sets.L
    requires forall k :: i < k < j ==> text[k] in sets.D
    ensures Run(cfg, sets, text, i, Unset) == Run(cfg, sets, text, j, InLiteral(text[i..j]))
  {
    assert UnsetMove(cfg, sets, text, i) == Advance([], i + 1, InLiteral([text[i]]));
    assert Run(cfg, sets, text, i, Unset) == Run(cfg, sets, text, i + 1, InLiteral([text[i]]));
    LiteralMunch(cfg, sets, text, i + 1, j, [text[i]]);
    ShiftOne([], text, i, j);
    RunSamePhase(cfg, sets, text, j, InLiteral([text[i]] + text[i + 1..j]), InLiteral(text[i..j]));
  }

  /** Space, tab, carriage return and full stop are in none of L, D and P. */
  lemma BlankInNoClass(c: char)
    requires c == ' ' || c == '\t' || c == CR || c == '.'
    ensures c !in Letters() && c !in Digits() && c !in GenerateP()
  {
    LettersMembership(c);
    DigitsMembership(c);
  }

  /** With the standard classes, an input made only of spaces, tabs,
      carriage returns and full stops (none of them the global-variable
      symbol) is scanned successfully and finalizes nothing, so the tables
      stay as they were. */
  lemma BlankInputFinalizesNothing(cfg: Config, text: string)
    requires forall k :: 0 <= k < |text| ==>
      (text[k] == ' ' || text[k] == '\t' || text[k] == CR || text[k] == '.') &&
      [text[k]] != cfg.globalVariableSymbol
    ensures Lex(cfg, StandardSets(), text) == Outcome([], Success)
  {
    forall k | 0 <= k < |text|
      ensures Ignorable(cfg, StandardSets(), text[k])
    {
      BlankInNoClass(text[k]);
    }
    IgnorableSkipped(cfg, StandardSets(), text, 0);
  }

  /** Moving one character from the rest of the input onto the lexeme. */
  lemma ShiftOne(token: string, text: string, i: nat, k: nat)
    requires i < k <= |text|
    ensures token + [text[i]] + text[i + 1..k] == token + text[i..k]
  {
    assert text[i..k] == [text[i]] + text[i + 1..k];
  }

  /** Letters and digits after an identifier's start are taken greedily. */
  lemma {:induction false} IdentifierMunch(cfg: Config, sets: Sets, text: string, i: nat, j: nat, token: string)
    requires i <= j <= |text|
    requires forall k :: i <= k < j ==> text[k] in sets.L || text[k] in sets.D
    ensures Run(cfg, sets, text, i, InIdentifier(token)) == Run(cfg, sets, text, j, InIdentifier(token + text[i..j]))
    decreases j - i
  {
    if i < j {
      var token' := token + [text[i]];
      assert IdentifierMove(cfg, sets, text, i, token) == Advance([], i + 1, InIdentifier(token'));
      assert Run(cfg, sets, text, i, InIdentifier(token)) == Run(cfg, sets, text, i + 1, InIdentifier(token'));
      IdentifierMunch(cfg, sets, text, i + 1, j, token');
      ShiftOne(token, text, i, j);
    } else {
      assert token + text[i..j] == token;
    }
  }

  /** How an identifier ends. Its letters and digits run from i to j. If the
      input ends there, the identifier is dropped and the scan succeeds. If
      punctuation or an ignorable character follows, a service word is
      finalized as such without a length check, a longer identifier than
      allowed stops the scan, and any other identifier is finalized; the
      terminating character is left for the next pass. Any other character
      stops the scan. */
  lemma IdentifierLexeme(cfg: Config, sets: Sets, text: string, i: nat, j: nat, token: string)
    requires i <= j <= |text|
    requires forall k :: i <= k < j ==> text[k] in sets.L || text[k] in sets.D
    requires j < |text| ==> text[j] !in sets.L && text[j] !in sets.D
    ensures var w := token + text[i..j];
            var r := Run(cfg, sets, text, i, InIdentifier(token));
      && (j == |text| ==> r == Outcome([], Success))
      && (j < |text| && (text[j] in sets.P || text[j] in sets.E) ==>
            var rest := Run(cfg, sets, text, j, Unset);
            r == if w in cfg.serviceWords then Outcome([Token(w, Service)] + rest.emitted, rest.status)
                 else if |w| > cfg.identifierMaxLength then Outcome([], Failure(IdentifierTooLong(w)))
                 else Outcome([Token(w, Identifier)] + rest.emitted, rest.status))
      && (j < |text| && text[j] !in sets.P && text[j] !in sets.E ==>
            r == Outcome([], Failure(InvalidIdentifier(w))))
  {
    IdentifierMunch(cfg, sets, text, i, j, token);
  }

  /** Digits after a literal's start are taken greedily. */
  lemma {:induction false} LiteralMunch(cfg: Config, sets: Sets, text: string, i: nat, j: nat, token: string)
    requires i <= j <= |text|
    requires forall k :: i <= k < j ==> text[k] in sets.D
    ensures Run(cfg, sets, text, i, InLiteral(token)) == Run(cfg, sets, text, j, InLiteral(token + text[i..j]))
    decreases j - i
  {
    if i < j {
      var token' := token + [text[i]];
      assert LiteralMove(cfg, sets, text, i, token) == Advance([], i + 1, InLiteral(token'));
      assert Run(cfg, sets, text, i, InLiteral(token)) == Run(cfg, sets, text, i + 1, InLiteral(token'));
      LiteralMunch(cfg, sets, text, i + 1, j, token');
      ShiftOne(token, text, i, j);
    } else {
      assert token + text[i..j] == token;
    }
  }

  /** How a literal ends. Its digits run from i to j. If the input ends
      there, the literal is dropped and the scan succeeds; punctuation or an
      ignorable character finalizes it and is left for the next pass; any
      other character stops the scan, and the error names the literal with
      that character. */
  lemma LiteralLexeme(cfg: Config, sets: Sets, text: string, i: nat, j: nat, token: string)
    requires i <= j <= |text|
    requires forall k :: i <= k < j ==> text[k] in sets.D
    requires j < |text| ==> text[j] !in sets.D
    ensures var w := token + text[i..j];
            var r := Run(cfg, sets, text, i, InLiteral(token));
      && (j == |text| ==> r == Outcome([], Success))
      && (j < |text| && (text[j] in sets.P || text[j] in sets.E) ==>
            var rest := Run(cfg, sets, text, j, Unset);
            r == Outcome([Token(w, Literal)] + rest.emitted, rest.status))
      && (j < |text| && text[j] !in sets.P && text[j] !in sets.E ==>
            r == Outcome([], Failure(InvalidLiteral(w + [text[j]]))))
  {
    LiteralMunch(cfg, sets, text, i, j, token);
  }

  /** The punctuation run, extended by the characters from i up to some
      position before j, spells the single-line comment marker. */
  predicate ReachesSingle(cfg: Config, token: string, text: string, i: nat, j: nat)
    requires i <= j <= |text|
  {
    var n := |cfg.comment.single| - |token|;
    0 <= n < j - i && token + text[i..i + n] == cfg.comment.single
  }

  /** One punctuation character is added to a punctuation run that is not
      the single-line comment marker. */
  lemma SeparatorExtends(cfg: Config, sets: Sets, text: string, i: nat, token: string)
    requires i < |text| && text[i] in sets.P && token != cfg.comment.single
    ensures Run(cfg, sets, text, i, InSeparator(token)) == Run(cfg, sets, text, i + 1, InSeparator(token + [text[i]]))
  {
    assert SeparatorMove(cfg, sets, text, i, token) == Advance([], i + 1, InSeparator(token + [text[i]]));
  }

  /** Punctuation is added to a punctuation run as long as the run is not
      the single-line comment marker. */
  lemma {:induction false} SeparatorMunch(cfg: Config, sets: Sets, text: string, i: nat, j: nat, token: string)
    requires i <= j <= |text|
    requires forall k :: i <= k < j ==> text[k] in sets.P
    requires !ReachesSingle(cfg, token, text, i, j)
    ensures Run(cfg, sets, text, i, InSeparator(token)) == Run(cfg, sets, text, j, InSeparator(token + text[i..j]))
    decreases j - i
  {
    if i < j {
      var token' := token + [text[i]];
      assert token + text[i..i] == token;
      SeparatorExtends(cfg, sets, text, i, token);
      var n := |cfg.comment.single| - |token|;
      if 1 <= n < j - i {
        ShiftOne(token, text, i, i + n);
      }
      SeparatorMunch(cfg, sets, text, i + 1, j, token');
      ShiftOne(token, text, i, j);
    } else {
      assert token + text[i..j] == token;
    }
  }

  /** The multi-line start marker is spelled by the punctuation run followed
      by the characters from i on. */
  predicate StartsBlockComment(cfg: Config, text: string, i: nat, token: string)
    requires i <= |text|
  {
    var n := |cfg.comment.start|;
    |token| <= n && i + (n - |token|) <= |text| && token + text[i..i + (n - |token|)] == cfg.comment.start
  }

  /** How a punctuation run ends at a character that is not punctuation: if
      the run followed by the next characters spells the multi-line start
      marker, a multi-line comment follows the marker; otherwise a
      configured operator is finalized, with the character left for the
      next pass, and anything else stops the scan. */
  lemma SeparatorEndCases(cfg: Config, text: string, i: nat, token: string)
    requires i < |text|
    ensures var m := SeparatorEnd(cfg, text, i, token);
      if StartsBlockComment(cfg, text, i, token) then
        m == BlockComment(cfg, text, i + (|cfg.comment.start| - |token|))
      else if token in cfg.operators then
        m == Advance([Token(token, Separator)], i, Unset)
      else
        m == Fail(InvalidOperator(token))
  {
    StartCandidateMatches(cfg, text, i, token);
  }

  /** The comment-start candidate matches exactly when the run and the next
      characters spell the start marker: a run longer than the marker, or
      too few characters left, never matches. */
  lemma StartCandidateMatches(cfg: Config, text: string, i: nat, token: string)
    requires i <= |text|
    ensures CommentStartCandidate(token, text[i..], |cfg.comment.start|) == cfg.comment.start
            <==> StartsBlockComment(cfg, text, i, token)
  {
    var n := |cfg.comment.start|;
    if |token| <= n && i + (n - |token|) <= |text| {
      assert text[i..][..n - |token|] == text[i..i + (n - |token|)];
    }
  }

  /** How a punctuation run ends. Its punctuation runs from i to j, and it
      does not spell the single-line marker on the way. If the input ends
      there, the run is dropped and the scan succeeds. Otherwise the
      character at j is not punctuation: if the run and the characters from
      j spell the multi-line start marker, the comment after the marker
      decides the outcome; otherwise a configured operator is finalized,
      with the character at j left for the next pass, and any other run
      stops the scan. */
  lemma SeparatorLexeme(cfg: Config, sets: Sets, text: string, i: nat, j: nat, token: string)
    requires i <= j <= |text|
    requires forall k :: i <= k < j ==> text[k] in sets.P
    requires j < |text| ==> text[j] !in sets.P
    requires !ReachesSingle(cfg, token, text, i, j) && token + text[i..j] != cfg.comment.single
    ensures SeparatorEndsAs(cfg, sets, text, j, token + text[i..j], Run(cfg, sets, text, i, InSeparator(token)))
  {
    SeparatorMunch(cfg, sets, text, i, j, token);
    SeparatorEndsAt(cfg, sets, text, j, token + text[i..j]);
  }

  /** The outcome r of a scan from a complete punctuation run w at cursor j
      (the character at j, if any, not punctuation), as SeparatorLexeme
      describes it. */
  predicate SeparatorEndsAs(cfg: Config, sets: Sets, text: string, j: nat, w: string, r: Outcome)
    requires j <= |text|
  {
    && (j == |text| ==> r == Outcome([], Success))
    && (j < |text| && StartsBlockComment(cfg, text, j, w) ==>
          var m := BlockComment(cfg, text, j + (|cfg.comment.start| - |w|));
          && (m.Fail? ==> r == Outcome([], Failure(UnterminatedComment)))
          && (m.Advance? ==>
                var rest := Run(cfg, sets, text, m.next, Unset);
                r == Outcome(m.emit + rest.emitted, rest.status)))
    && (j < |text| && !StartsBlockComment(cfg, text, j, w) && w in cfg.operators ==>
          var rest := Run(cfg, sets, text, j, Unset);
          r == Outcome([Token(w, Separator)] + rest.emitted, rest.status))
    && (j < |text| && !StartsBlockComment(cfg, text, j, w) && w !in cfg.operators ==>
          r == Outcome([], Failure(InvalidOperator(w))))
  }

  /** A complete punctuation run w at cursor j ends as SeparatorEndsAs says. */
  lemma SeparatorEndsAt(cfg: Config, sets: Sets, text: string, j: nat, w: string)
    requires j <= |text| && (j < |text| ==> text[j] !in sets.P) && w != cfg.comment.single
    ensures SeparatorEndsAs(cfg, sets, text, j, w, Run(cfg, sets, text, j, InSeparator(w)))
  {
    if j < |text| {
      assert NextMove(cfg, sets, text, j, InSeparator(w)) == SeparatorEnd(cfg, text, j, w);
      SeparatorEndCases(cfg, text, j, w);
    }
  }

  /** With no lexeme under way, a punctuation character that is neither the
      global-variable symbol nor a letter or digit starts a punctuation run. */
  lemma PunctuationStarts(cfg: Config, sets: Sets, text: string, i: nat)
    requires i < |text| && text[i] in sets.P
    requires [text[i]] != cfg.globalVariableSymbol && text[i] !in sets.L && text[i] !in sets.D
    ensures Run(cfg, sets, text, i, Unset) == Run(cfg, sets, text, i + 1, InSeparator([text[i]]))
  {
    assert UnsetMove(cfg, sets, text, i) == Advance([], i + 1, InSeparator([text[i]]));
  }

  /** A single-line comment, from its marker on. When the marker starts at
      i with no lexeme under way, the comment takes every character after
      the marker up to the next carriage return, which is left for the next
      pass, and is finalized only when such a carriage return exists: a
      comment that runs to the end of the input is dropped and the scan
      succeeds. */
  lemma LineComment(cfg: Config, sets: Sets, text: string, i: nat)
    requires i + |cfg.comment.single| <= |text|
    requires text[i..i + |cfg.comment.single|] == cfg.comment.single
    requires PunctuationShaped(sets, cfg.comment.single)
    requires [text[i]] != cfg.globalVariableSymbol && text[i] !in sets.L && text[i] !in sets.D
    ensures LineCommentAs(cfg, sets, text, i + |cfg.comment.single|, Run(cfg, sets, text, i, Unset))
  {
    MarkerIsPunctuation(sets, text, i, cfg.comment.single);
    PunctuationRun(cfg, sets, text, i, i + |cfg.comment.single|);
    LineCommentAt(cfg, sets, text, i + |cfg.comment.single|, text[i..i + |cfg.comment.single|]);
    LineCommentSame(cfg, sets, text, i + |cfg.comment.single|,
      Run(cfg, sets, text, i, Unset), Run(cfg, sets, text, i + |cfg.comment.single|, InSeparator(text[i..i + |cfg.comment.single|])));
  }

  /** LineCommentAs depends on the outcome only. Stated as a lemma so that a
      caller moves the predicate from one outcome to an equal one without
      unfolding either. */
  lemma LineCommentSame(cfg: Config, sets: Sets, text: string, b: nat, r: Outcome, r': Outcome)
    requires b <= |text| && r == r' && LineCommentAs(cfg, sets, text, b, r')
    ensures LineCommentAs(cfg, sets, text, b, r)
  {
  }

  /** With no lexeme under way, punctuation from i to b that does not run
      past the single-line marker is taken as one punctuation run. */
  lemma PunctuationRun(cfg: Config, sets: Sets, text: string, i: nat, b: nat)
    requires i < b <= |text| && forall k :: i <= k < b ==> text[k] in sets.P
    requires [text[i]] != cfg.globalVariableSymbol && text[i] !in sets.L && text[i] !in sets.D
    requires !ReachesSingle(cfg, [text[i]], text, i + 1, b)
    ensures Run(cfg, sets, text, i, Unset) == Run(cfg, sets, text, b, InSeparator(text[i..b]))
  {
    PunctuationStarts(cfg, sets, text, i);
    RunAfterFirst(cfg, sets, text, i, b);
  }

  /** The punctuation run started by the character at i takes the rest of
      the punctuation up to b. */
  lemma RunAfterFirst(cfg: Config, sets: Sets, text: string, i: nat, b: nat)
    requires i < b <= |text| && forall k :: i + 1 <= k < b ==> text[k] in sets.P
    requires !ReachesSingle(cfg, [text[i]], text, i + 1, b)
    ensures Run(cfg, sets, text, i + 1, InSeparator([text[i]])) == Run(cfg, sets, text, b, InSeparator(text[i..b]))
  {
    SeparatorMunch(cfg, sets, text, i + 1, b, [text[i]]);
    ShiftOne([], text, i, b);
    RunSamePhase(cfg, sets, text, b, InSeparator([text[i]] + text[i + 1..b]), InSeparator(text[i..b]));
  }

  /** Run depends on the phase's value only. Stated as a lemma so that a
      caller rewrites the phase without unfolding Run on either side. */
  lemma RunSamePhase(cfg: Config, sets: Sets, text: string, b: nat, phase: Phase, phase': Phase)
    requires b <= |text| && phase == phase'
    ensures Run(cfg, sets, text, b, phase) == Run(cfg, sets, text, b, phase')
  {
  }

  /** Every character of a punctuation-shaped marker found at i is
      punctuation. */
  lemma MarkerIsPunctuation(sets: Sets, text: string, i: nat, marker: string)
    requires i + |marker| <= |text| && text[i..i + |marker|] == marker
    requires PunctuationShaped(sets, marker)
    ensures forall k :: i <= k < i + |marker| ==> text[k] in sets.P
  {
    forall k | i <= k < i + |marker|
      ensures text[k] in sets.P
    {
      assert text[k] == marker[k - i];
    }
  }

  /** The outcome r of a scan from the end b of a single-line marker: the
      comment is finalized up to the next carriage return, or dropped at the
      end of the input. */
  predicate LineCommentAs(cfg: Config, sets: Sets, text: string, b: nat, r: Outcome)
    requires b <= |text|
  {
    var j := LineEnd(text, b);
    && (j < |text| ==>
          var rest := Run(cfg, sets, text, j, Unset);
          r == Outcome([Token(cfg.comment.single + text[b..j], Comment)] + rest.emitted, rest.status))
    && (j == |text| ==> r == Outcome([], Success))
  }

  /** The single-line comment whose marker w ends before position b. */
  lemma LineCommentAt(cfg: Config, sets: Sets, text: string, b: nat, w: string)
    requires b <= |text| && w == cfg.comment.single
    ensures LineCommentAs(cfg, sets, text, b, Run(cfg, sets, text, b, InSeparator(w)))
  {
    if b < |text| {
      assert NextMove(cfg, sets, text, b, InSeparator(w)) == SeparatorMove(cfg, sets, text, b, w);
    }
  }

  /** With the standard classes, an input made only of characters of E (none
      of them the global-variable symbol) is scanned successfully and
      finalizes nothing. */
  lemma IgnorableInputFinalizesNothing(cfg: Config, text: string)
    requires forall k :: 0 <= k < |text| ==> text[k] in GenerateE() && [text[k]] != cfg.globalVariableSymbol
    ensures Lex(cfg, StandardSets(), text) == Outcome([], Success)
  {
    forall k | 0 <= k < |text|
      ensures Ignorable(cfg, StandardSets(), text[k])
    {
      ClassesOverlap(text[k]);
    }
    IgnorableSkipped(cfg, StandardSets(), text, 0);
  }
}

/** The scanning automaton as functions over an immutable input and a cursor.
    Run gives, for a cursor position and a scanner phase, the lexemes that the
    rest of the scan finalizes (in order, comments included) and how the scan
    ends. The imperative scanner in module Services is proved against it. */
module Lexer {
  import opened Models

  datatype Option<T> = None | Some(value: T)

  /** Comment delimiters: a single-line marker and the multi-line start and
      end markers. */
  datatype CommentConfig = CommentConfig(single: string, start: string, end: string)

  /** The configuration fields the scanner reads. */
  datatype Config = Config(
    globalVariableSymbol: string,
    serviceWords: seq<string>,
    identifierMaxLength: int,
    comment: CommentConfig,
    operators: seq<string>,
    displayComments: bool,
    realtimeOutputMode: RealtimeOutputMode)

  /** A finalized lexeme and its type. */
  datatype Token = Token(text: string, kind: TokenType)

  /** The scanner's state: no lexeme started, or a lexeme of one of three
      shapes being built. */
  datatype Phase = Unset | InIdentifier(token: string) | InLiteral(token: string) | InSeparator(token: string)

  /** The reasons a scan stops early, one per error message of the scanner. */
  datatype ScanError =
    | IdentifierTooLong(token: string)
    | InvalidIdentifier(token: string)
    | InvalidLiteral(text: string)
    | UnterminatedComment
    | InvalidOperator(token: string)

  /** Success stands for the scanner's `true`, Failure for its `null`. */
  datatype Status = Success | Failure(error: ScanError)

  /** The lexemes a scan finalizes, in order, and how it ends. */
  datatype Outcome = Outcome(emitted: seq<Token>, status: Status)

  /** Carriage return, the end of a single-line comment. */
  const CR: char := 13 as char

  function Min(a: int, b: int): int { if a <= b then a else b }

  function Max(a: int, b: int): int { if a <= b then b else a }

  /** Strict membership of a value in a list: some element equals it. */
  function InArray<T(==)>(needle: T, haystack: seq<T>): (r: bool)
    ensures r <==> exists k :: 0 <= k < |haystack| && haystack[k] == needle
  {
    needle in haystack
  }

  /** The leading part of a list taken by a slice from offset 0 with the
      given length: a non-negative length keeps at most that many elements,
      a negative one stops that many elements before the end. */
  function SlicePrefix<T>(a: seq<T>, length: int): (r: seq<T>)
    ensures |r| <= |a| && r == a[..|r|]
    ensures |r| == if length >= 0 then Min(length, |a|) else Max(0, |a| + length)
  {
    if length >= 0 then a[..Min(length, |a|)] else a[..Max(0, |a| + length)]
  }

  /** The current punctuation run followed by as many of the remaining
      characters as would complete a multi-line start marker of length n.
      It has length n exactly when the run is no longer than n and enough
      characters remain, and then it is the run followed by the next n - |token|
      characters. */
  function CommentStartCandidate(token: string, rest: string, n: nat): (r: string)
    ensures |r| == n <==> |token| <= n && n - |token| <= |rest|
    ensures |r| == n ==> r == token + rest[..n - |token|]
  {
    token + SlicePrefix(rest, n - |token|)
  }

  /** The end marker occurs in text at position p. */
  predicate EndsAt(text: string, p: nat, end: string) {
    p + |end| <= |text| && text[p..p + |end|] == end
  }

  /** The position of the first carriage return at or after i, or |text|. */
  function LineEnd(text: string, i: nat): (j: nat)
    requires i <= |text|
    ensures i <= j <= |text|
    ensures forall k :: i <= k < j ==> text[k] != CR
    ensures j < |text| ==> text[j] == CR
    decreases |text| - i
  {
    if i == |text| || text[i] == CR then i else LineEnd(text, i + 1)
  }

  /** The first position at or after m where the end marker starts, if the
      marker is found before the input runs out. */
  function FindEnd(text: string, m: nat, end: string): (r: Option<nat>)
    requires m <= |text|
    ensures r.Some? ==> m <= r.value < |text| && EndsAt(text, r.value, end)
    ensures r.Some? ==> forall q :: m <= q < r.value ==> !EndsAt(text, q, end)
    ensures r.None? ==> forall q :: m <= q < |text| ==> !EndsAt(text, q, end)
    decreases |text| - m
  {
    if m == |text| then None
    else if EndsAt(text, m, end) then Some(m)
    else FindEnd(text, m + 1, end)
  }

  /** What one pass of the scanning loop does: record the finalized lexemes
      (at most one) and carry on from a new cursor position and phase, or
      stop with an error. */
  datatype Move = Advance(emit: seq<Token>, next: nat, phase: Phase) | Fail(error: ScanError)

  /** The quantity every pass decreases: a pass either consumes a character
      or leaves a lexeme state for Unset without consuming one. */
  function Measure(text: string, i: nat, phase: Phase): int {
    2 * (|text| - i) + (if phase.Unset? then 0 else 1)
  }

  /** The most lexemes the rest of a scan can finalize: one per remaining
      character, plus the one under way. */
  function Budget(text: string, i: nat, phase: Phase): int {
    |text| - i + (if phase.Unset? then 0 else 1)
  }

  /** One pass of the scanning loop on the character at cursor i, in the
      given phase. */
  function NextMove(cfg: Config, sets: Sets, text: string, i: nat, phase: Phase): (m: Move)
    requires i < |text|
    ensures m.Advance? ==> i <= m.next <= |text| && Measure(text, m.next, m.phase) < Measure(text, i, phase)
    ensures m.Advance? ==> |m.emit| <= 1
  {
    match phase
    case Unset => UnsetMove(cfg, sets, text, i)
    case InIdentifier(token) => IdentifierMove(cfg, sets, text, i, token)
    case InLiteral(token) => LiteralMove(cfg, sets, text, i, token)
    case InSeparator(token) => SeparatorMove(cfg, sets, text, i, token)
  }

  /** A pass with no lexeme under way: the character is consumed, and starts
      an identifier (the global-variable symbol or a letter, checked first),
      a literal (a digit) or a punctuation run, or is skipped. */
  function UnsetMove(cfg: Config, sets: Sets, text: string, i: nat): (m: Move)
    requires i < |text|
    ensures m.Advance? && m.next == i + 1 && m.emit == []
  {
    var c := text[i];
    if [c] == cfg.globalVariableSymbol || InArray(c, sets.L) then Advance([], i + 1, InIdentifier([c]))
    else if InArray(c, sets.D) then Advance([], i + 1, InLiteral([c]))
    else if InArray(c, sets.P) then Advance([], i + 1, InSeparator([c]))
    else Advance([], i + 1, Unset)
  }

  /** A pass while an identifier is being built: letters and digits extend
      it; punctuation or an ignorable character ends it, leaving that
      character in place; anything else is an error. */
  function IdentifierMove(cfg: Config, sets: Sets, text: string, i: nat, token: string): (m: Move)
    requires i < |text|
    ensures m.Advance? ==> (m.next == i + 1 && m.emit == [] && m.phase.InIdentifier?) ||
                           (m.next == i && |m.emit| == 1 && m.phase.Unset?)
  {
    var c := text[i];
    if InArray(c, sets.L) || InArray(c, sets.D) then
      Advance([], i + 1, InIdentifier(token + [c]))
    else if InArray(c, sets.P) || InArray(c, sets.E) then
      if InArray(token, cfg.serviceWords) then Advance([Token(token, Service)], i, Unset)
      else if |token| > cfg.identifierMaxLength then Fail(IdentifierTooLong(token))
      else Advance([Token(token, Identifier)], i, Unset)
    else
      Fail(InvalidIdentifier(token))
  }

  /** A pass while a literal is being built: digits extend it; punctuation
      or an ignorable character ends it, leaving that character in place;
      anything else is an error that names the literal with the character. */
  function LiteralMove(cfg: Config, sets: Sets, text: string, i: nat, token: string): (m: Move)
    requires i < |text|
    ensures m.Advance? ==> (m.next == i + 1 && m.emit == [] && m.phase.InLiteral?) ||
                           (m.next == i && |m.emit| == 1 && m.phase.Unset?)
  {
    var c := text[i];
    if InArray(c, sets.D) then Advance([], i + 1, InLiteral(token + [c]))
    else if InArray(c, sets.P) || InArray(c, sets.E) then Advance([Token(token, Literal)], i, Unset)
    else Fail(InvalidLiteral(token + [c]))
  }

  /** A pass while a punctuation run is being built. A run equal to the
      single-line marker becomes a comment up to the next carriage return,
      recorded only if one is found; otherwise punctuation extends the run,
      and any other character ends it. */
  function SeparatorMove(cfg: Config, sets: Sets, text: string, i: nat, token: string): (m: Move)
    requires i < |text|
    ensures m.Advance? ==> i <= m.next <= |text| && |m.emit| <= 1
    ensures m.Advance? ==> (m.next == i + 1 && m.phase.InSeparator?) || (m.next >= i && m.phase.Unset?)
  {
    var c := text[i];
    if token == cfg.comment.single then
      var j := LineEnd(text, i);
      Advance(if j < |text| then [Token(token + text[i..j], Comment)] else [], j, Unset)
    else if InArray(c, sets.P) then
      Advance([], i + 1, InSeparator(token + [c]))
    else
      SeparatorEnd(cfg, text, i, token)
  }

  /** The end of a punctuation run at a character that is not punctuation:
      when the run and the characters after it spell the multi-line start
      marker, the comment runs through the first end marker after the start
      marker, and is an error if there is none; otherwise a configured
      operator is finalized, leaving the character in place, and any other
      run is an error. */
  function SeparatorEnd(cfg: Config, text: string, i: nat, token: string): (m: Move)
    requires i < |text|
    ensures m.Advance? ==> i <= m.next <= |text| && |m.emit| == 1 && m.phase.Unset?
  {
    if CommentStartCandidate(token, text[i..], |cfg.comment.start|) == cfg.comment.start then
      BlockComment(cfg, text, i + (|cfg.comment.start| - |token|))
    else if InArray(token, cfg.operators) then
      Advance([Token(token, Separator)], i, Unset)
    else
      Fail(InvalidOperator(token))
  }

  /** A multi-line comment whose start marker ends before position k: it
      runs through the first end marker at or after k, and is an error when
      the input has none. */
  function BlockComment(cfg: Config, text: string, k: nat): (m: Move)
    requires k <= |text|
    ensures m.Advance? ==> k <= m.next <= |text| && |m.emit| == 1 && m.phase.Unset?
    ensures m.Fail? ==> m.error == UnterminatedComment
    ensures m.Advance? ==>
              && k + |cfg.comment.end| <= m.next
              && m.emit == [Token(cfg.comment.start + text[k..m.next - |cfg.comment.end|] + cfg.comment.end, Comment)]
  {
    match FindEnd(text, k, cfg.comment.end)
    case None => Fail(UnterminatedComment)
    case Some(close) =>
      Advance([Token(cfg.comment.start + text[k..close] + cfg.comment.end, Comment)], close + |cfg.comment.end|, Unset)
  }

  /** A multi-line comment closes at the first end marker at or after k, and
      the scan fails exactly when no end marker follows. */
  lemma BlockCommentSpan(cfg: Config, text: string, k: nat)
    requires k <= |text|
    ensures var m := BlockComment(cfg, text, k);
      && (m.Fail? <==> forall q :: k <= q < |text| ==> !EndsAt(text, q, cfg.comment.end))
      && (m.Advance? ==>
            var p := m.next - |cfg.comment.end|;
            && k <= p < |text| && EndsAt(text, p, cfg.comment.end)
            && forall q :: k <= q < p ==> !EndsAt(text, q, cfg.comment.end))
  {
  }

  /** The rest of a scan from cursor i in the given phase: the lexemes it
      finalizes, in order, and how it ends. A lexeme still being built when
      the input runs out is dropped and the scan succeeds. */
  function Run(cfg: Config, sets: Sets, text: string, i: nat, phase: Phase): (r: Outcome)
    requires i <= |text|
    decreases Measure(text, i, phase)
  {
    if i == |text| then Outcome([], Success)
    else
      match NextMove(cfg, sets, text, i, phase)
      case Fail(e) => Outcome([], Failure(e))
      case Advance(emit, next, phase') =>
        var rest := Run(cfg, sets, text, next, phase');
        Outcome(emit + rest.emitted, rest.status)
  }

  /** A whole scan of one input. */
  function Lex(cfg: Config, sets: Sets, text: string): Outcome {
    Run(cfg, sets, text, 0, Unset)
  }

  /** The rest of a scan finalizes at most one lexeme per remaining
      character, plus the one under way. */
  lemma {:induction false} RunBudget(cfg: Config, sets: Sets, text: string, i: nat, phase: Phase)
    requires i <= |text|
    ensures |Run(cfg, sets, text, i, phase).emitted| <= Budget(text, i, phase)
    decreases Measure(text, i, phase)
  {
    if i < |text| {
      match NextMove(cfg, sets, text, i, phase)
      case Fail(_) =>
      case Advance(_, next, phase') =>
        NextMoveBudget(cfg, sets, text, i, phase);
        RunBudget(cfg, sets, text, next, phase');
    }
  }

  /** A pass never finalizes more lexemes than the budget it uses up. */
  lemma NextMoveBudget(cfg: Config, sets: Sets, text: string, i: nat, phase: Phase)
    requires i < |text|
    ensures var m := NextMove(cfg, sets, text, i, phase);
      m.Advance? ==> |m.emit| + Budget(text, m.next, m.phase) <= Budget(text, i, phase)
  {
    if phase.Unset? {
      assert NextMove(cfg, sets, text, i, phase) == UnsetMove(cfg, sets, text, i);
    }
  }

  /** A whole scan finalizes at most one lexeme per input character. */
  lemma LexBudget(cfg: Config, sets: Sets, text: string)
    ensures |Lex(cfg, sets, text).emitted| <= |text|
  {
    RunBudget(cfg, sets, text, 0, Unset);
  }
}

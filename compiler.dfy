/** The scanner object: the four symbol tables, the standard table and the
    realtime output are fields that scanning updates in place. */
module Services {
  import opened Models
  import opened Lexer
  import opened Tables

  class Compiler {
    const config: Config
    const sets: Sets

    var headerWasPrint: bool
    var standardTable: seq<TokenAddress>
    var serviceWords: seq<string>   // table 1
    var identifiers: seq<string>    // table 2
    var literals: seq<string>       // table 3
    var separators: seq<string>     // table 4
    /** What the realtime output has written so far. */
    var output: seq<OutputLine>

    /** The recorded state as a value. */
    ghost function Snapshot(): Store
      reads this
    {
      Store(serviceWords, identifiers, literals, separators, standardTable, headerWasPrint, output)
    }

    /** Every address points into its table, one address per table entry,
        and the realtime output is well formed. */
    ghost predicate Valid()
      reads this
    {
      WellAddressed(Snapshot()) && OutputOk(config, Snapshot())
    }

    /** A scanner starts with empty tables and no output. */
    constructor (config: Config, sets: Sets)
      ensures this.config == config && this.sets == sets
      ensures Snapshot() == EmptyStore
      ensures Valid()
    {
      this.config := config;
      this.sets := sets;
      headerWasPrint := false;
      standardTable := [];
      serviceWords := [];
      identifiers := [];
      literals := [];
      separators := [];
      output := [];
    }

    /** Scans one input. The lexemes finalized before the scan ends, and only
        they, are recorded in order, whether the scan succeeds or fails; the
        tables keep whatever earlier scans recorded. */
    method Scan(inputFileData: string) returns (status: Status)
      requires Valid()
      modifies this
      ensures Valid()
      ensures status == Lex(config, sets, inputFileData).status
      ensures Snapshot() == RecordAll(config, old(Snapshot()), Lex(config, sets, inputFileData).emitted)
    {
      var text := inputFileData;
      var i := 0;
      var phase := Unset;
      ghost var start := Snapshot();
      ghost var whole := Lex(config, sets, text);
      while i < |text|
        invariant i <= |text|
        invariant Valid()
        invariant RecordAll(config, Snapshot(), Run(config, sets, text, i, phase).emitted) == RecordAll(config, start, whole.emitted)
        invariant Run(config, sets, text, i, phase).status == whole.status
        decreases Measure(text, i, phase)
      {
        ghost var before := Snapshot();
        var move := Step(text, i, phase);
        match move {
          case Fail(error) =>
            return Failure(error);
          case Advance(emit, next, phase') =>
            RecordAllAppend(config, before, emit, Run(config, sets, text, next, phase').emitted);
            i, phase := next, phase';
        }
      }
      status := Success;
    }

    /** One pass of the scanning loop. It looks at the character at cursor i
        and either consumes it, or finalizes the lexeme being built (leaving
        the character in place), or consumes a whole comment, or stops with an
        error; what it records is exactly the lexemes the pass finalizes. */
    method Step(text: string, i: nat, phase: Phase) returns (move: Move)
      requires Valid() && i < |text|
      modifies this
      ensures Valid()
      ensures move == NextMove(config, sets, text, i, phase)
      ensures Snapshot() == RecordAll(config, old(Snapshot()), if move.Advance? then move.emit else [])
    {
      match phase {
        case Unset =>
          var c := text[i];
          if [c] == config.globalVariableSymbol || InArray(c, sets.L) {
            move := Advance([], i + 1, InIdentifier([c]));
          } else if InArray(c, sets.D) {
            move := Advance([], i + 1, InLiteral([c]));
          } else if InArray(c, sets.P) {
            move := Advance([], i + 1, InSeparator([c]));
          } else {
            move := Advance([], i + 1, Unset);
          }
        case InIdentifier(token) =>
          move := StepIdentifier(text, i, token);
        case InLiteral(token) =>
          move := StepLiteral(text, i, token);
        case InSeparator(token) =>
          move := StepSeparator(text, i, token);
      }
    }

    /** A pass while an identifier is being built. */
    method StepIdentifier(text: string, i: nat, token: string) returns (move: Move)
      requires Valid() && i < |text|
      modifies this
      ensures Valid()
      ensures move == IdentifierMove(config, sets, text, i, token)
      ensures Snapshot() == RecordAll(config, old(Snapshot()), if move.Advance? then move.emit else [])
    {
      var c := text[i];
      if InArray(c, sets.L) || InArray(c, sets.D) {
        move := Advance([], i + 1, InIdentifier(token + [c]));
      } else if InArray(c, sets.P) || InArray(c, sets.E) {
        var kind := Identifier;
        if InArray(token, config.serviceWords) {
          kind := Service;
        } else if |token| > config.identifierMaxLength {
          return Fail(IdentifierTooLong(token));
        }
        AddToken(token, kind);
        move := Advance([Token(token, kind)], i, Unset);
        RecordOne(config, old(Snapshot()), Token(token, kind));
      } else {
        move := Fail(InvalidIdentifier(token));
      }
    }

    /** A pass while a literal is being built. */
    method StepLiteral(text: string, i: nat, token: string) returns (move: Move)
      requires Valid() && i < |text|
      modifies this
      ensures Valid()
      ensures move == LiteralMove(config, sets, text, i, token)
      ensures Snapshot() == RecordAll(config, old(Snapshot()), if move.Advance? then move.emit else [])
    {
      var c := text[i];
      if InArray(c, sets.D) {
        move := Advance([], i + 1, InLiteral(token + [c]));
      } else if InArray(c, sets.P) || InArray(c, sets.E) {
        AddToken(token, Literal);
        move := Advance([Token(token, Literal)], i, Unset);
        RecordOne(config, old(Snapshot()), Token(token, Literal));
      } else {
        move := Fail(InvalidLiteral(token + [c]));
      }
    }

    /** A pass while a punctuation run is being built: it may turn out to be
        a single-line comment, grow, open a multi-line comment, be finalized
        as an operator, or be rejected. */
    method StepSeparator(text: string, i: nat, token: string) returns (move: Move)
      requires Valid() && i < |text|
      modifies this
      ensures Valid()
      ensures move == SeparatorMove(config, sets, text, i, token)
      ensures Snapshot() == RecordAll(config, old(Snapshot()), if move.Advance? then move.emit else [])
    {
      var c := text[i];
      if token == config.comment.single {
        var j := LineCommentEnd(text, i);
        if j < |text| {
          var comment := token + text[i..j];
          AddToken(comment, Comment);
          move := Advance([Token(comment, Comment)], j, Unset);
          RecordOne(config, old(Snapshot()), Token(comment, Comment));
        } else {
          move := Advance([], j, Unset);
        }
      } else if InArray(c, sets.P) {
        move := Advance([], i + 1, InSeparator(token + [c]));
      } else {
        move := StepSeparatorEnd(text, i, token);
      }
    }

    /** The end of a punctuation run at a character that is not
        punctuation: a multi-line comment, an operator, or an error. */
    method StepSeparatorEnd(text: string, i: nat, token: string) returns (move: Move)
      requires Valid() && i < |text|
      modifies this
      ensures Valid()
      ensures move == SeparatorEnd(config, text, i, token)
      ensures Snapshot() == RecordAll(config, old(Snapshot()), if move.Advance? then move.emit else [])
    {
      var commentConfig := config.comment;
      var commentStartLength := |commentConfig.start|;
      var candidate := CommentStartCandidate(token, text[i..], commentStartLength);
      if candidate == commentConfig.start {
        move := StepBlockComment(text, i + (commentStartLength - |token|));
      } else if InArray(token, config.operators) {
        AddToken(token, Separator);
        move := Advance([Token(token, Separator)], i, Unset);
        RecordOne(config, old(Snapshot()), Token(token, Separator));
      } else {
        move := Fail(InvalidOperator(token));
      }
    }

    /** A multi-line comment whose start marker ends before position k: it is
        recorded, start marker, body and end marker, once the end marker is
        found; without one the scan fails. */
    method StepBlockComment(text: string, k: nat) returns (move: Move)
      requires Valid() && k <= |text|
      modifies this
      ensures Valid()
      ensures move == BlockComment(config, text, k)
      ensures Snapshot() == RecordAll(config, old(Snapshot()), if move.Advance? then move.emit else [])
    {
      var commentConfig := config.comment;
      var close := BlockCommentEnd(text, k, commentConfig.end);
      if close.None? {
        return Fail(UnterminatedComment);
      }
      var comment := commentConfig.start + text[k..close.value] + commentConfig.end;
      AddToken(comment, Comment);
      move := Advance([Token(comment, Comment)], close.value + |commentConfig.end|, Unset);
      RecordOne(config, old(Snapshot()), Token(comment, Comment));
    }

    /** The end of a single-line comment that starts before cursor i: the
        cursor moves over every character up to the next carriage return, or
        to the end of the input. */
    method LineCommentEnd(text: string, i: nat) returns (j: nat)
      requires i <= |text|
      ensures j == LineEnd(text, i)
      ensures i <= j <= |text| && (j < |text| ==> text[j] == CR)
    {
      j := i;
      while j < |text| && text[j] != CR
        invariant i <= j <= |text|
        invariant forall k :: i <= k < j ==> text[k] != CR
      {
        j := j + 1;
      }
    }

    /** The position of the end marker of a multi-line comment whose body
        starts at k: the cursor moves forward until the end marker starts
        there, or the input runs out. */
    method BlockCommentEnd(text: string, k: nat, end: string) returns (close: Option<nat>)
      requires k <= |text|
      ensures close == FindEnd(text, k, end)
      ensures close.Some? ==> k <= close.value < |text| && EndsAt(text, close.value, end)
    {
      var m := k;
      while m < |text| && !EndsAt(text, m, end)
        invariant k <= m <= |text|
        invariant forall q :: k <= q < m ==> !EndsAt(text, q, end)
      {
        m := m + 1;
      }
      close := if m == |text| then None else Some(m);
    }

    /** Records one finalized lexeme: a comment is dropped unless comments
        are displayed; otherwise it is echoed, and a lexeme of a table type
        is appended to its table with its address appended to the standard
        table. */
    method AddToken(token: string, kind: TokenType)
      requires Valid()
      modifies this
      ensures Valid()
      ensures Snapshot() == Record(config, old(Snapshot()), Token(token, kind))
    {
      ghost var before := Snapshot();
      ghost var t := Token(token, kind);
      RecordKeepsAddresses(config, before, t);
      RecordKeepsOutput(config, before, t);
      if !config.displayComments && kind == Comment {
        return;
      }
      RealtimeOutput(token, kind);
      StoreInTable(token, kind);
    }

    /** Appends a lexeme to the table of its type, and the lexeme's address
        (table number, index in the table) to the standard table. */
    method StoreInTable(token: string, kind: TokenType)
      modifies this
      ensures Snapshot() == AppendToTable(old(Snapshot()), Token(token, kind))
    {
      match kind {
        case Service =>
          serviceWords := serviceWords + [token];
          standardTable := standardTable + [TokenAddress(TableNumberOf(kind), |serviceWords| - 1)];
        case Identifier =>
          identifiers := identifiers + [token];
          standardTable := standardTable + [TokenAddress(TableNumberOf(kind), |identifiers| - 1)];
        case Literal =>
          literals := literals + [token];
          standardTable := standardTable + [TokenAddress(TableNumberOf(kind), |literals| - 1)];
        case Separator =>
          separators := separators + [token];
          standardTable := standardTable + [TokenAddress(TableNumberOf(kind), |separators| - 1)];
        case Comment =>
      }
    }

    /** Echoes one lexeme according to the realtime output mode; the header
        is written once, before the first row. */
    method RealtimeOutput(token: string, kind: TokenType)
      modifies this`headerWasPrint, this`output
      ensures Snapshot() == Echo(config.realtimeOutputMode, old(Snapshot()), Token(token, kind))
    {
      match config.realtimeOutputMode {
        case TokensWithHeader =>
          if !headerWasPrint {
            output := output + [Header];
            headerWasPrint := true;
          }
          output := output + [Row(token, ShownAs(kind))];
        case OnlyTokens =>
          output := output + [Row(token, ShownAs(kind))];
        case Off =>
      }
    }
  }
}

/** Plain data definitions of the scanner: token types, addresses into the
    symbol tables, the realtime output mode and the four character classes. */
module Models {

  /** The kind of a finalized lexeme. Service is an identifier-shaped lexeme
      found in the configured list of service words; Comment is never stored
      in a table. */
  datatype TokenType = Identifier | Literal | Separator | Service | Comment {

    /** The display label each case carries. */
    function Value(): string {
      match this
      case Identifier => "Идентификатор"
      case Literal => "Литерал"
      case Separator => "Разделитель"
      case Service => "Служебное слово"
      case Comment => "Комментарий"
    }
  }

  /** The enum's backing values: different token types carry different
      labels, and no label is empty. The labels only appear in the printed
      text, which this model leaves out. */
  lemma LabelsDistinct(a: TokenType, b: TokenType)
    ensures |a.Value()| > 0
    ensures a.Value() == b.Value() <==> a == b
  {
  }

  /** Position of one recorded lexeme: table number (1..4) and index in it. */
  datatype TokenAddress = TokenAddress(table: int, number: int)

  /** How finalized lexemes are echoed while scanning. */
  datatype RealtimeOutputMode = Off | OnlyTokens | TokensWithHeader

  /** The character classes: letters L, digits D, punctuation P and
      ignorable characters E, each an ordered list of one-byte characters. */
  datatype Sets = Sets(L: seq<char>, D: seq<char>, P: seq<char>, E: seq<char>)
}

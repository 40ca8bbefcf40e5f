/** The symbol tables and the standard table, as a value, and what recording
    one finalized lexeme does to them. The class in module Services holds the
    same fields and is proved to change them exactly as Record says. */
module Tables {
  import opened Models
  import opened Lexer

  /** One line of the realtime output: the column header, or a lexeme with
      the type shown for it. */
  datatype OutputLine = Header | Row(text: string, shown: TokenType)

  /** The scanner's recorded state: four append-only tables, the standard
      table of addresses in scan order, and the realtime output so far. */
  datatype Store = Store(
    serviceWords: seq<string>,
    identifiers: seq<string>,
    literals: seq<string>,
    separators: seq<string>,
    standardTable: seq<TokenAddress>,
    headerWasPrint: bool,
    output: seq<OutputLine>)

  /** The state of a newly constructed scanner. */
  const EmptyStore: Store := Store([], [], [], [], [], false, [])

  /** The number of the table a lexeme type is stored in: service words 1,
      identifiers 2, literals 3, separators 4. */
  function TableNumberOf(kind: TokenType): (n: int)
    requires kind != Comment
    ensures 1 <= n <= 4
  {
    match kind
    case Service => 1
    case Identifier => 2
    case Literal => 3
    case Separator => 4
  }

  /** The table with the given number: the number is a position in the list
      service words, identifiers, literals, separators, counted from 1. */
  function TableByNumber(s: Store, number: int): (r: seq<string>)
    requires 1 <= number <= 4
    ensures r == [s.serviceWords, s.identifiers, s.literals, s.separators][number - 1]
  {
    if number == 1 then s.serviceWords
    else if number == 2 then s.identifiers
    else if number == 3 then s.literals
    else s.separators
  }

  /** The numbering is one to one: each of the numbers 1..4 names the table
      of exactly one lexeme type, and the table with that number is the
      table of that type. */
  lemma TableNumbering(s: Store, kind: TokenType)
    requires kind != Comment
    ensures forall other :: other != Comment && TableNumberOf(other) == TableNumberOf(kind) ==> other == kind
    ensures kind == Service ==> TableByNumber(s, TableNumberOf(kind)) == s.serviceWords
    ensures kind == Identifier ==> TableByNumber(s, TableNumberOf(kind)) == s.identifiers
    ensures kind == Literal ==> TableByNumber(s, TableNumberOf(kind)) == s.literals
    ensures kind == Separator ==> TableByNumber(s, TableNumberOf(kind)) == s.separators
  {
  }

  /** The total number of entries in the four tables. */
  function TableSizes(s: Store): nat {
    |s.serviceWords| + |s.identifiers| + |s.literals| + |s.separators|
  }

  /** Every address points into its table, and there is one address per
      table entry. */
  ghost predicate WellAddressed(s: Store) {
    && (forall k :: 0 <= k < |s.standardTable| ==>
          1 <= s.standardTable[k].table <= 4 &&
          0 <= s.standardTable[k].number < |TableByNumber(s, s.standardTable[k].table)|)
    && |s.standardTable| == TableSizes(s)
  }

  /** The text an entry of the standard table points at. */
  function Deref(s: Store, k: nat): string
    requires WellAddressed(s) && k < |s.standardTable|
  {
    TableByNumber(s, s.standardTable[k].table)[s.standardTable[k].number]
  }

  /** The type a lexeme is shown under: service words are shown as
      identifiers. */
  function ShownAs(kind: TokenType): (shown: TokenType)
    ensures shown != Service
    ensures kind != Service ==> shown == kind
    ensures kind == Service ==> shown == Identifier
  {
    if kind == Service then Identifier else kind
  }

  /** Realtime output of one lexeme: in TokensWithHeader mode the header
      once, before anything else, then a row; in OnlyTokens mode a row;
      nothing when Off. */
  function Echo(mode: RealtimeOutputMode, s: Store, t: Token): (r: Store)
    ensures r.(output := s.output, headerWasPrint := s.headerWasPrint) == s
    ensures mode.Off? ==> r == s
    ensures !mode.Off? ==> |r.output| > 0 && r.output[|r.output| - 1] == Row(t.text, ShownAs(t.kind))
    ensures mode.OnlyTokens? ==> r.output == s.output + [Row(t.text, ShownAs(t.kind))]
    ensures mode.TokensWithHeader? ==> r.headerWasPrint
    ensures mode.TokensWithHeader? && s.headerWasPrint ==> r.output == s.output + [Row(t.text, ShownAs(t.kind))]
    ensures mode.TokensWithHeader? && !s.headerWasPrint ==> r.output == s.output + [Header, Row(t.text, ShownAs(t.kind))]
  {
    match mode
    case TokensWithHeader =>
      var h := if !s.headerWasPrint then s.(output := s.output + [Header], headerWasPrint := true) else s;
      h.(output := h.output + [Row(t.text, ShownAs(t.kind))])
    case OnlyTokens =>
      s.(output := s.output + [Row(t.text, ShownAs(t.kind))])
    case Off =>
      s
  }

  /** Appending a lexeme to the table of its type, and its address to the
      standard table; a comment changes nothing. */
  function AppendToTable(s: Store, t: Token): (r: Store)
    ensures t.kind == Comment ==> r == s
    ensures t.kind != Comment ==>
              && TableByNumber(r, TableNumberOf(t.kind)) == TableByNumber(s, TableNumberOf(t.kind)) + [t.text]
              && (forall n :: 1 <= n <= 4 && n != TableNumberOf(t.kind) ==> TableByNumber(r, n) == TableByNumber(s, n))
              && r.standardTable == s.standardTable + [TokenAddress(TableNumberOf(t.kind), |TableByNumber(s, TableNumberOf(t.kind))|)]
              && r.output == s.output && r.headerWasPrint == s.headerWasPrint
  {
    match t.kind
    case Service =>
      var table := s.serviceWords + [t.text];
      s.(serviceWords := table, standardTable := s.standardTable + [TokenAddress(TableNumberOf(t.kind), |table| - 1)])
    case Identifier =>
      var table := s.identifiers + [t.text];
      s.(identifiers := table, standardTable := s.standardTable + [TokenAddress(TableNumberOf(t.kind), |table| - 1)])
    case Literal =>
      var table := s.literals + [t.text];
      s.(literals := table, standardTable := s.standardTable + [TokenAddress(TableNumberOf(t.kind), |table| - 1)])
    case Separator =>
      var table := s.separators + [t.text];
      s.(separators := table, standardTable := s.standardTable + [TokenAddress(TableNumberOf(t.kind), |table| - 1)])
    case Comment =>
      s
  }

  /** Recording one finalized lexeme. A comment is dropped when comments are
      not displayed; otherwise the lexeme is echoed, and a lexeme of one of
      the four table types is appended to its table with its address
      appended to the standard table. A comment never reaches a table. */
  function Record(cfg: Config, s: Store, t: Token): (r: Store)
    ensures t.kind == Comment ==>
              r.(output := s.output, headerWasPrint := s.headerWasPrint) == s
    ensures t.kind == Comment && !cfg.displayComments ==> r == s
    ensures t.kind != Comment ==>
              && TableByNumber(r, TableNumberOf(t.kind)) == TableByNumber(s, TableNumberOf(t.kind)) + [t.text]
              && (forall n :: 1 <= n <= 4 && n != TableNumberOf(t.kind) ==> TableByNumber(r, n) == TableByNumber(s, n))
              && r.standardTable == s.standardTable + [TokenAddress(TableNumberOf(t.kind), |TableByNumber(s, TableNumberOf(t.kind))|)]
  {
    if !cfg.displayComments && t.kind == Comment then s
    else AppendToTable(Echo(cfg.realtimeOutputMode, s, t), t)
  }

  /** Recording a sequence of lexemes in order. */
  function RecordAll(cfg: Config, s: Store, ts: seq<Token>): Store
    decreases |ts|
  {
    if ts == [] then s
    else Record(cfg, RecordAll(cfg, s, ts[..|ts| - 1]), ts[|ts| - 1])
  }

  /** Recording one more lexeme after a sequence of them. */
  lemma RecordAllSnoc(cfg: Config, s: Store, ts: seq<Token>, t: Token)
    ensures RecordAll(cfg, s, ts + [t]) == Record(cfg, RecordAll(cfg, s, ts), t)
  {
    assert (ts + [t])[..|ts|] == ts;
  }

  /** Recording a one-element sequence is recording its element. */
  lemma RecordOne(cfg: Config, s: Store, t: Token)
    ensures RecordAll(cfg, s, [t]) == Record(cfg, s, t)
  {
    RecordAllSnoc(cfg, s, [], t);
    assert [] + [t] == [t];
  }

  /** The lexemes of a sequence that reach a table, in order. */
  function Tabled(ts: seq<Token>): (r: seq<Token>)
    ensures forall k :: 0 <= k < |r| ==> r[k].kind != Comment
    decreases |ts|
  {
    if ts == [] then []
    else Tabled(ts[..|ts| - 1]) + (if ts[|ts| - 1].kind == Comment then [] else [ts[|ts| - 1]])
  }

  /** The texts of one type that a single lexeme contributes. */
  function TextIf(t: Token, kind: TokenType): seq<string> {
    if t.kind == kind then [t.text] else []
  }

  /** The texts of the lexemes of one type, in order. */
  function TextsOf(ts: seq<Token>, kind: TokenType): seq<string>
    decreases |ts|
  {
    if ts == [] then []
    else TextsOf(ts[..|ts| - 1], kind) + TextIf(ts[|ts| - 1], kind)
  }

  /** The realtime output is well formed: a header, if any, only as the
      first line and exactly when headerWasPrint is set; a header only in
      TokensWithHeader mode, and then before any row; service words shown
      as identifiers; comment rows only when comments are displayed. */
  ghost predicate OutputOk(cfg: Config, s: Store) {
    && (forall k :: 0 < k < |s.output| ==> s.output[k].Row?)
    && (s.headerWasPrint <==> |s.output| > 0 && s.output[0].Header?)
    && (cfg.realtimeOutputMode.TokensWithHeader? ==> (s.headerWasPrint <==> |s.output| > 0))
    && (!cfg.realtimeOutputMode.TokensWithHeader? ==> !s.headerWasPrint)
    && (forall k :: 0 <= k < |s.output| && s.output[k].Row? ==> s.output[k].shown != Service)
    && (!cfg.displayComments ==> forall k :: 0 <= k < |s.output| && s.output[k].Row? ==> s.output[k].shown != Comment)
  }

  /** Recording one lexeme keeps every address pointing into its table, adds
      one address exactly when the lexeme reaches a table, and that address
      leads back to the lexeme's text. */
  lemma RecordKeepsAddresses(cfg: Config, s: Store, t: Token)
    requires WellAddressed(s)
    ensures var r := Record(cfg, s, t);
      && WellAddressed(r)
      && (forall n :: 1 <= n <= 4 ==> TableByNumber(s, n) <= TableByNumber(r, n))
      && r.standardTable == s.standardTable + (if t.kind == Comment then [] else [r.standardTable[|s.standardTable|]])
      && (t.kind != Comment ==>
            r.standardTable[|s.standardTable|].table == TableNumberOf(t.kind) &&
            Deref(r, |s.standardTable|) == t.text)
  {
    var r := Record(cfg, s, t);
    if t.kind != Comment {
      var n := TableNumberOf(t.kind);
      forall k | 0 <= k < |r.standardTable|
        ensures 1 <= r.standardTable[k].table <= 4
        ensures 0 <= r.standardTable[k].number < |TableByNumber(r, r.standardTable[k].table)|
      {
        if k < |s.standardTable| {
          assert r.standardTable[k] == s.standardTable[k];
          var m := s.standardTable[k].table;
          assert |TableByNumber(s, m)| <= |TableByNumber(r, m)|;
        }
      }
      assert TableSizes(r) == TableSizes(s) + 1 by {
        assert |TableByNumber(r, n)| == |TableByNumber(s, n)| + 1;
        forall m | 1 <= m <= 4 && m != n
          ensures |TableByNumber(r, m)| == |TableByNumber(s, m)|
        {
        }
      }
    }
  }

  /** Recording keeps the realtime output well formed. */
  lemma RecordKeepsOutput(cfg: Config, s: Store, t: Token)
    requires OutputOk(cfg, s)
    ensures OutputOk(cfg, Record(cfg, s, t))
  {
    var r := Record(cfg, s, t);
    if !cfg.displayComments && t.kind == Comment {
    } else {
      var e := Echo(cfg.realtimeOutputMode, s, t);
      assert r.output == e.output && r.headerWasPrint == e.headerWasPrint;
      if cfg.realtimeOutputMode.TokensWithHeader? && !s.headerWasPrint {
        assert s.output == [];
      }
    }
  }

  /** Recording one lexeme extends the table of its type by its text and
      leaves the other tables alone. */
  lemma RecordTable(cfg: Config, s: Store, t: Token, kind: TokenType)
    requires kind != Comment
    ensures TableByNumber(Record(cfg, s, t), TableNumberOf(kind)) == TableByNumber(s, TableNumberOf(kind)) + TextIf(t, kind)
  {
    if t.kind != Comment && t.kind != kind {
      TableNumbering(s, kind);
    }
  }

  /** Recording many lexemes extends the table of one type by the texts of
      the lexemes of that type, in order. */
  lemma {:induction false} RecordAllTable(cfg: Config, s: Store, ts: seq<Token>, kind: TokenType)
    requires kind != Comment
    ensures TableByNumber(RecordAll(cfg, s, ts), TableNumberOf(kind)) == TableByNumber(s, TableNumberOf(kind)) + TextsOf(ts, kind)
    decreases |ts|
  {
    if ts != [] {
      var init := ts[..|ts| - 1];
      var t := ts[|ts| - 1];
      RecordAllTable(cfg, s, init, kind);
      RecordTable(cfg, RecordAll(cfg, s, init), t, kind);
    } else {
      assert TableByNumber(s, TableNumberOf(kind)) + [] == TableByNumber(s, TableNumberOf(kind));
    }
  }

  /** Recording many lexemes extends each table by the texts of the lexemes
      of its type, in order, and nothing else. */
  lemma RecordAllTables(cfg: Config, s: Store, ts: seq<Token>)
    ensures var r := RecordAll(cfg, s, ts);
      && r.serviceWords == s.serviceWords + TextsOf(ts, Service)
      && r.identifiers == s.identifiers + TextsOf(ts, Identifier)
      && r.literals == s.literals + TextsOf(ts, Literal)
      && r.separators == s.separators + TextsOf(ts, Separator)
  {
    RecordAllTable(cfg, s, ts, Service);
    RecordAllTable(cfg, s, ts, Identifier);
    RecordAllTable(cfg, s, ts, Literal);
    RecordAllTable(cfg, s, ts, Separator);
  }

  /** Recording one lexeme leaves every existing address, and the text it
      leads to, as it was. */
  lemma RecordKeepsDeref(cfg: Config, p: Store, t: Token, k: nat)
    requires WellAddressed(p) && k < |p.standardTable|
    ensures WellAddressed(Record(cfg, p, t))
    ensures Record(cfg, p, t).standardTable[k] == p.standardTable[k]
    ensures Deref(Record(cfg, p, t), k) == Deref(p, k)
  {
    var r := Record(cfg, p, t);
    RecordKeepsAddresses(cfg, p, t);
    assert r.standardTable[k] == p.standardTable[k];
    var m := p.standardTable[k].table;
    assert TableByNumber(p, m) <= TableByNumber(r, m);
  }

  /** After recording many lexemes every address still points into its
      table, one address has been added per lexeme that reaches a table, and
      the earlier addresses and the texts they lead to are unchanged. */
  lemma {:induction false} RecordAllKeepsAddresses(cfg: Config, s: Store, ts: seq<Token>)
    requires WellAddressed(s)
    ensures var r := RecordAll(cfg, s, ts);
      && WellAddressed(r)
      && |r.standardTable| == |s.standardTable| + |Tabled(ts)|
      && r.standardTable[..|s.standardTable|] == s.standardTable
      && (forall k :: 0 <= k < |s.standardTable| ==> Deref(r, k) == Deref(s, k))
    decreases |ts|
  {
    if ts != [] {
      var init := ts[..|ts| - 1];
      var t := ts[|ts| - 1];
      RecordAllKeepsAddresses(cfg, s, init);
      var p := RecordAll(cfg, s, init);
      var r := Record(cfg, p, t);
      RecordKeepsAddresses(cfg, p, t);
      forall k | 0 <= k < |s.standardTable|
        ensures Deref(r, k) == Deref(s, k)
      {
        RecordKeepsDeref(cfg, p, t, k);
      }
    }
  }

  /** Entry k of the standard table addresses the table of t's type, and
      the entry found there is t's text. */
  predicate PointsTo(s: Store, k: nat, t: Token) {
    && t.kind != Comment
    && k < |s.standardTable|
    && s.standardTable[k].table == TableNumberOf(t.kind)
    && 0 <= s.standardTable[k].number < |TableByNumber(s, TableNumberOf(t.kind))|
    && TableByNumber(s, TableNumberOf(t.kind))[s.standardTable[k].number] == t.text
  }

  /** Recording a lexeme keeps every existing address pointing where it
      did, and the address it adds points at the lexeme. */
  lemma RecordKeepsPointsTo(cfg: Config, p: Store, t: Token)
    requires WellAddressed(p)
    ensures forall k: nat, u :: PointsTo(p, k, u) ==> PointsTo(Record(cfg, p, t), k, u)
    ensures t.kind != Comment ==> PointsTo(Record(cfg, p, t), |p.standardTable|, t)
  {
    var r := Record(cfg, p, t);
    RecordKeepsAddresses(cfg, p, t);
    forall k: nat, u | PointsTo(p, k, u)
      ensures PointsTo(r, k, u)
    {
      var n := TableNumberOf(u.kind);
      assert r.standardTable[k] == p.standardTable[k];
      assert TableByNumber(p, n) <= TableByNumber(r, n);
    }
  }

  /** The addresses from b on point, in order, at the lexemes of tabled. */
  predicate PointsToAll(s: Store, b: nat, tabled: seq<Token>) {
    forall k :: 0 <= k < |tabled| ==> PointsTo(s, b + k, tabled[k])
  }

  /** Recording one lexeme after a run of lexemes that the addresses from
      b on point at extends that run by the lexeme, if it reaches a table. */
  lemma RoundTripStep(cfg: Config, p: Store, b: nat, tabled: seq<Token>, t: Token)
    requires WellAddressed(p) && b + |tabled| == |p.standardTable|
    requires PointsToAll(p, b, tabled)
    ensures PointsToAll(Record(cfg, p, t), b, tabled + (if t.kind == Comment then [] else [t]))
  {
    RecordKeepsPointsTo(cfg, p, t);
    var next := tabled + (if t.kind == Comment then [] else [t]);
    forall k | 0 <= k < |next|
      ensures PointsTo(Record(cfg, p, t), b + k, next[k])
    {
      if k < |tabled| {
        assert next[k] == tabled[k];
        assert PointsTo(p, b + k, tabled[k]);
      }
    }
  }

  /** Round trip: after recording many lexemes, the k-th address added
      points at a table of the type of the k-th lexeme that reaches a table,
      and the entry there is that lexeme's text. */
  lemma {:induction false} RecordAllRoundTrip(cfg: Config, s: Store, ts: seq<Token>)
    requires WellAddressed(s)
    ensures PointsToAll(RecordAll(cfg, s, ts), |s.standardTable|, Tabled(ts))
    decreases |ts|
  {
    if ts != [] {
      var init := ts[..|ts| - 1];
      var t := ts[|ts| - 1];
      RecordAllRoundTrip(cfg, s, init);
      RecordAllKeepsAddresses(cfg, s, init);
      var p := RecordAll(cfg, s, init);
      RoundTripStep(cfg, p, |s.standardTable|, Tabled(init), t);
      assert Tabled(ts) == Tabled(init) + (if t.kind == Comment then [] else [t]);
      assert RecordAll(cfg, s, ts) == Record(cfg, p, t);
    }
  }

  /** Scanning twice into the same tables records the lexemes of both scans
      in order, as if they had come from one scan. */
  lemma {:induction false} RecordAllAppend(cfg: Config, s: Store, a: seq<Token>, b: seq<Token>)
    ensures RecordAll(cfg, RecordAll(cfg, s, a), b) == RecordAll(cfg, s, a + b)
    decreases |b|
  {
    if b != [] {
      var init := b[..|b| - 1];
      RecordAllAppend(cfg, s, a, init);
      assert (a + b)[..|a + b| - 1] == a + init;
      assert (a + b)[|a + b| - 1] == b[|b| - 1];
    } else {
      assert a + b == a;
    }
  }

  /** Two stores hold the same tables and the same standard table. */
  predicate SameTables(a: Store, b: Store) {
    && a.serviceWords == b.serviceWords && a.identifiers == b.identifiers
    && a.literals == b.literals && a.separators == b.separators
    && a.standardTable == b.standardTable
  }

  /** What recording does to the tables depends only on the tables, and a
      comment leaves them alone. */
  lemma RecordSameTables(cfg: Config, a: Store, b: Store, t: Token)
    requires SameTables(a, b)
    ensures SameTables(Record(cfg, a, t), Record(cfg, b, t))
    ensures t.kind == Comment ==> SameTables(Record(cfg, a, t), a)
  {
    if !(!cfg.displayComments && t.kind == Comment) {
      var ea, eb := Echo(cfg.realtimeOutputMode, a, t), Echo(cfg.realtimeOutputMode, b, t);
      assert SameTables(ea, a) && SameTables(eb, b);
    }
  }

  /** Comments never reach a table: the tables and the standard table are
      those obtained by recording only the other lexemes. */
  lemma {:induction false} CommentsNeverTabled(cfg: Config, s: Store, ts: seq<Token>)
    ensures SameTables(RecordAll(cfg, s, ts), RecordAll(cfg, s, Tabled(ts)))
    decreases |ts|
  {
    if ts != [] {
      var init := ts[..|ts| - 1];
      var t := ts[|ts| - 1];
      CommentsNeverTabled(cfg, s, init);
      var p := RecordAll(cfg, s, init);
      var p' := RecordAll(cfg, s, Tabled(init));
      RecordSameTables(cfg, p, p', t);
      if t.kind != Comment {
        assert Tabled(ts) == Tabled(init) + [t];
        assert (Tabled(init) + [t])[..|Tabled(init)|] == Tabled(init);
      } else {
        assert Tabled(ts) == Tabled(init);
      }
    }
  }

  /** Recording many lexemes keeps the realtime output well formed. */
  lemma {:induction false} RecordAllKeepsOutput(cfg: Config, s: Store, ts: seq<Token>)
    requires OutputOk(cfg, s)
    ensures OutputOk(cfg, RecordAll(cfg, s, ts))
    decreases |ts|
  {
    if ts != [] {
      RecordAllKeepsOutput(cfg, s, ts[..|ts| - 1]);
      RecordKeepsOutput(cfg, RecordAll(cfg, s, ts[..|ts| - 1]), ts[|ts| - 1]);
    }
  }
}

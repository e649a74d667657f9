/** The DuckDB setup printer for Glue tables, and a reader with SQL's quoting rules that undoes it. */
module Duck {
  import opened Wrappers
  import opened GoStrings

  datatype TableRef = TableRef(name: string, location: string, inputFormat: string, serializationLib: string)

  /** What one statement says: a view of a name over one read function of one location. */
  datatype View = View(name: string, readFn: string, location: string)

  // ---------------------------------------------------------------- the printer

  const READ_PARQUET := "read_parquet"
  const READ_JSON := "read_json_auto"
  const READ_CSV := "read_csv_auto"

  function ReadFunction(inputFormat: string, serializationLib: string): (fn: string)
    ensures fn == READ_PARQUET || fn == READ_JSON || fn == READ_CSV
  {
    var blob := ToLower(inputFormat + " " + serializationLib);
    if Contains(blob, "parquet") then READ_PARQUET
    else if Contains(blob, "json") then READ_JSON
    else READ_CSV
  }

  /** strings.ReplaceAll of a quote character by two of them. */
  function Doubled(s: string, quote: char): string {
    if s == [] then [] else (if s[0] == quote then [quote, quote] else [s[0]]) + Doubled(s[1..], quote)
  }

  function Quoted(s: string, quote: char): string {
    [quote] + Doubled(s, quote) + [quote]
  }

  predicate IsDataFile(loc: string) {
    var lower := ToLower(loc);
    HasSuffix(lower, ".csv") || HasSuffix(lower, ".json") || HasSuffix(lower, ".parquet") || HasSuffix(lower, ".gz")
  }

  /** A prefix becomes a glob over its objects; a single data file stays as it is. */
  function Glob(loc: string): string {
    if HasSuffix(loc, "/") then loc + "*"
    else if IsDataFile(loc) then loc
    else loc + "/*"
  }

  function Statement(v: View): string {
    "CREATE OR REPLACE VIEW " + Quoted(v.name, '"') + " AS SELECT * FROM " + v.readFn
      + "(" + Quoted(v.location, '\'') + ");"
  }

  /** DuckCreateViewSQL. */
  function CreateViewSQL(tableName: string, location: string, readFn: string): string {
    var fn := if TrimSpace(readFn) == "" then READ_CSV else TrimSpace(readFn);
    Statement(View(TrimSpace(tableName), fn, Glob(TrimSpace(location))))
  }

  predicate Kept(t: TableRef) {
    && TrimSpace(t.name) != "" && TrimSpace(t.location) != ""
    && HasPrefix(ToLower(TrimSpace(t.location)), "s3://")
  }

  function Line(t: TableRef): string {
    if Kept(t) then CreateViewSQL(t.name, t.location, ReadFunction(t.inputFormat, t.serializationLib)) + "\n" else ""
  }

  function SetupSQL(tables: seq<TableRef>): string {
    if tables == [] then "" else Line(tables[0]) + SetupSQL(tables[1..])
  }

  /** DuckSetupSQL: writes the kept tables' statements to a builder, one a line. */
  method DuckSetupSQL(tables: seq<TableRef>) returns (b: string)
    ensures b == SetupSQL(tables)
  {
    b := "";
    for i := 0 to |tables|
      invariant b + SetupSQL(tables[i..]) == SetupSQL(tables)
    {
      SetupStep(tables, i);
      var line := TableLine(tables[i]);
      Associate(b, line, SetupSQL(tables[i + 1..]));
      b := b + line;
    }
    assert tables[|tables|..] == [];
  }

  lemma SetupStep(tables: seq<TableRef>, i: nat)
    requires i < |tables|
    ensures SetupSQL(tables[i..]) == Line(tables[i]) + SetupSQL(tables[i + 1..])
  {
    assert tables[i..][0] == tables[i] && tables[i..][1..] == tables[i + 1..];
  }

  method TableLine(t: TableRef) returns (line: string)
    ensures line == Line(t)
  {
    if TrimSpace(t.name) == "" || TrimSpace(t.location) == "" {
      return "";
    }
    if !HasPrefix(ToLower(TrimSpace(t.location)), "s3://") {
      return "";
    }
    var fn := ReadFunction(t.inputFormat, t.serializationLib);
    return CreateViewSQL(t.name, t.location, fn) + "\n";
  }

  // ---------------------------------------------------------------- the reader

  datatype Token = Word(text: string) | QuotedIdent(name: string) | StringLit(text: string) | Symbol(c: char)

  predicate IsWordChar(c: char) {
    'a' <= c <= 'z' || 'A' <= c <= 'Z' || '0' <= c <= '9' || c == '_'
  }

  /** After an opening quote: the text up to the closing one, two quotes standing for one, and what follows. */
  function ReadQuoted(s: string, quote: char): (r: Option<(string, string)>)
    ensures r.Some? ==> |r.value.1| < |s|
  {
    if s == [] then None
    else if s[0] != quote then
      var r := ReadQuoted(s[1..], quote);
      if r.Some? then Some(([s[0]] + r.value.0, r.value.1)) else None
    else if |s| > 1 && s[1] == quote then
      var r := ReadQuoted(s[2..], quote);
      if r.Some? then Some(([quote] + r.value.0, r.value.1)) else None
    else Some(([], s[1..]))
  }

  function WordLength(s: string): (n: nat)
    ensures n <= |s|
  {
    if s != [] && IsWordChar(s[0]) then 1 + WordLength(s[1..]) else 0
  }

  function Prepend(t: Token, r: Option<seq<Token>>): Option<seq<Token>> {
    if r.Some? then Some([t] + r.value) else None
  }

  /** The lexical rules of SQL-92, subclauses 5.2 and 5.3, as far as the printer uses them. */
  function Lex(s: string): Option<seq<Token>>
    decreases |s|
  {
    if s == [] then Some([])
    else if IsSpace(s[0]) then Lex(s[1..])
    else if s[0] == '"' || s[0] == '\'' then
      var r := ReadQuoted(s[1..], s[0]);
      if r.None? then None
      else Prepend(if s[0] == '"' then QuotedIdent(r.value.0) else StringLit(r.value.0), Lex(r.value.1))
    else if IsWordChar(s[0]) then Prepend(Word(s[..WordLength(s)]), Lex(s[WordLength(s)..]))
    else Prepend(Symbol(s[0]), Lex(s[1..]))
  }

  const HEAD := [Word("CREATE"), Word("OR"), Word("REPLACE"), Word("VIEW")]
  const MIDDLE := [Word("AS"), Word("SELECT"), Symbol('*'), Word("FROM")]

  function Tokens(v: View): seq<Token> {
    HEAD + [QuotedIdent(v.name)] + MIDDLE
      + [Word(v.readFn), Symbol('('), StringLit(v.location), Symbol(')'), Symbol(';')]
  }

  /** Reads CREATE OR REPLACE VIEW statements over one file function each. */
  function ParseViews(ts: seq<Token>): Option<seq<View>> {
    if ts == [] then Some([])
    else if |ts| < 14 || !ts[4].QuotedIdent? || !ts[9].Word? || !ts[11].StringLit? then None
    else
      var v := View(ts[4].name, ts[9].text, ts[11].text);
      var rest := ParseViews(ts[14..]);
      if ts[..14] != Tokens(v) || rest.None? then None else Some([v] + rest.value)
  }

  function ReadSetup(sql: string): Option<seq<View>> {
    var ts := Lex(sql);
    if ts.Some? then ParseViews(ts.value) else None
  }

  // ---------------------------------------------------------------- the reader undoes the printer

  lemma {:induction false} ReadDoubled(s: string, quote: char, rest: string)
    requires rest == [] || rest[0] != quote
    ensures ReadQuoted(Doubled(s, quote) + [quote] + rest, quote) == Some((s, rest))
  {
    var text := Doubled(s, quote) + [quote] + rest;
    if s == [] {
      assert text == [quote] + rest;
    } else {
      ReadDoubled(s[1..], quote, rest);
      var tail := Doubled(s[1..], quote) + [quote] + rest;
      if s[0] == quote {
        assert text == [quote, quote] + tail;
        assert text[2..] == tail;
      } else {
        assert text == [s[0]] + tail;
        assert text[1..] == tail;
      }
      assert s == [s[0]] + s[1..];
    }
  }

  /** The text reads as these tokens before whatever the rest reads as. */
  ghost predicate ReadsAs(text: string, tokens: seq<Token>) {
    forall rest | Boundary(rest) && Lex(rest).Some? :: Lex(text + rest) == Some(tokens + Lex(rest).value)
  }

  /** What may follow a token: not a character that would continue a word or a quoted text. */
  predicate Boundary(rest: string) {
    rest == [] || !(IsWordChar(rest[0]) || rest[0] == '"' || rest[0] == '\'')
  }

  /** Lexing from an opening quote. */
  lemma LexOpens(text: string, quote: char)
    requires (quote == '"' || quote == '\'') && text != [] && text[0] == quote
    ensures var r := ReadQuoted(text[1..], quote);
            Lex(text) == if r.None? then None
                         else Prepend(if quote == '"' then QuotedIdent(r.value.0) else StringLit(r.value.0),
                                      Lex(r.value.1))
  {
  }

  /** Quoted text with what follows it, after its opening quote. */
  lemma QuotedTail(s: string, quote: char, rest: string)
    ensures var text := Quoted(s, quote) + rest;
            text != [] && text[0] == quote && text[1..] == Doubled(s, quote) + [quote] + rest
  {
  }

  lemma LexQuoted(s: string, quote: char, rest: string)
    requires (quote == '"' || quote == '\'') && (rest == [] || rest[0] != quote)
    ensures Lex(Quoted(s, quote) + rest)
         == Prepend(if quote == '"' then QuotedIdent(s) else StringLit(s), Lex(rest))
  {
    QuotedTail(s, quote, rest);
    ReadDoubled(s, quote, rest);
    LexOpens(Quoted(s, quote) + rest, quote);
  }

  lemma ReadsQuoted(s: string, quote: char)
    requires quote == '"' || quote == '\''
    ensures ReadsAs(Quoted(s, quote), [if quote == '"' then QuotedIdent(s) else StringLit(s)])
  {
    forall rest | Boundary(rest) && Lex(rest).Some?
      ensures Lex(Quoted(s, quote) + rest)
           == Some([if quote == '"' then QuotedIdent(s) else StringLit(s)] + Lex(rest).value)
    {
      LexQuoted(s, quote, rest);
    }
  }

  ghost predicate IsWord(w: string) {
    w != [] && forall c | c in w :: IsWordChar(c)
  }

  lemma {:induction false} WordLengthOf(w: string, rest: string)
    requires (forall c | c in w :: IsWordChar(c)) && (rest == [] || !IsWordChar(rest[0]))
    ensures WordLength(w + rest) == |w|
  {
    if w == [] {
      assert w + rest == rest;
    } else {
      assert (w + rest)[1..] == w[1..] + rest;
      WordLengthOf(w[1..], rest);
    }
  }

  lemma ReadsWord(w: string)
    requires IsWord(w)
    ensures ReadsAs(w, [Word(w)])
  {
    forall rest | Boundary(rest) && Lex(rest).Some? ensures Lex(w + rest) == Some([Word(w)] + Lex(rest).value) {
      WordLengthOf(w, rest);
      assert w[0] in w && (w + rest)[0] == w[0];
      assert (w + rest)[..|w|] == w && (w + rest)[|w|..] == rest;
    }
  }

  /** Symbols and blanks may be followed by anything. */
  ghost predicate ReadsBefore(text: string, tokens: seq<Token>, rest: string) {
    Lex(rest).Some? ==> Lex(text + rest) == Some(tokens + Lex(rest).value)
  }

  lemma ReadsChar(c: char, rest: string)
    requires IsSpace(c) || c == '*' || c == '(' || c == ')' || c == ';'
    ensures ReadsBefore([c], if IsSpace(c) then [] else [Symbol(c)], rest)
  {
    assert ([c] + rest)[1..] == rest;
    if Lex(rest).Some? {
      assert [] + Lex(rest).value == Lex(rest).value;
    }
  }

  /** A word, then a blank, then anything. */
  lemma ReadsSpaced(w: string, rest: string)
    requires IsWord(w)
    ensures ReadsBefore(w + " ", [Word(w)], rest)
  {
    ReadsWord(w);
    ReadsChar(' ', rest);
    assert (w + " ") + rest == w + (" " + rest);
    assert Boundary(" " + rest);
  }

  lemma ReadsThen(a: string, ta: seq<Token>, b: string, tb: seq<Token>, rest: string)
    requires ReadsBefore(a, ta, b + rest) && ReadsBefore(b, tb, rest)
    ensures ReadsBefore(a + b, ta + tb, rest)
  {
    assert (a + b) + rest == a + (b + rest);
    if Lex(rest).Some? {
      assert ta + (tb + Lex(rest).value) == (ta + tb) + Lex(rest).value;
    }
  }

  lemma Words()
    ensures IsWord("CREATE") && IsWord("OR") && IsWord("REPLACE") && IsWord("VIEW")
    ensures IsWord("AS") && IsWord("SELECT") && IsWord("FROM")
    ensures IsWord(READ_PARQUET) && IsWord(READ_JSON) && IsWord(READ_CSV)
  {
  }

  lemma ReadsHead(rest: string)
    ensures ReadsBefore("CREATE OR REPLACE VIEW ", HEAD, rest)
  {
    Words();
    ReadsSpaced("VIEW", rest);
    ReadsSpaced("REPLACE", ("VIEW" + " ") + rest);
    ReadsThen("REPLACE" + " ", [Word("REPLACE")], "VIEW" + " ", [Word("VIEW")], rest);
    var b := ("REPLACE" + " ") + ("VIEW" + " ");
    ReadsSpaced("OR", b + rest);
    ReadsThen("OR" + " ", [Word("OR")], b, [Word("REPLACE")] + [Word("VIEW")], rest);
    var c := ("OR" + " ") + b;
    ReadsSpaced("CREATE", c + rest);
    ReadsThen("CREATE" + " ", [Word("CREATE")], c, [Word("OR")] + ([Word("REPLACE")] + [Word("VIEW")]), rest);
    assert ("CREATE" + " ") + c == "CREATE OR REPLACE VIEW ";
    assert [Word("CREATE")] + ([Word("OR")] + ([Word("REPLACE")] + [Word("VIEW")])) == HEAD;
  }

  lemma ReadsMiddle(rest: string)
    ensures ReadsBefore(" AS SELECT * FROM ", MIDDLE, rest)
  {
    Words();
    ReadsSpaced("FROM", rest);
    ReadsChar(' ', ("FROM" + " ") + rest);
    ReadsThen(" ", [], "FROM" + " ", [Word("FROM")], rest);
    var b := " " + ("FROM" + " ");
    ReadsChar('*', b + rest);
    ReadsThen("*", [Symbol('*')], b, [] + [Word("FROM")], rest);
    var c := "*" + b;
    ReadsSpaced("SELECT", c + rest);
    ReadsThen("SELECT" + " ", [Word("SELECT")], c, [Symbol('*')] + ([] + [Word("FROM")]), rest);
    var d := ("SELECT" + " ") + c;
    ReadsSpaced("AS", d + rest);
    ReadsThen("AS" + " ", [Word("AS")], d, [Word("SELECT")] + ([Symbol('*')] + ([] + [Word("FROM")])), rest);
    var e := ("AS" + " ") + d;
    ReadsChar(' ', e + rest);
    ReadsThen(" ", [], e, [Word("AS")] + ([Word("SELECT")] + ([Symbol('*')] + ([] + [Word("FROM")]))), rest);
    assert " " + e == " AS SELECT * FROM ";
    assert [] + ([Word("AS")] + ([Word("SELECT")] + ([Symbol('*')] + ([] + [Word("FROM")])))) == MIDDLE;
  }

  lemma ReadsClose(rest: string)
    ensures ReadsBefore(");", [Symbol(')'), Symbol(';')], rest)
  {
    ReadsChar(';', rest);
    ReadsChar(')', ";" + rest);
    ReadsThen(")", [Symbol(')')], ";", [Symbol(';')], rest);
    assert ")" + ";" == ");";
    assert [Symbol(')')] + [Symbol(';')] == [Symbol(')'), Symbol(';')];
  }

  /** From the read function to the end of the statement. */
  lemma ReadsSource(v: View, rest: string)
    requires IsWord(v.readFn)
    ensures ReadsBefore(v.readFn + ("(" + (Quoted(v.location, '\'') + ");")),
                        [Word(v.readFn)]
                        + ([Symbol('(')] + ([StringLit(v.location)] + [Symbol(')'), Symbol(';')])), rest)
  {
    var close := [Symbol(')'), Symbol(';')];
    ReadsClose(rest);
    ReadsQuoted(v.location, '\'');
    assert Boundary(");" + rest);
    ReadsThen(Quoted(v.location, '\''), [StringLit(v.location)], ");", close, rest);
    var b := Quoted(v.location, '\'') + ");";
    ReadsChar('(', b + rest);
    ReadsThen("(", [Symbol('(')], b, [StringLit(v.location)] + close, rest);
    ReadsWord(v.readFn);
    assert Boundary(("(" + b) + rest);
    ReadsThen(v.readFn, [Word(v.readFn)], "(" + b, [Symbol('(')] + ([StringLit(v.location)] + close), rest);
  }

  /** A delimited identifier before something that starts with a blank. */
  lemma ReadsNamed(name: string, mid: string, tm: seq<Token>, source: string, ts: seq<Token>, rest: string)
    requires ReadsBefore(mid, tm, source + rest) && ReadsBefore(source, ts, rest)
    requires mid != "" && mid[0] == ' '
    ensures ReadsBefore(Quoted(name, '"') + (mid + source), [QuotedIdent(name)] + (tm + ts), rest)
  {
    ReadsThen(mid, tm, source, ts, rest);
    var b := mid + source;
    ReadsQuoted(name, '"');
    assert (b + rest)[0] == ' ';
    ReadsThen(Quoted(name, '"'), [QuotedIdent(name)], b, tm + ts, rest);
  }

  lemma ReadsStatement(v: View, rest: string)
    requires IsWord(v.readFn)
    ensures ReadsBefore(Statement(v), Tokens(v), rest)
  {
    var source := v.readFn + ("(" + (Quoted(v.location, '\'') + ");"));
    var sourceTokens := [Word(v.readFn)] + ([Symbol('(')] + ([StringLit(v.location)] + [Symbol(')'), Symbol(';')]));
    ReadsSource(v, rest);
    ReadsMiddle(source + rest);
    ReadsNamed(v.name, " AS SELECT * FROM ", MIDDLE, source, sourceTokens, rest);
    var c := Quoted(v.name, '"') + (" AS SELECT * FROM " + source);
    ReadsHead(c + rest);
    ReadsThen("CREATE OR REPLACE VIEW ", HEAD, c, [QuotedIdent(v.name)] + (MIDDLE + sourceTokens), rest);
    StatementText(v);
    StatementTokens(v);
  }

  lemma StatementTokens(v: View)
    ensures var source := [Word(v.readFn)] + ([Symbol('(')] + ([StringLit(v.location)] + [Symbol(')'), Symbol(';')]));
            Tokens(v) == HEAD + ([QuotedIdent(v.name)] + (MIDDLE + source))
  {
  }

  lemma StatementText(v: View)
    ensures Statement(v) == "CREATE OR REPLACE VIEW " + (Quoted(v.name, '"') + (" AS SELECT * FROM "
                              + (v.readFn + ("(" + (Quoted(v.location, '\'') + ");")))))
  {
    Reassociate("CREATE OR REPLACE VIEW ", Quoted(v.name, '"'), " AS SELECT * FROM ", v.readFn, "(",
                Quoted(v.location, '\''), ");");
  }

  lemma Reassociate(a: string, b: string, c: string, d: string, e: string, f: string, g: string)
    ensures a + b + c + d + e + f + g == a + (b + (c + (d + (e + (f + g)))))
  {
  }

  /** One statement a line. */
  function Rendered(views: seq<View>): string {
    if views == [] then "" else Statement(views[0]) + "\n" + Rendered(views[1..])
  }

  lemma {:induction false} RenderedReadsBack(views: seq<View>)
    requires forall v | v in views :: IsWord(v.readFn)
    ensures ReadSetup(Rendered(views)) == Some(views)
  {
    if views != [] {
      var v := views[0];
      var rest := Rendered(views[1..]);
      RenderedReadsBack(views[1..]);
      ReadsChar('\n', rest);
      assert [] + Lex(rest).value == Lex(rest).value;
      ReadsStatement(v, "\n" + rest);
      assert Statement(v) + "\n" + rest == Statement(v) + ("\n" + rest);
      ParsesOne(v, Lex(rest).value);
      assert [v] + views[1..] == views;
    }
  }

  lemma ParsesOne(v: View, ts: seq<Token>)
    ensures ParseViews(ts).Some? ==> ParseViews(Tokens(v) + ts) == Some([v] + ParseViews(ts).value)
  {
    var all := Tokens(v) + ts;
    assert all[..14] == Tokens(v) && all[14..] == ts;
  }

  /** The view a kept table stands for. */
  function ViewOf(t: TableRef): View {
    View(TrimSpace(t.name), ReadFunction(t.inputFormat, t.serializationLib), Glob(TrimSpace(t.location)))
  }

  function KeptViews(tables: seq<TableRef>): seq<View> {
    if tables == [] then []
    else (if Kept(tables[0]) then [ViewOf(tables[0])] else []) + KeptViews(tables[1..])
  }

  lemma ReadFunctionName(fn: string)
    requires fn == READ_PARQUET || fn == READ_JSON || fn == READ_CSV
    ensures TrimSpace(fn) == fn && fn != "" && IsWord(fn)
  {
    Words();
    assert Trimmed(fn);
    TrimmedIsFixed(fn);
  }

  lemma ViewIsStatement(name: string, location: string, fn: string)
    requires TrimSpace(fn) == fn && fn != ""
    ensures CreateViewSQL(name, location, fn) == Statement(View(TrimSpace(name), fn, Glob(TrimSpace(location))))
  {
  }

  lemma LineIsStatement(t: TableRef)
    requires Kept(t)
    ensures Line(t) == Statement(ViewOf(t)) + "\n" && IsWord(ViewOf(t).readFn)
  {
    var fn := ReadFunction(t.inputFormat, t.serializationLib);
    ReadFunctionName(fn);
    ViewIsStatement(t.name, t.location, fn);
  }

  lemma {:induction false} SetupRenders(tables: seq<TableRef>)
    ensures SetupSQL(tables) == Rendered(KeptViews(tables))
    ensures forall v | v in KeptViews(tables) :: IsWord(v.readFn)
  {
    if tables != [] {
      SetupRenders(tables[1..]);
      if Kept(tables[0]) {
        LineIsStatement(tables[0]);
        assert KeptViews(tables)[1..] == KeptViews(tables[1..]);
      } else {
        assert KeptViews(tables) == KeptViews(tables[1..]);
      }
    }
  }

  /** Main result: whatever quotes, newlines or semicolons names and locations contain, the reader gets back from
      the setup text exactly the kept tables in order: trimmed name, read function and globbed location. */
  lemma SetupRoundTrip(tables: seq<TableRef>)
    ensures ReadSetup(SetupSQL(tables)) == Some(KeptViews(tables))
  {
    SetupRenders(tables);
    RenderedReadsBack(KeptViews(tables));
  }

  // ---------------------------------------------------------------- what a view says of its table

  lemma InWord(s: string, w: string, i: nat, k: nat)
    requires i <= |s| && w <= s[i..] && i <= k < i + |w|
    ensures s[k] in w
  {
    assert s[k] == s[i..][k - i] == w[k - i];
  }

  lemma WordInside(a: string, b: string, w: string, i: nat)
    requires ' ' !in w && i <= |a + " " + b| && w <= (a + " " + b)[i..]
    ensures i + |w| <= |a| || |a| < i || w == ""
  {
    if i <= |a| < i + |w| {
      InWord(a + " " + b, w, i, |a|);
    }
  }

  /** A word without blanks stands in two texts joined by a blank exactly when it stands in either. */
  lemma ContainsAcross(a: string, b: string, w: string)
    requires w != "" && ' ' !in w
    ensures Contains(a + " " + b, w) <==> Contains(a, w) || Contains(b, w)
  {
    var s := a + " " + b;
    forall i | 0 <= i <= |s| && w <= s[i..] ensures Contains(a, w) || Contains(b, w) {
      WordInside(a, b, w, i);
      if i + |w| <= |a| {
        assert s[i..] == a[i..] + (" " + b);
        assert w <= a[i..];
      } else {
        assert s[i..] == b[i - |a| - 1..];
      }
    }
    forall i | 0 <= i <= |a| && w <= a[i..] ensures w <= s[i..] {
      assert s[i..] == a[i..] + (" " + b);
    }
    forall i | 0 <= i <= |b| && w <= b[i..] ensures w <= s[|a| + 1 + i..] {
      assert s[|a| + 1 + i..] == b[i..];
    }
  }

  predicate Mentions(t: TableRef, word: string) {
    Contains(ToLower(t.inputFormat), word) || Contains(ToLower(t.serializationLib), word)
  }

  /** The read function: parquet if the format or the library mentions it, else JSON if one mentions that, else CSV. */
  lemma ReadFunctionIff(t: TableRef)
    ensures var fn := ReadFunction(t.inputFormat, t.serializationLib);
            fn == if Mentions(t, "parquet") then READ_PARQUET else if Mentions(t, "json") then READ_JSON else READ_CSV
  {
    var a, b := ToLower(t.inputFormat), ToLower(t.serializationLib);
    assert ToLower(t.inputFormat + " " + t.serializationLib) == a + " " + b;
    ContainsAcross(a, b, "parquet");
    ContainsAcross(a, b, "json");
  }

  /** The location: a single data file stays itself, anything else becomes the glob over the prefix that it names,
      which ends in its own slash or in one added to it. */
  lemma GlobOf(loc: string)
    ensures Glob(loc) == loc <==> !HasSuffix(loc, "/") && IsDataFile(loc)
    ensures Glob(loc) != loc ==>
              exists prefix: string ::
                && Glob(loc) == prefix + "*" && HasSuffix(prefix, "/")
                && prefix == if HasSuffix(loc, "/") then loc else loc + "/"
  {
    assert |loc + "*"| != |loc| && |loc + "/*"| != |loc|;
    if !HasSuffix(loc, "/") {
      var prefix := loc + "/";
      assert prefix[|prefix| - 1..] == "/";
      assert loc + "/*" == prefix + "*";
    }
  }

  function Filter(tables: seq<TableRef>): (kept: seq<TableRef>)
    ensures forall t :: t in kept <==> t in tables && Kept(t)
  {
    if tables == [] then []
    else
      assert tables == [tables[0]] + tables[1..];
      (if Kept(tables[0]) then [tables[0]] else []) + Filter(tables[1..])
  }

  function Map<A, B>(f: A -> B, s: seq<A>): (r: seq<B>)
    ensures |r| == |s| && forall i | 0 <= i < |s| :: r[i] == f(s[i])
  {
    if s == [] then [] else [f(s[0])] + Map(f, s[1..])
  }

  /** Main result: the views of a setup text are those of the tables that have a name and an s3 location, one each
      and in order. */
  lemma {:induction false} ViewsOfKept(tables: seq<TableRef>)
    ensures KeptViews(tables) == Map(ViewOf, Filter(tables))
  {
    if tables != [] {
      ViewsOfKept(tables[1..]);
      OneMore(tables[0], Filter(tables[1..]));
    }
  }

  lemma OneMore(t: TableRef, rest: seq<TableRef>)
    ensures Map(ViewOf, (if Kept(t) then [t] else []) + rest)
         == (if Kept(t) then [ViewOf(t)] else []) + Map(ViewOf, rest)
  {
    if Kept(t) {
      assert ([t] + rest)[1..] == rest;
    } else {
      assert [] + rest == rest;
    }
  }

  /** A view has its table's trimmed name, the read function that the formats call for, and the location or the
      glob over it; a table has a view exactly when it has a name and an s3 location. */
  lemma ViewOfSays(tables: seq<TableRef>, t: TableRef)
    ensures t in Filter(tables) <==>
              t in tables && TrimSpace(t.name) != "" && HasPrefix(ToLower(TrimSpace(t.location)), "s3://")
    ensures var v := ViewOf(t);
            && v.name == TrimSpace(t.name)
            && v.readFn == (if Mentions(t, "parquet") then READ_PARQUET
                            else if Mentions(t, "json") then READ_JSON else READ_CSV)
            && v.location == Glob(TrimSpace(t.location))
  {
    ReadFunctionIff(t);
  }
}

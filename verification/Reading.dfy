// A reader for the statements SqlGenius writes: from words and punctuation back to clauses.
module Reading {
  import opened Ordering
  import opened Lists
  import opened Text
  import opened Sql
  import opened Lexing

  type Lexemes = seq<Lexeme>

  // ---- lists -----------------------------------------------------------------------------------------------

  // One item after another, as long as the separator follows.
  function Many<T>(item: Lexemes -> Option<(T, Lexemes)>, sep: Lexeme, s: Lexemes): Option<(seq<T>, Lexemes)>
    decreases |s|
  {
    match item(s)
    case None => None
    case Some((x, rest)) =>
      if rest != [] && rest[0] == sep && |rest| <= |s| then
        match Many(item, sep, rest[1..])
        case None => None
        case Some((xs, after)) => Some(([x] + xs, after))
      else Some(([x], rest))
  }

  function Shown<T>(show: T -> Lexemes, sep: Lexeme, xs: seq<T>): Lexemes
    requires xs != []
  {
    if |xs| == 1 then show(xs[0]) else show(xs[0]) + ([sep] + Shown(show, sep, xs[1..]))
  }

  // The item is read back, whatever follows it within reason.
  ghost predicate Reads<T(!new)>(item: Lexemes -> Option<(T, Lexemes)>, show: T -> Lexemes, x: T, stop: Lexeme) {
    forall rest {:trigger show(x) + rest} | rest == [] || rest[0] != stop :: item(show(x) + rest) == Some((x, rest))
  }

  // A list is read back; stop is a lexeme that would be taken for part of an item.
  lemma {:induction false} ManyReads<T(!new)>(item: Lexemes -> Option<(T, Lexemes)>, show: T -> Lexemes, sep: Lexeme,
                                        xs: seq<T>, stop: Lexeme, rest: Lexemes)
    requires xs != [] && stop != sep && forall i | 0 <= i < |xs| :: Reads(item, show, xs[i], stop)
    requires rest == [] || (rest[0] != sep && rest[0] != stop)
    ensures Many(item, sep, Shown(show, sep, xs) + rest) == Some((xs, rest))
    decreases |xs|
  {
    var x := xs[0];
    assert Reads(item, show, x, stop);
    if |xs| == 1 {
      assert item(show(x) + rest) == Some((x, rest));
      assert xs == [x];
    } else {
      var tail := [sep] + (Shown(show, sep, xs[1..]) + rest);
      assert forall i | 0 <= i < |xs| - 1 :: xs[1..][i] == xs[i + 1];
      ManyReads(item, show, sep, xs[1..], stop, rest);
      assert item(show(x) + tail) == Some((x, tail));
      assert tail[1..] == Shown(show, sep, xs[1..]) + rest;
      ShownRest(show, sep, xs, rest);
      assert [x] + xs[1..] == xs;
    }
  }

  lemma ShownRest<T>(show: T -> Lexemes, sep: Lexeme, xs: seq<T>, rest: Lexemes)
    requires |xs| > 1
    ensures Shown(show, sep, xs) + rest == show(xs[0]) + ([sep] + (Shown(show, sep, xs[1..]) + rest))
  {}

  lemma {:induction false} ShownSnoc<T>(show: T -> Lexemes, sep: Lexeme, xs: seq<T>, x: T)
    requires xs != []
    ensures Shown(show, sep, xs + [x]) == Shown(show, sep, xs) + ([sep] + show(x))
  {
    if |xs| == 1 {
      assert (xs + [x])[1..] == [x];
    } else {
      assert (xs + [x])[1..] == xs[1..] + [x];
      ShownSnoc(show, sep, xs[1..], x);
      ShownRest(show, sep, xs, [sep] + show(x));
    }
  }

  // ---- words -----------------------------------------------------------------------------------------------

  function WordAt(s: Lexemes, i: nat): string { if i < |s| && s[i].W? then s[i].word else "" }

  function ReadColumn(w: string): Option<Column> {
    var i := First(w, '.');
    if i < |w| then Some(Column(w[..i], w[i + 1..])) else None
  }

  function ReadParam(w: string): Option<string> { if w != "" && w[0] == '$' then Some(w[1..]) else None }

  predicate GoodName(s: string) { s != "" && IsName(s) }

  predicate GoodColumn(c: Column) { GoodName(c.alias) && GoodName(c.name) }

  function ColumnWord(c: Column): string { c.alias + "." + c.name }

  lemma ColumnReads(c: Column)
    requires GoodColumn(c)
    ensures ReadColumn(ColumnWord(c)) == Some(c) && ReadParam(ColumnWord(c)) == None
  {
    var w := ColumnWord(c);
    assert '.' !in c.alias;
    FirstAfter(c.alias, c.name, '.');
    assert w == c.alias + ['.'] + c.name && w[..|c.alias|] == c.alias && w[|c.alias| + 1..] == c.name;
    assert w[0] == c.alias[0] && IsNameChar(c.alias[0]);
  }

  lemma ParamReads(p: string)
    ensures ReadParam("$" + p) == Some(p)
  {}

  // Whether s begins with these lexemes.
  predicate Starts(s: Lexemes, start: Lexemes) { start <= s }

  // ---- select ----------------------------------------------------------------------------------------------

  datatype Selection = Fields(columns: seq<Column>) | Just(c: Column) | CountOf(c: Column)

  function FieldLex(c: Column): Lexemes { [W(ColumnWord(c)), W("AS"), W(c.alias + "_" + c.name)] }

  function ReadField(s: Lexemes): Option<(Column, Lexemes)> {
    match ReadColumn(WordAt(s, 0))
    case None => None
    case Some(c) => if Starts(s, FieldLex(c)) then Some((c, s[3..])) else None
  }

  function SelectionLex(sel: Selection): Lexemes
    requires sel.Fields? ==> sel.columns != []
  {
    [W("SELECT")] +
    match sel
    case Fields(columns) => Shown(FieldLex, P(','), columns)
    case Just(c) => [W(ColumnWord(c))]
    case CountOf(c) => [W("COUNT"), P('('), W(ColumnWord(c)), P(')')]
  }

  function ReadSelection(s: Lexemes): Option<(Selection, Lexemes)> {
    if WordAt(s, 0) != "SELECT" then None
    else if Starts(s, [W("SELECT"), W("COUNT"), P('(')]) then
      match ReadColumn(WordAt(s, 3))
      case Some(c) => if |s| > 4 && s[4] == P(')') then Some((CountOf(c), s[5..])) else None
      case None => None
    else if WordAt(s, 2) == "AS" then
      match Many(ReadField, P(','), s[1..])
      case Some((cs, rest)) => Some((Fields(cs), rest))
      case None => None
    else
      match ReadColumn(WordAt(s, 1))
      case Some(c) => Some((Just(c), s[2..]))
      case None => None
  }

  lemma FieldReads(c: Column, stop: Lexeme)
    requires GoodColumn(c)
    ensures Reads(ReadField, FieldLex, c, stop)
  {
    ColumnReads(c);
    forall rest | rest == [] || rest[0] != stop ensures ReadField(FieldLex(c) + rest) == Some((c, rest)) {}
  }

  predicate GoodSelection(sel: Selection) {
    match sel
    case Fields(cs) => cs != [] && forall i | 0 <= i < |cs| :: GoodColumn(cs[i])
    case Just(c) => GoodColumn(c)
    case CountOf(c) => GoodColumn(c)
  }

  lemma SelectionReads(sel: Selection, rest: Lexemes)
    requires GoodSelection(sel) && rest != [] && rest[0] == W("FROM")
    ensures ReadSelection(SelectionLex(sel) + rest) == Some((sel, rest))
  {
    match sel
    case Fields(cs) => FieldsRead(cs, rest);
    case Just(c) => JustReads(c, rest);
    case CountOf(c) => CountReads(c, rest);
  }

  lemma FieldsRead(cs: seq<Column>, rest: Lexemes)
    requires cs != [] && (forall i | 0 <= i < |cs| :: GoodColumn(cs[i])) && rest != [] && rest[0] == W("FROM")
    ensures ReadSelection(SelectionLex(Fields(cs)) + rest) == Some((Fields(cs), rest))
  {
    forall i | 0 <= i < |cs| ensures Reads(ReadField, FieldLex, cs[i], P(';')) { FieldReads(cs[i], P(';')); }
    ManyReads(ReadField, FieldLex, P(','), cs, P(';'), rest);
    FieldsStart(cs, rest);
    FieldsFollow(Shown(FieldLex, P(','), cs), rest);
  }

  lemma FieldsFollow(body: Lexemes, rest: Lexemes)
    requires |body + rest| >= 3 && (body + rest)[1] == W("AS")
    ensures ReadSelection([W("SELECT")] + body + rest)
            == match Many(ReadField, P(','), body + rest)
               case Some((cs, after)) => Some((Fields(cs), after))
               case None => None
  {
    var s := [W("SELECT")] + body + rest;
    assert s[1..] == body + rest && s[2] == s[1..][1];
    assert !Starts(s, [W("SELECT"), W("COUNT"), P('(')]);
  }

  lemma JustReads(c: Column, rest: Lexemes)
    requires GoodColumn(c) && rest != [] && rest[0] == W("FROM")
    ensures ReadSelection(SelectionLex(Just(c)) + rest) == Some((Just(c), rest))
  {
    var s := SelectionLex(Just(c)) + rest;
    ColumnReads(c);
    assert s[1] == W(ColumnWord(c)) && s[2] == W("FROM") && s[2..] == rest;
  }

  lemma CountReads(c: Column, rest: Lexemes)
    requires GoodColumn(c)
    ensures ReadSelection(SelectionLex(CountOf(c)) + rest) == Some((CountOf(c), rest))
  {
    var s := SelectionLex(CountOf(c)) + rest;
    ColumnReads(c);
    assert s[0] == W("SELECT") && s[1] == W("COUNT") && s[2] == P('(');
    assert s[3] == W(ColumnWord(c)) && s[4] == P(')') && s[5..] == rest;
  }

  lemma FieldsStart(cs: seq<Column>, rest: Lexemes)
    requires cs != []
    ensures var s := Shown(FieldLex, P(','), cs) + rest; |s| >= 3 && s[1] == W("AS")
  {}

  // ---- joins -----------------------------------------------------------------------------------------------

  function OnLex(on: On): Lexeme {
    match on
    case OnParam(p) => W("$" + p)
    case OnColumn(c) => W(ColumnWord(c))
  }

  function ReadOn(w: string): Option<On> {
    match ReadParam(w)
    case Some(p) => Some(OnParam(p))
    case None =>
      match ReadColumn(w)
      case Some(c) => Some(OnColumn(c))
      case None => None
  }

  function JoinLex(j: Join): Lexemes {
    [W("LEFT"), W("JOIN"), W(j.table), W("AS"), W(j.alias), W("ON"), W(j.alias + ".id"), P('='), OnLex(j.on)]
  }

  function ReadJoin(s: Lexemes): Option<(Join, Lexemes)> {
    match ReadOn(WordAt(s, 8))
    case None => None
    case Some(on) =>
      var j := Join(WordAt(s, 2), WordAt(s, 4), on);
      if Starts(s, JoinLex(j)) then Some((j, s[9..])) else None
  }

  function ReadJoins(s: Lexemes): Option<(seq<Join>, Lexemes)>
    decreases |s|
  {
    if WordAt(s, 0) != "LEFT" then Some(([], s))
    else
      match ReadJoin(s)
      case None => None
      case Some((j, rest)) =>
        if |rest| >= |s| then None
        else
          match ReadJoins(rest)
          case None => None
          case Some((js, after)) => Some(([j] + js, after))
  }

  predicate GoodJoin(j: Join) {
    && GoodName(j.table) && GoodName(j.alias)
    && match j.on case OnParam(p) => GoodName(p) case OnColumn(c) => GoodColumn(c)
  }

  function JoinsLex(joins: seq<Join>): Lexemes {
    if joins == [] then [] else JoinLex(joins[0]) + JoinsLex(joins[1..])
  }

  lemma OnReads(on: On)
    requires match on case OnParam(p) => true case OnColumn(c) => GoodColumn(c)
    ensures ReadOn(OnLex(on).word) == Some(on)
  {
    match on
    case OnParam(p) => ParamReads(p);
    case OnColumn(c) => ColumnReads(c);
  }

  lemma JoinReads(j: Join, rest: Lexemes)
    requires GoodJoin(j)
    ensures ReadJoin(JoinLex(j) + rest) == Some((j, rest))
  {
    var s := JoinLex(j) + rest;
    OnReads(j.on);
    assert s[2] == W(j.table) && s[4] == W(j.alias) && s[8] == OnLex(j.on) && s[9..] == rest;
  }

  lemma {:induction false} JoinsRead(joins: seq<Join>, rest: Lexemes)
    requires forall i | 0 <= i < |joins| :: GoodJoin(joins[i])
    requires WordAt(rest, 0) != "LEFT"
    ensures ReadJoins(JoinsLex(joins) + rest) == Some((joins, rest))
  {
    if joins == [] {
      assert [] + rest == rest;
    } else {
      JoinsRead(joins[1..], rest);
      JoinReads(joins[0], JoinsLex(joins[1..]) + rest);
      ConcatAssociates(JoinLex(joins[0]), JoinsLex(joins[1..]), rest);
      JoinStarts(joins[0], JoinsLex(joins[1..]) + rest);
      assert [joins[0]] + joins[1..] == joins;
    }
  }

  lemma JoinStarts(j: Join, rest: Lexemes)
    ensures WordAt(JoinLex(j) + rest, 0) == "LEFT" && |JoinLex(j) + rest| > |rest|
  {}

  // ---- where -----------------------------------------------------------------------------------------------

  function AtomLex(c: Column, a: Atom): Lexemes {
    [W(ColumnWord(c))] +
    match a
    case Ne(p) => [P('!'), P('='), W("$" + p)]
    case Gt(p) => [P('>'), W("$" + p)]
    case Lt(p) => [P('<'), W("$" + p)]
    case Between(lo, hi) => [W("BETWEEN"), W("$" + lo), W("AND"), W("$" + hi)]
    case Like(p) => [W("LIKE"), W("$" + p)]
  }

  function OperandAt(s: Lexemes, i: nat): Option<string> { ReadParam(WordAt(s, i)) }

  function ReadOperator(s: Lexemes): Option<Atom> {
    if |s| < 3 then None
    else if s[1] == P('>') then (match OperandAt(s, 2) case Some(p) => Some(Gt(p)) case None => None)
    else if s[1] == P('<') then (match OperandAt(s, 2) case Some(p) => Some(Lt(p)) case None => None)
    else if s[1] == P('!') && s[2] == P('=') then
      (match OperandAt(s, 3) case Some(p) => Some(Ne(p)) case None => None)
    else if s[1] == W("LIKE") then (match OperandAt(s, 2) case Some(p) => Some(Like(p)) case None => None)
    else if s[1] == W("BETWEEN") && WordAt(s, 3) == "AND" then
      (match (OperandAt(s, 2), OperandAt(s, 4))
       case (Some(lo), Some(hi)) => Some(Between(lo, hi))
       case _ => None)
    else None
  }

  datatype Test = Test(c: Column, a: Atom)

  function TestLex(t: Test): Lexemes { AtomLex(t.c, t.a) }

  function ReadTest(s: Lexemes): Option<(Test, Lexemes)> {
    match (ReadColumn(WordAt(s, 0)), ReadOperator(s))
    case (Some(c), Some(a)) => if Starts(s, AtomLex(c, a)) then Some((Test(c, a), s[|AtomLex(c, a)|..])) else None
    case _ => None
  }

  lemma TestReads(t: Test, stop: Lexeme)
    requires GoodColumn(t.c)
    ensures Reads(ReadTest, TestLex, t, stop)
  {
    ColumnReads(t.c);
    forall rest | rest == [] || rest[0] != stop ensures ReadTest(TestLex(t) + rest) == Some((t, rest)) {
      OperatorReads(t, rest);
      assert (TestLex(t) + rest)[|TestLex(t)|..] == rest;
    }
  }

  lemma OperatorReads(t: Test, rest: Lexemes)
    ensures ReadOperator(TestLex(t) + rest) == Some(t.a) && WordAt(TestLex(t) + rest, 0) == ColumnWord(t.c)
  {
    var s := TestLex(t) + rest;
    assert s[0] == W(ColumnWord(t.c));
    match t.a
    case Ne(p) => ParamReads(p); assert s[1] == P('!') && s[2] == P('=') && s[3] == W("$" + p);
    case Gt(p) => ParamReads(p); assert s[1] == P('>') && s[2] == W("$" + p);
    case Lt(p) => ParamReads(p); assert s[1] == P('<') && s[2] == W("$" + p);
    case Between(lo, hi) =>
      ParamReads(lo);
      ParamReads(hi);
      assert s[1] == W("BETWEEN") && s[2] == W("$" + lo) && s[3] == W("AND") && s[4] == W("$" + hi);
    case Like(p) => ParamReads(p); assert s[1] == W("LIKE") && s[2] == W("$" + p);
  }

  function Tests(c: Clause): seq<Test> { seq(|c.atoms|, i requires 0 <= i < |c.atoms| => Test(c.column, c.atoms[i])) }

  function ClauseLex(c: Clause): Lexemes
    requires c.atoms != []
  {
    [P('(')] + (Shown(TestLex, W("OR"), Tests(c)) + [P(')')])
  }

  function ReadClause(s: Lexemes): Option<(Clause, Lexemes)> {
    if s == [] || s[0] != P('(') then None
    else
      match Many(ReadTest, W("OR"), s[1..])
      case None => None
      case Some((tests, rest)) =>
        if tests == [] || rest == [] || rest[0] != P(')') then None
        else
          var c := ClauseOf(tests);
          if Tests(c) == tests then Some((c, rest[1..])) else None
  }

  function ClauseOf(tests: seq<Test>): Clause
    requires tests != []
  {
    Clause(tests[0].c, seq(|tests|, i requires 0 <= i < |tests| => tests[i].a))
  }

  lemma ClauseOfTests(c: Clause)
    requires c.atoms != []
    ensures ClauseOf(Tests(c)) == c
  {
    assert ClauseOf(Tests(c)).atoms == c.atoms;
  }

  predicate GoodClause(c: Clause) { c.atoms != [] && GoodColumn(c.column) }

  function ClauseShow(c: Clause): Lexemes { if c.atoms == [] then [] else ClauseLex(c) }

  lemma ClauseReads(c: Clause, stop: Lexeme)
    requires GoodClause(c)
    ensures Reads(ReadClause, ClauseShow, c, stop)
  {
    forall rest | rest == [] || rest[0] != stop ensures ReadClause(ClauseShow(c) + rest) == Some((c, rest)) {
      ClauseReadsBefore(c, rest);
    }
  }

  lemma ClauseReadsBefore(c: Clause, rest: Lexemes)
    requires GoodClause(c)
    ensures ReadClause(ClauseLex(c) + rest) == Some((c, rest))
  {
    var list, close := Shown(TestLex, W("OR"), Tests(c)), [P(')')] + rest;
    TestsRead(c, close);
    ClauseOfTests(c);
    ConcatAssociates(list, [P(')')], rest);
    Behind([P('(')], list + [P(')')], rest);
    assert close[1..] == rest;
  }

  lemma TestsRead(c: Clause, rest: Lexemes)
    requires GoodClause(c) && rest != [] && rest[0] == P(')')
    ensures Many(ReadTest, W("OR"), Shown(TestLex, W("OR"), Tests(c)) + rest) == Some((Tests(c), rest))
  {
    var tests := Tests(c);
    forall i | 0 <= i < |tests| ensures Reads(ReadTest, TestLex, tests[i], P(';')) { TestReads(tests[i], P(';')); }
    ManyReads(ReadTest, TestLex, W("OR"), tests, P(';'), rest);
  }

  function ParamLex(p: string): Lexemes { [W("$" + p)] }

  function ReadParamItem(s: Lexemes): Option<(string, Lexemes)> {
    match OperandAt(s, 0)
    case Some(p) => Some((p, s[1..]))
    case None => None
  }

  lemma ParamItemReads(p: string, stop: Lexeme)
    ensures Reads(ReadParamItem, ParamLex, p, stop)
  {
    ParamReads(p);
    forall rest | rest == [] || rest[0] != stop ensures ReadParamItem(ParamLex(p) + rest) == Some((p, rest)) {
      assert (ParamLex(p) + rest)[1..] == rest;
    }
  }

  // "( $a, $b )", read up to the bracket.
  lemma ParamsRead(ps: seq<string>, rest: Lexemes)
    requires ps != [] && rest != [] && rest[0] == P(')')
    ensures Many(ReadParamItem, P(','), Shown(ParamLex, P(','), ps) + rest) == Some((ps, rest))
  {
    forall i | 0 <= i < |ps| ensures Reads(ReadParamItem, ParamLex, ps[i], P(';')) { ParamItemReads(ps[i], P(';')); }
    ManyReads(ReadParamItem, ParamLex, P(','), ps, P(';'), rest);
  }

  predicate GoodWhere(w: Where) {
    match w
    case Everything => true
    case IdIs(a, p) => GoodName(a)
    case IdIn(a, ps) => GoodName(a) && ps != []
    case All(cs) => cs != [] && forall i | 0 <= i < |cs| :: GoodClause(cs[i])
  }

  function WhereLex(w: Where): Lexemes
    requires GoodWhere(w)
  {
    match w
    case Everything => []
    case IdIs(a, p) => [W("WHERE"), W(a + ".id"), P('='), W("$" + p)]
    case IdIn(a, ps) => [W("WHERE"), W(a + ".id"), W("IN"), P('(')] + (Shown(ParamLex, P(','), ps) + [P(')')])
    case All(cs) => [W("WHERE")] + Shown(ClauseShow, W("AND"), cs)
  }

  // The alias of "alias.id".
  function ReadIdOf(w: string): Option<string> {
    match ReadColumn(w)
    case Some(c) => if c.name == "id" then Some(c.alias) else None
    case None => None
  }

  function ReadWhere(s: Lexemes): Option<(Where, Lexemes)> {
    if WordAt(s, 0) != "WHERE" then Some((Everything, s))
    else if |s| > 1 && s[1] == P('(') then ReadAll(s[1..])
    else
      match ReadIdOf(WordAt(s, 1))
      case None => None
      case Some(a) =>
        if |s| > 3 && s[2] == P('=') then
          match OperandAt(s, 3)
          case Some(p) => Some((IdIs(a, p), s[4..]))
          case None => None
        else if |s| > 4 && s[2] == W("IN") && s[3] == P('(') then ReadIdIn(a, s[4..])
        else None
  }

  function ReadAll(s: Lexemes): Option<(Where, Lexemes)> {
    match Many(ReadClause, W("AND"), s)
    case Some((cs, rest)) => Some((All(cs), rest))
    case None => None
  }

  function ReadIdIn(a: string, s: Lexemes): Option<(Where, Lexemes)> {
    match Many(ReadParamItem, P(','), s)
    case Some((ps, rest)) => if rest != [] && rest[0] == P(')') then Some((IdIn(a, ps), rest[1..])) else None
    case None => None
  }

  // What may follow the WHERE clause.
  predicate AfterWhere(rest: Lexemes) {
    rest != [] && (rest[0] == W("ORDER") || rest[0] == W("LIMIT") || rest[0] == P(';'))
  }

  lemma IdOfReads(a: string)
    requires GoodName(a)
    ensures ReadIdOf(a + ".id") == Some(a)
  {
    var c := Column(a, "id");
    assert IsName("id");
    ColumnReads(c);
    assert a + "." + "id" == a + ".id";
  }

  lemma WhereReads(w: Where, rest: Lexemes)
    requires GoodWhere(w) && AfterWhere(rest)
    ensures ReadWhere(WhereLex(w) + rest) == Some((w, rest))
  {
    match w
    case Everything => assert [] + rest == rest;
    case IdIs(a, p) => IdIsReads(a, p, rest);
    case IdIn(a, ps) => IdInReads(a, ps, rest);
    case All(cs) => AllReads(cs, rest);
  }

  lemma IdIsReads(a: string, p: string, rest: Lexemes)
    requires GoodName(a)
    ensures ReadWhere(WhereLex(IdIs(a, p)) + rest) == Some((IdIs(a, p), rest))
  {
    var s := WhereLex(IdIs(a, p)) + rest;
    IdOfReads(a);
    ParamReads(p);
    assert s[0] == W("WHERE") && s[1] == W(a + ".id") && s[2] == P('=') && s[3] == W("$" + p) && s[4..] == rest;
  }

  // Behind its first lexemes a text goes on as it was.
  lemma Behind(head: Lexemes, body: Lexemes, rest: Lexemes)
    ensures head + body + rest == head + (body + rest) && (head + body + rest)[|head|..] == body + rest
  {}

  lemma IdInReads(a: string, ps: seq<string>, rest: Lexemes)
    requires GoodName(a) && ps != []
    ensures ReadWhere(WhereLex(IdIn(a, ps)) + rest) == Some((IdIn(a, ps), rest))
  {
    var close := [P(')')] + rest;
    var list := Shown(ParamLex, P(','), ps);
    ConcatAssociates(list, [P(')')], rest);
    ParamsRead(ps, close);
    assert ReadIdIn(a, list + close) == Some((IdIn(a, ps), rest)) by { assert close[1..] == rest; }
    IdInStarts(a, list + [P(')')], rest);
  }

  lemma IdInStarts(a: string, body: Lexemes, rest: Lexemes)
    requires GoodName(a) && body != []
    ensures ReadWhere([W("WHERE"), W(a + ".id"), W("IN"), P('(')] + body + rest) == ReadIdIn(a, body + rest)
  {
    var head := [W("WHERE"), W(a + ".id"), W("IN"), P('(')];
    var s := head + body + rest;
    IdOfReads(a);
    Behind(head, body, rest);
    assert s[0] == head[0] && s[1] == head[1] && s[2] == head[2] && s[3] == head[3];
  }

  lemma AllReads(cs: seq<Clause>, rest: Lexemes)
    requires cs != [] && (forall i | 0 <= i < |cs| :: GoodClause(cs[i])) && AfterWhere(rest)
    ensures ReadWhere(WhereLex(All(cs)) + rest) == Some((All(cs), rest))
  {
    ClausesRead(cs, rest);
    ClausesStart(cs, rest);
    AllStarts(Shown(ClauseShow, W("AND"), cs), rest);
  }

  lemma ClausesRead(cs: seq<Clause>, rest: Lexemes)
    requires cs != [] && (forall i | 0 <= i < |cs| :: GoodClause(cs[i])) && AfterWhere(rest)
    ensures ReadAll(Shown(ClauseShow, W("AND"), cs) + rest) == Some((All(cs), rest))
  {
    forall i | 0 <= i < |cs| ensures Reads(ReadClause, ClauseShow, cs[i], P('.')) { ClauseReads(cs[i], P('.')); }
    ManyReads(ReadClause, ClauseShow, W("AND"), cs, P('.'), rest);
  }

  lemma AllStarts(body: Lexemes, rest: Lexemes)
    requires body + rest != [] && (body + rest)[0] == P('(')
    ensures ReadWhere([W("WHERE")] + body + rest) == ReadAll(body + rest)
  {
    var s := [W("WHERE")] + body + rest;
    Behind([W("WHERE")], body, rest);
    assert s[0] == W("WHERE") && s[1] == (body + rest)[0];
  }

  lemma ClausesStart(cs: seq<Clause>, rest: Lexemes)
    requires cs != [] && GoodClause(cs[0])
    ensures var s := Shown(ClauseShow, W("AND"), cs) + rest; s != [] && s[0] == P('(')
  {}

  // ---- order and page --------------------------------------------------------------------------------------

  function SortLex(k: SortKey): Lexemes { [W(ColumnWord(k.column))] + if k.desc then [W("DESC")] else [] }

  function ReadSort(s: Lexemes): Option<(SortKey, Lexemes)> {
    match ReadColumn(WordAt(s, 0))
    case None => None
    case Some(c) =>
      if |s| > 1 && s[1] == W("DESC") then Some((SortKey(c, true), s[2..])) else Some((SortKey(c, false), s[1..]))
  }

  lemma SortReads(k: SortKey)
    requires GoodColumn(k.column)
    ensures Reads(ReadSort, SortLex, k, W("DESC"))
  {
    ColumnReads(k.column);
    forall rest | rest == [] || rest[0] != W("DESC") ensures ReadSort(SortLex(k) + rest) == Some((k, rest)) {
      var s := SortLex(k) + rest;
      assert s[0] == W(ColumnWord(k.column));
      if k.desc { assert s[1] == W("DESC") && s[2..] == rest; } else { assert s[1..] == rest; }
    }
  }

  function OrderLex(order: seq<SortKey>): Lexemes {
    if order == [] then [] else [W("ORDER"), W("BY")] + Shown(SortLex, P(','), order)
  }

  function ReadOrder(s: Lexemes): Option<(seq<SortKey>, Lexemes)> {
    if Starts(s, [W("ORDER"), W("BY")]) then Many(ReadSort, P(','), s[2..]) else Some(([], s))
  }

  lemma OrderReads(order: seq<SortKey>, rest: Lexemes)
    requires forall i | 0 <= i < |order| :: GoodColumn(order[i].column)
    requires rest != [] && (rest[0] == W("LIMIT") || rest[0] == P(';'))
    ensures ReadOrder(OrderLex(order) + rest) == Some((order, rest))
  {
    var s := OrderLex(order) + rest;
    if order == [] {
      assert s == rest;
    } else {
      SortsRead(order, rest);
      Behind([W("ORDER"), W("BY")], Shown(SortLex, P(','), order), rest);
    }
  }

  lemma SortsRead(order: seq<SortKey>, rest: Lexemes)
    requires order != [] && forall i | 0 <= i < |order| :: GoodColumn(order[i].column)
    requires rest != [] && (rest[0] == W("LIMIT") || rest[0] == P(';'))
    ensures Many(ReadSort, P(','), Shown(SortLex, P(','), order) + rest) == Some((order, rest))
  {
    forall i | 0 <= i < |order| ensures Reads(ReadSort, SortLex, order[i], W("DESC")) { SortReads(order[i]); }
    ManyReads(ReadSort, SortLex, P(','), order, W("DESC"), rest);
  }

  function PageLex(paged: bool): Lexemes {
    if paged then [W("LIMIT"), W("$pg_limit"), W("OFFSET"), W("$pg_offset")] else []
  }

  function ReadEnd(s: Lexemes): Option<bool> {
    if s == [P(';')] then Some(false)
    else if s == [W("LIMIT"), W("$pg_limit"), W("OFFSET"), W("$pg_offset"), P(';')] then Some(true)
    else None
  }

  // ---- the whole query -------------------------------------------------------------------------------------

  datatype SelectStatement = SelectStatement(
    selection: Selection, table: string, alias: string,
    joins: seq<Join>, where_: Where, order: seq<SortKey>, paged: bool)

  function ReadSelect(s: Lexemes): Option<SelectStatement> {
    match ReadSelection(s)
    case None => None
    case Some((sel, from)) =>
      if WordAt(from, 0) != "FROM" || WordAt(from, 2) != "AS" || |from| < 4 then None
      else
        match ReadJoins(from[4..])
        case None => None
        case Some((joins, s1)) => ReadRest(sel, WordAt(from, 1), WordAt(from, 3), joins, s1)
  }

  function ReadRest(sel: Selection, table: string, alias: string, joins: seq<Join>, s: Lexemes):
    Option<SelectStatement>
  {
    match ReadWhere(s)
    case None => None
    case Some((w, s2)) =>
      match ReadOrder(s2)
      case None => None
      case Some((order, s3)) =>
        match ReadEnd(s3)
        case None => None
        case Some(paged) => Some(SelectStatement(sel, table, alias, joins, w, order, paged))
  }

  predicate GoodSelect(q: SelectStatement) {
    && GoodSelection(q.selection) && GoodName(q.table) && GoodName(q.alias)
    && (forall i | 0 <= i < |q.joins| :: GoodJoin(q.joins[i]))
    && GoodWhere(q.where_)
    && (forall i | 0 <= i < |q.order| :: GoodColumn(q.order[i].column))
  }

  function TailLex(q: SelectStatement): Lexemes { OrderLex(q.order) + (PageLex(q.paged) + [P(';')]) }

  function FromLex(q: SelectStatement): Lexemes { [W("FROM"), W(q.table), W("AS"), W(q.alias)] }

  function SelectLex(q: SelectStatement): Lexemes
    requires GoodSelect(q)
  {
    SelectionLex(q.selection) + (FromLex(q) + (JoinsLex(q.joins) + (WhereLex(q.where_) + TailLex(q))))
  }

  // Every statement is read back as it was written.
  lemma SelectReads(q: SelectStatement)
    requires GoodSelect(q)
    ensures ReadSelect(SelectLex(q)) == Some(q)
  {
    var s1 := WhereLex(q.where_) + TailLex(q);
    var s0 := JoinsLex(q.joins) + s1;
    var from := FromLex(q) + s0;
    SelectionReads(q.selection, from);
    FromReads(q, s0);
    TailStarts(q);
    WhereStarts(q.where_, TailLex(q));
    JoinsRead(q.joins, s1);
    RestReads(q);
  }

  lemma FromReads(q: SelectStatement, rest: Lexemes)
    ensures var from := FromLex(q) + rest;
            |from| >= 4 && from[..4] == FromLex(q) && from[4..] == rest && from[0] == W("FROM")
            && WordAt(from, 1) == q.table && WordAt(from, 2) == "AS" && WordAt(from, 3) == q.alias
  {}

  lemma RestReads(q: SelectStatement)
    requires GoodSelect(q)
    ensures ReadRest(q.selection, q.table, q.alias, q.joins, WhereLex(q.where_) + TailLex(q)) == Some(q)
  {
    var end := PageLex(q.paged) + [P(';')];
    TailStarts(q);
    WhereReads(q.where_, TailLex(q));
    EndStarts(q.paged);
    OrderReads(q.order, end);
  }

  lemma EndStarts(paged: bool)
    ensures var end := PageLex(paged) + [P(';')];
            end != [] && (end[0] == W("LIMIT") || end[0] == P(';')) && ReadEnd(end) == Some(paged)
  {}

  lemma TailStarts(q: SelectStatement)
    ensures AfterWhere(TailLex(q))
  {}

  lemma WhereStarts(w: Where, rest: Lexemes)
    requires GoodWhere(w) && AfterWhere(rest)
    ensures WordAt(WhereLex(w) + rest, 0) != "LEFT"
  {
    if w.Everything? { assert [] + rest == rest; }
  }

  // ---- changes ---------------------------------------------------------------------------------------------

  datatype ChangeStatement =
    | Inserts(table: string, columns: seq<string>, names: seq<string>)
    | Updates(table: string, pairs: seq<Assignment>, alias: string, id: string)
    | Deletes(table: string, names: seq<string>)

  datatype Assignment = Assignment(column: string, name: string)

  function NameLex(c: string): Lexemes { [W(c)] }

  function ReadName(s: Lexemes): Option<(string, Lexemes)> {
    if WordAt(s, 0) == "" then None else Some((WordAt(s, 0), s[1..]))
  }

  lemma NameReads(c: string, stop: Lexeme)
    requires c != ""
    ensures Reads(ReadName, NameLex, c, stop)
  {
    forall rest | rest == [] || rest[0] != stop ensures ReadName(NameLex(c) + rest) == Some((c, rest)) {
      assert (NameLex(c) + rest)[1..] == rest;
    }
  }

  function AssignedLex(a: Assignment): Lexemes { [W(a.column), P('='), W("$" + a.name)] }

  function ReadAssigned(s: Lexemes): Option<(Assignment, Lexemes)> {
    if WordAt(s, 0) == "" || |s| < 3 || s[1] != P('=') then None
    else
      match OperandAt(s, 2)
      case Some(p) => Some((Assignment(WordAt(s, 0), p), s[3..]))
      case None => None
  }

  lemma AssignedReads(a: Assignment, stop: Lexeme)
    requires a.column != ""
    ensures Reads(ReadAssigned, AssignedLex, a, stop)
  {
    ParamReads(a.name);
    forall rest | rest == [] || rest[0] != stop ensures ReadAssigned(AssignedLex(a) + rest) == Some((a, rest)) {
      var s := AssignedLex(a) + rest;
      assert s[0] == W(a.column) && s[1] == P('=') && s[2] == W("$" + a.name) && s[3..] == rest;
    }
  }

  predicate GoodChange(c: ChangeStatement) {
    match c
    case Inserts(t, columns, names) =>
      GoodName(t) && columns != [] && names != [] && forall i | 0 <= i < |columns| :: GoodName(columns[i])
    case Updates(t, pairs, a, id) =>
      GoodName(t) && pairs != [] && GoodName(a) && forall i | 0 <= i < |pairs| :: GoodName(pairs[i].column)
    case Deletes(t, names) => GoodName(t) && names != []
  }

  function ChangeLex(c: ChangeStatement): Lexemes
    requires GoodChange(c)
  {
    match c
    case Inserts(t, columns, names) =>
      [W("INSERT"), W("INTO"), W(t), P('(')]
      + (Shown(NameLex, P(','), columns)
         + ([P(')'), W("VALUES"), P('(')] + (Shown(ParamLex, P(','), names) + ReturningLex())))
    case Updates(t, pairs, a, id) =>
      [W("UPDATE"), W(t), W("SET")]
      + (Shown(AssignedLex, P(','), pairs) + [W("WHERE"), W(a + ".id"), P('='), W("$" + id), P(';')])
    case Deletes(t, names) =>
      [W("DELETE"), W("FROM"), W(t), W("WHERE"), W("id"), W("IN"), P('(')]
      + (Shown(ParamLex, P(','), names) + [P(')'), P(';')])
  }

  function ReturningLex(): Lexemes { [P(')'), W("RETURNING"), W("id"), P(';')] }

  function ReadChange(s: Lexemes): Option<ChangeStatement> {
    if Starts(s, [W("INSERT"), W("INTO")]) then ReadInsert(s)
    else if WordAt(s, 0) == "UPDATE" then ReadUpdate(s)
    else ReadDelete(s)
  }

  function ReadInsert(s: Lexemes): Option<ChangeStatement> {
    if |s| < 4 || s[3] != P('(') then None
    else
      match Many(ReadName, P(','), s[4..])
      case None => None
      case Some((columns, values)) =>
        if !Starts(values, [P(')'), W("VALUES"), P('(')]) then None
        else
          match Many(ReadParamItem, P(','), values[3..])
          case None => None
          case Some((names, end)) =>
            if end == ReturningLex() then Some(Inserts(WordAt(s, 2), columns, names)) else None
  }

  function ReadUpdate(s: Lexemes): Option<ChangeStatement> {
    if |s| < 3 || s[2] != W("SET") then None
    else
      match Many(ReadAssigned, P(','), s[3..])
      case None => None
      case Some((pairs, end)) =>
        match (ReadIdOf(WordAt(end, 1)), OperandAt(end, 3))
        case (Some(a), Some(id)) =>
          if end == [W("WHERE"), W(a + ".id"), P('='), W("$" + id), P(';')] then
            Some(Updates(WordAt(s, 1), pairs, a, id))
          else None
        case _ => None
  }

  function ReadDelete(s: Lexemes): Option<ChangeStatement> {
    var t := WordAt(s, 2);
    if !Starts(s, [W("DELETE"), W("FROM"), W(t), W("WHERE"), W("id"), W("IN"), P('(')]) then None
    else
      match Many(ReadParamItem, P(','), s[7..])
      case None => None
      case Some((names, end)) => if end == [P(')'), P(';')] then Some(Deletes(t, names)) else None
  }

  lemma ChangeReads(c: ChangeStatement)
    requires GoodChange(c)
    ensures ReadChange(ChangeLex(c)) == Some(c)
  {
    match c
    case Inserts(t, columns, names) => InsertReads(t, columns, names);
    case Updates(t, pairs, a, id) => UpdateReads(t, pairs, a, id);
    case Deletes(t, names) => DeleteReads(t, names);
  }

  lemma InsertReads(t: string, columns: seq<string>, names: seq<string>)
    requires GoodChange(Inserts(t, columns, names))
    ensures ReadChange(ChangeLex(Inserts(t, columns, names))) == Some(Inserts(t, columns, names))
  {
    var s := ChangeLex(Inserts(t, columns, names));
    var values := [P(')'), W("VALUES"), P('(')] + (Shown(ParamLex, P(','), names) + ReturningLex());
    forall i | 0 <= i < |columns| ensures Reads(ReadName, NameLex, columns[i], P(';')) {
      NameReads(columns[i], P(';'));
    }
    ManyReads(ReadName, NameLex, P(','), columns, P(';'), values);
    ParamsRead(names, ReturningLex());
    assert s[0] == W("INSERT") && s[1] == W("INTO") && s[2] == W(t) && s[3] == P('(');
    assert s[4..] == Shown(NameLex, P(','), columns) + values;
    assert values[3..] == Shown(ParamLex, P(','), names) + ReturningLex();
    assert Starts(s, [W("INSERT"), W("INTO")]) && Starts(values, [P(')'), W("VALUES"), P('(')]);
  }

  lemma UpdateReads(t: string, pairs: seq<Assignment>, a: string, id: string)
    requires GoodChange(Updates(t, pairs, a, id))
    ensures ReadChange(ChangeLex(Updates(t, pairs, a, id))) == Some(Updates(t, pairs, a, id))
  {
    var end := [W("WHERE"), W(a + ".id"), P('='), W("$" + id), P(';')];
    PairsRead(pairs, end);
    UpdateStarts(t, Shown(AssignedLex, P(','), pairs) + end);
    IdOfReads(a);
    ParamReads(id);
  }

  lemma PairsRead(pairs: seq<Assignment>, end: Lexemes)
    requires pairs != [] && forall i | 0 <= i < |pairs| :: GoodName(pairs[i].column)
    requires end != [] && end[0] == W("WHERE")
    ensures Many(ReadAssigned, P(','), Shown(AssignedLex, P(','), pairs) + end) == Some((pairs, end))
  {
    forall i | 0 <= i < |pairs| ensures Reads(ReadAssigned, AssignedLex, pairs[i], P(';')) {
      AssignedReads(pairs[i], P(';'));
    }
    ManyReads(ReadAssigned, AssignedLex, P(','), pairs, P(';'), end);
  }

  lemma UpdateStarts(t: string, rest: Lexemes)
    ensures var s := [W("UPDATE"), W(t), W("SET")] + rest;
            ReadChange(s) == ReadUpdate(s) && |s| >= 3 && s[2] == W("SET") && s[3..] == rest && WordAt(s, 1) == t
  {
    var s := [W("UPDATE"), W(t), W("SET")] + rest;
    assert s[0] == W("UPDATE") && s[1] == W(t);
  }

  lemma DeleteReads(t: string, names: seq<string>)
    requires GoodChange(Deletes(t, names))
    ensures ReadChange(ChangeLex(Deletes(t, names))) == Some(Deletes(t, names))
  {
    var s, end := ChangeLex(Deletes(t, names)), [P(')'), P(';')];
    ParamsRead(names, end);
    assert s[0] == W("DELETE") && s[2] == W(t) && s[7..] == Shown(ParamLex, P(','), names) + end;
    assert Starts(s, [W("DELETE"), W("FROM"), W(t), W("WHERE"), W("id"), W("IN"), P('(')]);
  }
}

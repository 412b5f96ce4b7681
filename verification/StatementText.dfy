// The words of the statements: reading a printed statement gives the query or the change it stands for.
module StatementText {
  import opened Ordering
  import opened Lists
  import opened Text
  import opened QTree
  import opened Sql
  import G = SqlGenius
  import opened Tokens
  import opened Statements
  import opened Lexing
  import opened Reading

  // ---- the fixed texts -------------------------------------------------------------------------------------

  lemma AsPhrase()
    ensures Phrase(" AS ", [W("AS")])
  {
    WordPhrase(' ', "AS");
    assert [' '] + "AS" + " " == " AS ";
  }

  lemma OnPhrase()
    ensures Phrase(" ON ", [W("ON")])
  {
    WordPhrase(' ', "ON");
    assert [' '] + "ON" + " " == " ON ";
  }

  lemma AndPhrase()
    ensures Phrase(" AND ", [W("AND")])
  {
    WordPhrase(' ', "AND");
    assert [' '] + "AND" + " " == " AND ";
  }

  lemma OrPhrase()
    ensures Phrase(" OR ", [W("OR")])
  {
    WordPhrase(' ', "OR");
    assert [' '] + "OR" + " " == " OR ";
  }

  lemma LikePhrase()
    ensures Phrase(" LIKE ", [W("LIKE")])
  {
    WordPhrase(' ', "LIKE");
    assert [' '] + "LIKE" + " " == " LIKE ";
  }

  lemma BetweenPhrase()
    ensures Phrase(" BETWEEN ", [W("BETWEEN")])
  {
    WordPhrase(' ', "BETWEEN");
    assert [' '] + "BETWEEN" + " " == " BETWEEN ";
  }

  lemma EqualsPhrase()
    ensures Phrase(" = ", [P('=')])
  {
    OperatorPhrase('=');
    assert [' ', '=', ' '] == " = ";
  }

  lemma GreaterPhrase()
    ensures Phrase(" > ", [P('>')])
  {
    OperatorPhrase('>');
    assert [' ', '>', ' '] == " > ";
  }

  lemma LessPhrase()
    ensures Phrase(" < ", [P('<')])
  {
    OperatorPhrase('<');
    assert [' ', '<', ' '] == " < ";
  }

  lemma UnequalPhrase()
    ensures Phrase(" != ", [P('!'), P('=')])
  {
    BlankPhrase(' ');
    MarkPhrase('!');
    MarkPhrase('=');
    PhraseConcat(" ", [], ['!'], [P('!')]);
    PhraseConcat(['='], [P('=')], " ", []);
    PhraseConcat(" " + ['!'], [] + [P('!')], ['='] + " ", [P('=')] + []);
    assert " " + ['!'] + (['='] + " ") == " != ";
    assert [] + [P('!')] + ([P('=')] + []) == [P('!'), P('=')];
  }

  lemma CommaPhrase()
    ensures Phrase(", ", [P(',')])
  {
    MarkPhrase(',');
    BlankPhrase(' ');
    PhraseConcat([','], [P(',')], " ", []);
    assert [','] + " " == ", " && [P(',')] + [] == [P(',')];
  }

  lemma OpenPhrase()
    ensures Phrase(" (", [P('(')]) && Phrase("(", [P('(')])
  {
    BlankPhrase(' ');
    MarkPhrase('(');
    PhraseConcat(" ", [], ['('], [P('(')]);
    assert " " + ['('] == " (" && ['('] == "(" && [] + [P('(')] == [P('(')];
  }

  lemma ClosePhrase()
    ensures Phrase(")", [P(')')])
  {
    MarkPhrase(')');
  }

  lemma SemicolonPhrase()
    ensures Phrase(";", [P(';')])
  {
    MarkPhrase(';');
  }

  lemma InPhrase()
    ensures Phrase(" IN (", [W("IN"), P('(')])
  {
    WordPhrase(' ', "IN");
    OpenPhrase();
    PhraseConcat([' '] + "IN" + " ", [W("IN")], "(", [P('(')]);
    assert [' '] + "IN" + " " + "(" == " IN (";
  }

  lemma WherePhrase()
    ensures Phrase("\nWHERE ", [W("WHERE")])
  {
    WordPhrase('\n', "WHERE");
    assert ['\n'] + "WHERE" + " " == "\nWHERE ";
  }

  lemma FromPhrase()
    ensures Phrase("\nFROM ", [W("FROM")])
  {
    WordPhrase('\n', "FROM");
    assert ['\n'] + "FROM" + " " == "\nFROM ";
  }

  // Two words behind a line break.
  lemma TwoWords(a: string, b: string)
    requires IsWord(a) && IsWord(b)
    ensures Phrase(['\n'] + a + " " + (b + " "), [W(a), W(b)])
    ensures Says(a + " " + (b + " "), [W(a), W(b)]) && Closes(a + " " + (b + " "))
  {
    WordPhrase('\n', a);
    WordPhrase(' ', b);
    SaysConcat(['\n'] + a + " ", [W(a)], b + " ", [W(b)]);
    SaysConcat(a + " ", [W(a)], b + " ", [W(b)]);
  }

  lemma JoinPhrase()
    ensures Phrase("\nLEFT JOIN ", [W("LEFT"), W("JOIN")])
  {
    TwoWords("LEFT", "JOIN");
    assert ['\n'] + "LEFT" + " " + ("JOIN" + " ") == "\nLEFT JOIN ";
  }

  lemma OrderPhrase()
    ensures Phrase("\nORDER BY ", [W("ORDER"), W("BY")])
  {
    TwoWords("ORDER", "BY");
    assert ['\n'] + "ORDER" + " " + ("BY" + " ") == "\nORDER BY ";
  }

  lemma LimitPhrases()
    ensures Phrase("\nLIMIT ", [W("LIMIT")]) && Phrase(" OFFSET ", [W("OFFSET")])
  {
    WordPhrase('\n', "LIMIT");
    WordPhrase(' ', "OFFSET");
    assert ['\n'] + "LIMIT" + " " == "\nLIMIT " && [' '] + "OFFSET" + " " == " OFFSET ";
  }

  // ---- names and placeholders ------------------------------------------------------------------------------

  lemma NameIsWord(n: string)
    requires GoodName(n)
    ensures IsWord(n) && IsWord("$" + n) && IsWord(n + ".id")
  {}

  lemma ColumnIsWord(c: Column)
    requires GoodColumn(c)
    ensures IsWord(ColumnWord(c)) && Col(c) == ColumnWord(c) && IsWord(c.alias + "_" + c.name)
  {}

  lemma {:induction false} PrintConcat(a: seq<Tok>, b: seq<Tok>)
    ensures Print(a + b) == Print(a) + Print(b)
    decreases |a|
  {
    if a == [] {
      assert a + b == b;
    } else {
      assert (a + b)[1..] == a[1..] + b;
      PrintConcat(a[1..], b);
      ConcatAssociates(PrintTok(a[0]), Print(a[1..]), Print(b));
    }
  }

  lemma PrintText(s: string)
    ensures Print([Txt(s)]) == s
  {
    assert [Txt(s)][1..] == [];
    assert Print([Txt(s)]) == s + "";
  }

  lemma PrintTextPar(s: string, p: string)
    ensures Print([Txt(s), Par(p)]) == s + ("$" + p)
  {
    var toks := [Txt(s), Par(p)];
    assert toks[1..] == [Par(p)] && [Par(p)][1..] == [];
    assert Print([Par(p)]) == "$" + p + "";
  }

  // A run of pieces that reads as these lexemes, and can follow anything.
  ghost predicate Run(toks: seq<Tok>, l: Lexemes) { Opens(Print(toks)) && Says(Print(toks), l) }

  lemma RunConcat(a: seq<Tok>, l: Lexemes, b: seq<Tok>, m: Lexemes)
    requires Run(a, l) && Run(b, m)
    ensures Run(a + b, l + m)
  {
    PrintConcat(a, b);
    SaysConcat(Print(a), l, Print(b), m);
  }

  lemma NoRun()
    ensures Run([], [])
  {
    NothingSaid();
  }

  lemma TextRun(s: string, l: Lexemes)
    requires Opens(s) && Says(s, l)
    ensures Run([Txt(s)], l)
  {
    PrintText(s);
  }

  // A text that ends with a blank or a bracket, and the placeholder behind it.
  lemma SaysTextPar(s: string, l: Lexemes, p: string)
    requires Says(s, l) && Closes(s) && GoodName(p)
    ensures Says(Print([Txt(s), Par(p)]), l + [W("$" + p)])
    ensures s != "" && Opens(s) ==> Opens(Print([Txt(s), Par(p)]))
  {
    PrintTextPar(s, p);
    NameIsWord(p);
    SaysWord("$" + p);
    SaysConcat(s, l, "$" + p, [W("$" + p)]);
  }

  lemma ParRun(s: string, l: Lexemes, p: string)
    requires Phrase(s, l) && GoodName(p)
    ensures Run([Txt(s), Par(p)], l + [W("$" + p)])
  {
    SaysTextPar(s, l, p);
  }

  // ---- lists -----------------------------------------------------------------------------------------------

  function ListLex(l: Lexemes, names: seq<string>): Lexemes {
    if names == [] then [] else l + Shown(ParamLex, P(','), names)
  }

  lemma {:induction false} ListRun(head: string, l: Lexemes, names: seq<string>)
    requires Phrase(head, l) && forall i | 0 <= i < |names| :: GoodName(names[i])
    ensures Run(ListToks(head, names), ListLex(l, names))
  {
    if names == [] {
      NoRun();
    } else {
      var init, p := names[..|names| - 1], names[|names| - 1];
      var m := if init == [] then l else [P(',')];
      assert names == init + [p] && GoodName(p);
      ListRun(head, l, init);
      SeparatorPhrase(head, l, names);
      AppendPar(ListToks(head, init), ListLex(l, init), Separator(head, names), m, p);
      ListLexSnoc(l, init, p);
    }
  }

  lemma SeparatorPhrase(head: string, l: Lexemes, names: seq<string>)
    requires Phrase(head, l)
    ensures Phrase(Separator(head, names), if |names| == 1 then l else [P(',')])
  {
    CommaPhrase();
  }

  lemma AppendPar(toks: seq<Tok>, l: Lexemes, s: string, m: Lexemes, p: string)
    requires Run(toks, l) && Phrase(s, m) && GoodName(p)
    ensures Run(toks + [Txt(s), Par(p)], l + (m + [W("$" + p)]))
  {
    ParRun(s, m, p);
    RunConcat(toks, l, [Txt(s), Par(p)], m + [W("$" + p)]);
  }

  lemma ListLexSnoc(l: Lexemes, init: seq<string>, p: string)
    ensures ListLex(l, init + [p]) == ListLex(l, init) + ((if init == [] then l else [P(',')]) + [W("$" + p)])
  {
    if init != [] {
      ShownSnoc(ParamLex, P(','), init, p);
      ConcatAssociates(l, Shown(ParamLex, P(','), init), [P(',')] + [W("$" + p)]);
    }
  }

  lemma {:induction false} ColumnListText(columns: seq<Column>)
    requires columns != [] && forall i | 0 <= i < |columns| :: GoodColumn(columns[i])
    ensures Says(ColumnList(columns), Shown(FieldLex, P(','), columns))
  {
    var init, c := columns[..|columns| - 1], columns[|columns| - 1];
    assert columns == init + [c];
    if init == [] {
      NothingSaid();
      FieldText("", [], c);
      assert [] + FieldLex(c) == FieldLex(c);
    } else {
      var l := Shown(FieldLex, P(','), init);
      ColumnListText(init);
      CommaPhrase();
      SaysConcat(ColumnList(init), l, ", ", [P(',')]);
      FieldText(ColumnList(init) + ", ", l + [P(',')], c);
      ShownSnoc(FieldLex, P(','), init, c);
      ConcatAssociates(l, [P(',')], FieldLex(c));
    }
  }

  lemma FieldText(before: string, l: Lexemes, c: Column)
    requires Says(before, l) && Closes(before) && GoodColumn(c)
    ensures Says(before + Col(c) + " AS " + c.alias + "_" + c.name, l + FieldLex(c))
  {
    ColumnIsWord(c);
    AsPhrase();
    NothingSaid();
    var word := c.alias + "_" + c.name;
    var s, m := before + Col(c) + " AS ", l + [W(ColumnWord(c))] + [W("AS")];
    SaysInsert(before, l, Col(c), " AS ", [W("AS")]);
    SaysWord(word);
    SaysConcat(s, m, word, [W(word)]);
    ConcatAssociates(s + c.alias, "_", c.name);
    ConcatAssociates(s, c.alias, "_" + c.name);
    ConcatAssociates(c.alias, "_", c.name);
    assert m + [W(word)] == l + FieldLex(c);
  }

  lemma {:induction false} SortListText(order: seq<SortKey>)
    requires order != [] && forall i | 0 <= i < |order| :: GoodColumn(order[i].column)
    ensures Says(SortList(order), Shown(SortLex, P(','), order))
  {
    var init, k := order[..|order| - 1], order[|order| - 1];
    assert order == init + [k];
    if init == [] {
      NothingSaid();
      SortText("", [], k);
      assert [] + SortLex(k) == SortLex(k);
    } else {
      var l := Shown(SortLex, P(','), init);
      SortListText(init);
      CommaPhrase();
      SaysConcat(SortList(init), l, ", ", [P(',')]);
      SortText(SortList(init) + ", ", l + [P(',')], k);
      ShownSnoc(SortLex, P(','), init, k);
      ConcatAssociates(l, [P(',')], SortLex(k));
    }
  }

  function Direction(k: SortKey): string { if k.desc then " DESC" else "" }

  lemma DirectionText(k: SortKey)
    ensures Opens(Direction(k)) && Says(Direction(k), if k.desc then [W("DESC")] else [])
  {
    NothingSaid();
    WordPhrase(' ', "DESC");
    assert [' '] + "DESC" == " DESC";
  }

  lemma SortText(before: string, l: Lexemes, k: SortKey)
    requires Says(before, l) && Closes(before) && GoodColumn(k.column)
    ensures Says(before + Col(k.column) + (if k.desc then " DESC" else ""), l + SortLex(k))
  {
    var m := if k.desc then [W("DESC")] else [];
    ColumnIsWord(k.column);
    DirectionText(k);
    SaysInsert(before, l, Col(k.column), Direction(k), m);
    ConcatAssociates(l, [W(ColumnWord(k.column))], m);
  }

  lemma {:induction false} ColumnNamesText(columns: seq<string>)
    requires columns != [] && forall i | 0 <= i < |columns| :: GoodName(columns[i])
    ensures Says(ColumnNames(columns), Shown(NameLex, P(','), columns))
  {
    var init, c := columns[..|columns| - 1], columns[|columns| - 1];
    assert columns == init + [c];
    NameIsWord(c);
    SaysWord(c);
    if init == [] {
      assert "" + "" + c == c;
    } else {
      var l := Shown(NameLex, P(','), init);
      ColumnNamesText(init);
      CommaPhrase();
      SaysConcat(ColumnNames(init), l, ", ", [P(',')]);
      SaysConcat(ColumnNames(init) + ", ", l + [P(',')], c, [W(c)]);
      ShownSnoc(NameLex, P(','), init, c);
      ConcatAssociates(l, [P(',')], [W(c)]);
    }
  }

  // The columns of an UPDATE, each with the name of its placeholder.
  function SamePairs(columns: seq<string>): seq<Assignment> {
    seq(|columns|, i requires 0 <= i < |columns| => Assignment(columns[i], columns[i]))
  }

  lemma SamePairsSnoc(columns: seq<string>, c: string)
    ensures SamePairs(columns + [c]) == SamePairs(columns) + [Assignment(c, c)]
  {}

  function PairsLex(columns: seq<string>): Lexemes {
    if columns == [] then [] else Shown(AssignedLex, P(','), SamePairs(columns))
  }

  lemma {:induction false} AssignRun(columns: seq<string>)
    requires forall i | 0 <= i < |columns| :: GoodName(columns[i])
    ensures Run(AssignToks(columns), PairsLex(columns))
  {
    if columns == [] {
      NoRun();
    } else {
      var init, c := columns[..|columns| - 1], columns[|columns| - 1];
      var sep := Separator(" ", columns);
      var l := if init == [] then [] else [P(',')];
      AssignRun(init);
      CommaPhrase();
      BlankPhrase(' ');
      AssignOne(sep, l, c);
      RunConcat(AssignToks(init), PairsLex(init), [Txt(sep + c + " = "), Par(c)], l + AssignedLex(Assignment(c, c)));
      assert columns == init + [c];
      PairsLexSnoc(init, c);
    }
  }

  lemma PairsLexSnoc(init: seq<string>, c: string)
    ensures PairsLex(init + [c])
            == PairsLex(init) + ((if init == [] then [] else [P(',')]) + AssignedLex(Assignment(c, c)))
  {
    SamePairsSnoc(init, c);
    if init == [] {
      assert SamePairs([]) + [Assignment(c, c)] == [Assignment(c, c)];
    } else {
      ShownSnoc(AssignedLex, P(','), SamePairs(init), Assignment(c, c));
    }
  }

  lemma AssignOne(sep: string, l: Lexemes, c: string)
    requires GoodName(c) && Phrase(sep, l)
    ensures Run([Txt(sep + c + " = "), Par(c)], l + AssignedLex(Assignment(c, c)))
  {
    NameIsWord(c);
    EqualsPhrase();
    PhraseInsert(sep, l, c, " = ", [P('=')]);
    ParRun(sep + c + " = ", l + [W(c)] + [P('=')], c);
    assert l + [W(c)] + [P('=')] + [W("$" + c)] == l + AssignedLex(Assignment(c, c));
  }

  // ---- joins -----------------------------------------------------------------------------------------------

  function JoinHeadLex(j: Join): Lexemes {
    [W("LEFT"), W("JOIN"), W(j.table), W("AS"), W(j.alias), W("ON"), W(j.alias + ".id"), P('=')]
  }

  lemma JoinHeadPhrase(j: Join)
    requires GoodName(j.table) && GoodName(j.alias)
    ensures Phrase(JoinHead(j), JoinHeadLex(j))
  {
    var s1, s2 := "\nLEFT JOIN " + j.table + " AS ", "\nLEFT JOIN " + j.table + " AS " + j.alias + " ON ";
    var l1 := [W("LEFT"), W("JOIN")] + [W(j.table)] + [W("AS")];
    var l2 := l1 + [W(j.alias)] + [W("ON")];
    JoinPhrase();
    AsPhrase();
    OnPhrase();
    NameIsWord(j.table);
    NameIsWord(j.alias);
    PhraseInsert("\nLEFT JOIN ", [W("LEFT"), W("JOIN")], j.table, " AS ", [W("AS")]);
    PhraseInsert(s1, l1, j.alias, " ON ", [W("ON")]);
    IdEqualsPhrase(s2, l2, j.alias);
    assert l2 + [W(j.alias + ".id"), P('=')] == JoinHeadLex(j);
  }

  // "alias.id = " behind a phrase.
  lemma IdEqualsPhrase(s: string, l: Lexemes, alias: string)
    requires Phrase(s, l) && GoodName(alias)
    ensures Phrase(s + alias + ".id = ", l + [W(alias + ".id"), P('=')])
  {
    NameIsWord(alias);
    EqualsPhrase();
    PhraseInsert(s, l, alias + ".id", " = ", [P('=')]);
    IdApart(s, alias, " = ");
    assert ".id" + " = " == ".id = ";
    assert l + [W(alias + ".id")] + [P('=')] == l + [W(alias + ".id"), P('=')];
  }

  lemma IdApart(s: string, alias: string, rest: string)
    ensures s + (alias + ".id") + rest == s + alias + (".id" + rest)
  {}

  lemma JoinRun(j: Join)
    requires GoodJoin(j)
    ensures Run(JoinToks(j), JoinLex(j))
  {
    JoinHeadPhrase(j);
    assert JoinHeadLex(j) + [OnLex(j.on)] == JoinLex(j);
    match j.on
    case OnParam(p) => ParRun(JoinHead(j), JoinHeadLex(j), p);
    case OnColumn(c) =>
      ColumnIsWord(c);
      PrintTwo(JoinHead(j), Col(c));
      SaysWord(Col(c));
      SaysConcat(JoinHead(j), JoinHeadLex(j), Col(c), [W(Col(c))]);
  }

  lemma PrintTwo(s: string, t: string)
    ensures Print([Txt(s), Txt(t)]) == s + t
  {
    PrintText(s);
    PrintText(t);
    PrintConcat([Txt(s)], [Txt(t)]);
    assert [Txt(s), Txt(t)] == [Txt(s)] + [Txt(t)];
  }

  lemma {:induction false} JoinsLexSnoc(joins: seq<Join>, j: Join)
    ensures JoinsLex(joins + [j]) == JoinsLex(joins) + JoinLex(j)
    decreases |joins|
  {
    if joins == [] {
      assert [j][1..] == [];
    } else {
      assert (joins + [j])[1..] == joins[1..] + [j];
      JoinsLexSnoc(joins[1..], j);
      ConcatAssociates(JoinLex(joins[0]), JoinsLex(joins[1..]), JoinLex(j));
    }
  }

  lemma {:induction false} JoinsRun(joins: seq<Join>)
    requires forall i | 0 <= i < |joins| :: GoodJoin(joins[i])
    ensures Run(JoinsToks(joins), JoinsLex(joins))
  {
    if joins == [] {
      NoRun();
    } else {
      JoinsRun(joins[..|joins| - 1]);
      JoinsRunSnoc(joins[..|joins| - 1], joins[|joins| - 1]);
      assert joins[..|joins| - 1] + [joins[|joins| - 1]] == joins;
    }
  }

  lemma JoinsRunSnoc(init: seq<Join>, j: Join)
    requires Run(JoinsToks(init), JoinsLex(init)) && GoodJoin(j)
    ensures Run(JoinsToks(init + [j]), JoinsLex(init + [j]))
  {
    JoinRun(j);
    RunConcat(JoinsToks(init), JoinsLex(init), JoinToks(j), JoinLex(j));
    assert (init + [j])[..|init|] == init;
    JoinsLexSnoc(init, j);
  }

  // ---- where -----------------------------------------------------------------------------------------------

  // A test, behind nothing or behind OR.
  lemma AtomText(or: string, l: Lexemes, c: Column, a: Atom)
    requires Says(or, l) && Closes(or) && GoodColumn(c) && PlainAtom(a)
    ensures Says(Print(AtomToks(or + Col(c), a)), l + AtomLex(c, a))
    ensures or != "" && Opens(or) ==> Opens(Print(AtomToks(or + Col(c), a)))
  {
    match a
    case Ne(p) =>
      UnequalPhrase();
      OperandText(or, l, c, " != ", [P('!'), P('=')], p);
      AtomLexIs(l, c, [P('!'), P('=')], a, p);
    case Gt(p) =>
      GreaterPhrase();
      OperandText(or, l, c, " > ", [P('>')], p);
      AtomLexIs(l, c, [P('>')], a, p);
    case Lt(p) =>
      LessPhrase();
      OperandText(or, l, c, " < ", [P('<')], p);
      AtomLexIs(l, c, [P('<')], a, p);
    case Between(lo, hi) => BetweenText(or, l, c, lo, hi);
    case Like(p) =>
      LikePhrase();
      OperandText(or, l, c, " LIKE ", [W("LIKE")], p);
      AtomLexIs(l, c, [W("LIKE")], a, p);
  }

  lemma AtomLexIs(l: Lexemes, c: Column, op: Lexemes, a: Atom, p: string)
    requires AtomLex(c, a) == [W(ColumnWord(c))] + (op + [W("$" + p)])
    ensures l + [W(ColumnWord(c))] + op + [W("$" + p)] == l + AtomLex(c, a)
  {}

  lemma OperandText(or: string, l: Lexemes, c: Column, op: string, m: Lexemes, p: string)
    requires Says(or, l) && Closes(or) && GoodColumn(c) && Phrase(op, m) && GoodName(p)
    ensures Says(Print([Txt(or + Col(c) + op), Par(p)]), l + [W(ColumnWord(c))] + m + [W("$" + p)])
    ensures or != "" && Opens(or) ==> Opens(Print([Txt(or + Col(c) + op), Par(p)]))
  {
    ColumnIsWord(c);
    SaysInsert(or, l, Col(c), op, m);
    SaysTextPar(or + Col(c) + op, l + [W(ColumnWord(c))] + m, p);
  }

  lemma BetweenText(or: string, l: Lexemes, c: Column, lo: string, hi: string)
    requires Says(or, l) && Closes(or) && GoodColumn(c) && GoodName(lo) && GoodName(hi)
    ensures Says(Print(AtomToks(or + Col(c), Between(lo, hi))), l + AtomLex(c, Between(lo, hi)))
    ensures or != "" && Opens(or) ==> Opens(Print(AtomToks(or + Col(c), Between(lo, hi))))
  {
    var toks, m := [Txt(or + Col(c) + " BETWEEN "), Par(lo)], l + [W(ColumnWord(c))] + [W("BETWEEN")] + [W("$" + lo)];
    BetweenPhrase();
    OperandText(or, l, c, " BETWEEN ", [W("BETWEEN")], lo);
    AndText(toks, m, hi);
    BetweenLexIs(l, c, lo, hi);
  }

  lemma AndText(toks: seq<Tok>, m: Lexemes, hi: string)
    requires Says(Print(toks), m) && GoodName(hi)
    ensures Says(Print(toks + [Txt(" AND "), Par(hi)]), m + ([W("AND")] + [W("$" + hi)]))
    ensures Print(toks) != "" && Opens(Print(toks)) ==> Opens(Print(toks + [Txt(" AND "), Par(hi)]))
  {
    var and := [Txt(" AND "), Par(hi)];
    AndPhrase();
    ParRun(" AND ", [W("AND")], hi);
    PrintConcat(toks, and);
    SaysConcat(Print(toks), m, Print(and), [W("AND")] + [W("$" + hi)]);
  }

  lemma BetweenLexIs(l: Lexemes, c: Column, lo: string, hi: string)
    ensures l + [W(ColumnWord(c))] + [W("BETWEEN")] + [W("$" + lo)] + ([W("AND")] + [W("$" + hi)])
            == l + AtomLex(c, Between(lo, hi))
  {}

  lemma TestsSnoc(c: Column, atoms: seq<Atom>)
    requires atoms != []
    ensures Tests(Clause(c, atoms)) == Tests(Clause(c, atoms[..|atoms| - 1])) + [Test(c, atoms[|atoms| - 1])]
  {}

  lemma {:induction false} AtomsText(c: Column, atoms: seq<Atom>)
    requires GoodColumn(c) && atoms != [] && forall i | 0 <= i < |atoms| :: PlainAtom(atoms[i])
    ensures Says(Print(AtomsToks(c, atoms)), Shown(TestLex, W("OR"), Tests(Clause(c, atoms))))
  {
    var init, a := atoms[..|atoms| - 1], atoms[|atoms| - 1];
    TestsSnoc(c, atoms);
    if init == [] {
      NothingSaid();
      AtomText("", [], c, a);
      assert [] + AtomToks(Col(c), a) == AtomToks(Col(c), a) && "" + Col(c) == Col(c);
      assert [] + AtomLex(c, a) == AtomLex(c, a);
    } else {
      AtomsText(c, init);
      OrPhrase();
      AtomText(" OR ", [W("OR")], c, a);
      PrintConcat(AtomsToks(c, init), AtomToks(" OR " + Col(c), a));
      SaysConcat(Print(AtomsToks(c, init)), Shown(TestLex, W("OR"), Tests(Clause(c, init))),
                 Print(AtomToks(" OR " + Col(c), a)), [W("OR")] + AtomLex(c, a));
      ShownSnoc(TestLex, W("OR"), Tests(Clause(c, init)), Test(c, a));
    }
  }

  lemma ClauseRun(head: string, l: Lexemes, c: Clause)
    requires GoodClause(c) && PlainClause(c) && Phrase(head, l)
    ensures Run(ClauseToks(head, c), l + ClauseShow(c))
  {
    var m := Shown(TestLex, W("OR"), Tests(c));
    OpenPhrase();
    PhraseConcat(head, l, "(", [P('(')]);
    AtomsText(c.column, c.atoms);
    Bracketed(head + "(", l + [P('(')], AtomsToks(c.column, c.atoms), m);
    ConcatAssociates(l, [P('(')], m + [P(')')]);
    ConcatAssociates(l + [P('(')], m, [P(')')]);
  }

  lemma Bracketed(open: string, l: Lexemes, toks: seq<Tok>, m: Lexemes)
    requires Phrase(open, l) && Says(Print(toks), m)
    ensures Run([Txt(open)] + toks + [Txt(")")], l + m + [P(')')])
  {
    ClosePhrase();
    PrintText(open);
    PrintText(")");
    PrintConcat([Txt(open)], toks);
    SaysConcat(open, l, Print(toks), m);
    PrintConcat([Txt(open)] + toks, [Txt(")")]);
    SaysConcat(open + Print(toks), l + m, ")", [P(')')]);
  }

  lemma {:induction false} ClausesRun(clauses: seq<Clause>)
    requires clauses != [] && forall i | 0 <= i < |clauses| :: GoodClause(clauses[i]) && PlainClause(clauses[i])
    ensures Run(ClausesToks(clauses), [W("WHERE")] + Shown(ClauseShow, W("AND"), clauses))
  {
    var init, c := clauses[..|clauses| - 1], clauses[|clauses| - 1];
    assert clauses == init + [c];
    if init == [] {
      WherePhrase();
      ClauseRun("\nWHERE ", [W("WHERE")], c);
      assert [] + ClauseToks("\nWHERE ", c) == ClauseToks("\nWHERE ", c);
    } else {
      var l := Shown(ClauseShow, W("AND"), init);
      AndPhrase();
      ClauseRun(" AND ", [W("AND")], c);
      ClausesRun(init);
      RunConcat(ClausesToks(init), [W("WHERE")] + l, ClauseToks(" AND ", c), [W("AND")] + ClauseShow(c));
      ShownSnoc(ClauseShow, W("AND"), init, c);
      ConcatAssociates([W("WHERE")], l, [W("AND")] + ClauseShow(c));
    }
  }

  lemma IdIsRun(a: string, p: string)
    requires GoodName(a) && GoodName(p)
    ensures Run([Txt("\nWHERE " + a + ".id = "), Par(p)], WhereLex(IdIs(a, p)))
  {
    WherePhrase();
    IdEqualsPhrase("\nWHERE ", [W("WHERE")], a);
    ParRun("\nWHERE " + a + ".id = ", [W("WHERE")] + [W(a + ".id"), P('=')], p);
    assert [W("WHERE")] + [W(a + ".id"), P('=')] + [W("$" + p)] == WhereLex(IdIs(a, p));
  }

  lemma IdInHeadPhrase(a: string)
    requires GoodName(a)
    ensures Phrase("\nWHERE " + a + ".id IN (", [W("WHERE"), W(a + ".id"), W("IN"), P('(')])
  {
    WherePhrase();
    InPhrase();
    NameIsWord(a);
    PhraseInsert("\nWHERE ", [W("WHERE")], a + ".id", " IN (", [W("IN"), P('(')]);
    IdApart("\nWHERE ", a, " IN (");
    assert ".id" + " IN (" == ".id IN (";
    assert [W("WHERE")] + [W(a + ".id")] + [W("IN"), P('(')] == [W("WHERE"), W(a + ".id"), W("IN"), P('(')];
  }

  lemma IdInRun(a: string, ps: seq<string>)
    requires GoodName(a) && ps != [] && forall i | 0 <= i < |ps| :: GoodName(ps[i])
    ensures Run(WhereToks(IdIn(a, ps)), WhereLex(IdIn(a, ps)))
  {
    var head, l := "\nWHERE " + a + ".id IN (", [W("WHERE"), W(a + ".id"), W("IN"), P('(')];
    IdInHeadPhrase(a);
    ListRun(head, l, ps);
    ClosePhrase();
    TextRun(")", [P(')')]);
    RunConcat(ListToks(head, ps), ListLex(l, ps), [Txt(")")], [P(')')]);
    ConcatAssociates(l, Shown(ParamLex, P(','), ps), [P(')')]);
  }

  lemma WhereRun(w: Where)
    requires GoodWhere(w) && PlainWhere(w)
    ensures Run(WhereToks(w), WhereLex(w))
  {
    match w
    case Everything => NoRun();
    case IdIs(a, p) => IdIsRun(a, p);
    case IdIn(a, ps) => IdInRun(a, ps);
    case All(clauses) => ClausesRun(clauses);
  }

  // ---- the ends of a query ---------------------------------------------------------------------------------

  lemma OrderRun(order: seq<SortKey>)
    requires forall i | 0 <= i < |order| :: GoodColumn(order[i].column)
    ensures Run(OrderToks(order), OrderLex(order))
  {
    if order == [] {
      NoRun();
    } else {
      SortListText(order);
      OrderPhrase();
      SaysConcat("\nORDER BY ", [W("ORDER"), W("BY")], SortList(order), Shown(SortLex, P(','), order));
      TextRun("\nORDER BY " + SortList(order), OrderLex(order));
    }
  }

  lemma LimitRun()
    ensures Run(LimitToks(), PageLex(true))
  {
    LimitPhrases();
    ParRun("\nLIMIT ", [W("LIMIT")], "pg_limit");
    ParRun(" OFFSET ", [W("OFFSET")], "pg_offset");
    PageNamesShown();
    RunConcat([Txt("\nLIMIT "), Par("pg_limit")], [W("LIMIT")] + [W("$pg_limit")],
              [Txt(" OFFSET "), Par("pg_offset")], [W("OFFSET")] + [W("$pg_offset")]);
    assert LimitToks() == [Txt("\nLIMIT "), Par("pg_limit")] + [Txt(" OFFSET "), Par("pg_offset")];
  }

  lemma PageNamesShown()
    ensures "$" + "pg_limit" == "$pg_limit" && "$" + "pg_offset" == "$pg_offset"
  {}

  lemma EndRun()
    ensures Run([Txt(";")], [P(';')])
  {
    SemicolonPhrase();
    TextRun(";", [P(';')]);
  }

  lemma FromRun(q: Query)
    requires GoodName(q.table) && GoodName(q.alias)
    ensures Run([Txt(FromHead(q))], [W("FROM"), W(q.table), W("AS"), W(q.alias)])
  {
    FromPhrase();
    AsPhrase();
    NameIsWord(q.table);
    NameIsWord(q.alias);
    PhraseInsert("\nFROM ", [W("FROM")], q.table, " AS ", [W("AS")]);
    SaysWord(q.alias);
    SaysConcat("\nFROM " + q.table + " AS ", [W("FROM")] + [W(q.table)] + [W("AS")], q.alias, [W(q.alias)]);
    assert [W("FROM")] + [W(q.table)] + [W("AS")] + [W(q.alias)] == [W("FROM"), W(q.table), W("AS"), W(q.alias)];
    TextRun(FromHead(q), [W("FROM"), W(q.table), W("AS"), W(q.alias)]);
  }

  // ---- the whole query -------------------------------------------------------------------------------------

  // The query as a statement that selects this.
  function Said(sel: Selection, q: Query): SelectStatement {
    SelectStatement(sel, q.table, q.alias, q.joins, q.where_, q.order, q.paged)
  }

  lemma TailRun(sel: Selection, q: Query)
    requires forall i | 0 <= i < |q.order| :: GoodColumn(q.order[i].column)
    ensures Run(TailToks(q), TailLex(Said(sel, q)))
  {
    var limit: seq<Tok> := if q.paged then LimitToks() else [];
    OrderRun(q.order);
    LimitRun();
    NoRun();
    EndRun();
    RunConcat(OrderToks(q.order), OrderLex(q.order), limit, PageLex(q.paged));
    RunConcat(OrderToks(q.order) + limit, OrderLex(q.order) + PageLex(q.paged), [Txt(";")], [P(';')]);
    ConcatAssociates(OrderLex(q.order), PageLex(q.paged), [P(';')]);
  }

  function BodyToks(q: Query): seq<Tok> {
    [Txt(FromHead(q))] + JoinsToks(q.joins) + WhereToks(q.where_) + TailToks(q)
  }

  function BodyLex(s: SelectStatement): Lexemes
    requires GoodSelect(s)
  {
    FromLex(s) + (JoinsLex(s.joins) + (WhereLex(s.where_) + TailLex(s)))
  }

  lemma BodyRun(sel: Selection, q: Query)
    requires GoodSelect(Said(sel, q)) && PlainQuery(q)
    ensures Run(BodyToks(q), BodyLex(Said(sel, q)))
  {
    FromRun(q);
    JoinsRun(q.joins);
    WhereRun(q.where_);
    TailRun(sel, q);
    FourRuns([Txt(FromHead(q))], FromLex(Said(sel, q)), JoinsToks(q.joins), JoinsLex(q.joins),
             WhereToks(q.where_), WhereLex(q.where_), TailToks(q), TailLex(Said(sel, q)));
  }

  lemma FourRuns(a: seq<Tok>, k: Lexemes, b: seq<Tok>, l: Lexemes, c: seq<Tok>, m: Lexemes, d: seq<Tok>, n: Lexemes)
    requires Run(a, k) && Run(b, l) && Run(c, m) && Run(d, n)
    ensures Run(a + b + c + d, k + (l + (m + n)))
  {
    RunConcat(a, k, b, l);
    RunConcat(a + b, k + l, c, m);
    RunConcat(a + b + c, k + l + m, d, n);
    ConcatAssociates(k, l, m + n);
    ConcatAssociates(k + l, m, n);
  }

  // A printed query is read as the query it was printed from.
  lemma QueryReads(select: string, sel: Selection, q: Query)
    requires GoodSelect(Said(sel, q)) && PlainQuery(q) && Says(select, SelectionLex(sel))
    ensures ReadSelect(Lex(Print(Render(select, q)))) == Some(Said(sel, q))
  {
    BodyRun(sel, q);
    HeadAndBody(select, SelectionLex(sel), BodyToks(q), BodyLex(Said(sel, q)));
    SelectReads(Said(sel, q));
  }

  lemma HeadAndBody(head: string, l: Lexemes, body: seq<Tok>, m: Lexemes)
    requires Says(head, l) && Run(body, m)
    ensures Lex(Print([Txt(head)] + body)) == l + m
  {
    PrintText(head);
    PrintConcat([Txt(head)], body);
    SaysConcat(head, l, Print(body), m);
    LexSays(head + Print(body), l + m);
  }

  lemma SelectWord()
    ensures Says("SELECT ", [W("SELECT")]) && Closes("SELECT ")
  {
    WordPhrase(' ', "SELECT");
    assert "SELECT" + " " == "SELECT ";
  }

  // gen_select_one and gen_select_by_ids: each column in order under its alias, the table, every join with what
  // it is joined on, the condition and the sort columns with their directions.
  lemma FieldsAreRead(q: Query)
    requires q.columns != [] && GoodSelect(Said(Fields(q.columns), q)) && PlainQuery(q)
    ensures ReadSelect(Lex(Print(Render(SelectFields(q), q)))) == Some(Said(Fields(q.columns), q))
  {
    SelectWord();
    ColumnListText(q.columns);
    SaysConcat("SELECT ", [W("SELECT")], ColumnList(q.columns), Shown(FieldLex, P(','), q.columns));
    QueryReads(SelectFields(q), Fields(q.columns), q);
  }

  // The id of the master table.
  function IdColumn(): Column { Column(MASTER, "id") }

  // gen_select_count: the count of the ids under every filter.
  lemma CountIsRead(q: Query)
    requires GoodSelect(Said(CountOf(IdColumn()), q)) && PlainQuery(q)
    ensures ReadSelect(Lex(Print(Render(SelectCount(), q)))) == Some(Said(CountOf(IdColumn()), q))
  {
    CountText();
    QueryReads(SelectCount(), CountOf(IdColumn()), q);
  }

  lemma CountText()
    ensures Says(SelectCount(), SelectionLex(CountOf(IdColumn())))
  {
    CountHead();
    ClosePhrase();
    NameIsWord(MASTER);
    SaysInsert("SELECT COUNT(", [W("SELECT"), W("COUNT"), P('(')], MASTER + ".id", ")", [P(')')]);
    assert SelectCount() == "SELECT COUNT(" + (MASTER + ".id") + ")";
    assert ColumnWord(IdColumn()) == MASTER + ".id";
  }

  lemma CountHead()
    ensures Says("SELECT COUNT(", [W("SELECT"), W("COUNT"), P('(')]) && Closes("SELECT COUNT(")
  {
    SelectWord();
    OpenPhrase();
    SaysInsert("SELECT ", [W("SELECT")], "COUNT", "(", [P('(')]);
    assert "SELECT " + "COUNT" + "(" == "SELECT COUNT(";
    assert [W("SELECT")] + [W("COUNT")] + [P('(')] == [W("SELECT"), W("COUNT"), P('(')];
  }

  // gen_select_ids: the ids, in order and by pages.
  lemma IdsAreRead(q: Query)
    requires GoodSelect(Said(Just(IdColumn()), q)) && PlainQuery(q)
    ensures ReadSelect(Lex(Print(Render(SelectIds(), q)))) == Some(Said(Just(IdColumn()), q))
  {
    SelectWord();
    NameIsWord(MASTER);
    SaysWord(MASTER + ".id");
    SaysConcat("SELECT ", [W("SELECT")], MASTER + ".id", [W(MASTER + ".id")]);
    assert SelectIds() == "SELECT " + (MASTER + ".id");
    assert ColumnWord(IdColumn()) == MASTER + ".id";
    QueryReads(SelectIds(), Just(IdColumn()), q);
  }

  // ---- changes ---------------------------------------------------------------------------------------------

  function InsertHeadLex(table: string, columns: seq<string>): Lexemes
    requires columns != []
  {
    [W("INSERT"), W("INTO")] + [W(table)] + [P('(')] + Shown(NameLex, P(','), columns) + [P(')'), W("VALUES")]
  }

  function InsertHead(table: string, columns: seq<string>): string {
    "INSERT INTO " + table + " (" + ColumnNames(columns) + ") VALUES"
  }

  lemma InsertHeadText(table: string, columns: seq<string>)
    requires GoodName(table) && columns != [] && forall i | 0 <= i < |columns| :: GoodName(columns[i])
    ensures Says(InsertHead(table, columns), InsertHeadLex(table, columns))
  {
    var s, l := "INSERT INTO " + table + " (", [W("INSERT"), W("INTO")] + [W(table)] + [P('(')];
    IntoText(table);
    ColumnNamesText(columns);
    ValuesText();
    SaysConcat(s, l, ColumnNames(columns), Shown(NameLex, P(','), columns));
    SaysConcat(s + ColumnNames(columns), l + Shown(NameLex, P(','), columns), ") VALUES", [P(')'), W("VALUES")]);
  }

  lemma IntoText(table: string)
    requires GoodName(table)
    ensures Says("INSERT INTO " + table + " (", [W("INSERT"), W("INTO")] + [W(table)] + [P('(')])
    ensures Closes("INSERT INTO " + table + " (")
  {
    TwoWords("INSERT", "INTO");
    assert "INSERT" + " " + ("INTO" + " ") == "INSERT INTO ";
    NameIsWord(table);
    OpenPhrase();
    SaysInsert("INSERT INTO ", [W("INSERT"), W("INTO")], table, " (", [P('(')]);
  }

  lemma ValuesText()
    ensures Says(") VALUES", [P(')'), W("VALUES")]) && Opens(") VALUES")
  {
    WordPhrase(' ', "VALUES");
    ClosePhrase();
    SaysConcat(")", [P(')')], [' '] + "VALUES", [W("VALUES")]);
    assert ")" + ([' '] + "VALUES") == ") VALUES";
  }

  lemma ReturningRun()
    ensures Run([Txt(ReturningId())], ReturningLex())
  {
    ClosePhrase();
    SemicolonPhrase();
    WordPhrase(' ', "RETURNING");
    PhraseConcat(")", [P(')')], [' '] + "RETURNING" + " ", [W("RETURNING")]);
    PhraseInsert(")" + ([' '] + "RETURNING" + " "), [P(')')] + [W("RETURNING")], "id", ";", [P(';')]);
    assert ")" + ([' '] + "RETURNING" + " ") + "id" + ";" == ReturningId();
    assert [P(')')] + [W("RETURNING")] + [W("id")] + [P(';')] == ReturningLex();
    TextRun(ReturningId(), ReturningLex());
  }

  // gen_insert: the columns are printed in the order of the placeholders behind VALUES.
  lemma InsertIsRead(table: string, columns: seq<string>)
    requires GoodName(table) && columns != [] && forall i | 0 <= i < |columns| :: GoodName(columns[i])
    ensures ReadChange(Lex(Print(RenderInsert(table, columns)))) == Some(Inserts(table, columns, columns))
  {
    var list, end := ListToks(" (", columns), [Txt(ReturningId())];
    InsertHeadText(table, columns);
    OpenPhrase();
    ListRun(" (", [P('(')], columns);
    ReturningRun();
    RunConcat(list, ListLex([P('(')], columns), end, ReturningLex());
    HeadAndBody(InsertHead(table, columns), InsertHeadLex(table, columns),
                list + end, ListLex([P('(')], columns) + ReturningLex());
    InsertLexIs(table, columns);
    ChangeReads(Inserts(table, columns, columns));
  }

  lemma InsertLexIs(table: string, columns: seq<string>)
    requires GoodChange(Inserts(table, columns, columns))
    ensures InsertHeadLex(table, columns) + (ListLex([P('(')], columns) + ReturningLex())
            == ChangeLex(Inserts(table, columns, columns))
  {
    InsertLexRegroups(table, Shown(NameLex, P(','), columns), Shown(ParamLex, P(','), columns));
  }

  lemma InsertLexRegroups(table: string, c: Lexemes, p: Lexemes)
    ensures [W("INSERT"), W("INTO")] + [W(table)] + [P('(')] + c + [P(')'), W("VALUES")]
            + ([P('(')] + p + ReturningLex())
            == [W("INSERT"), W("INTO"), W(table), P('(')] + (c + ([P(')'), W("VALUES"), P('(')] + (p + ReturningLex())))
  {}

  lemma UpdateHeadText(table: string)
    requires GoodName(table)
    ensures Says("UPDATE " + table + " SET", [W("UPDATE"), W(table), W("SET")])
  {
    WordPhrase(' ', "UPDATE");
    WordPhrase(' ', "SET");
    assert "UPDATE" + " " == "UPDATE " && [' '] + "SET" == " SET";
    NameIsWord(table);
    SaysInsert("UPDATE ", [W("UPDATE")], table, " SET", [W("SET")]);
    assert [W("UPDATE")] + [W(table)] + [W("SET")] == [W("UPDATE"), W(table), W("SET")];
  }

  // gen_update: each column takes the placeholder of its own name, in the row with the id.
  lemma UpdateIsRead(table: string, columns: seq<string>)
    requires GoodName(table) && columns != [] && forall i | 0 <= i < |columns| :: GoodName(columns[i])
    ensures ReadChange(Lex(Print(RenderUpdate(table, columns))))
            == Some(Updates(table, SamePairs(columns), MASTER, "id"))
  {
    var body := AssignToks(columns) + IdIsToks() + [Txt(";")];
    UpdateHeadText(table);
    AssignRun(columns);
    PairsFollowed(AssignToks(columns), PairsLex(columns));
    HeadAndBody("UPDATE " + table + " SET", [W("UPDATE"), W(table), W("SET")],
                body, PairsLex(columns) + UpdateEndLex());
    UpdateLexIs(table, columns);
    ChangeReads(Updates(table, SamePairs(columns), MASTER, "id"));
  }

  function UpdateEndLex(): Lexemes { WhereLex(IdIs(MASTER, "id")) + [P(';')] }

  lemma UpdateEnd()
    ensures Run(IdIsToks() + [Txt(";")], UpdateEndLex())
  {
    IdIsRun(MASTER, "id");
    EndRun();
    RunConcat(IdIsToks(), WhereLex(IdIs(MASTER, "id")), [Txt(";")], [P(';')]);
  }

  lemma PairsFollowed(sets: seq<Tok>, l: Lexemes)
    requires Run(sets, l)
    ensures Run(sets + IdIsToks() + [Txt(";")], l + UpdateEndLex())
  {
    UpdateEnd();
    RunConcat(sets, l, IdIsToks() + [Txt(";")], UpdateEndLex());
    ConcatAssociates(sets, IdIsToks(), [Txt(";")]);
  }

  lemma UpdateLexIs(table: string, columns: seq<string>)
    requires GoodName(table) && columns != [] && forall i | 0 <= i < |columns| :: GoodName(columns[i])
    ensures GoodChange(Updates(table, SamePairs(columns), MASTER, "id"))
    ensures [W("UPDATE"), W(table), W("SET")] + (PairsLex(columns) + UpdateEndLex())
            == ChangeLex(Updates(table, SamePairs(columns), MASTER, "id"))
  {
    UpdateEndLexIs(MASTER);
  }

  lemma UpdateEndLexIs(alias: string)
    requires GoodName(alias)
    ensures WhereLex(IdIs(alias, "id")) + [P(';')] == [W("WHERE"), W(alias + ".id"), P('='), W("$" + "id"), P(';')]
  {}

  // gen_delete_by_ids: the rows of the table whose ids are in the list, nothing else.
  lemma DeleteIsRead(table: string, ids: seq<string>)
    requires GoodName(table) && ids != []
    ensures ReadChange(Lex(Print(DeleteByIds(table, ids)))) == Some(Deletes(table, G.IdNames(|ids|)))
  {
    var names := G.IdNames(|ids|);
    var list, end := ListToks(IdInHead(), names), [Txt(DeleteEnd())];
    var h, l, m := [W("DELETE"), W("FROM"), W(table)], [W("WHERE"), W("id"), W("IN"), P('(')], [P(')'), P(';')];
    GoodIdNames(|ids|);
    DeleteHeadText(table);
    DeleteEnds();
    ListRun(IdInHead(), l, names);
    RunConcat(list, ListLex(l, names), end, m);
    HeadAndBody(DeleteHead(table), h, list + end, ListLex(l, names) + m);
    DeleteLexRegroups(table, Shown(ParamLex, P(','), names));
    ChangeReads(Deletes(table, names));
  }

  lemma DeleteLexRegroups(table: string, p: Lexemes)
    ensures [W("DELETE"), W("FROM"), W(table)] + ([W("WHERE"), W("id"), W("IN"), P('(')] + p + [P(')'), P(';')])
            == [W("DELETE"), W("FROM"), W(table), W("WHERE"), W("id"), W("IN"), P('(')] + (p + [P(')'), P(';')])
  {}

  lemma DeleteHeadText(table: string)
    requires GoodName(table)
    ensures Says(DeleteHead(table), [W("DELETE"), W("FROM"), W(table)])
  {
    TwoWords("DELETE", "FROM");
    assert "DELETE" + " " + ("FROM" + " ") == "DELETE FROM ";
    NameIsWord(table);
    SaysWord(table);
    SaysConcat("DELETE FROM ", [W("DELETE"), W("FROM")], table, [W(table)]);
    assert [W("DELETE"), W("FROM")] + [W(table)] == [W("DELETE"), W("FROM"), W(table)];
  }

  lemma DeleteEnds()
    ensures Phrase(IdInHead(), [W("WHERE"), W("id"), W("IN"), P('(')])
    ensures Run([Txt(DeleteEnd())], [P(')'), P(';')])
  {
    WherePhrase();
    InPhrase();
    PhraseInsert("\nWHERE ", [W("WHERE")], "id", " IN (", [W("IN"), P('(')]);
    assert "\nWHERE " + "id" + " IN (" == IdInHead();
    assert [W("WHERE")] + [W("id")] + [W("IN"), P('(')] == [W("WHERE"), W("id"), W("IN"), P('(')];
    ClosePhrase();
    SemicolonPhrase();
    PhraseConcat(")", [P(')')], ";", [P(';')]);
    assert ")" + ";" == DeleteEnd();
    TextRun(DeleteEnd(), [P(')')] + [P(';')]);
  }
}

// SQL text as words and punctuation.
module Lexing {
  import opened Lists
  import opened Text

  datatype Lexeme = W(word: string) | P(c: char)

  // Letters, digits, the dot of a qualified name and the dollar of a placeholder.
  predicate WordChar(c: char) { IsNameChar(c) || c == '.' || c == '$' }

  predicate Blank(c: char) { c == ' ' || c == '\n' }

  predicate IsWord(s: string) { s != "" && forall i | 0 <= i < |s| :: WordChar(s[i]) }

  function WordLength(s: string): (n: nat)
    ensures n <= |s| && (forall i | 0 <= i < n :: WordChar(s[i])) && (n < |s| ==> !WordChar(s[n]))
  {
    if s == "" || !WordChar(s[0]) then 0 else 1 + WordLength(s[1..])
  }

  function Lex(s: string): seq<Lexeme>
    decreases |s|
  {
    if s == "" then []
    else if WordChar(s[0]) then [W(s[..WordLength(s)])] + Lex(s[WordLength(s)..])
    else if Blank(s[0]) then Lex(s[1..])
    else [P(s[0])] + Lex(s[1..])
  }

  // No word runs across the border.
  predicate Apart(a: string, b: string) {
    a == "" || b == "" || !WordChar(a[|a| - 1]) || !WordChar(b[0])
  }

  lemma WordLengthIs(s: string, n: nat)
    requires n <= |s| && (forall i | 0 <= i < n :: WordChar(s[i])) && (n < |s| ==> !WordChar(s[n]))
    ensures WordLength(s) == n
  {}

  lemma {:induction false} LexConcat(a: string, b: string)
    requires Apart(a, b)
    ensures Lex(a + b) == Lex(a) + Lex(b)
    decreases |a|
  {
    if a == "" {
      assert a + b == b;
    } else if WordChar(a[0]) {
      LexWordConcat(a, b);
      LexConcat(a[WordLength(a)..], b);
      LexFirstWord(a);
      ConcatAssociates([W(a[..WordLength(a)])], Lex(a[WordLength(a)..]), Lex(b));
    } else {
      LexConcat(a[1..], b);
      LexFirstChar(a);
      LexFirstChar(a + b);
      RestConcat(a, b);
      ConcatAssociates(Alone(a[0]), Lex(a[1..]), Lex(b));
    }
  }

  // A character outside words.
  function Alone(c: char): seq<Lexeme> { if Blank(c) then [] else [P(c)] }

  lemma LexFirstChar(s: string)
    requires s != "" && !WordChar(s[0])
    ensures Lex(s) == Alone(s[0]) + Lex(s[1..])
  {}

  lemma RestConcat(a: string, b: string)
    requires a != ""
    ensures (a + b)[0] == a[0] && (a + b)[1..] == a[1..] + b
  {}

  lemma LexFirstWord(s: string)
    requires s != "" && WordChar(s[0])
    ensures Lex(s) == [W(s[..WordLength(s)])] + Lex(s[WordLength(s)..])
  {}

  // The first word of a is the first word of both.
  lemma LexWordConcat(a: string, b: string)
    requires a != "" && WordChar(a[0]) && Apart(a, b)
    ensures var n := WordLength(a);
            n > 0 && Apart(a[n..], b) && Lex(a + b) == [W(a[..n])] + Lex(a[n..] + b)
  {
    var n, s := WordLength(a), a + b;
    assert s[0] == a[0] && forall i | 0 <= i < n :: s[i] == a[i];
    if n == |a| {
      assert WordChar(a[|a| - 1]);
      assert b != "" ==> s[n] == b[0];
    } else {
      assert s[n] == a[n];
    }
    WordLengthIs(s, n);
    assert s[..n] == a[..n] && s[n..] == a[n..] + b;
  }

  lemma LexWord(w: string)
    requires IsWord(w)
    ensures Lex(w) == [W(w)]
  {
    WordLengthIs(w, |w|);
    assert w[..|w|] == w && w[|w|..] == "";
  }

  lemma LexBlank(c: char, rest: string)
    requires Blank(c)
    ensures Lex([c] + rest) == Lex(rest)
  {
    assert ([c] + rest)[1..] == rest;
  }

  lemma LexMark(c: char, rest: string)
    requires !WordChar(c) && !Blank(c)
    ensures Lex([c] + rest) == [P(c)] + Lex(rest)
  {
    assert ([c] + rest)[1..] == rest;
  }

  // ---- phrases ---------------------------------------------------------------------------------------------

  // Behind any text that does not touch it, s reads as these lexemes.
  ghost predicate Says(s: string, l: seq<Lexeme>) {
    forall a: string {:trigger Apart(a, s)} | Apart(a, s) :: Lex(a + s) == Lex(a) + l
  }

  lemma SaysLex(s: string)
    ensures Says(s, Lex(s))
  {
    forall a: string | Apart(a, s) ensures Lex(a + s) == Lex(a) + Lex(s) { LexConcat(a, s); }
  }

  lemma LexSays(s: string, l: seq<Lexeme>)
    requires Says(s, l)
    ensures Lex(s) == l
  {
    assert Apart("", s) && "" + s == s;
  }

  lemma SaysConcat(s: string, l: seq<Lexeme>, t: string, m: seq<Lexeme>)
    requires Says(s, l) && Says(t, m) && Apart(s, t)
    ensures Says(s + t, l + m)
  {
    LexSays(s, l);
    LexSays(t, m);
    LexConcat(s, t);
    SaysLex(s + t);
  }

  lemma SaysWord(w: string)
    requires IsWord(w)
    ensures Says(w, [W(w)])
  {
    LexWord(w);
    SaysLex(w);
  }

  // A word cannot run into the text, or out of it.
  predicate Opens(s: string) { s == "" || !WordChar(s[0]) }

  predicate Closes(s: string) { s == "" || !WordChar(s[|s| - 1]) }

  // A text no word touches.
  ghost predicate Phrase(s: string, l: seq<Lexeme>) { s != "" && Opens(s) && Closes(s) && Says(s, l) }

  lemma PhraseConcat(s: string, l: seq<Lexeme>, t: string, m: seq<Lexeme>)
    requires Phrase(s, l) && Phrase(t, m)
    ensures Phrase(s + t, l + m)
  {
    SaysConcat(s, l, t, m);
  }

  // A word between two texts that do not touch it.
  lemma SaysInsert(s: string, l: seq<Lexeme>, w: string, t: string, m: seq<Lexeme>)
    requires Says(s, l) && Closes(s) && IsWord(w) && Opens(t) && Says(t, m)
    ensures Says(s + w + t, l + [W(w)] + m)
    ensures t != "" && Closes(t) ==> Closes(s + w + t)
    ensures s != "" && Opens(s) ==> Opens(s + w + t)
  {
    SaysWord(w);
    SaysConcat(s, l, w, [W(w)]);
    SaysConcat(s + w, l + [W(w)], t, m);
  }

  lemma PhraseInsert(s: string, l: seq<Lexeme>, w: string, t: string, m: seq<Lexeme>)
    requires Phrase(s, l) && IsWord(w) && Phrase(t, m)
    ensures Phrase(s + w + t, l + [W(w)] + m)
  {
    SaysInsert(s, l, w, t, m);
  }

  lemma BlankPhrase(c: char)
    requires Blank(c)
    ensures Phrase([c], [])
  {
    LexBlank(c, "");
    assert [c] + "" == [c];
    SaysLex([c]);
  }

  lemma MarkPhrase(c: char)
    requires !WordChar(c) && !Blank(c)
    ensures Phrase([c], [P(c)])
  {
    LexMark(c, "");
    assert [c] + "" == [c];
    SaysLex([c]);
  }

  lemma NothingSaid()
    ensures Says("", [])
  {
    SaysLex("");
  }

  // A word with a blank on either side, or on one.
  lemma WordPhrase(before: char, w: string)
    requires Blank(before) && IsWord(w)
    ensures Phrase([before] + w + " ", [W(w)]) && Says(w + " ", [W(w)]) && Closes(w + " ")
    ensures Says([before] + w, [W(w)]) && Opens([before] + w)
  {
    BlankPhrase(before);
    BlankPhrase(' ');
    NothingSaid();
    PhraseInsert([before], [], w, " ", []);
    SaysInsert("", [], w, " ", []);
    SaysInsert([before], [], w, "", []);
    assert "" + w + " " == w + " " && [before] + w + "" == [before] + w;
    assert [] + [W(w)] + [] == [W(w)];
  }

  // An operator of one character with blanks around it.
  lemma OperatorPhrase(c: char)
    requires !WordChar(c) && !Blank(c)
    ensures Phrase([' ', c, ' '], [P(c)])
  {
    BlankPhrase(' ');
    MarkPhrase(c);
    PhraseConcat([' '], [], [c], [P(c)]);
    PhraseConcat([' '] + [c], [] + [P(c)], [' '], []);
    assert [' '] + [c] + [' '] == [' ', c, ' '];
    assert [] + [P(c)] + [] == [P(c)];
  }
}

// The text of the statements, as a list of plain pieces and placeholders, and the scanner that
// collects the parameter values from the finished text.
module Tokens {
  import opened Lists
  import opened Text
  import opened Sql

  datatype Tok = Txt(s: string) | Par(name: string)

  function PrintTok(t: Tok): string {
    match t
    case Txt(s) => s
    case Par(n) => "$" + n
  }

  function Print(toks: seq<Tok>): string {
    if toks == [] then "" else PrintTok(toks[0]) + Print(toks[1..])
  }

  function NamesOf(toks: seq<Tok>): seq<string> {
    if toks == [] then []
    else (match toks[0] case Txt(_) => [] case Par(n) => [n]) + NamesOf(toks[1..])
  }

  // ---- texts the scanner can read ------------------------------------------------------------------------

  predicate TokOk(t: Tok) {
    match t
    case Txt(s) => '$' !in s
    case Par(n) => n != "" && IsName(n)
  }

  // A placeholder may end the text or be followed by a piece that cannot continue its name.
  predicate Stops(toks: seq<Tok>) {
    toks == [] || (toks[0].Txt? && toks[0].s != "" && !IsNameChar(toks[0].s[0]))
  }

  predicate Scannable(toks: seq<Tok>) {
    toks == [] || (TokOk(toks[0]) && (toks[0].Par? ==> Stops(toks[1..])) && Scannable(toks[1..]))
  }

  lemma {:induction false} ScannableConcat(a: seq<Tok>, b: seq<Tok>)
    requires Scannable(a) && Scannable(b) && (Stops(b) || (a != [] && a[|a| - 1].Txt?))
    ensures Scannable(a + b)
    decreases |a|
  {
    if a == [] {
      assert a + b == b;
    } else {
      assert (a + b)[1..] == a[1..] + b;
      if |a| == 1 {
        assert a[1..] + b == b;
      } else {
        ScannableConcat(a[1..], b);
      }
    }
  }

  lemma {:induction false} NamesConcat(a: seq<Tok>, b: seq<Tok>)
    ensures NamesOf(a + b) == NamesOf(a) + NamesOf(b)
    decreases |a|
  {
    if a == [] {
      assert a + b == b;
    } else {
      assert (a + b)[1..] == a[1..] + b;
      NamesConcat(a[1..], b);
    }
  }

  // ---- the scanner -----------------------------------------------------------------------------------------

  datatype Result = Ok(values: seq<string>) | NotFound(name: string)

  datatype Scan = Scanning(inParam: bool, name: string, out: seq<string>) | Failed(name: string)

  function Step(st: Scan, c: char, params: Params): Scan {
    match st
    case Failed(_) => st
    case Scanning(inParam, name, out) =>
      if c == '$' then Scanning(true, "", out)
      else if !inParam then st
      else if IsNameChar(c) then Scanning(true, name + [c], out)
      else if name in params then Scanning(false, name, out + [params[name]])
      else Failed(name)
  }

  function Steps(st: Scan, text: string, params: Params): Scan
    decreases |text|
  {
    if text == "" then st else Steps(Step(st, text[0], params), text[1..], params)
  }

  function Finish(st: Scan, params: Params): Result {
    match st
    case Failed(n) => NotFound(n)
    case Scanning(inParam, name, out) =>
      if inParam && name != "" then (if name in params then Ok(out + [params[name]]) else NotFound(name))
      else Ok(out)
  }

  // getOrderedParams, character by character.
  method GetOrderedParams(sql: string, namedParams: Params) returns (r: Result)
    ensures r == Finish(Steps(Scanning(false, "", []), sql, namedParams), namedParams)
  {
    var ordered: seq<string> := [];
    var current := "";
    var inParam := false;
    for i := 0 to |sql|
      invariant Steps(Scanning(inParam, current, ordered), sql[i..], namedParams)
                == Steps(Scanning(false, "", []), sql, namedParams)
    {
      var c := sql[i];
      assert sql[i..][0] == c && sql[i..][1..] == sql[i + 1..];
      if c == '$' {
        inParam := true;
        current := "";
      } else if inParam {
        if IsNameChar(c) {
          current := current + [c];
        } else {
          if current !in namedParams {
            FailedStays(current, sql[i + 1..], namedParams);
            return NotFound(current);
          }
          ordered := ordered + [namedParams[current]];
          inParam := false;
        }
      }
    }
    assert sql[|sql|..] == "";
    if inParam && current != "" {
      if current !in namedParams { return NotFound(current); }
      ordered := ordered + [namedParams[current]];
    }
    return Ok(ordered);
  }

  lemma {:induction false} FailedStays(name: string, text: string, params: Params)
    ensures Steps(Failed(name), text, params) == Failed(name)
    decreases |text|
  {
    if text != "" { FailedStays(name, text[1..], params); }
  }

  lemma {:induction false} StepsConcat(st: Scan, a: string, b: string, params: Params)
    ensures Steps(st, a + b, params) == Steps(Steps(st, a, params), b, params)
    decreases |a|
  {
    if a == "" {
      assert a + b == b;
    } else {
      assert (a + b)[0] == a[0] && (a + b)[1..] == a[1..] + b;
      StepsConcat(Step(st, a[0], params), a[1..], b, params);
    }
  }

  // Plain text without a dollar leaves a resting scanner alone.
  lemma {:induction false} TextIsSkipped(st: Scan, s: string, params: Params)
    requires st.Scanning? && !st.inParam && '$' !in s
    ensures Steps(st, s, params) == st
    decreases |s|
  {
    if s != "" {
      assert s[0] in s;
      forall c | c in s[1..] ensures c != '$' { assert c in s; }
      TextIsSkipped(st, s[1..], params);
    }
  }

  lemma {:induction false} NameIsCollected(st: Scan, n: string, params: Params)
    requires st.Scanning? && st.inParam && IsName(n)
    ensures Steps(st, n, params) == Scanning(true, st.name + n, st.out)
    decreases |n|
  {
    if n == "" {
      assert st.name + n == st.name;
    } else {
      NameIsCollected(Step(st, n[0], params), n[1..], params);
      assert st.name + n == st.name + [n[0]] + n[1..];
    }
  }

  // The values of the names, in order, or the first name without one.
  function Collect(names: seq<string>, params: Params): Result {
    if names == [] then Ok([])
    else if names[0] !in params then NotFound(names[0])
    else match Collect(names[1..], params)
         case Ok(vs) => Ok([params[names[0]]] + vs)
         case NotFound(n) => NotFound(n)
  }

  function Prefixed(out: seq<string>, r: Result): Result {
    match r
    case Ok(vs) => Ok(out + vs)
    case NotFound(n) => NotFound(n)
  }

  lemma {:induction false} ScanTokens(st: Scan, toks: seq<Tok>, params: Params)
    requires st.Scanning? && !st.inParam && Scannable(toks)
    ensures Finish(Steps(st, Print(toks), params), params) == Prefixed(st.out, Collect(NamesOf(toks), params))
    decreases |toks|
  {
    if toks != [] {
      var rest := toks[1..];
      StepsConcat(st, PrintTok(toks[0]), Print(rest), params);
      match toks[0]
      case Txt(s) =>
        TextIsSkipped(st, s, params);
        ScanTokens(st, rest, params);
        assert Print(toks) == s + Print(rest);
        assert NamesOf(toks) == NamesOf(rest);
      case Par(n) =>
        var open := Scanning(true, "", st.out);
        assert ("$" + n)[0] == '$' && ("$" + n)[1..] == n;
        NameIsCollected(open, n, params);
        assert "" + n == n;
        assert NamesOf(toks) == [n] + NamesOf(rest);
        ScanAfterName(n, st.out, rest, params);
    }
  }

  // A collected name is looked up by what follows it, or by the end of the text.
  lemma {:induction false} ScanAfterName(n: string, out: seq<string>, toks: seq<Tok>, params: Params)
    requires n != "" && Scannable(toks) && Stops(toks)
    ensures Finish(Steps(Scanning(true, n, out), Print(toks), params), params)
            == Prefixed(out, Collect([n] + NamesOf(toks), params))
    decreases |toks|
  {
    var st := Scanning(true, n, out);
    assert ([n] + NamesOf(toks))[1..] == NamesOf(toks);
    if toks != [] {
      var s, rest := toks[0].s, toks[1..];
      assert s[0] in s;
      StepsConcat(st, s, Print(rest), params);
      forall c | c in s[1..] ensures c != '$' { assert c in s; }
      if n in params {
        var closed := Scanning(false, n, out + [params[n]]);
        TextIsSkipped(closed, s[1..], params);
        ScanTokens(closed, rest, params);
        assert NamesOf(toks) == NamesOf(rest);
      } else {
        FailedStays(n, s[1..], params);
        FailedStays(n, Print(rest), params);
      }
    }
  }

  // The scanner recovers every printed placeholder: its result is the values of the names in the
  // order they were written, or the first name that has none.
  lemma ScannerReadsPlaceholders(toks: seq<Tok>, params: Params)
    requires Scannable(toks)
    ensures Finish(Steps(Scanning(false, "", []), Print(toks), params), params) == Collect(NamesOf(toks), params)
  {
    ScanTokens(Scanning(false, "", []), toks, params);
    match Collect(NamesOf(toks), params)
    case Ok(vs) => assert [] + vs == vs;
    case NotFound(_) =>
  }

  lemma CollectCons(name: string, rest: seq<string>, params: Params, values: seq<string>)
    requires name in params && Collect(rest, params) == Ok(values)
    ensures Collect([name] + rest, params) == Ok([params[name]] + values)
  {
    assert ([name] + rest)[1..] == rest;
  }

  lemma {:induction false} CollectConcat(a: seq<string>, b: seq<string>, params: Params)
    requires Collect(a, params).Ok? && Collect(b, params).Ok?
    ensures Collect(a + b, params) == Ok(Collect(a, params).values + Collect(b, params).values)
    decreases |a|
  {
    if a == [] {
      assert a + b == b;
    } else {
      var name, rest := a[0], a[1..];
      var u, v := Collect(rest, params).values, Collect(b, params).values;
      assert a == [name] + rest;
      CollectConcat(rest, b, params);
      CollectCons(name, rest + b, params, u + v);
      ConcatAssociates([name], rest, b);
      ConcatAssociates([params[name]], u, v);
    }
  }

  // ---- any text ----------------------------------------------------------------------------------------------

  // How many letters, digits and underscores a piece begins with.
  function NameLength(s: string): (n: nat)
    ensures n <= |s| && IsName(s[..n]) && (n < |s| ==> !IsNameChar(s[n]))
  {
    if s == "" || !IsNameChar(s[0]) then 0
    else
      var n := 1 + NameLength(s[1..]);
      assert forall i | 1 <= i < n :: s[i] == s[1..][i - 1];
      n
  }

  // A name is made of the letters, digits and underscores up to the first other character.
  lemma {:induction false} NameLengthIs(s: string, n: nat)
    requires n <= |s|
    requires forall i | 0 <= i < n :: 'a' <= s[i] <= 'z' || 'A' <= s[i] <= 'Z' || '0' <= s[i] <= '9' || s[i] == '_'
    requires n < |s| ==> !('a' <= s[n] <= 'z' || 'A' <= s[n] <= 'Z' || '0' <= s[n] <= '9' || s[n] == '_')
    ensures NameLength(s) == n
  {
    if n > 0 { NameLengthIs(s[1..], n - 1); }
  }

  // The names looked up in the pieces behind the dollars: a name ends at the first other character and may
  // be empty; one that runs into the next dollar is dropped, one that ends the text counts unless empty.
  function Wanted(pieces: seq<string>): seq<string> {
    if pieces == [] then []
    else
      var p, n := pieces[0], NameLength(pieces[0]);
      (if n < |p| then [p[..n]] else if |pieces| == 1 && p != "" then [p] else []) + Wanted(pieces[1..])
  }

  // On any text the scanner looks up exactly these names, in this order.
  lemma ScannerMeans(text: string, params: Params)
    ensures Finish(Steps(Scanning(false, "", []), text, params), params)
            == Collect(Wanted(Split(text, '$')[1..]), params)
  {
    var pieces, st := Split(text, '$'), Scanning(false, "", []);
    JoinSplit(text, '$');
    assert pieces[0] in pieces;
    TextIsSkipped(st, pieces[0], params);
    if |pieces| > 1 {
      AfterPiece(st, pieces, params);
      assert forall p | p in pieces[1..] :: p in pieces;
      ScanPieces([], pieces[1..], params);
      NothingBefore(Collect(Wanted(pieces[1..]), params));
    }
  }

  lemma NothingBefore(r: Result)
    ensures Prefixed([], r) == r
  {
    match r
    case Ok(vs) => assert [] + vs == vs;
    case NotFound(_) =>
  }

  // The text goes on with the first piece and then, behind a dollar, with the others.
  lemma AfterPiece(st: Scan, pieces: seq<string>, params: Params)
    requires |pieces| > 1
    ensures Steps(st, Text.Join(pieces, '$'), params)
            == match Steps(st, pieces[0], params)
               case Failed(n) => Failed(n)
               case Scanning(_, _, out) => Steps(Scanning(true, "", out), Text.Join(pieces[1..], '$'), params)
  {
    var tail := Text.Join(pieces[1..], '$');
    var after := "$" + tail;
    assert after[1..] == tail && Text.Join(pieces, '$') == pieces[0] + after;
    StepsConcat(st, pieces[0], after, params);
    match Steps(st, pieces[0], params)
    case Failed(n) => FailedStays(n, after, params);
    case Scanning(_, _, _) =>
  }

  lemma {:induction false} ScanPieces(out: seq<string>, pieces: seq<string>, params: Params)
    requires pieces != [] && forall p | p in pieces :: '$' !in p
    ensures Finish(Steps(Scanning(true, "", out), Text.Join(pieces, '$'), params), params)
            == Prefixed(out, Collect(Wanted(pieces), params))
    decreases |pieces|
  {
    var p, rest := pieces[0], pieces[1..];
    var n := NameLength(p);
    assert p in pieces;
    ScanPiece(out, p, params);
    if rest == [] {
      LastPiece(out, p, params);
      assert pieces == [p];
    } else {
      assert forall q | q in rest :: q in pieces;
      AfterPiece(Scanning(true, "", out), pieces, params);
      if n == |p| {
        ScanPieces(out, rest, params);
        assert Wanted(pieces) == Wanted(rest);
      } else if p[..n] in params {
        ScanPieces(out + [params[p[..n]]], rest, params);
        FoundFirst(out, p[..n], Wanted(rest), params);
      }
    }
  }

  lemma LastPiece(out: seq<string>, p: string, params: Params)
    requires '$' !in p
    ensures Finish(Steps(Scanning(true, "", out), p, params), params) == Prefixed(out, Collect(Wanted([p]), params))
  {
    var n := NameLength(p);
    ScanPiece(out, p, params);
    assert [p][1..] == [] && Wanted([]) == [];
    if n < |p| || p != "" {
      var name := p[..n];
      assert n == |p| ==> name == p;
      assert Wanted([p]) == [name];
      if name in params { FoundFirst(out, name, [], params); }
      assert [name][1..] == [];
    }
  }

  lemma FoundFirst(out: seq<string>, name: string, names: seq<string>, params: Params)
    requires name in params
    ensures Prefixed(out, Collect([name] + names, params)) == Prefixed(out + [params[name]], Collect(names, params))
  {
    assert ([name] + names)[1..] == names;
    match Collect(names, params)
    case Ok(vs) => ConcatAssociates(out, [params[name]], vs);
    case NotFound(_) =>
  }

  // One piece behind a dollar, up to the next one.
  lemma ScanPiece(out: seq<string>, p: string, params: Params)
    requires '$' !in p
    ensures var n, st := NameLength(p), Steps(Scanning(true, "", out), p, params);
            if n == |p| then st == Scanning(true, p, out)
            else if p[..n] in params then st.Scanning? && !st.inParam && st.out == out + [params[p[..n]]]
            else st == Failed(p[..n])
  {
    var n := NameLength(p);
    var st := Scanning(true, "", out);
    NameIsCollected(st, p[..n], params);
    assert "" + p[..n] == p[..n];
    if n == |p| {
      assert p[..n] == p;
    } else {
      var after := p[n..];
      assert p == p[..n] + after && after[0] == p[n] && p[n] in p;
      StepsConcat(st, p[..n], after, params);
      if p[..n] in params {
        forall c | c in after[1..] ensures c != '$' { assert c in p; }
        TextIsSkipped(Scanning(false, p[..n], out + [params[p[..n]]]), after[1..], params);
      } else {
        FailedStays(p[..n], after[1..], params);
      }
    }
  }
}

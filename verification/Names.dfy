/** The naming rule between public snake_case arguments and native camelCase ones
    (services/rust-mcp/src/server.rs, `snake_to_camel`), with its inverse. */
module Names {

  predicate IsLower(c: char) { 'a' <= c <= 'z' }

  predicate IsUpper(c: char) { 'A' <= c <= 'Z' }

  function Upper(c: char): char {
    if IsLower(c) then ('A' as int + (c as int - 'a' as int)) as char else c
  }

  function Lower(c: char): char {
    if IsUpper(c) then ('a' as int + (c as int - 'A' as int)) as char else c
  }

  /** Drops every underscore and raises the next character; `raise` says the previous one was an
      underscore. */
  function Camel(s: string, raise: bool): string {
    if s == [] then []
    else if s[0] == '_' then Camel(s[1..], true)
    else [if raise then Upper(s[0]) else s[0]] + Camel(s[1..], false)
  }

  function SnakeToCamel(s: string): string {
    Camel(s, false)
  }

  function CamelToSnake(s: string): string {
    if s == [] then []
    else (if IsUpper(s[0]) then ['_', Lower(s[0])] else [s[0]]) + CamelToSnake(s[1..])
  }

  /** The rule under any casing of characters, which may give several for one. */
  function CamelBy(upper: char -> string, s: string, raise: bool): string {
    if s == [] then []
    else if s[0] == '_' then CamelBy(upper, s[1..], true)
    else (if raise then upper(s[0]) else [s[0]]) + CamelBy(upper, s[1..], false)
  }

  /** The loop over the characters of a name. */
  method Convert(upper: char -> string, value: string) returns (output: string)
    ensures output == CamelBy(upper, value, false)
  {
    output := [];
    var raise := false;
    var i := 0;
    assert value[0..] == value;
    while i < |value|
      invariant i <= |value| && CamelBy(upper, value, false) == output + CamelBy(upper, value[i..], raise)
    {
      assert value[i..][1..] == value[i + 1..];
      var c := value[i];
      if c == '_' {
        raise := true;
      } else if raise {
        output := output + upper(c);
        raise := false;
      } else {
        output := output + [c];
      }
      i := i + 1;
    }
  }

  /** A casing that raises the letters of ASCII and leaves its digits, whatever it does to the rest. */
  ghost predicate RaisesAscii(upper: char -> string) {
    forall c :: IsLower(c) || '0' <= c <= '9' ==> upper(c) == [Upper(c)]
  }

  /** Lower-case letters, digits and underscores. */
  predicate Plain(s: string) {
    forall i :: 0 <= i < |s| ==> IsLower(s[i]) || '0' <= s[i] <= '9' || s[i] == '_'
  }

  /** On such names only what a casing does to ASCII matters. */
  lemma {:induction false} PlainNamesNeedAscii(upper: char -> string, s: string, raise: bool)
    requires RaisesAscii(upper) && Plain(s)
    ensures CamelBy(upper, s, raise) == Camel(s, raise)
  {
    if s != [] { PlainNamesNeedAscii(upper, s[1..], s[0] == '_'); }
  }

  /** Every underscore is directly followed by a lower-case letter. */
  predicate SegmentsStartLower(s: string) {
    forall i :: 0 <= i < |s| && s[i] == '_' ==> i + 1 < |s| && IsLower(s[i + 1])
  }

  lemma SegmentsCons(s: string)
    requires s != []
    ensures SegmentsStartLower(s) <==>
            SegmentsStartLower(s[1..]) && (s[0] == '_' ==> |s| > 1 && IsLower(s[1]))
  {
    if SegmentsStartLower(s[1..]) && (s[0] == '_' ==> |s| > 1 && IsLower(s[1])) {
      forall i | 0 <= i < |s| && s[i] == '_' ensures i + 1 < |s| && IsLower(s[i + 1]) {
        assert i > 0 ==> s[1..][i - 1] == '_';
      }
    }
  }

  /** Converting back never gives more characters than there were, but for the one underscore
      still owed. */
  lemma {:induction false} BackIsNoLonger(s: string, raise: bool)
    requires Plain(s)
    ensures |CamelToSnake(Camel(s, raise))| <= |s| + (if raise then 1 else 0)
  {
    if s != [] { BackIsNoLonger(s[1..], s[0] == '_'); }
  }

  lemma {:induction false} BackAgain(s: string, raise: bool)
    requires Plain(s)
    ensures !raise ==> (CamelToSnake(Camel(s, false)) == s <==> SegmentsStartLower(s))
    ensures raise ==>
              (CamelToSnake(Camel(s, true)) == "_" + s <==> s != [] && IsLower(s[0]) && SegmentsStartLower(s))
  {
    if s != [] {
      var rest := s[1..];
      assert Plain(rest) && PlainHead(s[0]);
      hide *;
      SegmentsCons(s);
      BackAgain(rest, s[0] == '_');
      if raise && !IsLower(s[0]) {
        NeverBack(s);
      } else {
        BackHead(s, raise);
        BackFromRest(s, raise);
      }
    } else {
      hide SegmentsStartLower;
    }
  }

  predicate PlainHead(c: char) {
    IsLower(c) || '0' <= c <= '9' || c == '_'
  }

  lemma NeverBack(s: string)
    requires Plain(s) && s != [] && !IsLower(s[0])
    ensures CamelToSnake(Camel(s, true)) != "_" + s
  {
    BackIsNoLonger(s[1..], s[0] == '_');
    if s[0] == '_' {
      assert |CamelToSnake(Camel(s, true))| <= |s|;
    } else {
      assert CamelToSnake(Camel(s, true))[0] != '_';
    }
  }

  lemma BackFromRest(s: string, raise: bool)
    requires s != [] && PlainHead(s[0]) && (raise ==> IsLower(s[0]))
    requires s[0] == '_' ==> CamelToSnake(Camel(s, raise)) == CamelToSnake(Camel(s[1..], true))
    requires s[0] != '_' ==>
               CamelToSnake(Camel(s, raise))
               == (if raise then ['_', s[0]] else [s[0]]) + CamelToSnake(Camel(s[1..], false))
    ensures s[0] == '_' ==>
              (CamelToSnake(Camel(s, raise)) == s <==> CamelToSnake(Camel(s[1..], true)) == "_" + s[1..])
    ensures s[0] != '_' ==>
              (CamelToSnake(Camel(s, raise)) == (if raise then "_" else "") + s
               <==> CamelToSnake(Camel(s[1..], false)) == s[1..])
  {
    hide Camel, CamelToSnake;
    var rest := s[1..];
    assert s == [s[0]] + rest && "_" + s == ['_', s[0]] + rest && "" + s == s;
    Cancel(if raise then ['_', s[0]] else [s[0]], CamelToSnake(Camel(rest, false)), rest);
  }

  lemma Cancel(p: string, a: string, b: string)
    ensures p + a == p + b <==> a == b
  {
    assert (p + a)[|p|..] == a && (p + b)[|p|..] == b;
  }

  lemma BackHead(s: string, raise: bool)
    requires s != [] && (IsLower(s[0]) || (!raise && (s[0] == '_' || '0' <= s[0] <= '9')))
    ensures s[0] == '_' ==> CamelToSnake(Camel(s, raise)) == CamelToSnake(Camel(s[1..], true))
    ensures s[0] != '_' ==>
              CamelToSnake(Camel(s, raise)) == (if raise then ['_', s[0]] else [s[0]])
                  + CamelToSnake(Camel(s[1..], false))
  {
    if s[0] != '_' {
      var camel := Camel(s, raise);
      assert camel == [if raise then Upper(s[0]) else s[0]] + Camel(s[1..], false);
      assert camel[1..] == Camel(s[1..], false);
    }
  }

  /** On names of lower-case letters, digits and underscores the rule can be undone exactly when
      every underscore is directly followed by a letter. */
  lemma RuleIsInvertibleIff(s: string)
    requires Plain(s)
    ensures CamelToSnake(SnakeToCamel(s)) == s <==> SegmentsStartLower(s)
  {
    BackAgain(s, false);
  }

  /** A name whose segments all start with a lower-case letter. */
  predicate SnakeName(s: string) {
    Plain(s) && SegmentsStartLower(s)
  }

  /** Two such names never collide. */
  lemma NamesStayDistinct(a: string, b: string)
    requires SnakeName(a) && SnakeName(b) && SnakeToCamel(a) == SnakeToCamel(b)
    ensures a == b
  {
    RuleIsInvertibleIff(a);
    RuleIsInvertibleIff(b);
  }

  /** They do when a segment starts with a digit. */
  lemma DigitSegmentsCollide()
    ensures SnakeToCamel("a_1") == SnakeToCamel("a1") == "a1"
  {
    assert "a_1"[1..] == "_1" && "_1"[1..] == "1" && "a1"[1..] == "1" && "1"[1..] == "";
  }

  /** The rule converts a name word by word. */
  lemma {:induction false} CamelJoins(first: string, rest: string)
    requires '_' !in first && rest != [] && rest[0] != '_'
    ensures SnakeToCamel(first + "_" + rest) == first + Camel(rest, true)
    ensures SnakeToCamel(rest) == [rest[0]] + SnakeToCamel(rest[1..])
            && Camel(rest, true) == [Upper(rest[0])] + SnakeToCamel(rest[1..])
    decreases |first|
  {
    if first == [] {
      assert first + "_" + rest == "_" + rest;
      assert ("_" + rest)[1..] == rest;
    } else {
      CamelJoins(first[1..], rest);
      assert (first + "_" + rest)[1..] == first[1..] + "_" + rest;
    }
  }

  /** One lower-case word. */
  predicate Word(s: string) {
    s != [] && forall i :: 0 <= i < |s| ==> IsLower(s[i])
  }

  lemma WordIsSnake(s: string)
    requires Word(s)
    ensures SnakeName(s) && SnakeToCamel(s) == s
  {
    NoUnderscore(s);
  }

  /** A name without underscores is left alone. */
  lemma {:induction false} NoUnderscore(s: string)
    requires '_' !in s
    ensures SnakeToCamel(s) == s
  {
    if s != [] {
      NoUnderscore(s[1..]);
      assert s == [s[0]] + s[1..];
    }
  }

  lemma JoinIsSnake(word: string, rest: string)
    requires Word(word) && SnakeName(rest) && rest != [] && IsLower(rest[0])
    ensures SnakeName(word + "_" + rest)
  {
    var s := word + "_" + rest;
    assert forall i :: 0 <= i < |rest| ==> s[|word| + 1 + i] == rest[i];
  }

  lemma TwoWords(a: string, b: string)
    requires Word(a) && Word(b)
    ensures SnakeName(a + "_" + b) && SnakeToCamel(a + "_" + b) == a + ([Upper(b[0])] + b[1..])
  {
    WordIsSnake(b);
    JoinIsSnake(a, b);
    CamelJoins(a, b);
    NoUnderscore(b[1..]);
  }

  lemma ThreeWords(a: string, b: string, c: string)
    requires Word(a) && Word(b) && |b| > 1 && Word(c)
    ensures SnakeName(a + "_" + (b + "_" + c))
    ensures SnakeToCamel(a + "_" + (b + "_" + c)) == a + ([Upper(b[0])] + (b[1..] + ([Upper(c[0])] + c[1..])))
  {
    var rest := b + "_" + c;
    TwoWords(b, c);
    TwoWords(b[1..], c);
    assert rest[0] == b[0] && rest[1..] == b[1..] + "_" + c;
    hide SnakeName, Word;
    CamelJoins(a, rest);
    assert IsLower(rest[0]) by { WordStarts(b); }
    JoinIsSnake(a, rest);
  }

  lemma WordStarts(s: string)
    requires Word(s)
    ensures IsLower(s[0])
  {
  }
}

/** The line parser of the configuration file tool of example 18. */
module ConfigLine {

  // ------------------------------------------------------ library functions

  /** `std::isspace` in the C locale. */
  predicate IsSpace(c: char) {
    c == ' ' || 9 <= c as int <= 13
  }

  predicate IsSeparator(c: char) {
    c == ' ' || c == '\t'
  }

  /** `find` of a character; the length stands for `npos`. */
  function Find(s: string, c: char): (i: nat)
    ensures i <= |s|
    ensures forall j :: 0 <= j < i ==> s[j] != c
    ensures i < |s| ==> s[i] == c
  {
    if |s| == 0 || s[0] == c then 0 else 1 + Find(s[1..], c)
  }

  function FindLast(s: string, c: char): (i: nat)
    ensures i <= |s|
    ensures i == |s| ==> c !in s
    ensures i < |s| ==> s[i] == c && forall j :: i < j < |s| ==> s[j] != c
  {
    if |s| == 0 then 0
    else if s[|s| - 1] == c then |s| - 1
    else
      var i := FindLast(s[..|s| - 1], c);
      if i == |s| - 1 then |s| else i
  }

  /** `find_first_of(" \t")`. */
  function FindSeparator(s: string): (i: nat)
    ensures i <= |s|
    ensures forall j :: 0 <= j < i ==> !IsSeparator(s[j])
    ensures i < |s| ==> IsSeparator(s[i])
  {
    if |s| == 0 || IsSeparator(s[0]) then 0 else 1 + FindSeparator(s[1..])
  }

  /** `find` of a string, where it is known to occur. */
  function FindString(s: string, t: string): (i: nat)
    ensures i <= |s|
    ensures i < |s| ==> t <= s[i..]
  {
    if |s| == 0 || t <= s then 0 else 1 + FindString(s[1..], t)
  }

  // ------------------------------------------------ meaning of the pieces

  function CutComment(s: string): string {
    s[..Find(s, '#')]
  }

  function Ltrim(s: string): (r: string)
    ensures |r| > 0 ==> !IsSpace(r[0])
  {
    if |s| > 0 && IsSpace(s[0]) then Ltrim(s[1..]) else s
  }

  function Rtrim(s: string): string {
    if |s| > 0 && IsSpace(s[|s| - 1]) then Rtrim(s[..|s| - 1]) else s
  }

  function Trim(s: string): string {
    Rtrim(Ltrim(s))
  }

  /** The words between separators. */
  function Tokens(s: string): seq<string>
    decreases |s|
  {
    var i := FindSeparator(s);
    if i == |s| then (if |s| > 0 then [s] else [])
    else (if i > 0 then [s[..i]] else []) + Tokens(s[i + 1..])
  }

  /** Everything between the first and the last quote, if they differ. */
  function Unquote(s: string): string {
    var i, j := Find(s, '"'), FindLast(s, '"');
    if i < |s| && i < j < |s| then s[i + 1..j] else s
  }

  /** Each backslash in front of a quote goes away. */
  function Unescape(s: string): string {
    if |s| == 0 then ""
    else if |s| > 1 && s[0] == '\\' && s[1] == '"' then ['"'] + Unescape(s[2..])
    else [s[0]] + Unescape(s[1..])
  }

  function Escape(s: string): string {
    if |s| == 0 then ""
    else (if s[0] == '"' then ['\\', '"'] else [s[0]]) + Escape(s[1..])
  }

  function Quote(s: string): string {
    ['"'] + Escape(s) + ['"']
  }

  datatype Line = Line(name: string, value: string)

  /** The text after the first separator behind the name. */
  function ValueText(lstr: string, name: string): string {
    var val := lstr[FindString(lstr, name)..];
    var i := FindSeparator(val);
    if i < |val| then val[i + 1..] else val
  }

  /** What a line means: no name and no value for an empty line, no name and a
      value for a line that does not parse. */
  function Interpret(line: string): Line {
    var lstr := Ltrim(CutComment(line));
    if |lstr| == 0 then Line("", "")
    else
      var tokens := Tokens(CutComment(lstr));
      if |tokens| < 2 then Line("", "parsing failed")
      else Line(tokens[0], Unescape(Unquote(Trim(ValueText(lstr, tokens[0])))))
  }

  // ---------------------------------------------------------- the code

  method LtrimInPlace(s: string) returns (r: string)
    ensures r == Ltrim(s)
  {
    r := s;
    while |r| > 0 && IsSpace(r[0])
      invariant Ltrim(r) == Ltrim(s)
    {
      r := r[1..];
    }
  }

  method RtrimInPlace(s: string) returns (r: string)
    ensures r == Rtrim(s)
  {
    r := s;
    while |r| > 0 && IsSpace(r[|r| - 1])
      invariant Rtrim(r) == Rtrim(s)
    {
      r := r[..|r| - 1];
    }
  }

  /** The loop of `parse`: each turn shrinks the text that is left. */
  method Tokenise(text: string) returns (tokens: seq<string>)
    ensures tokens == Tokens(CutComment(text))
  {
    tokens := [];
    if text == "" {
      return;
    }
    var token := text;
    var idx := Find(token, '#');
    if idx < |token| {
      token := token[..idx];
    }
    assert token == CutComment(text);
    idx := FindSeparator(token);
    while idx < |token|
      invariant idx == FindSeparator(token)
      invariant tokens + Tokens(token) == Tokens(CutComment(text))
      decreases |token|
    {
      TokensTurn(tokens, token);
      if idx > 0 {
        tokens := tokens + [token[..idx]];
      }
      token := token[idx + 1..];
      idx := FindSeparator(token);
    }
    TokensEnd(tokens, token);
    if |token| > 0 {
      tokens := tokens + [token];
    }
  }

  lemma TokensTurn(tokens: seq<string>, token: string)
    requires FindSeparator(token) < |token|
    ensures
      var idx := FindSeparator(token);
      (if idx > 0 then tokens + [token[..idx]] else tokens) + Tokens(token[idx + 1..]) == tokens + Tokens(token)
  {
    var idx := FindSeparator(token);
    var rest := Tokens(token[idx + 1..]);
    assert Tokens(token) == (if idx > 0 then [token[..idx]] else []) + rest;
    hide Tokens, FindSeparator;
    Regroup(tokens, token[..idx], rest);
  }

  lemma Regroup(tokens: seq<string>, word: string, rest: seq<string>)
    ensures (tokens + [word]) + rest == tokens + ([word] + rest)
    ensures tokens + ([] + rest) == tokens + rest
  {
  }

  lemma TokensEnd(tokens: seq<string>, token: string)
    requires FindSeparator(token) == |token|
    ensures tokens + Tokens(token) == if |token| > 0 then tokens + [token] else tokens
  {
  }

  /** `find` of a backslash and quote, at or after `from`. */
  function FindEscaped(s: string, from: nat): (i: nat)
    requires from <= |s|
    ensures from <= i <= |s|
    ensures i < |s| ==> i + 1 < |s| && s[i] == '\\' && s[i + 1] == '"'
    decreases |s| - from
  {
    if from == |s| || (from + 1 < |s| && s[from] == '\\' && s[from + 1] == '"') then from
    else FindEscaped(s, from + 1)
  }

  /** What the search passes over is already plain. */
  lemma {:induction false} PlainBefore(s: string, from: nat)
    requires from <= |s|
    ensures Unescape(s[from..]) == s[from..FindEscaped(s, from)] + Unescape(s[FindEscaped(s, from)..])
    decreases |s| - from
  {
    var i := FindEscaped(s, from);
    if i > from {
      PlainBefore(s, from + 1);
      assert s[from..][1..] == s[from + 1..];
      assert s[from..i] == [s[from]] + s[from + 1..i];
    }
  }

  /** The loop that replaces backslash and quote by a quote, in place. */
  method UnescapeInPlace(s: string) returns (val: string)
    ensures val == Unescape(s)
  {
    val := s;
    assert val[0..] == s && val[..0] == "";
    var loc := FindEscaped(val, 0);
    SearchKeepsMeaning(val, 0);
    while loc < |val|
      invariant 0 <= loc <= |val|
      invariant loc < |val| ==> loc + 1 < |val| && val[loc] == '\\' && val[loc + 1] == '"'
      invariant val[..loc] + Unescape(val[loc..]) == Unescape(s)
      decreases |val|
    {
      ghost var before := val;
      val := val[..loc] + ['"'] + val[loc + 2..];
      ReplaceKeepsMeaning(before, val, loc);
      var next := FindEscaped(val, loc);
      SearchKeepsMeaning(val, loc);
      loc := next;
    }
    assert val[loc..] == "" && val[..loc] == val;
  }

  lemma ReplaceKeepsMeaning(before: string, val: string, loc: nat)
    requires loc + 1 < |before| && before[loc] == '\\' && before[loc + 1] == '"'
    requires val == before[..loc] + ['"'] + before[loc + 2..]
    ensures val[..loc] + Unescape(val[loc..]) == before[..loc] + Unescape(before[loc..])
  {
  }

  lemma SearchKeepsMeaning(val: string, loc: nat)
    requires loc <= |val|
    ensures
      var next := FindEscaped(val, loc);
      val[..next] + Unescape(val[next..]) == val[..loc] + Unescape(val[loc..])
  {
    var next := FindEscaped(val, loc);
    PlainBefore(val, loc);
    assert val[..next] == val[..loc] + val[loc..next];
  }

  /** `interpret_config_line`. */
  method InterpretConfigLine(line: string) returns (r: Line)
    ensures r == Interpret(line)
  {
    var lstr := line;
    var lidx := Find(lstr, '#');
    if lidx < |lstr| {
      lstr := lstr[..lidx];
    }
    assert lstr == CutComment(line);
    lstr := LtrimInPlace(lstr);
    if |lstr| == 0 {
      return Line("", "");
    }
    var tokens := Tokenise(lstr);
    if |tokens| < 2 {
      return Line("", "parsing failed");
    }
    var val := lstr[FindString(lstr, tokens[0])..];
    var i := FindSeparator(val);
    if i < |val| {
      val := val[i + 1..];
    }
    val := CleanValue(val);
    r := Line(tokens[0], val);
  }

  /** The part of `interpret_config_line` that trims, unquotes and unescapes. */
  method CleanValue(text: string) returns (val: string)
    ensures val == Unescape(Unquote(Trim(text)))
  {
    val := LtrimInPlace(text);
    val := RtrimInPlace(val);
    var first, last := Find(val, '"'), FindLast(val, '"');
    if first < |val| && first != last {
      assert first < last < |val|;
      val := val[first + 1..last];
    }
    assert val == Unquote(Trim(text));
    val := UnescapeInPlace(val);
  }

  // ---------------------------------------------------------- round trip

  /** Can this name stand at the start of a line? */
  predicate GoodName(name: string) {
    |name| > 0 && !IsSpace(name[0]) && forall i :: 0 <= i < |name| ==> name[i] != '#' && !IsSeparator(name[i])
  }

  predicate NoHash(s: string) {
    forall i :: 0 <= i < |s| ==> s[i] != '#'
  }

  lemma CutNothing(s: string)
    requires NoHash(s)
    ensures CutComment(s) == s
  {
  }

  lemma {:induction false} EscapeNeverStartsWithQuote(s: string)
    ensures |Escape(s)| > 0 ==> Escape(s)[0] != '"'
  {
  }

  lemma {:induction false} UnescapeEscape(s: string)
    ensures Unescape(Escape(s)) == s
  {
    if |s| > 0 {
      UnescapeEscape(s[1..]);
      EscapeNeverStartsWithQuote(s[1..]);
      var rest := Escape(s[1..]);
      if s[0] == '"' {
        assert Escape(s)[2..] == rest;
      } else {
        assert Escape(s)[1..] == rest;
      }
    }
  }

  lemma {:induction false} EscapeNoHash(s: string)
    requires NoHash(s)
    ensures NoHash(Escape(s))
  {
    if |s| > 0 { EscapeNoHash(s[1..]); }
  }

  /** The first word ends at the first separator. */
  lemma SeparatorAfter(name: string, sep: char, rest: string)
    requires GoodName(name) && IsSeparator(sep)
    ensures FindSeparator(name + [sep] + rest) == |name|
  {
    var s := name + [sep] + rest;
    assert s[|name|] == sep;
    assert forall j :: 0 <= j < |name| ==> s[j] == name[j];
  }

  lemma FirstToken(name: string, sep: char, rest: string)
    requires GoodName(name) && IsSeparator(sep)
    ensures Tokens(name + [sep] + rest) == [name] + Tokens(rest)
  {
    var s := name + [sep] + rest;
    SeparatorAfter(name, sep, rest);
    assert s[..|name|] == name && s[|name| + 1..] == rest;
  }

  lemma SomeToken(s: string)
    requires |s| > 0 && !IsSeparator(s[0])
    ensures |Tokens(s)| > 0
  {
  }

  lemma UnquoteQuote(s: string)
    ensures Unquote(['"'] + s + ['"']) == s
  {
  }

  lemma TrimQuoted(s: string)
    ensures Trim(['"'] + s + ['"']) == ['"'] + s + ['"']
  {
  }

  lemma LineReadsBack(name: string, value: string)
    requires GoodName(name) && NoHash(value)
    ensures Interpret(name + [' '] + Quote(value)) == Line(name, value)
  {
    var q := Quote(value);
    var line := name + [' '] + q;
    EscapeNoHash(value);
    assert NoHash(line);
    CutNothing(line);
    assert line[0] == name[0];
    assert Ltrim(line) == line;
    FirstToken(name, ' ', q);
    SomeToken(q);
    assert name <= line;
    assert FindString(line, name) == 0 && line[0..] == line;
    SeparatorAfter(name, ' ', q);
    assert line[|name| + 1..] == q;
    TrimQuoted(Escape(value));
    UnquoteQuote(Escape(value));
    UnescapeEscape(value);
  }

  // the other direction

  lemma {:induction false} LtrimIsSuffix(s: string)
    ensures |Ltrim(s)| <= |s| && Ltrim(s) == s[|s| - |Ltrim(s)|..]
  {
    if |s| > 0 && IsSpace(s[0]) { LtrimIsSuffix(s[1..]); }
  }

  lemma {:induction false} RtrimIsPrefix(s: string)
    ensures Rtrim(s) <= s
  {
    if |s| > 0 && IsSpace(s[|s| - 1]) { RtrimIsPrefix(s[..|s| - 1]); }
  }

  lemma {:induction false} UnescapeNoHash(s: string)
    requires NoHash(s)
    ensures NoHash(Unescape(s))
    decreases |s|
  {
    if |s| > 1 && s[0] == '\\' && s[1] == '"' {
      UnescapeNoHash(s[2..]);
    } else if |s| > 0 {
      UnescapeNoHash(s[1..]);
    }
  }

  /** Words have no separator; the first word starts where the text does. */
  lemma {:induction false} TokensAreWords(s: string)
    requires NoHash(s)
    ensures forall k :: 0 <= k < |Tokens(s)| ==> IsWord(Tokens(s)[k])
    ensures |s| > 0 && !IsSeparator(s[0]) ==> |Tokens(s)| > 0 && Tokens(s)[0] == s[..FindSeparator(s)]
    decreases |s|
  {
    var i := FindSeparator(s);
    if i < |s| { TokensAreWords(s[i + 1..]); }
  }

  predicate IsWord(t: string) {
    |t| > 0 && forall i :: 0 <= i < |t| ==> t[i] != '#' && !IsSeparator(t[i])
  }

  lemma CleanValueHasNoHash(s: string)
    requires NoHash(s)
    ensures NoHash(Unescape(Unquote(Trim(s))))
  {
    LtrimIsSuffix(s);
    RtrimIsPrefix(Ltrim(s));
    UnescapeNoHash(Unquote(Trim(s)));
  }

  lemma FirstWordIsGood(lstr: string)
    requires NoHash(lstr) && |lstr| > 0 && !IsSpace(lstr[0])
    ensures |Tokens(lstr)| > 0 && GoodName(Tokens(lstr)[0])
  {
  }

  lemma ValueTextHasNoHash(lstr: string, name: string)
    requires NoHash(lstr)
    ensures NoHash(ValueText(lstr, name))
  {
  }

  /** The line without its comment and its leading space. */
  lemma StrippedLine(line: string)
    ensures
      var lstr := Ltrim(CutComment(line));
      NoHash(lstr) && CutComment(lstr) == lstr && (|lstr| > 0 ==> !IsSpace(lstr[0]))
  {
    LtrimIsSuffix(CutComment(line));
    CutNothing(Ltrim(CutComment(line)));
  }

  lemma InterpretGivesCleanValue(line: string)
    ensures NoHash(Interpret(line).value)
  {
    var lstr := Ltrim(CutComment(line));
    StrippedLine(line);
    if |lstr| > 0 && |Tokens(lstr)| >= 2 {
      var text := ValueText(lstr, Tokens(lstr)[0]);
      ValueTextHasNoHash(lstr, Tokens(lstr)[0]);
      CleanValueHasNoHash(text);
      assert Interpret(line).value == Unescape(Unquote(Trim(text)));
    }
  }

  lemma InterpretGivesGoodName(line: string)
    ensures |Interpret(line).name| > 0 ==> GoodName(Interpret(line).name)
  {
  }

  lemma {:induction false} NoTokensNoText(s: string)
    requires |Tokens(s)| == 0
    ensures forall i :: 0 <= i < |s| ==> IsSeparator(s[i])
    decreases |s|
  {
    var i := FindSeparator(s);
    if i < |s| {
      assert i == 0;
      NoTokensNoText(s[1..]);
      assert forall k :: 0 < k < |s| ==> s[k] == s[1..][k - 1];
    }
  }

  lemma SeparatorMakesTwoTokens(s: string, i: nat)
    requires i < |s| && IsSeparator(s[i]) && !IsSeparator(s[0]) && !IsSeparator(s[|s| - 1])
    ensures |Tokens(s)| >= 2
  {
    var k := FindSeparator(s);
    var rest := s[k + 1..];
    assert |rest| > 0 && rest[|rest| - 1] == s[|s| - 1];
    if |Tokens(rest)| == 0 {
      NoTokensNoText(rest);
    }
  }

  lemma {:induction false} EscapeKeepsBlank(s: string)
    requires ' ' in s
    ensures ' ' in Escape(s)
  {
    if s[0] != ' ' { EscapeKeepsBlank(s[1..]); }
  }

  lemma QuoteMakesTwoTokens(value: string)
    requires ' ' in value
    ensures |Tokens(Quote(value))| >= 2
  {
    var q := Quote(value);
    EscapeKeepsBlank(value);
    var i: nat :| i < |Escape(value)| && Escape(value)[i] == ' ';
    assert q[i + 1] == ' ' && q[0] == '"' && q[|q| - 1] == '"';
    SeparatorMakesTwoTokens(q, i + 1);
  }

  /** A line without a name never reads back as itself. */
  lemma NamelessLine(value: string)
    requires NoHash(value)
    ensures Interpret([' '] + Quote(value)) != Line("", value)
  {
    var q := Quote(value);
    var line := [' '] + q;
    EscapeNoHash(value);
    assert NoHash(line);
    CutNothing(line);
    StrippedLine(line);
    assert line[1..] == q;
    assert Ltrim(q) == q;
    assert Ltrim(CutComment(line)) == q;
    FirstWordIsGood(q);
    if value == "parsing failed" {
      assert value[7] == ' ';
      QuoteMakesTwoTokens(value);
    }
  }

  // ------------------------------------------------------- lines as written

  /** Nothing but blanks, tabs, line feeds, form feeds and carriage returns. */
  predicate Blank(s: string) {
    forall i :: 0 <= i < |s| ==>
      s[i] == ' ' || s[i] == '\t' || s[i] == '\n' || s[i] as int == 11 || s[i] as int == 12 || s[i] == '\r'
  }

  predicate Comment(s: string) {
    s == "" || s[0] == '#'
  }

  lemma {:induction false} LtrimJoin(a: string, t: string)
    requires |t| > 0 && !IsSpace(t[0])
    ensures Ltrim(a + t) == Ltrim(a) + t
  {
    if |a| > 0 && IsSpace(a[0]) {
      assert (a + t)[1..] == a[1..] + t;
      LtrimJoin(a[1..], t);
    } else if |a| == 0 {
      assert a + t == t;
    }
  }

  lemma {:induction false} RtrimJoin(t: string, a: string)
    requires |t| > 0 && !IsSpace(t[|t| - 1])
    ensures Rtrim(t + a) == t + Rtrim(a)
  {
    var n := |a|;
    if n > 0 && IsSpace(a[n - 1]) {
      assert (t + a)[..|t + a| - 1] == t + a[..n - 1];
      RtrimJoin(t, a[..n - 1]);
    } else if n == 0 {
      assert t + a == t;
    }
  }

  lemma {:induction false} BlankTrims(s: string)
    requires Blank(s)
    ensures Ltrim(s) == "" && Rtrim(s) == "" && NoHash(s)
  {
    if |s| > 0 {
      BlankTrims(s[1..]);
      BlankTrims(s[..|s| - 1]);
    }
  }

  lemma CommentIsCut(text: string, comment: string)
    requires NoHash(text) && Comment(comment)
    ensures CutComment(text + comment) == text
  {
    var s := text + comment;
    assert forall i :: 0 <= i < |text| ==> s[i] == text[i];
    if |comment| > 0 { assert s[|text|] == '#'; }
    assert Find(s, '#') == |text|;
  }

  /** Name, separator and something behind it: the rest is cleaned. */
  lemma NameAndRest(lead: string, name: string, sep: char, rest: string, comment: string)
    requires Blank(lead) && GoodName(name) && IsSeparator(sep) && NoHash(rest) && Comment(comment)
    requires exists i :: 0 <= i < |rest| && !IsSeparator(rest[i])
    ensures Interpret(lead + (name + [sep] + rest) + comment) == Line(name, Unescape(Unquote(Trim(rest))))
  {
    hide Tokens, ValueText, Trim, Unquote, Unescape;
    var lstr := name + [sep] + rest;
    StrippedIs(lead, lstr, comment);
    FirstToken(name, sep, rest);
    if |Tokens(rest)| == 0 { NoTokensNoText(rest); }
    ValueTextIs(name, sep, rest);
  }

  lemma StrippedIs(lead: string, lstr: string, comment: string)
    requires Blank(lead) && Comment(comment) && NoHash(lstr) && |lstr| > 0 && !IsSpace(lstr[0])
    ensures Ltrim(CutComment(lead + lstr + comment)) == lstr && CutComment(lstr) == lstr
  {
    hide CutComment;
    BlankTrims(lead);
    assert NoHash(lead + lstr);
    CommentIsCut(lead + lstr, comment);
    LtrimJoin(lead, lstr);
    assert "" + lstr == lstr;
    CutNothing(lstr);
  }

  lemma ValueTextIs(name: string, sep: char, rest: string)
    requires GoodName(name) && IsSeparator(sep)
    ensures ValueText(name + [sep] + rest, name) == rest
  {
    var lstr := name + [sep] + rest;
    assert name <= lstr;
    assert FindString(lstr, name) == 0 && lstr[0..] == lstr;
    SeparatorAfter(name, sep, rest);
    assert lstr[|name| + 1..] == rest;
  }

  lemma {:induction false} NothingToUnescape(s: string)
    requires forall i :: 0 <= i < |s| - 1 ==> !(s[i] == '\\' && s[i + 1] == '"')
    ensures Unescape(s) == s
  {
    if |s| > 0 {
      if |s| > 1 { assert !(s[0] == '\\' && s[0 + 1] == '"'); }
      forall i | 0 <= i < |s[1..]| - 1 ensures !(s[1..][i] == '\\' && s[1..][i + 1] == '"') {
        assert !(s[i + 1] == '\\' && s[i + 1 + 1] == '"');
      }
      NothingToUnescape(s[1..]);
    }
  }

  lemma TrimBetween(pad: string, value: string, trail: string)
    requires Blank(pad) && Blank(trail) && |value| > 0 && !IsSpace(value[0]) && !IsSpace(value[|value| - 1])
    ensures Trim(pad + value + trail) == value
  {
    BlankTrims(pad);
    BlankTrims(trail);
    assert pad + value + trail == pad + (value + trail);
    LtrimJoin(pad, value + trail);
    RtrimJoin(value, trail);
    assert "" + (value + trail) == value + trail && value + "" == value;
  }

  lemma UnquotePlain(s: string)
    requires forall i, j :: 0 <= i < j < |s| && s[i] == '"' ==> s[j] != '"'
    ensures Unquote(s) == s
  {
  }

  /** A value without two quotes is kept, up to the white space around it and the
      backslash of an escaped quote. */
  lemma CleanLine(lead: string, name: string, sep: char, pad: string, value: string, trail: string, comment: string)
    requires Blank(lead) && Blank(pad) && Blank(trail) && Comment(comment)
    requires GoodName(name) && IsSeparator(sep)
    requires |value| > 0 && !IsSpace(value[0]) && !IsSpace(value[|value| - 1]) && '#' !in value
    requires forall i, j :: 0 <= i < j < |value| && value[i] == '"' ==> value[j] != '"'
    ensures Interpret(lead + (name + [sep] + (pad + value + trail)) + comment) == Line(name, Unescape(value))
  {
    hide Interpret, Unescape, Unquote, Trim;
    var rest := pad + value + trail;
    BlankTrims(pad);
    BlankTrims(trail);
    assert NoHash(rest) && rest[|pad|] == value[0];
    NameAndRest(lead, name, sep, rest, comment);
    TrimBetween(pad, value, trail);
    UnquotePlain(value);
  }

  /** A line of a name, a blank or a tab, and a value without quotes or with one
      reads as exactly this name and value, whatever white space and comment are
      around them and whatever white space is inside the value. */
  lemma PlainLine(lead: string, name: string, sep: char, pad: string, value: string, trail: string, comment: string)
    requires Blank(lead) && Blank(pad) && Blank(trail) && Comment(comment)
    requires |name| > 0 && !Blank([name[0]])
    requires forall i :: 0 <= i < |name| ==> name[i] != '#' && name[i] != ' ' && name[i] != '\t'
    requires sep == ' ' || sep == '\t'
    requires |value| > 0 && !Blank([value[0]]) && !Blank([value[|value| - 1]]) && '#' !in value
    requires forall i, j :: 0 <= i < j < |value| && value[i] == '"' ==> value[j] != '"'
    requires forall i :: 0 <= i < |value| - 1 ==> !(value[i] == '\\' && value[i + 1] == '"')
    ensures Interpret(lead + (name + [sep] + (pad + value + trail)) + comment) == Line(name, value)
  {
    hide Interpret, Unescape;
    CleanLine(lead, name, sep, pad, value, trail, comment);
    NothingToUnescape(value);
  }

  lemma {:induction false} UnescapeAt(a: string, b: string)
    requires '"' !in a && '"' !in b
    ensures Unescape(a + ['\\', '"'] + b) == a + ['"'] + b
    decreases |a|
  {
    var s := a + ['\\', '"'] + b;
    if |a| == 0 {
      assert s[2..] == b;
      NothingToUnescape(b);
    } else {
      assert s[1..] == a[1..] + ['\\', '"'] + b;
      assert s[1] != '"' by {
        if |a| > 1 { assert s[1] == a[1]; }
      }
      UnescapeAt(a[1..], b);
    }
  }

  /** Of a single escaped quote the backslash goes. */
  lemma EscapedQuoteLine(name: string, a: string, b: string)
    requires |name| > 0 && !Blank([name[0]])
    requires forall i :: 0 <= i < |name| ==> name[i] != '#' && name[i] != ' ' && name[i] != '\t'
    requires '"' !in a && '"' !in b && '#' !in a && '#' !in b
    requires (|a| > 0 ==> !Blank([a[0]])) && (|b| > 0 ==> !Blank([b[|b| - 1]]))
    ensures Interpret(name + [' '] + (a + ['\\', '"'] + b)) == Line(name, a + ['"'] + b)
  {
    hide Interpret, Unescape;
    var value := a + ['\\', '"'] + b;
    assert forall i :: 0 <= i < |value| && value[i] == '"' ==> i == |a| + 1;
    assert value[0] == if |a| > 0 then a[0] else '\\';
    assert value[|value| - 1] == if |b| > 0 then b[|b| - 1] else '"';
    CleanLine("", name, ' ', "", value, "", "");
    UnescapeAt(a, b);
    var line := name + [' '] + value;
    assert "" + (name + [' '] + ("" + value + "")) + "" == line;
  }

  lemma FoundAt(s: string, c: char, first: nat, last: nat)
    requires first <= last < |s| && s[first] == c == s[last]
    requires forall k :: 0 <= k < first ==> s[k] != c
    requires forall k :: last < k < |s| ==> s[k] != c
    ensures Find(s, c) == first && FindLast(s, c) == last
  {
  }

  lemma UnquoteBetween(b: string, e: string, c: string)
    requires '"' !in b && '"' !in c
    ensures Unquote(b + (['"'] + e + ['"']) + c) == e
  {
    hide Find, FindLast;
    var q := ['"'] + e + ['"'];
    var s, last := b + q + c, |b| + |e| + 1;
    assert s[|b|] == q[0] == '"';
    assert s[last] == q[|e| + 1] == '"';
    forall k | 0 <= k < |b| ensures s[k] != '"' {
      assert s[k] == b[k];
    }
    forall k | last < k < |s| ensures s[k] != '"' {
      assert s[k] == c[k - last - 1];
    }
    FoundAt(s, '"', |b|, last);
    assert s[|b| + 1..last] == e;
  }

  /** Of a value with quotes everything outside them is dropped, and the escapes
      inside are undone. */
  lemma QuotedLine(lead: string, name: string, sep: char, before: string, value: string, after: string, comment: string)
    requires Blank(lead) && Comment(comment) && NoHash(value)
    requires |name| > 0 && !IsSpace(name[0])
    requires forall i :: 0 <= i < |name| ==> name[i] != '#' && name[i] != ' ' && name[i] != '\t'
    requires sep == ' ' || sep == '\t'
    requires NoHash(before) && NoHash(after) && '"' !in before && '"' !in after
    ensures Interpret(lead + (name + [sep] + (before + Quote(value) + after)) + comment) == Line(name, value)
  {
    hide Interpret, Unescape, Unquote, Trim, Escape;
    var q, rest := Quote(value), before + Quote(value) + after;
    EscapeNoHash(value);
    assert NoHash(q) && NoHash(rest) && rest[|before|] == '"';
    NameAndRest(lead, name, sep, rest, comment);
    UnquoteTrimmed(before, Escape(value), after);
    UnescapeEscape(value);
  }

  lemma UnquoteTrimmed(before: string, e: string, after: string)
    requires '"' !in before && '"' !in after
    ensures Unquote(Trim(before + (['"'] + e + ['"']) + after)) == e
  {
    hide Unquote;
    var q := ['"'] + e + ['"'];
    assert before + q + after == before + (q + after);
    LtrimJoin(before, q + after);
    LtrimIsSuffix(before);
    RtrimIsPrefix(after);
    var b := Ltrim(before);
    assert b + (q + after) == (b + q) + after;
    RtrimJoin(b + q, after);
    UnquoteBetween(b, e, Rtrim(after));
  }

  /** A line without text, or with a comment only, says nothing. */
  lemma EmptyLine(lead: string, comment: string)
    requires Blank(lead) && Comment(comment)
    ensures Interpret(lead + comment) == Line("", "")
  {
    BlankTrims(lead);
    CommentIsCut(lead, comment);
  }

  /** A line of one word is bad. */
  lemma OneWordLine(lead: string, word: string, trail: string, comment: string)
    requires Blank(lead) && Comment(comment) && |word| > 0 && !IsSpace(word[0])
    requires forall i :: 0 <= i < |word| ==> word[i] != '#' && word[i] != ' ' && word[i] != '\t'
    requires forall i :: 0 <= i < |trail| ==> IsSeparator(trail[i])
    ensures Interpret(lead + (word + trail) + comment) == Line("", "parsing failed")
  {
    hide CutComment;
    assert (word + trail)[0] == word[0] && NoHash(word + trail);
    StrippedIs(lead, word + trail, comment);
    OneToken(word, trail);
  }

  lemma OneToken(word: string, trail: string)
    requires |word| > 0 && forall i :: 0 <= i < |word| ==> !IsSeparator(word[i])
    requires forall i :: 0 <= i < |trail| ==> IsSeparator(trail[i])
    ensures |Tokens(word + trail)| == 1
  {
    var s := word + trail;
    assert forall i :: 0 <= i < |word| ==> s[i] == word[i];
    if |trail| == 0 {
      assert FindSeparator(s) == |s|;
    } else {
      assert s[|word|] == trail[0];
      assert FindSeparator(s) == |word| && s[|word| + 1..] == trail[1..];
      NoWords(trail[1..]);
    }
  }

  lemma {:induction false} NoWords(s: string)
    requires forall i :: 0 <= i < |s| ==> IsSeparator(s[i])
    ensures Tokens(s) == []
  {
    if |s| > 0 {
      assert FindSeparator(s) == 0;
      NoWords(s[1..]);
    }
  }

  /** A name and a quoted and escaped value read back exactly when the name can
      stand at the start of a line and the value has no comment sign: a comment
      sign cuts the line even inside quotes. */
  lemma RoundTrip(name: string, value: string)
    ensures Interpret(name + [' '] + Quote(value)) == Line(name, value)
            <==> GoodName(name) && NoHash(value)
  {
    var line := name + [' '] + Quote(value);
    if GoodName(name) && NoHash(value) {
      LineReadsBack(name, value);
    } else {
      InterpretGivesCleanValue(line);
      InterpretGivesGoodName(line);
      if name == "" && NoHash(value) {
        assert line == [' '] + Quote(value);
        NamelessLine(value);
      }
    }
  }
}

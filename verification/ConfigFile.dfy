/** Reading a whole configuration file of example 18: macros and assignments. */
module ConfigFile {
  import opened ConfigLine

  // ----------------------------------------------------------- config sets

  class ConfigSet {
    var data: map<string, string>

    constructor ()
      ensures data == map[]
    {
      data := map[];
    }

    /** Overwrites; the answer tells whether the name was new. */
    method Add(name: string, value: string) returns (added: bool)
      modifies this
      ensures data == old(data)[name := value]
      ensures added <==> name !in old(data)
    {
      added := name !in data;
      if added {
        data := data[name := value];
      } else {
        data := data - {name};
        data := data[name := value];
      }
    }

    predicate Has(name: string)
      reads this
    {
      name in data
    }

    function Get(name: string): (value: string)
      reads this
      ensures Has(name) ==> value == data[name]
      ensures !Has(name) ==> value == ""
    {
      if name in data then data[name] else ""
    }
  }

  // ------------------------------------------------------ what a line does

  datatype Meaning = Nothing | Macro(name: string, value: string) | Assign(name: string, value: string)

  predicate IsMacroName(s: string) {
    forall i :: 0 <= i < |s| ==> 'A' <= s[i] <= 'Z' || s[i] == '_'
  }

  function Classify(line: Line): Meaning {
    if |line.name| == 0 then Nothing
    else if |line.value| > 0 && line.value[0] == '=' then
      if IsMacroName(line.name) then Macro(line.name, Trim(line.value[1..])) else Nothing
    else Assign(line.name, line.value)
  }

  function Meanings(lines: seq<string>): seq<Meaning> {
    seq(|lines|, i requires 0 <= i < |lines| => Classify(Interpret(lines[i])))
  }

  // ---------------------------------------------------- what a file means

  predicate Defines(ms: seq<Meaning>, i: nat, name: string) {
    i < |ms| && ms[i].Macro? && ms[i].name == name
  }

  predicate Assigns(ms: seq<Meaning>, i: nat, name: string) {
    i < |ms| && ms[i].Assign? && ms[i].name == name
  }

  /** Line `j` is the last one before line `i` that defines the macro. */
  ghost predicate InForce(ms: seq<Meaning>, i: nat, name: string, j: nat) {
    j < i && Defines(ms, j, name) && forall k: nat :: j < k < i ==> !Defines(ms, k, name)
  }

  /** The value that line `i` assigns: the macro in force if the whole value is
      the name of one, the value as written otherwise. */
  ghost predicate Yields(ms: seq<Meaning>, i: nat, value: string)
    requires i < |ms| && ms[i].Assign?
  {
    || (exists j: nat :: InForce(ms, i, ms[i].value, j) && ms[j].value == value)
    || ((forall j: nat :: j < i ==> !Defines(ms, j, ms[i].value)) && ms[i].value == value)
  }

  ghost predicate LastAssigned(ms: seq<Meaning>, name: string, i: nat) {
    Assigns(ms, i, name) && forall k: nat :: i < k < |ms| ==> !Assigns(ms, k, name)
  }

  ghost predicate HasValue(ms: seq<Meaning>, name: string, value: string) {
    exists i: nat :: LastAssigned(ms, name, i) && Yields(ms, i, value)
  }

  /** The configured names are the assigned ones, each with its last value. */
  ghost predicate Describes(ms: seq<Meaning>, data: map<string, string>) {
    && (forall i: nat :: i < |ms| && ms[i].Assign? ==> ms[i].name in data)
    && (forall name :: name in data ==> HasValue(ms, name, data[name]))
  }

  /** The macro table at the end of the lines. */
  ghost predicate MacroTable(ms: seq<Meaning>, macros: map<string, string>) {
    && (forall i: nat :: i < |ms| && ms[i].Macro? ==> ms[i].name in macros)
    && (forall name :: name in macros ==> exists j: nat :: InForce(ms, |ms|, name, j) && ms[j].value == macros[name])
  }

  // --------------------------------------------------------------- steps

  lemma YieldsStays(ms: seq<Meaning>, m: Meaning, i: nat, value: string)
    requires i < |ms| && ms[i].Assign? && Yields(ms, i, value)
    ensures Yields(ms + [m], i, value)
  {
    var after := ms + [m];
    assert forall k: nat, n :: k < |ms| ==> Defines(after, k, n) == Defines(ms, k, n);
    if j: nat :| InForce(ms, i, ms[i].value, j) && ms[j].value == value {
      assert InForce(after, i, after[i].value, j);
    }
  }

  lemma HasValueStays(ms: seq<Meaning>, m: Meaning, name: string, value: string)
    requires HasValue(ms, name, value)
    requires !(m.Assign? && m.name == name)
    ensures HasValue(ms + [m], name, value)
  {
    var i: nat :| LastAssigned(ms, name, i) && Yields(ms, i, value);
    YieldsStays(ms, m, i, value);
    assert forall k: nat :: k < |ms| ==> Assigns(ms + [m], k, name) == Assigns(ms, k, name);
    assert LastAssigned(ms + [m], name, i);
  }

  /** A macro, an empty line or a bad line leaves every earlier assignment as it
      was, even if the macro has the name of a value used before. */
  lemma OtherLinesChangeNothing(ms: seq<Meaning>, m: Meaning, data: map<string, string>)
    requires Describes(ms, data) && !m.Assign?
    ensures Describes(ms + [m], data)
  {
    forall name | name in data ensures HasValue(ms + [m], name, data[name]) {
      HasValueStays(ms, m, name, data[name]);
    }
  }

  lemma MacroStays(ms: seq<Meaning>, m: Meaning, name: string, j: nat)
    requires InForce(ms, |ms|, name, j)
    requires !(m.Macro? && m.name == name)
    ensures InForce(ms + [m], |ms| + 1, name, j)
  {
    assert forall k: nat :: k < |ms| ==> Defines(ms + [m], k, name) == Defines(ms, k, name);
  }

  function MacrosAfter(macros: map<string, string>, m: Meaning): map<string, string> {
    if m.Macro? then macros[m.name := m.value] else macros
  }

  function DataAfter(data: map<string, string>, macros: map<string, string>, m: Meaning): map<string, string> {
    if m.Assign? then data[m.name := if m.value in macros then macros[m.value] else m.value] else data
  }

  lemma TableStep(ms: seq<Meaning>, m: Meaning, macros: map<string, string>)
    requires MacroTable(ms, macros)
    ensures MacroTable(ms + [m], MacrosAfter(macros, m))
  {
    var after, table := ms + [m], MacrosAfter(macros, m);
    forall name | name in table
      ensures exists j: nat :: InForce(after, |after|, name, j) && after[j].value == table[name]
    {
      if m.Macro? && m.name == name {
        assert InForce(after, |after|, name, |ms|);
      } else {
        var j: nat :| InForce(ms, |ms|, name, j) && ms[j].value == macros[name];
        MacroStays(ms, m, name, j);
        assert after[j] == ms[j];
      }
    }
  }

  lemma NewAssignment(ms: seq<Meaning>, m: Meaning, macros: map<string, string>)
    requires MacroTable(ms, macros) && m.Assign?
    ensures HasValue(ms + [m], m.name, if m.value in macros then macros[m.value] else m.value)
  {
    var after, value := ms + [m], if m.value in macros then macros[m.value] else m.value;
    assert forall k: nat, n :: k < |ms| ==> Defines(after, k, n) == Defines(ms, k, n);
    assert LastAssigned(after, m.name, |ms|);
    if m.value in macros {
      var j: nat :| InForce(ms, |ms|, m.value, j) && ms[j].value == macros[m.value];
      assert InForce(after, |ms|, after[|ms|].value, j);
    }
    assert Yields(after, |ms|, value);
  }

  lemma DataStep(ms: seq<Meaning>, m: Meaning, macros: map<string, string>, data: map<string, string>)
    requires Describes(ms, data) && MacroTable(ms, macros)
    ensures Describes(ms + [m], DataAfter(data, macros, m))
  {
    if m.Assign? {
      var after := DataAfter(data, macros, m);
      NewAssignment(ms, m, macros);
      forall name | name in after && name != m.name ensures HasValue(ms + [m], name, after[name]) {
        HasValueStays(ms, m, name, data[name]);
      }
    } else {
      OtherLinesChangeNothing(ms, m, data);
    }
  }

  // ----------------------------------------------------------- the reader

  /** `create_config_set_from_file`, from the lines of the file on. */
  method CreateConfigSet(lines: seq<string>) returns (config: ConfigSet)
    ensures fresh(config)
    ensures Describes(Meanings(lines), config.data)
  {
    config := new ConfigSet();
    var macros := new ConfigSet();
    var ln := 0;
    ghost var ms: seq<Meaning> := [];
    while ln < |lines|
      invariant 0 <= ln <= |lines|
      invariant fresh(config) && fresh(macros) && config != macros
      invariant ms == Meanings(lines)[..ln]
      invariant Describes(ms, config.data)
      invariant MacroTable(ms, macros.data)
    {
      ghost var m := Meanings(lines)[ln];
      TableStep(ms, m, macros.data);
      DataStep(ms, m, macros.data, config.data);
      ms := ms + [m];
      var line := InterpretConfigLine(lines[ln]);
      TakeLine(line, config, macros);
      ln := ln + 1;
    }
    assert Meanings(lines)[..ln] == Meanings(lines);
  }

  /** The body of the loop, once the line has been interpreted. */
  method TakeLine(line: Line, config: ConfigSet, macros: ConfigSet)
    requires config != macros
    modifies config, macros
    ensures config.data == DataAfter(old(config.data), old(macros.data), Classify(line))
    ensures macros.data == MacrosAfter(old(macros.data), Classify(line))
  {
    if |line.name| > 0 {
      if |line.value| > 0 && line.value[0] == '=' {
        if IsMacroName(line.name) {
          var value := LtrimInPlace(line.value[1..]);
          value := RtrimInPlace(value);
          var _ := macros.Add(line.name, value);
        }
      } else {
        if !macros.Has(line.value) {
          var _ := config.Add(line.name, line.value);
        } else {
          var _ := config.Add(line.name, macros.Get(line.value));
        }
      }
    }
  }

  lemma OneValue(ms: seq<Meaning>, name: string, value: string, other: string)
    requires HasValue(ms, name, value) && HasValue(ms, name, other)
    ensures value == other
  {
  }

  /** The lines leave no choice: there is one configuration they describe. */
  lemma DescribedOnce(ms: seq<Meaning>, one: map<string, string>, other: map<string, string>)
    requires Describes(ms, one) && Describes(ms, other)
    ensures one == other
  {
    hide Yields;
    assert one.Keys == other.Keys;
    forall name | name in one ensures one[name] == other[name] {
      OneValue(ms, name, one[name], other[name]);
    }
  }

  // ------------------------------------------------------ written files

  function Written(entries: seq<Line>): seq<string> {
    seq(|entries|, i requires 0 <= i < |entries| => entries[i].name + [' '] + Quote(entries[i].value))
  }

  predicate Writable(e: Line) {
    GoodName(e.name) && NoHash(e.value) && !(|e.value| > 0 && e.value[0] == '=')
  }

  /** The value of the last entry of each name. */
  ghost predicate Collects(entries: seq<Line>, data: map<string, string>) {
    && (forall i :: 0 <= i < |entries| ==> entries[i].name in data)
    && (forall name :: name in data ==> exists i :: LastEntry(entries, name, i) && entries[i].value == data[name])
  }

  ghost predicate LastEntry(entries: seq<Line>, name: string, i: int) {
    && 0 <= i < |entries| && entries[i].name == name
    && forall k :: i < k < |entries| ==> entries[k].name != name
  }

  lemma WrittenLine(e: Line)
    ensures Classify(Interpret(e.name + [' '] + Quote(e.value))) == Assign(e.name, e.value) <==> Writable(e)
  {
    RoundTrip(e.name, e.value);
    ClassifyAssigns(Interpret(e.name + [' '] + Quote(e.value)), e);
  }

  lemma ClassifyAssigns(line: Line, e: Line)
    ensures Classify(line) == Assign(e.name, e.value)
            <==> line == e && |e.name| > 0 && !(|e.value| > 0 && e.value[0] == '=')
  {
  }

  /** Do these lines assign exactly the entries, one each? */
  predicate AreEntries(ms: seq<Meaning>, entries: seq<Line>) {
    |ms| == |entries| && forall i :: 0 <= i < |ms| ==> ms[i] == Assign(entries[i].name, entries[i].value)
  }

  lemma EntriesAreCollected(ms: seq<Meaning>, entries: seq<Line>, data: map<string, string>)
    requires AreEntries(ms, entries)
    ensures Describes(ms, data) ==> Collects(entries, data)
  {
    forall name | Describes(ms, data) && name in data
      ensures exists i :: LastEntry(entries, name, i) && entries[i].value == data[name]
    {
      var i: nat :| LastAssigned(ms, name, i) && Yields(ms, i, data[name]);
      forall k | i < k < |entries| ensures entries[k].name != name {
        assert !Assigns(ms, k, name);
      }
      assert LastEntry(entries, name, i);
    }
  }

  lemma WrittenAreEntries(entries: seq<Line>)
    requires forall i :: 0 <= i < |entries| ==> Writable(entries[i])
    ensures AreEntries(Meanings(Written(entries)), entries)
  {
    forall i | 0 <= i < |entries|
      ensures Meanings(Written(entries))[i] == Assign(entries[i].name, entries[i].value)
    {
      WrittenLine(entries[i]);
    }
  }

  /** A file of name, space and quoted value per line reads back as the values
      written last, whatever the values are, if every entry can be written. */
  lemma WrittenFileReadsBack(entries: seq<Line>, data: map<string, string>)
    requires forall i :: 0 <= i < |entries| ==> Writable(entries[i])
    requires Describes(Meanings(Written(entries)), data)
    ensures Collects(entries, data)
  {
    WrittenAreEntries(entries);
    EntriesAreCollected(Meanings(Written(entries)), entries, data);
  }

  lemma OnlyLine(m: Meaning, e: Line)
    ensures Describes([m], map[e.name := e.value]) <==> m == Assign(e.name, e.value)
  {
    var ms, data := [m], map[e.name := e.value];
    assert e.name in data;
    if m == Assign(e.name, e.value) {
      assert LastAssigned(ms, e.name, 0) && Yields(ms, 0, e.value);
    }
    assert HasValue(ms, e.name, e.value) ==> m == Assign(e.name, e.value);
  }

  /** One line alone is read back exactly when it can be written: an equals sign
      in front makes a macro of the value, quoted or not. */
  lemma OneLineFile(e: Line)
    ensures Describes(Meanings(Written([e])), map[e.name := e.value]) <==> Writable(e)
  {
    var line := e.name + [' '] + Quote(e.value);
    WrittenLine(e);
    OnlyLine(Classify(Interpret(line)), e);
    assert Meanings(Written([e])) == [Classify(Interpret(line))];
  }

  // ------------------------------------------------------------ lines as written

  /** A line `NAME = value` defines a macro if the name is of capital letters and
      underscores, and says nothing otherwise. */
  lemma MacroLine(lead: string, name: string, pad: string, value: string, trail: string, comment: string)
    requires Blank(lead) && Blank(pad) && Blank(trail) && Comment(comment)
    requires GoodName(name)
    requires |value| > 0 && !Blank([value[0]]) && !Blank([value[|value| - 1]]) && '#' !in value && '"' !in value
    ensures
      var line := lead + (name + [' '] + ("" + (['='] + pad + value) + trail)) + comment;
      Classify(Interpret(line)) ==
      if forall i :: 0 <= i < |name| ==> name[i] in "ABCDEFGHIJKLMNOPQRSTUVWXYZ_" then Macro(name, value) else Nothing
  {
    hide Interpret, Trim;
    var text := ['='] + pad + value;
    assert text[0] == '=' && text[|text| - 1] == value[|value| - 1] && '"' !in text && '#' !in text;
    assert [name[0]][0] == name[0] && [text[0]][0] == '=';
    PlainLine(lead, name, ' ', "", text, trail, comment);
    assert text[1..] == pad + value + "";
    TrimBetween(pad, value, "");
    Capitals(name);
  }

  lemma Capitals(name: string)
    ensures IsMacroName(name) <==> forall i :: 0 <= i < |name| ==> name[i] in "ABCDEFGHIJKLMNOPQRSTUVWXYZ_"
  {
    forall c: char ensures 'A' <= c <= 'Z' || c == '_' <==> c in "ABCDEFGHIJKLMNOPQRSTUVWXYZ_" {
      Capital(c);
    }
  }

  lemma Capital(c: char)
    ensures 'A' <= c <= 'Z' || c == '_' <==> c in "ABCDEFGHIJKLMNOPQRSTUVWXYZ_"
  {
    var letters := "ABCDEFGHIJKLMNOPQRSTUVWXYZ_";
    if 'A' <= c <= 'Z' {
      assert letters[c as int - 'A' as int] == c;
    } else if c == '_' {
      assert letters[26] == c;
    }
  }

  /** Every other line of this form assigns. */
  lemma AssignLine(lead: string, name: string, pad: string, value: string, trail: string, comment: string)
    requires Blank(lead) && Blank(pad) && Blank(trail) && Comment(comment) && GoodName(name)
    requires |value| > 0 && !Blank([value[0]]) && !Blank([value[|value| - 1]])
    requires '#' !in value && '"' !in value && value[0] != '='
    ensures Classify(Interpret(lead + (name + [' '] + (pad + value + trail)) + comment)) == Assign(name, value)
  {
    hide Interpret;
    assert [name[0]][0] == name[0];
    PlainLine(lead, name, ' ', pad, value, trail, comment);
  }

  /** A macro line and a line that uses it: the parameter gets the macro's value.
      In the other order it gets the macro's name. */
  lemma MacroIsUsedBehindItsLine(macro: string, value: string, name: string, data: map<string, string>)
    ensures Describes([Macro(macro, value), Assign(name, macro)], data) <==> data == map[name := value]
    ensures Describes([Assign(name, macro), Macro(macro, value)], data) <==> data == map[name := macro]
  {
    var one := [Macro(macro, value), Assign(name, macro)];
    var other := [Assign(name, macro), Macro(macro, value)];
    assert InForce(one, 1, macro, 0);
    assert LastAssigned(one, name, 1) && Yields(one, 1, value);
    assert LastAssigned(other, name, 0) && Yields(other, 0, macro);
    assert Describes(one, map[name := value]) && Describes(other, map[name := macro]);
    if Describes(one, data) { DescribedOnce(one, data, map[name := value]); }
    if Describes(other, data) { DescribedOnce(other, data, map[name := macro]); }
  }
}

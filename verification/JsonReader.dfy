/**
 A reference reader for the printed form: it shows that `json.dumps` is unambiguous on the values the
 printer is given, so that a `loads` reading every caption back exists.
 */
module JsonReader {
  import opened JsonText
  import opened Wrappers

  datatype Read<+T> = Fail | Got(value: T, rest: string)

  function HexValue(c: char): Option<nat> {
    if '0' <= c <= '9' then Some(c as int - '0' as int)
    else if 'a' <= c <= 'f' then Some(c as int - 'a' as int + 10)
    else None
  }

  /** The character of an escape sequence, and the text behind it. */
  function ReadEscape(text: string): (r: Read<char>)
    ensures r.Got? ==> |r.rest| < |text|
  {
    if |text| < 2 || text[0] != '\\' then Fail
    else
      match text[1]
      case '"' => Got('"', text[2..])
      case '\\' => Got('\\', text[2..])
      case 'n' => Got('\n', text[2..])
      case 'r' => Got('\r', text[2..])
      case 't' => Got('\t', text[2..])
      case 'b' => Got('\U{08}', text[2..])
      case 'f' => Got('\U{0C}', text[2..])
      case 'u' =>
        if |text| < 6 || text[2..4] != "00" || HexValue(text[4]).None? || HexValue(text[5]).None? then Fail
        else Got((16 * HexValue(text[4]).value + HexValue(text[5]).value) as char, text[6..])
      case _ => Fail
  }

  /** The rest of a string, behind its opening quote. A control character must be escaped. */
  function ReadString(text: string): (r: Read<string>)
    ensures r.Got? ==> |r.rest| < |text|
    decreases |text|
  {
    if text == "" then Fail
    else if text[0] == '"' then Got("", text[1..])
    else
      var c := if text[0] == '\\' then ReadEscape(text) else if text[0] < '\U{20}' then Fail else Got(text[0], text[1..]);
      if c.Fail? then Fail
      else
        var s := ReadString(c.rest);
        if s.Fail? then Fail else Got([c.value] + s.value, s.rest)
  }

  function AtomLength(text: string): (n: nat)
    ensures n <= |text|
  {
    if text != "" && IsAtomChar(text[0]) then 1 + AtomLength(text[1..]) else 0
  }

  function ReadValue(text: string): (r: Read<Json>)
    ensures r.Got? ==> |r.rest| < |text|
    decreases |text|, 1
  {
    if text == "" then Fail
    else if text[0] == '"' then
      var s := ReadString(text[1..]);
      if s.Fail? then Fail else Got(Str(s.value), s.rest)
    else if text[0] == '[' || text[0] == '{' then
      var isObject := text[0] == '{';
      if |text| > 1 && text[1] == Closing(isObject) then Got(Container([], isObject), text[2..])
      else
        var body := ReadBody(text[1..], isObject);
        if body.Fail? then Fail else Got(Container(body.value, isObject), body.rest)
    else
      var n := AtomLength(text);
      if n == 0 then Fail else Got(Atom(text[..n]), text[n..])
  }

  function Closing(isObject: bool): char { if isObject then '}' else ']' }

  function Container(members: seq<Member>, isObject: bool): Json {
    if isObject then Obj(members) else Arr(seq(|members|, i requires 0 <= i < |members| => members[i].value))
  }

  /** One or more children and the closing bracket; a list's children have no names. */
  function ReadBody(text: string, isObject: bool): (r: Read<seq<Member>>)
    ensures r.Got? ==> |r.rest| < |text|
    decreases |text|, 2
  {
    var name := ReadName(text, isObject);
    if name.Fail? then Fail
    else
      var child := ReadValue(name.rest);
      if child.Fail? || child.rest == "" then Fail
      else
        var m := Member(name.value, child.value);
        if child.rest[0] == Closing(isObject) then Got([m], child.rest[1..])
        else if ", " <= child.rest then
          var more := ReadBody(child.rest[2..], isObject);
          if more.Fail? then Fail else Got([m] + more.value, more.rest)
        else Fail
  }

  function ReadName(text: string, isObject: bool): (r: Read<string>)
    ensures r.Got? ==> |r.rest| <= |text|
  {
    if !isObject then Got("", text)
    else if text == "" || text[0] != '"' then Fail
    else
      var s := ReadString(text[1..]);
      if s.Fail? || !(": " <= s.rest) then Fail else Got(s.value, s.rest[2..])
  }

  /** The whole text is one value. */
  function Loads(text: string): Option<Json> {
    var r := ReadValue(text);
    if r.Got? && r.rest == "" then Some(r.value) else None
  }

  // ---------------------------------------------------------------------------------------------
  // Reading what was printed
  // ---------------------------------------------------------------------------------------------

  lemma HexReadsBack(n: nat)
    requires n < 16
    ensures HexValue(HEX_DIGITS[n]) == Some(n)
  {
  }

  lemma ReadsEscape(c: char, rest: string)
    requires |Escape(c)| > 1
    ensures ReadEscape(Escape(c) + rest) == Got(c, rest)
  {
    var e, text := Escape(c), Escape(c) + rest;
    assert text[0] == e[0] && text[1] == e[1];
    if |e| == 2 {
      assert text[2..] == rest;
    } else {
      var n := c as int;
      HexReadsBack(n / 16);
      HexReadsBack(n % 16);
      assert text[2..4] == "00" && text[4] == e[4] && text[5] == e[5] && text[6..] == rest;
      assert 16 * (n / 16) + n % 16 == n;
    }
  }

  lemma ReadsRaw(c: char, rest: string)
    requires c >= '\U{20}' && c != '"' && c != '\\'
    ensures var s := ReadString(rest); ReadString([c] + rest) == if s.Fail? then Fail else Got([c] + s.value, s.rest)
  {
    assert ([c] + rest)[1..] == rest;
  }

  lemma ReadsSequence(text: string, c: char, rest: string)
    requires text != "" && text[0] == '\\' && ReadEscape(text) == Got(c, rest)
    ensures var s := ReadString(rest); ReadString(text) == if s.Fail? then Fail else Got([c] + s.value, s.rest)
  {
  }

  /** One printed character is read back, whatever follows. */
  lemma ReadsChar(c: char, rest: string)
    ensures var s := ReadString(rest);
      ReadString(Escape(c) + rest) == if s.Fail? then Fail else Got([c] + s.value, s.rest)
  {
    EscapeShape(c);
    if |Escape(c)| > 1 {
      ReadsEscape(c, rest);
      ReadsSequence(Escape(c) + rest, c, rest);
    } else {
      ReadsRaw(c, rest);
    }
  }

  lemma Assoc(a: string, b: string, c: string)
    ensures a + b + c == a + (b + c)
  {
  }

  lemma {:induction false} ReadsString(s: string, rest: string)
    ensures ReadString(EscapeAll(s) + ("\"" + rest)) == Got(s, rest)
  {
    var closed := "\"" + rest;
    if s == "" {
      assert "" + closed == closed && closed[1..] == rest;
    } else {
      ReadsString(s[1..], rest);
      ReadsChar(s[0], EscapeAll(s[1..]) + closed);
      Assoc(Escape(s[0]), EscapeAll(s[1..]), closed);
      assert [s[0]] + s[1..] == s;
    }
  }

  lemma ReadsQuote(s: string, rest: string)
    ensures (Quote(s) + rest)[0] == '"' && ReadString((Quote(s) + rest)[1..]) == Got(s, rest)
  {
    var inner := EscapeAll(s) + ("\"" + rest);
    ReadsString(s, rest);
    Assoc("\"" + EscapeAll(s), "\"", rest);
    Assoc("\"", EscapeAll(s), "\"" + rest);
    assert Quote(s) + rest == "\"" + inner;
    assert ("\"" + inner)[1..] == inner;
  }

  ghost predicate EndsAtom(rest: string) {
    rest == "" || !IsAtomChar(rest[0])
  }

  lemma {:induction false} ReadsAtom(lexeme: string, rest: string)
    requires (forall i | 0 <= i < |lexeme| :: IsAtomChar(lexeme[i])) && EndsAtom(rest)
    ensures AtomLength(lexeme + rest) == |lexeme|
  {
    if lexeme == "" {
      assert lexeme + rest == rest;
    } else {
      assert (lexeme + rest)[1..] == lexeme[1..] + rest;
      ReadsAtom(lexeme[1..], rest);
    }
  }

  /** Child `i` as the reader collects it. */
  ghost function MemberAt(v: Json, i: nat): Member
    requires i < v.Children()
  {
    Member(if v.Obj? then v.members[i].name else "", Child(v, i))
  }

  ghost function MembersFrom(v: Json, i: nat): (members: seq<Member>)
    requires i <= v.Children()
    ensures |members| == v.Children() - i
    ensures forall k | 0 <= k < |members| :: members[k] == MemberAt(v, i + k)
    decreases v.Children() - i
  {
    if i == v.Children() then [] else [MemberAt(v, i)] + MembersFrom(v, i + 1)
  }

  lemma MembersRebuild(v: Json)
    requires v.Arr? || v.Obj?
    ensures Container(MembersFrom(v, 0), v.Obj?) == v
  {
  }

  /** The first character of a printed value. */
  lemma DumpsStarts(v: Json)
    requires WellFormed(v)
    ensures Dumps(v) != "" && Dumps(v)[0] != ']' && Dumps(v)[0] != '}'
  {
    if v.Atom? {
      assert IsAtomChar(v.lexeme[0]);
    }
  }

  lemma BodyStarts(v: Json, i: nat)
    requires WellFormed(v) && i < v.Children()
    ensures Body(v, i) != "" && Body(v, i)[0] != ']' && Body(v, i)[0] != '}'
  {
    DumpsStarts(Child(v, i));
    var head := Name(v, i) + Dumps(Child(v, i));
    assert Body(v, i)[0] == head[0];
  }

  lemma ReadsName(v: Json, i: nat, rest: string)
    requires i < v.Children()
    ensures ReadName(Name(v, i) + rest, v.Obj?) == Got(if v.Obj? then v.members[i].name else "", rest)
  {
    if v.Obj? {
      var quoted := Quote(v.members[i].name);
      QuotedName(v.members[i].name, rest);
      Assoc(quoted, ": ", rest);
    } else {
      assert Name(v, i) + rest == rest;
    }
  }

  lemma QuotedName(name: string, rest: string)
    ensures ReadName(Quote(name) + (": " + rest), true) == Got(name, rest)
  {
    ReadsQuote(name, ": " + rest);
    assert (": " + rest)[..2] == ": " && (": " + rest)[2..] == rest;
  }

  /** Main result on reading: a printed value is read back, and nothing behind it is touched. */
  lemma {:induction false} ReadsValue(v: Json, rest: string)
    requires WellFormed(v) && EndsAtom(rest)
    ensures ReadValue(Dumps(v) + rest) == Got(v, rest)
    decreases v, 1, 0
  {
    var text := Dumps(v) + rest;
    match v
    case Atom(lexeme) =>
      ReadsAtom(lexeme, rest);
      assert IsAtomChar(text[0]) && text[..|lexeme|] == lexeme && text[|lexeme|..] == rest;
    case Str(chars) => ReadsQuote(chars, rest);
    case _ => ReadsContainer(v, rest);
  }

  lemma DumpsOpens(v: Json, rest: string)
    requires v.Arr? || v.Obj?
    ensures Dumps(v) + rest == [if v.Obj? then '{' else '['] + (Body(v, 0) + ([Closing(v.Obj?)] + rest))
  {
    var open, close := [if v.Obj? then '{' else '['], [Closing(v.Obj?)];
    Assoc(open + Body(v, 0), close, rest);
    Assoc(open, Body(v, 0), close + rest);
  }

  lemma {:induction false} ReadsContainer(v: Json, rest: string)
    requires WellFormed(v) && (v.Arr? || v.Obj?)
    ensures ReadValue(Dumps(v) + rest) == Got(v, rest)
    decreases v, 0, v.Children() + 1
  {
    var close := [Closing(v.Obj?)];
    MembersRebuild(v);
    var inner := Body(v, 0) + (close + rest);
    DumpsOpens(v, rest);
    if v.Children() == 0 {
      assert inner == close + rest && inner[1..] == rest;
      assert MembersFrom(v, 0) == [];
      EmptyContainer(v.Obj?, inner);
    } else {
      BodyStarts(v, 0);
      ReadsBody(v, 0, rest);
      FullContainer(v.Obj?, inner);
    }
  }

  lemma EmptyContainer(isObject: bool, inner: string)
    requires inner != "" && inner[0] == Closing(isObject)
    ensures ReadValue([if isObject then '{' else '['] + inner) == Got(Container([], isObject), inner[1..])
  {
    var text := [if isObject then '{' else '['] + inner;
    assert text[1..] == inner && text[2..] == inner[1..];
  }

  lemma FullContainer(isObject: bool, inner: string)
    requires inner != "" && inner[0] != Closing(isObject)
    ensures var body := ReadBody(inner, isObject);
      ReadValue([if isObject then '{' else '['] + inner) ==
        if body.Fail? then Fail else Got(Container(body.value, isObject), body.rest)
  {
    var text := [if isObject then '{' else '['] + inner;
    assert text[1..] == inner;
  }

  lemma Regroup(a: string, b: string, c: string, d: string, e: string)
    ensures a + b + c + d + e == a + (b + (c + (d + e)))
  {
  }

  lemma SplitBody(v: Json, i: nat, end: string)
    requires i < v.Children()
    ensures Body(v, i) + end == Name(v, i) + (Dumps(Child(v, i)) + (Comma(v, i) + (Body(v, i + 1) + end)))
  {
    Regroup(Name(v, i), Dumps(Child(v, i)), Comma(v, i), Body(v, i + 1), end);
  }

  lemma ChildWellFormed(v: Json, i: nat)
    requires WellFormed(v) && i < v.Children()
    ensures WellFormed(Child(v, i))
  {
  }

  lemma SeparatorsEndAtoms(isObject: bool, rest: string)
    ensures EndsAtom([Closing(isObject)] + rest) && EndsAtom(", " + rest)
  {
    assert ([Closing(isObject)] + rest)[0] == Closing(isObject) && (", " + rest)[0] == ',';
  }

  lemma MembersStep(v: Json, i: nat)
    requires i < v.Children()
    ensures MembersFrom(v, i) == [MemberAt(v, i)] + MembersFrom(v, i + 1)
    ensures i + 1 == v.Children() ==> MembersFrom(v, i) == [MemberAt(v, i)]
  {
  }

  lemma {:induction false} ReadsBody(v: Json, i: nat, rest: string)
    requires WellFormed(v) && i < v.Children()
    ensures ReadBody(Body(v, i) + ([Closing(v.Obj?)] + rest), v.Obj?) == Got(MembersFrom(v, i), rest)
    decreases v, 0, v.Children() - i
  {
    var end := [Closing(v.Obj?)] + rest;
    ChildWellFormed(v, i);
    MembersStep(v, i);
    if i + 1 == v.Children() {
      SeparatorsEndAtoms(v.Obj?, rest);
      ReadsValue(Child(v, i), end);
      ReadsLast(v, i, end, rest);
    } else {
      var tail := Body(v, i + 1) + end;
      SeparatorsEndAtoms(v.Obj?, tail);
      ReadsValue(Child(v, i), ", " + tail);
      ReadsBody(v, i + 1, rest);
      ReadsNext(v, i, end, tail);
    }
  }

  lemma ReadsLast(v: Json, i: nat, end: string, rest: string)
    requires i + 1 == v.Children() && end == [Closing(v.Obj?)] + rest
    requires ReadValue(Dumps(Child(v, i)) + end) == Got(Child(v, i), end)
    ensures ReadBody(Body(v, i) + end, v.Obj?) == Got([MemberAt(v, i)], rest)
  {
    var fromChild := Dumps(Child(v, i)) + end;
    SplitBody(v, i, end);
    assert Comma(v, i) + (Body(v, i + 1) + end) == end;
    ReadsName(v, i, fromChild);
    LastChild(Name(v, i) + fromChild, v.Obj?, MemberAt(v, i), fromChild, rest);
  }

  lemma ReadsNext(v: Json, i: nat, end: string, tail: string)
    requires i + 1 < v.Children() && tail == Body(v, i + 1) + end
    requires ReadValue(Dumps(Child(v, i)) + (", " + tail)) == Got(Child(v, i), ", " + tail)
    ensures var more := ReadBody(tail, v.Obj?);
      ReadBody(Body(v, i) + end, v.Obj?) == if more.Fail? then Fail else Got([MemberAt(v, i)] + more.value, more.rest)
  {
    var fromChild := Dumps(Child(v, i)) + (", " + tail);
    SplitBody(v, i, end);
    ReadsName(v, i, fromChild);
    NextChild(Name(v, i) + fromChild, v.Obj?, MemberAt(v, i), fromChild, tail);
  }

  lemma LastChild(text: string, isObject: bool, m: Member, fromChild: string, rest: string)
    requires ReadName(text, isObject) == Got(m.name, fromChild)
    requires ReadValue(fromChild) == Got(m.value, [Closing(isObject)] + rest)
    ensures ReadBody(text, isObject) == Got([m], rest)
  {
    assert ([Closing(isObject)] + rest)[1..] == rest;
  }

  lemma NextChild(text: string, isObject: bool, m: Member, fromChild: string, tail: string)
    requires ReadName(text, isObject) == Got(m.name, fromChild)
    requires ReadValue(fromChild) == Got(m.value, ", " + tail)
    ensures var more := ReadBody(tail, isObject);
      ReadBody(text, isObject) == if more.Fail? then Fail else Got([m] + more.value, more.rest)
  {
    var after := ", " + tail;
    assert after[0] == ',' && after[..2] == ", " && after[2..] == tail;
  }

  /** Main result: printing loses nothing. */
  lemma LoadsReadsDumps(v: Json)
    requires WellFormed(v)
    ensures Loads(Dumps(v)) == Some(v)
  {
    ReadsValue(v, "");
    assert Dumps(v) + "" == Dumps(v);
  }

  /** Two values with the same text are equal. */
  lemma DumpsIsInjective(a: Json, b: Json)
    requires WellFormed(a) && WellFormed(b) && Dumps(a) == Dumps(b)
    ensures a == b
  {
    LoadsReadsDumps(a);
    LoadsReadsDumps(b);
  }

  // ---------------------------------------------------------------------------------------------
  // A value never prints longer than the text it was read from
  // ---------------------------------------------------------------------------------------------

  lemma EscapeIsShort(text: string)
    requires ReadEscape(text).Got?
    ensures |Escape(ReadEscape(text).value)| + |ReadEscape(text).rest| <= |text|
  {
  }

  lemma {:induction false} StringIsShort(text: string)
    requires ReadString(text).Got?
    ensures |EscapeAll(ReadString(text).value)| + 1 + |ReadString(text).rest| <= |text|
    decreases |text|
  {
    if text[0] != '"' {
      var c := if text[0] == '\\' then ReadEscape(text) else Got(text[0], text[1..]);
      if text[0] == '\\' {
        EscapeIsShort(text);
      }
      StringIsShort(c.rest);
      var tail := ReadString(c.rest).value;
      assert ([c.value] + tail)[1..] == tail;
    }
  }

  /** The printed length of children, without the brackets. */
  ghost function BodyLength(members: seq<Member>, isObject: bool): nat {
    if members == [] then 0
    else
      (if isObject then |Quote(members[0].name)| + 2 else 0) + |Dumps(members[0].value)|
      + (if |members| == 1 then 0 else 2) + BodyLength(members[1..], isObject)
  }

  lemma {:induction false} BodyHasLength(v: Json, i: nat)
    requires i <= v.Children()
    ensures |Body(v, i)| == BodyLength(MembersFrom(v, i), v.Obj?)
    decreases v.Children() - i
  {
    if i < v.Children() {
      BodyHasLength(v, i + 1);
      assert MembersFrom(v, i)[1..] == MembersFrom(v, i + 1);
    }
  }

  lemma {:induction false} NamesOfItems(a: seq<Member>, b: seq<Member>)
    requires |a| == |b| && forall i | 0 <= i < |a| :: a[i].value == b[i].value
    ensures BodyLength(a, false) == BodyLength(b, false)
  {
    if a != [] {
      NamesOfItems(a[1..], b[1..]);
    }
  }

  lemma ContainerLength(members: seq<Member>, isObject: bool)
    ensures |Dumps(Container(members, isObject))| == 2 + BodyLength(members, isObject)
  {
    var v := Container(members, isObject);
    BodyHasLength(v, 0);
    if isObject {
      MembersRebuild(v);
    } else {
      NamesOfItems(members, MembersFrom(v, 0));
    }
  }

  lemma NameIsShort(text: string, isObject: bool)
    requires ReadName(text, isObject).Got?
    ensures var r := ReadName(text, isObject);
      (if isObject then |Quote(r.value)| + 2 else 0) + |r.rest| <= |text|
  {
    if isObject {
      StringIsShort(text[1..]);
    }
  }

  /** What was read prints at most as long as what it was read from. */
  lemma {:induction false} ValueIsShort(text: string)
    requires ReadValue(text).Got?
    ensures |Dumps(ReadValue(text).value)| + |ReadValue(text).rest| <= |text|
    decreases |text|, 1
  {
    if text[0] == '"' {
      StringIsShort(text[1..]);
    } else if text[0] == '[' || text[0] == '{' {
      var isObject := text[0] == '{';
      if |text| > 1 && text[1] == Closing(isObject) {
        ContainerLength([], isObject);
      } else {
        BodyIsShort(text[1..], isObject);
        ContainerLength(ReadBody(text[1..], isObject).value, isObject);
      }
    }
  }

  lemma {:induction false} BodyIsShort(text: string, isObject: bool)
    requires ReadBody(text, isObject).Got?
    ensures BodyLength(ReadBody(text, isObject).value, isObject) + 1 + |ReadBody(text, isObject).rest| <= |text|
    decreases |text|, 2
  {
    var name := ReadName(text, isObject);
    var child := ReadValue(name.rest);
    NameIsShort(text, isObject);
    ValueIsShort(name.rest);
    var m := Member(name.value, child.value);
    if child.rest[0] == Closing(isObject) {
      OneMore(m, [], isObject);
    } else {
      BodyIsShort(child.rest[2..], isObject);
      OneMore(m, ReadBody(child.rest[2..], isObject).value, isObject);
    }
  }

  lemma OneMore(m: Member, more: seq<Member>, isObject: bool)
    ensures BodyLength([m] + more, isObject) ==
      (if isObject then |Quote(m.name)| + 2 else 0) + |Dumps(m.value)| + (if more == [] then 0 else 2) + BodyLength(more, isObject)
  {
    assert ([m] + more)[1..] == more;
  }
}

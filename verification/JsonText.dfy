/**
 JSON text as `json.dumps(..., ensure_ascii=False)` prints it, and the brace-and-string automaton of
 `_first_json_object` that has to find it again inside prose. A character is a Unicode scalar value.
 */
module JsonText {
  import opened Wrappers

  /** A JSON value; `Atom` is a number, `true`, `false` or `null`, as printed. Members keep their order. */
  datatype Json =
    | Atom(lexeme: string)
    | Str(chars: string)
    | Arr(items: seq<Json>)
    | Obj(members: seq<Member>)
  {
    function Children(): nat {
      if Arr? then |items| else if Obj? then |members| else 0
    }
  }

  datatype Member = Member(name: string, value: Json)

  /** Letters, digits, signs and the decimal point: what `json.dumps` prints outside strings and brackets. */
  predicate IsAtomChar(c: char) {
    'a' <= c <= 'z' || 'A' <= c <= 'Z' || '0' <= c <= '9' || c == '+' || c == '-' || c == '.'
  }

  /** Atoms look like atoms. */
  ghost predicate WellFormed(v: Json) {
    match v
    case Atom(lexeme) => lexeme != "" && forall i | 0 <= i < |lexeme| :: IsAtomChar(lexeme[i])
    case Str(_) => true
    case Arr(items) => forall i | 0 <= i < |items| :: WellFormed(items[i])
    case Obj(members) => forall i | 0 <= i < |members| :: WellFormed(members[i].value)
  }

  /** What `json.dumps` prints for constants and numbers is well formed. */
  lemma UsualAtoms()
    ensures WellFormed(Atom("true")) && WellFormed(Atom("false")) && WellFormed(Atom("null"))
    ensures WellFormed(Atom("-0123456789.5e+7")) && WellFormed(Atom("NaN")) && WellFormed(Atom("Infinity"))
    ensures WellFormed(Atom("azAZ09"))
  {
  }

  // ---------------------------------------------------------------------------------------------
  // The printer
  // ---------------------------------------------------------------------------------------------

  const HEX_DIGITS := "0123456789abcdef"

  function Escape(c: char): string {
    if c == '"' then "\\\""
    else if c == '\\' then "\\\\"
    else if c == '\n' then "\\n"
    else if c == '\r' then "\\r"
    else if c == '\t' then "\\t"
    else if c == '\U{08}' then "\\b"
    else if c == '\U{0C}' then "\\f"
    else if c < '\U{20}' then "\\u00" + [HEX_DIGITS[(c as int) / 16], HEX_DIGITS[(c as int) % 16]]
    else [c]
  }

  function EscapeAll(s: string): string {
    if s == "" then "" else Escape(s[0]) + EscapeAll(s[1..])
  }

  function Quote(s: string): string {
    "\"" + EscapeAll(s) + "\""
  }

  /** `json.dumps(v, ensure_ascii=False)` with the default separators. */
  function Dumps(v: Json): string
    decreases v, 1, 0
  {
    match v
    case Atom(lexeme) => lexeme
    case Str(chars) => Quote(chars)
    case Arr(_) => "[" + Body(v, 0) + "]"
    case Obj(_) => "{" + Body(v, 0) + "}"
  }

  /** Children `i` and later, separated by commas. */
  function Body(v: Json, i: nat): string
    requires i <= v.Children()
    decreases v, 0, v.Children() - i
  {
    if i == v.Children() then ""
    else Name(v, i) + Dumps(Child(v, i)) + Comma(v, i) + Body(v, i + 1)
  }

  function Comma(v: Json, i: nat): string {
    if i + 1 == v.Children() then "" else ", "
  }

  function Child(v: Json, i: nat): (c: Json)
    requires i < v.Children()
    ensures c < v
  {
    if v.Arr? then v.items[i] else v.members[i].value
  }

  /** The member name in front of child `i` of an object. */
  function Name(v: Json, i: nat): string
    requires i < v.Children()
  {
    if v.Obj? then Quote(v.members[i].name) + ": " else ""
  }

  // ---------------------------------------------------------------------------------------------
  // The scanner
  // ---------------------------------------------------------------------------------------------

  /** The three loop variables; `Closed` once the depth has come back to zero. */
  datatype Scan = Open(depth: int, inStr: bool, escaped: bool) | Closed

  function Next(s: Scan, ch: char): Scan {
    match s
    case Closed => Closed
    case Open(depth, true, true) => Open(depth, true, false)
    case Open(depth, true, false) => Open(depth, ch != '"', ch == '\\')
    case Open(depth, false, escaped) =>
      if ch == '"' then Open(depth, true, escaped)
      else if ch == '{' then Open(depth + 1, false, escaped)
      else if ch == '}' then (if depth == 1 then Closed else Open(depth - 1, false, escaped))
      else s
  }

  ghost function Eat(text: string, s: Scan): Scan {
    if text == "" then s else Eat(text[1..], Next(s, text[0]))
  }

  /** The index after the character that closes the scan. */
  function CloseAt(text: string, i: nat, s: Scan): Option<nat>
    requires i <= |text|
    decreases |text| - i
  {
    if i == |text| then None
    else if Next(s, text[i]).Closed? then Some(i + 1)
    else CloseAt(text, i + 1, Next(s, text[i]))
  }

  /** The first index of `c`, or the length of the text. */
  function IndexOf(text: string, c: char): (i: nat)
    ensures i <= |text| && c !in text[..i]
    ensures i < |text| ==> text[i] == c
  {
    if text == "" || text[0] == c then 0
    else
      var i := 1 + IndexOf(text[1..], c);
      assert text[..i] == [text[0]] + text[1..][..i - 1];
      i
  }

  const START := Open(0, false, false)

  /** The text from the first `{` to where the scan closes. */
  function FirstObject(text: string): Option<string> {
    var start := IndexOf(text, '{');
    var end := CloseAt(text, start, START);
    if end.Some? && start <= end.value <= |text| then Some(text[start..end.value]) else None
  }

  /** The scan from the first `{` closes with the last character before `end`, and not earlier. */
  ghost predicate IsFirstObject(text: string, start: nat, end: nat) {
    start < end <= |text| && Eat(text[start..end], START).Closed? && Eat(text[start..end - 1], START).Open?
  }

  lemma {:induction false} CloseAtIs(text: string, i: nat, s: Scan)
    requires i <= |text| && s.Open?
    ensures CloseAt(text, i, s).None? <==> Eat(text[i..], s).Open?
    ensures CloseAt(text, i, s).Some? ==>
      var end := CloseAt(text, i, s).value;
      i < end <= |text| && Eat(text[i..end], s).Closed? && Eat(text[i..end - 1], s).Open?
    decreases |text| - i
  {
    if i < |text| {
      var next := Next(s, text[i]);
      assert text[i..][1..] == text[i + 1..];
      if next.Open? {
        CloseAtIs(text, i + 1, next);
        if CloseAt(text, i + 1, next).Some? {
          var end := CloseAt(text, i + 1, next).value;
          assert text[i..end][1..] == text[i + 1..end] && text[i..end - 1][1..] == text[i + 1..end - 1];
        }
      } else {
        EatClosed(text[i + 1..]);
        assert text[i..i + 1][1..] == "";
      }
    }
  }

  /** A text whose object never closes has none. */
  lemma FirstObjectIs(text: string)
    ensures var start := IndexOf(text, '{');
      && (FirstObject(text).None? <==> Eat(text[start..], START).Open?)
      && (FirstObject(text).Some? ==>
            && IsFirstObject(text, start, start + |FirstObject(text).value|)
            && FirstObject(text).value == text[start..start + |FirstObject(text).value|])
  {
    CloseAtIs(text, IndexOf(text, '{'), START);
  }

  /** `_first_json_object`. */
  method FirstJsonObject(text: string) returns (r: Option<string>)
    ensures r == FirstObject(text)
    ensures var start := IndexOf(text, '{');
      && (r.None? <==> Eat(text[start..], START).Open?)
      && (r.Some? ==> IsFirstObject(text, start, start + |r.value|) && r.value == text[start..start + |r.value|])
  {
    FirstObjectIs(text);
    var start := IndexOf(text, '{');
    if start == |text| {
      return None;
    }
    var depth, inStr, escaped := 0, false, false;
    for i := start to |text|
      invariant inStr || !escaped
      invariant CloseAt(text, start, START) == CloseAt(text, i, Open(depth, inStr, escaped))
    {
      var ch := text[i];
      if inStr {
        if escaped {
          escaped := false;
        } else if ch == '\\' {
          escaped := true;
        } else if ch == '"' {
          inStr := false;
        }
        continue;
      }
      if ch == '"' {
        inStr := true;
      } else if ch == '{' {
        depth := depth + 1;
      } else if ch == '}' {
        depth := depth - 1;
        if depth == 0 {
          return Some(text[start..i + 1]);
        }
      }
    }
    return None;
  }

  lemma {:induction false} EatAppend(a: string, b: string, s: Scan)
    ensures Eat(a + b, s) == Eat(b, Eat(a, s))
  {
    if a == "" {
      assert a + b == b;
    } else {
      assert (a + b)[1..] == a[1..] + b;
      EatAppend(a[1..], b, Next(s, a[0]));
    }
  }

  lemma {:induction false} EatClosed(text: string)
    ensures Eat(text, Closed) == Closed
  {
    if text != "" {
      EatClosed(text[1..]);
    }
  }

  /** A part that does not close the scan can be skipped. */
  lemma {:induction false} SkipOpen(text: string, i: nat, j: nat, s: Scan)
    requires i <= j <= |text| && Eat(text[i..j], s).Open?
    ensures CloseAt(text, i, s) == CloseAt(text, j, Eat(text[i..j], s))
    decreases j - i
  {
    if i < j {
      assert text[i..j][1..] == text[i + 1..j];
      if Next(s, text[i]).Closed? {
        EatClosed(text[i + 1..j]);
      }
      SkipOpen(text, i + 1, j, Next(s, text[i]));
    }
  }

  // ---------------------------------------------------------------------------------------------
  // Printed values pass through the scanner unchanged
  // ---------------------------------------------------------------------------------------------

  lemma EatOne(c: char, s: Scan)
    ensures Eat([c], s) == Next(s, c)
  {
    assert [c][1..] == "";
  }

  /** Characters that are ordinary where the scan stands: in a string, or outside. */
  lemma {:induction false} EatPlain(text: string, depth: int, inStr: bool)
    requires forall i | 0 <= i < |text| :: if inStr then text[i] !in "\"\\" else text[i] !in "\"{}"
    ensures Eat(text, Open(depth, inStr, false)) == Open(depth, inStr, false)
  {
    if text != "" {
      EatPlain(text[1..], depth, inStr);
    }
  }

  /** An escaped character is itself, or a backslash, one more character and plain ones. */
  lemma EscapeShape(c: char)
    ensures var e := Escape(c);
      || (e == [c] && c >= '\U{20}' && c != '"' && c != '\\')
      || (|e| >= 2 && e[0] == '\\' && forall i | 2 <= i < |e| :: IsAtomChar(e[i]))
  {
  }

  lemma EatSequence(e: string, depth: int)
    requires |e| >= 2 && e[0] == '\\' && forall i | 2 <= i < |e| :: IsAtomChar(e[i])
    ensures Eat(e, Open(depth, true, false)) == Open(depth, true, false)
  {
    var s := Open(depth, true, false);
    EatOne(e[0], s);
    EatOne(e[1], Open(depth, true, true));
    EatPlain(e[2..], depth, true);
    EatAppend([e[0]], [e[1]], s);
    EatAppend([e[0]] + [e[1]], e[2..], s);
    assert e == [e[0]] + [e[1]] + e[2..];
  }

  lemma EatEscape(c: char, depth: int)
    ensures Eat(Escape(c), Open(depth, true, false)) == Open(depth, true, false)
  {
    EscapeShape(c);
    if |Escape(c)| == 1 {
      EatPlain(Escape(c), depth, true);
    } else {
      EatSequence(Escape(c), depth);
    }
  }

  lemma {:induction false} EatEscapeAll(s: string, depth: int)
    ensures Eat(EscapeAll(s), Open(depth, true, false)) == Open(depth, true, false)
  {
    if s != "" {
      EatEscape(s[0], depth);
      EatEscapeAll(s[1..], depth);
      EatAppend(Escape(s[0]), EscapeAll(s[1..]), Open(depth, true, false));
    }
  }

  lemma EatQuote(s: string, depth: int)
    ensures Eat(Quote(s), Open(depth, false, false)) == Open(depth, false, false)
  {
    var q, o := "\"", Open(depth, false, false);
    EatOne('"', o);
    EatEscapeAll(s, depth);
    EatAppend(q, EscapeAll(s), o);
    EatOne('"', Open(depth, true, false));
    EatAppend(q + EscapeAll(s), q, o);
  }

  lemma KeepsAppend(a: string, b: string, s: Scan)
    requires Eat(a, s) == s && Eat(b, s) == s
    ensures Eat(a + b, s) == s
  {
    EatAppend(a, b, s);
  }

  lemma KeepsFour(a: string, b: string, c: string, d: string, whole: string, s: Scan)
    requires Eat(a, s) == s && Eat(b, s) == s && Eat(c, s) == s && Eat(d, s) == s && whole == a + b + c + d
    ensures Eat(whole, s) == s
  {
    KeepsAppend(a, b, s);
    KeepsAppend(a + b, c, s);
    KeepsAppend(a + b + c, d, s);
  }

  /** Inside an object, a printed value leaves depth and string state as they were. */
  lemma {:induction false} EatDumps(v: Json, depth: int)
    requires WellFormed(v) && depth >= 1
    ensures Eat(Dumps(v), Open(depth, false, false)) == Open(depth, false, false)
    decreases v, 1, 0
  {
    match v
    case Atom(lexeme) => EatPlain(lexeme, depth, false);
    case Str(chars) => EatQuote(chars, depth);
    case Arr(_) =>
      EatBody(v, 0, depth);
      Enclose("[", Body(v, 0), "]", depth, depth);
    case Obj(_) =>
      EatBody(v, 0, depth + 1);
      Enclose("{", Body(v, 0), "}", depth, depth + 1);
  }

  lemma Enclose(left: string, body: string, right: string, outer: int, inner: int)
    requires (left == "[" && right == "]" && inner == outer) || (left == "{" && right == "}" && inner == outer + 1)
    requires Eat(body, Open(inner, false, false)) == Open(inner, false, false)
    ensures Eat(left + body, Open(outer, false, false)) == Open(inner, false, false)
    ensures Eat(left + body + right, Open(outer, false, false)) == Next(Open(inner, false, false), right[0])
  {
    EatOne(left[0], Open(outer, false, false));
    assert left == [left[0]] && right == [right[0]];
    EatAppend(left, body, Open(outer, false, false));
    EatOne(right[0], Open(inner, false, false));
    EatAppend(left + body, right, Open(outer, false, false));
  }

  lemma {:induction false} EatBody(v: Json, i: nat, depth: int)
    requires WellFormed(v) && i <= v.Children() && depth >= 1
    ensures Eat(Body(v, i), Open(depth, false, false)) == Open(depth, false, false)
    decreases v, 0, v.Children() - i
  {
    if i < v.Children() {
      EatDumps(Child(v, i), depth);
      EatBody(v, i + 1, depth);
      EatChild(v, i, depth);
    }
  }

  /** One child with its name and comma, once the value and what follows are known to be eaten. */
  lemma EatChild(v: Json, i: nat, depth: int)
    requires i < v.Children()
    requires Eat(Dumps(Child(v, i)), Open(depth, false, false)) == Open(depth, false, false)
    requires Eat(Body(v, i + 1), Open(depth, false, false)) == Open(depth, false, false)
    ensures Eat(Body(v, i), Open(depth, false, false)) == Open(depth, false, false)
  {
    EatName(v, i, depth);
    EatComma(v, i, depth);
    KeepsFour(Name(v, i), Dumps(Child(v, i)), Comma(v, i), Body(v, i + 1), Body(v, i), Open(depth, false, false));
  }

  lemma EatComma(v: Json, i: nat, depth: int)
    ensures Eat(Comma(v, i), Open(depth, false, false)) == Open(depth, false, false)
  {
    EatPlain(Comma(v, i), depth, false);
  }

  lemma EatName(v: Json, i: nat, depth: int)
    requires i < v.Children()
    ensures Eat(Name(v, i), Open(depth, false, false)) == Open(depth, false, false)
  {
    if v.Obj? {
      EatQuote(v.members[i].name, depth);
      EatPlain(": ", depth, false);
      KeepsAppend(Quote(v.members[i].name), ": ", Open(depth, false, false));
    }
  }

  /**
   Main result: whatever object was printed, and whatever surrounds it, as long as no brace comes
   first, the scanner returns exactly the printed text.
   */
  lemma FirstObjectFindsDumps(prefix: string, v: Json, suffix: string)
    requires WellFormed(v) && v.Obj? && '{' !in prefix
    ensures FirstObject(prefix + Dumps(v) + suffix) == Some(Dumps(v))
  {
    var body := "{" + Body(v, 0);
    EatBody(v, 0, 1);
    Enclose("{", Body(v, 0), "}", 0, 1);
    FindsClosed(prefix, body, suffix);
  }

  /** A text that stays open until its closing brace is found behind a prefix without a brace. */
  lemma FindsClosed(prefix: string, body: string, suffix: string)
    requires '{' !in prefix && body != "" && body[0] == '{' && Eat(body, START) == Open(1, false, false)
    ensures FirstObject(prefix + (body + "}") + suffix) == Some(body + "}")
  {
    var d := body + "}";
    var text := prefix + d + suffix;
    var start, last := |prefix|, |prefix| + |body|;
    assert text[start..last] == body && text[start] == '{' && text[last] == '}';
    assert IndexOf(text, '{') == start;
    SkipOpen(text, start, last, START);
    assert text[start..last + 1] == d;
  }
}

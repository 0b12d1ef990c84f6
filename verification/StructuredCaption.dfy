/**
 Recovering a caption object from a model response: tag, code fences, then the first balanced object
 (`parse_structured_caption`), proved to undo `caption_json_to_prompt`.
 */
module StructuredCaption {
  import JsonReader
  import opened JsonText
  import opened Strings
  import opened Wrappers

  /** `str.isspace`, which is also what `\s` matches. */
  predicate IsSpace(c: char) {
    || '\U{09}' <= c <= '\U{0D}' || '\U{1C}' <= c <= '\U{20}' || c == '\U{85}' || c == '\U{A0}' || c == '\U{1680}'
    || '\U{2000}' <= c <= '\U{200A}' || c == '\U{2028}' || c == '\U{2029}' || c == '\U{202F}' || c == '\U{205F}'
    || c == '\U{3000}'
  }

  function TrimLeft(s: string): string {
    if s != "" && IsSpace(s[0]) then TrimLeft(s[1..]) else s
  }

  function TrimRight(s: string): string {
    if s != "" && IsSpace(s[|s| - 1]) then TrimRight(s[..|s| - 1]) else s
  }

  function Strip(s: string): string {
    TrimRight(TrimLeft(s))
  }

  /** The blanks by their code points. */
  lemma SpacesAre(c: char)
    ensures IsSpace(c) <==>
      var n := c as int;
      || 9 <= n <= 13 || 28 <= n <= 32 || n == 133 || n == 160 || n == 5760 || 8192 <= n <= 8202 || n == 8232 || n == 8233
      || n == 8239 || n == 8287 || n == 12288
  {
  }

  ghost predicate Blank(s: string) {
    forall i | 0 <= i < |s| :: IsSpace(s[i])
  }

  /** Stripping takes all blanks from both ends and nothing else. */
  ghost predicate IsStripped(s: string, inner: string) {
    exists a: nat, b: nat :: CutAt(s, inner, a, b)
  }

  ghost predicate CutAt(s: string, inner: string, a: nat, b: nat) {
    && a <= b <= |s| && inner == s[a..b] && Blank(s[..a]) && Blank(s[b..])
    && (inner != "" ==> !IsSpace(inner[0]) && !IsSpace(inner[|inner| - 1]))
  }

  lemma {:induction false} TrimLeftIs(s: string) returns (a: nat)
    ensures a <= |s| && TrimLeft(s) == s[a..] && Blank(s[..a])
    ensures TrimLeft(s) != "" ==> !IsSpace(TrimLeft(s)[0])
  {
    if s != "" && IsSpace(s[0]) {
      var k := TrimLeftIs(s[1..]);
      a := k + 1;
      assert forall i | 0 < i < a :: s[..a][i] == s[1..][..k][i - 1];
    } else {
      a := 0;
    }
  }

  lemma {:induction false} TrimRightIs(s: string) returns (b: nat)
    ensures b <= |s| && TrimRight(s) == s[..b] && Blank(s[b..])
    ensures TrimRight(s) != "" ==> !IsSpace(TrimRight(s)[|TrimRight(s)| - 1])
  {
    if s != "" && IsSpace(s[|s| - 1]) {
      var n := |s| - 1;
      b := TrimRightIs(s[..n]);
      assert forall i | 0 <= i < n - b :: s[b..][i] == s[..n][b..][i];
    } else {
      b := |s|;
    }
  }

  lemma StripIs(s: string)
    ensures IsStripped(s, Strip(s))
  {
    var a := TrimLeftIs(s);
    var k := TrimRightIs(TrimLeft(s));
    var b := a + k;
    assert s[a..][..k] == s[a..b] && s[a..][k..] == s[b..];
    if k > 0 {
      assert TrimLeft(s)[..k][0] == TrimLeft(s)[0];
    }
    assert CutAt(s, Strip(s), a, b);
  }

  predicate EndsWith(s: string, t: string) {
    |t| <= |s| && s[|s| - |t|..] == t
  }

  function DropPrefix(s: string, t: string): string {
    if t <= s then s[|t|..] else s
  }

  function DropSuffix(s: string, t: string): string {
    if EndsWith(s, t) then s[..|s| - |t|] else s
  }

  const FENCE := "```"

  /** A leading fence with its language, and the blanks after it. */
  function DropOpeningFence(s: string): string {
    TrimLeft(DropPrefix(DropPrefix(s, FENCE), "json"))
  }

  /** A trailing fence with the line break before it. The text has no trailing blanks here. */
  function DropClosingFence(s: string): string {
    if EndsWith(s, FENCE) then DropSuffix(DropSuffix(s, FENCE), "\n") else s
  }

  /** `_strip_code_fences`. */
  function StripCodeFences(text: string): string {
    var cleaned := Strip(text);
    if FENCE <= cleaned then Strip(DropClosingFence(DropOpeningFence(cleaned))) else Strip(cleaned)
  }

  const OPEN_TAG := "<scene_draft>"
  const CLOSE_TAG := "</scene_draft>"

  /** `extract_xml_tag(text, "scene_draft")`. */
  function ExtractTag(text: string): Option<string> {
    var open := Find(text, OPEN_TAG);
    if open.None? then None
    else
      FindIsFirst(text, OPEN_TAG);
      var inner := text[open.value + |OPEN_TAG|..];
      var close := Find(inner, CLOSE_TAG);
      if close.None? then None
      else
        FindIsFirst(inner, CLOSE_TAG);
        Some(Strip(inner[..close.value]))
  }

  /** `json.loads` of a candidate, kept only if it is an object. An empty candidate is skipped. */
  function LoadObject(loads: string -> Option<Json>, blob: Option<string>): Option<Json> {
    if blob.None? || blob.value == "" then None
    else
      var parsed := loads(blob.value);
      if parsed.Some? && parsed.value.Obj? then parsed else None
  }

  /** A candidate gives a value only if it is not empty, the reader takes it, and it is an object. */
  lemma LoadObjectIff(loads: string -> Option<Json>, blob: string, v: Json)
    ensures LoadObject(loads, Some(blob)) == Some(v) <==> blob != "" && loads(blob) == Some(v) && v.Obj?
    ensures LoadObject(loads, None) == None
  {
  }

  /** What one candidate yields: itself without fences, else its first balanced object. */
  function FromCandidate(loads: string -> Option<Json>, candidate: string): Option<Json> {
    var cleaned := StripCodeFences(candidate);
    var whole := LoadObject(loads, Some(cleaned));
    if whole.Some? then whole else LoadObject(loads, FirstObject(cleaned))
  }

  /** What the tagged block yields, if there is one. */
  function FromTag(loads: string -> Option<Json>, text: string): Option<Json> {
    var tagged := ExtractTag(text);
    if tagged.None? then None else FromCandidate(loads, tagged.value)
  }

  /** `parse_structured_caption`. */
  function ParseStructuredCaption(loads: string -> Option<Json>, text: string): Option<Json> {
    var tagged := FromTag(loads, text);
    if tagged.Some? then tagged else FromCandidate(loads, text)
  }

  /** `caption_json_to_prompt`. */
  function CaptionJsonToPrompt(caption: Json): string {
    Dumps(caption)
  }

  // ---------------------------------------------------------------------------------------------
  // Stripping blanks and fences never reaches into the object
  // ---------------------------------------------------------------------------------------------

  /** `text` is `prefix + middle + suffix` with no brace in the prefix. */
  ghost predicate Around(text: string, prefix: string, middle: string, suffix: string) {
    text == prefix + middle + suffix && '{' !in prefix && IsObjectText(middle)
  }

  predicate IsObjectText(d: string) { |d| >= 2 && d[0] == '{' && d[|d| - 1] == '}' }

  lemma {:induction false} TrimLeftAround(text: string, prefix: string, middle: string, suffix: string)
    requires Around(text, prefix, middle, suffix)
    ensures TrimLeft(text) == TrimLeft(prefix) + middle + suffix
    ensures Around(TrimLeft(text), TrimLeft(prefix), middle, suffix)
    decreases |prefix|
  {
    if prefix != "" && IsSpace(prefix[0]) {
      assert text[1..] == prefix[1..] + middle + suffix;
      TrimLeftAround(text[1..], prefix[1..], middle, suffix);
    } else if prefix == "" {
      assert text[0] == middle[0];
    }
  }

  lemma {:induction false} TrimRightAround(text: string, prefix: string, middle: string, suffix: string)
    requires Around(text, prefix, middle, suffix)
    ensures TrimRight(text) == prefix + middle + TrimRight(suffix)
    ensures Around(TrimRight(text), prefix, middle, TrimRight(suffix))
    decreases |suffix|
  {
    var n := |suffix|;
    if n > 0 && IsSpace(suffix[n - 1]) {
      assert text[..|text| - 1] == prefix + middle + suffix[..n - 1];
      TrimRightAround(text[..|text| - 1], prefix, middle, suffix[..n - 1]);
    } else if n == 0 {
      assert text[|text| - 1] == middle[|middle| - 1];
    }
  }

  lemma DropPrefixAround(text: string, prefix: string, middle: string, suffix: string, t: string)
    requires Around(text, prefix, middle, suffix) && '{' !in t
    ensures t <= text <==> t <= prefix
    ensures Around(DropPrefix(text, t), DropPrefix(prefix, t), middle, suffix)
  {
    assert text[|prefix|] == '{';
    assert t <= text ==> DropPrefix(text, t) == prefix[|t|..] + middle + suffix;
  }

  lemma DropSuffixAround(text: string, prefix: string, middle: string, suffix: string, t: string)
    requires Around(text, prefix, middle, suffix) && '}' !in t
    ensures EndsWith(text, t) <==> EndsWith(suffix, t)
    ensures Around(DropSuffix(text, t), prefix, middle, DropSuffix(suffix, t))
  {
    var k := |text| - |t|;
    assert text[|text| - |suffix| - 1] == '}';
    assert k >= 0 && |t| <= |suffix| ==> text[k..] == suffix[|suffix| - |t|..];
    assert EndsWith(suffix, t) ==> DropSuffix(text, t) == prefix + middle + suffix[..|suffix| - |t|];
  }

  lemma StripAround(text: string, prefix: string, middle: string, suffix: string)
    requires Around(text, prefix, middle, suffix)
    ensures Around(Strip(text), TrimLeft(prefix), middle, TrimRight(suffix))
  {
    TrimLeftAround(text, prefix, middle, suffix);
    TrimRightAround(TrimLeft(text), TrimLeft(prefix), middle, suffix);
  }

  /** What is left in front of, and behind, the object after the fences are gone. */
  function CleanPrefix(prefix: string): string {
    var p := TrimLeft(prefix);
    TrimLeft(if FENCE <= p then DropOpeningFence(p) else p)
  }

  function CleanSuffix(prefix: string, suffix: string): string {
    var s := TrimRight(suffix);
    TrimRight(if FENCE <= TrimLeft(prefix) then DropClosingFence(s) else s)
  }

  lemma FencesAround(text: string, prefix: string, middle: string, suffix: string)
    requires Around(text, prefix, middle, suffix)
    ensures Around(StripCodeFences(text), CleanPrefix(prefix), middle, CleanSuffix(prefix, suffix))
  {
    var c, p, s := Strip(text), TrimLeft(prefix), TrimRight(suffix);
    StripAround(text, prefix, middle, suffix);
    DropPrefixAround(c, p, middle, s, FENCE);
    if FENCE <= c {
      var c1, p1 := DropPrefix(c, FENCE), DropPrefix(p, FENCE);
      DropPrefixAround(c1, p1, middle, s, "json");
      var c2, p2 := DropPrefix(c1, "json"), DropPrefix(p1, "json");
      TrimLeftAround(c2, p2, middle, s);
      ClosingFenceAround(TrimLeft(c2), TrimLeft(p2), middle, s);
      StripAround(DropClosingFence(TrimLeft(c2)), TrimLeft(p2), middle, DropClosingFence(s));
    } else {
      StripAround(c, p, middle, s);
    }
  }

  lemma ClosingFenceAround(text: string, prefix: string, middle: string, suffix: string)
    requires Around(text, prefix, middle, suffix)
    ensures Around(DropClosingFence(text), prefix, middle, DropClosingFence(suffix))
  {
    DropSuffixAround(text, prefix, middle, suffix, FENCE);
    if EndsWith(text, FENCE) {
      DropSuffixAround(DropSuffix(text, FENCE), prefix, middle, DropSuffix(suffix, FENCE), "\n");
    }
  }

  /** A fence alone is nothing. */
  lemma FenceAlone()
    ensures StripCodeFences("```") == "" && StripCodeFences("```json") == ""
  {
    assert TrimLeft("```") == "```" && TrimRight("```") == "```" && "```"[3..] == "";
    assert TrimLeft("```json") == "```json" && TrimRight("```json") == "```json" && "```json"[3..] == "json" && "json"[4..] == "";
  }

  // ---------------------------------------------------------------------------------------------
  // Printed captions are recovered
  // ---------------------------------------------------------------------------------------------

  /** `loads` reads back what was printed for this caption. */
  ghost predicate Reads(loads: string -> Option<Json>, caption: Json) {
    WellFormed(caption) && caption.Obj? && loads(Dumps(caption)) == Some(caption)
  }

  /**
   A candidate holding a printed caption in prose without braces yields the caption, unless the whole
   candidate happens to be JSON; when only fences and blanks surround it, it yields the caption.
   */
  lemma CandidateRecovers(loads: string -> Option<Json>, prefix: string, caption: Json, suffix: string)
    requires Reads(loads, caption) && '{' !in prefix
    ensures var text := prefix + Dumps(caption) + suffix;
      var whole := LoadObject(loads, Some(StripCodeFences(text)));
      && FromCandidate(loads, text) == (if whole.Some? then whole else Some(caption))
      && (CleanPrefix(prefix) == "" && CleanSuffix(prefix, suffix) == "" ==> FromCandidate(loads, text) == Some(caption))
  {
    var d, text := Dumps(caption), prefix + Dumps(caption) + suffix;
    var p, s := CleanPrefix(prefix), CleanSuffix(prefix, suffix);
    assert Around(text, prefix, d, suffix);
    FencesAround(text, prefix, d, suffix);
    FirstObjectFindsDumps(p, caption, s);
    assert p == "" && s == "" ==> p + d + s == d;
  }

  lemma NoTag(text: string)
    requires !Occurs(text, OPEN_TAG)
    ensures ExtractTag(text) == None
  {
    FindIsFirst(text, OPEN_TAG);
  }

  /** A candidate that is the printed caption and nothing else. */
  lemma BareCandidate(loads: string -> Option<Json>, caption: Json)
    requires Reads(loads, caption)
    ensures FromCandidate(loads, Dumps(caption)) == Some(caption)
  {
    assert "" + Dumps(caption) + "" == Dumps(caption);
    CandidateRecovers(loads, "", caption, "");
  }

  /** A caption in a response without an opening tag. */
  lemma ParseUntagged(loads: string -> Option<Json>, prefix: string, caption: Json, suffix: string)
    requires Reads(loads, caption) && '{' !in prefix
    requires !Occurs(prefix + Dumps(caption) + suffix, OPEN_TAG)
    ensures var text := prefix + Dumps(caption) + suffix;
      var whole := LoadObject(loads, Some(StripCodeFences(text)));
      && (whole.None? || (CleanPrefix(prefix) == "" && CleanSuffix(prefix, suffix) == "") ==>
            ParseStructuredCaption(loads, text) == Some(caption))
  {
    var text := prefix + Dumps(caption) + suffix;
    NoTag(text);
    CandidateRecovers(loads, prefix, caption, suffix);
  }

  /** A caption in the tagged block, itself possibly fenced or inside prose. */
  lemma ParseTagged(loads: string -> Option<Json>, before: string, prefix: string, caption: Json, suffix: string, after: string)
    requires Reads(loads, caption) && '{' !in prefix
    requires !Occurs(before, OPEN_TAG) && !Occurs(prefix + Dumps(caption) + suffix, CLOSE_TAG)
    ensures var inner := prefix + Dumps(caption) + suffix;
      var whole := LoadObject(loads, Some(StripCodeFences(Strip(inner))));
      && (whole.None? || (CleanPrefix(TrimLeft(prefix)) == "" && CleanSuffix(TrimLeft(prefix), TrimRight(suffix)) == "") ==>
            ParseStructuredCaption(loads, before + OPEN_TAG + inner + CLOSE_TAG + after) == Some(caption))
  {
    var d, inner := Dumps(caption), prefix + Dumps(caption) + suffix;
    ExtractWrapped(before, inner, after);
    assert Around(inner, prefix, d, suffix);
    StripAround(inner, prefix, d, suffix);
    CandidateRecovers(loads, TrimLeft(prefix), caption, TrimRight(suffix));
  }

  /** The usual fences leave nothing around the object. */
  lemma UsualFences()
    ensures CleanPrefix("```json\n") == "" && CleanSuffix("```json\n", "\n```\n") == ""
    ensures CleanPrefix("\n```\n") == "" && CleanSuffix("\n```\n", "```") == ""
  {
    JsonFence();
    PlainFence();
  }

  lemma JsonFence()
    ensures CleanPrefix("```json\n") == "" && CleanSuffix("```json\n", "\n```\n") == ""
  {
    assert TrimLeft("```json\n") == "```json\n" && DropPrefix("```json\n", FENCE) == "json\n";
    assert DropPrefix("json\n", "json") == "\n";
    assert TrimRight("\n```\n") == "\n```";
    assert EndsWith("\n```", FENCE) && DropSuffix("\n```", FENCE) == "\n";
    assert DropSuffix("\n", "\n") == "";
  }

  lemma PlainFence()
    ensures CleanPrefix("\n```\n") == "" && CleanSuffix("\n```\n", "```") == ""
  {
    assert "\n```\n"[1..] == "```\n";
    assert TrimLeft("\n```\n") == TrimLeft("```\n") == "```\n" && DropPrefix("```\n", FENCE) == "\n";
    assert DropPrefix("\n", "json") == "\n" && "\n"[1..] == "";
    assert DropOpeningFence("```\n") == TrimLeft("\n") == TrimLeft("") == "";
    assert TrimRight("```") == "```" && DropSuffix("```", FENCE) == "";
  }

  // ---------------------------------------------------------------------------------------------
  // Tags
  // ---------------------------------------------------------------------------------------------

  /** There is an opening tag and, behind it, a closing one. */
  ghost predicate HasBlock(text: string) {
    exists open: nat, close: nat :: BlockAt(text, open, close)
  }

  ghost predicate BlockAt(text: string, open: nat, close: nat) {
    At(text, "<scene_draft>", open) && At(text, "</scene_draft>", close) && open + |"<scene_draft>"| <= close
  }

  lemma AtBehind(text: string, from: nat, t: string, k: nat)
    requires from <= |text|
    ensures At(text[from..], t, k) <==> At(text, t, from + k)
  {
    if from + k + |t| <= |text| {
      assert text[from..][k..k + |t|] == text[from + k..from + k + |t|];
    }
  }

  /** A block is extracted exactly if the text has one; an unclosed tag gives none. */
  lemma ExtractTagIff(text: string)
    ensures ExtractTag(text).Some? <==> HasBlock(text)
  {
    FindIsFirst(text, OPEN_TAG);
    var first := Find(text, OPEN_TAG);
    if first.Some? {
      var from := first.value + |OPEN_TAG|;
      var inner := text[from..];
      FindIsFirst(inner, CLOSE_TAG);
      if Find(inner, CLOSE_TAG).Some? {
        AtBehind(text, from, CLOSE_TAG, Find(inner, CLOSE_TAG).value);
        assert BlockAt(text, first.value, from + Find(inner, CLOSE_TAG).value);
      }
      if open: nat, close: nat :| BlockAt(text, open, close) {
        AtBehind(text, from, CLOSE_TAG, close - from);
      }
    }
  }

  lemma ExtractWrapped(before: string, inner: string, after: string)
    requires !Occurs(before, OPEN_TAG) && !Occurs(inner, CLOSE_TAG)
    ensures ExtractTag(before + OPEN_TAG + inner + CLOSE_TAG + after) == Some(Strip(inner))
  {
    var text, rest := before + OPEN_TAG + inner + CLOSE_TAG + after, inner + CLOSE_TAG + after;
    assert text == before + OPEN_TAG + rest;
    FindAfter(before, OPEN_TAG, rest);
    assert text[|before| + |OPEN_TAG|..] == rest;
    FindAfter(inner, CLOSE_TAG, after);
    assert rest[..|inner|] == inner;
  }

  // ---------------------------------------------------------------------------------------------
  // A tag is printed only if some string of the caption holds it
  // ---------------------------------------------------------------------------------------------

  /** Like the two tags: starts with `<`, and no character is escaped or structural. */
  ghost predicate TagLike(t: string) {
    t != "" && t[0] == '<' && forall i | 0 <= i < |t| :: IsTagChar(t[i])
  }

  predicate IsTagChar(c: char) {
    c == '<' || c == '>' || c == '/' || c == '_' || 'a' <= c <= 'z'
  }

  /** Some string or member name of `v` contains `t`. */
  ghost predicate Mentions(v: Json, t: string) {
    match v
    case Atom(_) => false
    case Str(chars) => Occurs(chars, t)
    case Arr(items) => exists i :: 0 <= i < |items| && Mentions(items[i], t)
    case Obj(members) => exists i :: 0 <= i < |members| && (Occurs(members[i].name, t) || Mentions(members[i].value, t))
  }

  lemma {:induction false} AlignedPrefix(s: string, t: string)
    requires forall i | 0 <= i < |t| :: t[i] > ' ' && t[i] != '\\' && t[i] != '"'
    requires t <= EscapeAll(s)
    ensures t <= s
  {
    if t != "" {
      assert t[0] == EscapeAll(s)[0] == Escape(s[0])[0];
      assert Escape(s[0]) == [s[0]];
      assert EscapeAll(s)[1..] == EscapeAll(s[1..]);
      AlignedPrefix(s[1..], t[1..]);
    }
  }

  lemma EscapeHasNoBracket(c: char, k: nat)
    requires k < |Escape(c)| && Escape(c)[k] == '<'
    ensures c == '<' && k == 0 && Escape(c) == ['<']
  {
  }

  /** Escaping neither creates nor hides a tag. */
  lemma {:induction false} EscapeKeepsOccurrences(s: string, t: string)
    requires TagLike(t)
    ensures Occurs(EscapeAll(s), t) ==> Occurs(s, t)
  {
    if s != "" && Occurs(EscapeAll(s), t) {
      var head, tail := Escape(s[0]), EscapeAll(s[1..]);
      var k: nat :| At(head + tail, t, k);
      assert (head + tail)[k] == t[0];
      if k >= |head| {
        AtAppend(head, tail, t, k);
        EscapeKeepsOccurrences(s[1..], t);
        ShiftOccurs(s, t);
      } else {
        EscapeHasNoBracket(s[0], k);
        AlignedPrefix(s, t);
        assert At(s, t, 0);
      }
    }
  }

  /** A text of characters outside `t` has no occurrence of `t`. */
  lemma NoBracket(s: string, t: string)
    requires TagLike(t) && '<' !in s
    ensures !Occurs(s, t)
  {
    forall k: nat ensures !At(s, t, k) {
      assert k < |s| ==> s[k] in s;
    }
  }

  lemma QuoteOccurs(s: string, t: string)
    requires TagLike(t) && !Occurs(s, t)
    ensures !Occurs(Quote(s), t)
  {
    EscapeKeepsOccurrences(s, t);
    NoBracket("\"", t);
    JoinOccurs("\"", EscapeAll(s), t);
    JoinOccurs("\"" + EscapeAll(s), "\"", t);
  }

  lemma {:induction false} TagNotPrinted(v: Json, t: string)
    requires WellFormed(v) && TagLike(t) && !Mentions(v, t)
    ensures !Occurs(Dumps(v), t)
    decreases v, 1, 0
  {
    match v
    case Atom(lexeme) => NoBracket(lexeme, t);
    case Str(chars) => QuoteOccurs(chars, t);
    case Arr(_) =>
      TagNotInBody(v, 0, t);
      Wrapped("[", Body(v, 0), "]", t);
    case Obj(_) =>
      TagNotInBody(v, 0, t);
      Wrapped("{", Body(v, 0), "}", t);
  }

  lemma Wrapped(left: string, body: string, right: string, t: string)
    requires left in {"[", "{"} && right in {"]", "}"} && TagLike(t) && !Occurs(body, t)
    ensures !Occurs(left + body + right, t)
  {
    NoBracket(left, t);
    NoBracket(right, t);
    JoinOccurs(left, body, t);
    JoinOccurs(left + body, right, t);
  }

  lemma {:induction false} TagNotInBody(v: Json, i: nat, t: string)
    requires WellFormed(v) && TagLike(t) && !Mentions(v, t) && i <= v.Children()
    ensures !Occurs(Body(v, i), t)
    decreases v, 0, v.Children() - i
  {
    if i == v.Children() {
      NoBracket("", t);
    } else {
      TagNotPrinted(Child(v, i), t);
      NameOccurs(v, i, t);
      NoBracket(Comma(v, i), t);
      TagNotInBody(v, i + 1, t);
      JoinChild(Name(v, i), Dumps(Child(v, i)), Comma(v, i), Body(v, i + 1), t);
    }
  }

  /** A child's name, text and comma join without creating a tag. */
  lemma JoinChild(name: string, child: string, comma: string, tail: string, t: string)
    requires TagLike(t) && !Occurs(name, t) && !Occurs(child, t) && !Occurs(comma, t) && !Occurs(tail, t)
    requires name == "" || name[|name| - 1] == ' '
    requires comma == ", " || (comma == "" && tail == "")
    ensures !Occurs(name + child + comma + tail, t)
  {
    JoinOccurs(name, child, t);
    JoinOccurs(name + child, comma, t);
    JoinOccurs(name + child + comma, tail, t);
  }

  lemma NameOccurs(v: Json, i: nat, t: string)
    requires i < v.Children() && TagLike(t) && !Mentions(v, t)
    ensures !Occurs(Name(v, i), t)
    ensures Name(v, i) == "" || Name(v, i)[|Name(v, i)| - 1] == ' '
  {
    if v.Obj? {
      QuoteOccurs(v.members[i].name, t);
      NoBracket(": ", t);
      JoinOccurs(Quote(v.members[i].name), ": ", t);
    } else {
      NoBracket("", t);
    }
  }

  /** Whatever reads the caption back: without an object in a tagged block of the prompt, parsing returns the caption. */
  lemma ParsePrintedBy(loads: string -> Option<Json>, caption: Json)
    requires Reads(loads, caption)
    ensures var text := CaptionJsonToPrompt(caption);
      && (FromTag(loads, text).None? ==> ParseStructuredCaption(loads, text) == Some(caption))
      && (!Mentions(caption, OPEN_TAG) ==> ParseStructuredCaption(loads, text) == Some(caption))
  {
    BareCandidate(loads, caption);
    if !Mentions(caption, OPEN_TAG) {
      NoTagPrinted(caption);
    }
  }

  lemma NoTagPrinted(caption: Json)
    requires WellFormed(caption) && !Mentions(caption, OPEN_TAG)
    ensures ExtractTag(Dumps(caption)) == None
  {
    OpenTagIsTagLike();
    TagNotPrinted(caption, OPEN_TAG);
    NoTag(Dumps(caption));
  }

  lemma OpenTagIsTagLike()
    ensures TagLike(OPEN_TAG)
  {
  }

  /** A caption whose only string holds a tagged block. */
  const SHADOWED := Obj([Member("a", Str(OPEN_TAG + "{}" + CLOSE_TAG))])

  const BEFORE_TAG := "{\"a\": \""

  ghost predicate NeedsNoEscape(s: string) {
    forall i | 0 <= i < |s| :: s[i] > ' ' && s[i] !in "\"\\"
  }

  lemma OneMemberBody(name: string, chars: string)
    ensures Body(Obj([Member(name, Str(chars))]), 0) == Quote(name) + ": " + Quote(chars)
  {
  }

  lemma OneMember(name: string, chars: string)
    requires NeedsNoEscape(name) && NeedsNoEscape(chars)
    ensures Dumps(Obj([Member(name, Str(chars))])) == "{\"" + name + "\": \"" + chars + "\"}"
  {
    PlainIsUnchanged(name);
    PlainIsUnchanged(chars);
    OneMemberBody(name, chars);
    Braced(name, chars);
  }

  lemma Braced(name: string, chars: string)
    ensures "{" + ("\"" + name + "\"" + ": " + ("\"" + chars + "\"")) + "}" == "{\"" + name + "\": \"" + chars + "\"}"
  {
  }

  lemma TagsNeedNoEscape()
    ensures NeedsNoEscape(OPEN_TAG + "{}" + CLOSE_TAG) && NeedsNoEscape("a")
  {
  }

  lemma ShadowedText()
    ensures Dumps(SHADOWED) == BEFORE_TAG + OPEN_TAG + "{}" + CLOSE_TAG + "\"}"
  {
    var inside := OPEN_TAG + "{}" + CLOSE_TAG;
    TagsNeedNoEscape();
    OneMember("a", inside);
    assert "{\"" + "a" + "\": \"" == BEFORE_TAG;
  }

  lemma ShadowedTag()
    ensures ExtractTag(BEFORE_TAG + OPEN_TAG + "{}" + CLOSE_TAG + "\"}") == Some(Strip("{}"))
  {
    forall k: nat ensures !At(BEFORE_TAG, OPEN_TAG, k) && !At("{}", CLOSE_TAG, k) {
    }
    ExtractWrapped(BEFORE_TAG, "{}", "\"}");
  }

  /** The exception is real: this caption parses to the empty object inside its own string. */
  lemma ShadowedCaption(loads: string -> Option<Json>)
    requires loads("{}") == Some(Obj([]))
    ensures WellFormed(SHADOWED) && SHADOWED.Obj?
    ensures ParseStructuredCaption(loads, CaptionJsonToPrompt(SHADOWED)) == Some(Obj([])) != Some(SHADOWED)
  {
    ShadowedText();
    ShadowedTag();
    assert StripCodeFences(Strip("{}")) == "{}";
  }

  lemma {:induction false} PlainIsUnchanged(s: string)
    requires NeedsNoEscape(s)
    ensures EscapeAll(s) == s
  {
    if s != "" {
      PlainIsUnchanged(s[1..]);
    }
  }

  // ---------------------------------------------------------------------------------------------
  // With the reference reader nothing is left to assume
  // ---------------------------------------------------------------------------------------------

  lemma ReferenceReads(caption: Json)
    requires WellFormed(caption) && caption.Obj?
    ensures Reads(JsonReader.Loads, caption)
  {
    JsonReader.LoadsReadsDumps(caption);
  }

  /** A candidate with anything but the caption in it is no JSON object as a whole. */
  lemma WholeIsNoObject(p: string, caption: Json, s: string)
    requires WellFormed(caption) && caption.Obj? && '{' !in p && (p != "" || s != "")
    ensures LoadObject(JsonReader.Loads, Some(p + Dumps(caption) + s)) == None
  {
    if p == "" {
      TrailingTextNoObject(caption, s);
      NoFront(p, Dumps(caption), s);
    } else {
      LeadingTextNoObject(p, Dumps(caption), s);
    }
  }

  lemma NoFront(p: string, d: string, s: string)
    requires p == ""
    ensures p + d + s == d + s
  {
  }

  lemma TrailingTextNoObject(caption: Json, s: string)
    requires WellFormed(caption) && caption.Obj? && s != ""
    ensures LoadObject(JsonReader.Loads, Some(Dumps(caption) + s)) == None
  {
    JsonReader.ReadsContainer(caption, s);
  }

  lemma LeadingTextNoObject(p: string, d: string, s: string)
    requires p != "" && '{' !in p
    ensures LoadObject(JsonReader.Loads, Some(p + d + s)) == None
  {
    assert (p + d + s)[0] == p[0] && p[0] in p;
    NoBraceNoObject(p + d + s);
  }

  lemma NoBraceNoObject(text: string)
    requires text != "" && text[0] != '{'
    ensures LoadObject(JsonReader.Loads, Some(text)) == None
  {
  }

  /** A caption between fences or in prose without braces is always recovered. */
  lemma ReferenceCandidate(prefix: string, caption: Json, suffix: string)
    requires WellFormed(caption) && caption.Obj? && '{' !in prefix
    ensures FromCandidate(JsonReader.Loads, prefix + Dumps(caption) + suffix) == Some(caption)
  {
    var d, text := Dumps(caption), prefix + Dumps(caption) + suffix;
    var p, s := CleanPrefix(prefix), CleanSuffix(prefix, suffix);
    ReferenceReads(caption);
    CandidateRecovers(JsonReader.Loads, prefix, caption, suffix);
    assert Around(text, prefix, d, suffix);
    FencesAround(text, prefix, d, suffix);
    if p != "" || s != "" {
      WholeIsNoObject(p, caption, s);
    }
  }

  /** Main result on responses without the opening tag. */
  lemma RecoverUntagged(prefix: string, caption: Json, suffix: string)
    requires WellFormed(caption) && caption.Obj? && '{' !in prefix
    requires !Occurs(prefix + Dumps(caption) + suffix, OPEN_TAG)
    ensures ParseStructuredCaption(JsonReader.Loads, prefix + Dumps(caption) + suffix) == Some(caption)
  {
    NoTag(prefix + Dumps(caption) + suffix);
    ReferenceCandidate(prefix, caption, suffix);
  }

  /** Main result on responses with a tagged block, itself possibly fenced or with prose around the caption. */
  lemma RecoverTagged(before: string, prefix: string, caption: Json, suffix: string, after: string)
    requires WellFormed(caption) && caption.Obj? && '{' !in prefix
    requires !Occurs(before, OPEN_TAG) && !Occurs(prefix + Dumps(caption) + suffix, CLOSE_TAG)
    ensures var text := before + OPEN_TAG + (prefix + Dumps(caption) + suffix) + CLOSE_TAG + after;
      ParseStructuredCaption(JsonReader.Loads, text) == Some(caption)
  {
    var inner := prefix + Dumps(caption) + suffix;
    ExtractWrapped(before, inner, after);
    assert Around(inner, prefix, Dumps(caption), suffix);
    StripAround(inner, prefix, Dumps(caption), suffix);
    ReferenceCandidate(TrimLeft(prefix), caption, TrimRight(suffix));
  }

  /** The text is a JSON object. */
  predicate IsObject(text: string) {
    JsonReader.Loads(text).Some? && JsonReader.Loads(text).value.Obj?
  }

  /** A block of text is a JSON object once its fences are gone, or its first balanced braces enclose one. */
  predicate HoldsObject(block: string) {
    var cleaned := StripCodeFences(block);
    IsObject(cleaned) || (FirstObject(cleaned).Some? && IsObject(FirstObject(cleaned).value))
  }

  lemma {:induction false} TrimIsShort(s: string)
    ensures |TrimLeft(s)| <= |s| && |TrimRight(s)| <= |s|
    decreases |s|
  {
    if s != "" {
      TrimIsShort(s[1..]);
      TrimIsShort(s[..|s| - 1]);
    }
  }

  lemma StripIsShort(s: string)
    ensures |Strip(s)| <= |s|
  {
    TrimIsShort(s);
    TrimIsShort(TrimLeft(s));
  }

  lemma CleanIsShort(block: string)
    ensures |StripCodeFences(block)| <= |block|
  {
    var cleaned := Strip(block);
    StripIsShort(block);
    StripIsShort(cleaned);
    var body := DropPrefix(DropPrefix(cleaned, FENCE), "json");
    TrimIsShort(body);
    StripIsShort(DropClosingFence(TrimLeft(body)));
  }

  /** What a readable object prints as is no longer than its text. */
  lemma ReadIsShort(text: string)
    ensures IsObject(text) ==> text != "" && |Dumps(JsonReader.Loads(text).value)| <= |text|
  {
    if JsonReader.ReadValue(text).Got? {
      JsonReader.ValueIsShort(text);
    }
  }

  /** A candidate yields something exactly if it holds an object, and that prints no longer than the candidate. */
  lemma CandidateHolds(block: string)
    ensures FromCandidate(JsonReader.Loads, block).Some? <==> HoldsObject(block)
    ensures HoldsObject(block) ==> |Dumps(FromCandidate(JsonReader.Loads, block).value)| <= |block|
  {
    var cleaned := StripCodeFences(block);
    CleanIsShort(block);
    ReadIsShort(cleaned);
    if FirstObject(cleaned).Some? {
      ReadIsShort(FirstObject(cleaned).value);
    }
  }

  lemma TagIsShort(text: string)
    ensures ExtractTag(text).Some? ==> |ExtractTag(text).value| < |text|
  {
    FindIsFirst(text, OPEN_TAG);
    if ExtractTag(text).Some? {
      var inner := text[Find(text, OPEN_TAG).value + |OPEN_TAG|..];
      FindIsFirst(inner, CLOSE_TAG);
      StripIsShort(inner[..Find(inner, CLOSE_TAG).value]);
    }
  }

  /**
   Main result on the round trip: parsing a printed caption gives it back if and only if the prompt has
   no tagged block, or the block in it holds no JSON object.
   */
  lemma ParsePrinted(caption: Json)
    requires WellFormed(caption) && caption.Obj?
    ensures var text := CaptionJsonToPrompt(caption);
      ParseStructuredCaption(JsonReader.Loads, text) == Some(caption)
      <==> ExtractTag(text).None? || !HoldsObject(ExtractTag(text).value)
  {
    var text := Dumps(caption);
    ReferenceReads(caption);
    ParsePrintedBy(JsonReader.Loads, caption);
    TagIsShort(text);
    if ExtractTag(text).Some? {
      CandidateHolds(ExtractTag(text).value);
    }
  }

  /** Captions in which no string has the opening tag come back, and the shadowed one does not. */
  lemma ReferenceRoundTrip(caption: Json)
    requires WellFormed(caption) && caption.Obj?
    ensures !Mentions(caption, OPEN_TAG) ==>
      ParseStructuredCaption(JsonReader.Loads, CaptionJsonToPrompt(caption)) == Some(caption)
    ensures ParseStructuredCaption(JsonReader.Loads, CaptionJsonToPrompt(SHADOWED)) != Some(SHADOWED)
  {
    ReferenceReads(caption);
    ParsePrintedBy(JsonReader.Loads, caption);
    JsonReader.LoadsReadsDumps(Obj([]));
    assert Dumps(Obj([])) == "{}";
    ShadowedCaption(JsonReader.Loads);
  }
}

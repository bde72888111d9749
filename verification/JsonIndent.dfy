/** The JSON pretty-printer: one pass over the bytes with a depth and a string flag. It keeps the
    meaning of every input, and on JSON texts it is the usual recursive printer
    (sections 2 and 7 of RFC 8259). */
module JsonIndent {
  import opened Basics

  predicate Space(c: char) {
    c == ' ' || c == '\t' || c == '\r' || c == '\n'
  }

  predicate Opens(c: char) {
    c == '{' || c == '['
  }

  predicate Shuts(c: char) {
    c == '}' || c == ']'
  }

  /** Inside or outside a string, and whether the next byte is escaped. */
  datatype Mode = Mode(inString: bool, escaped: bool) {
    /** After a byte that is kept. */
    function After(c: char): Mode {
      if inString then Mode(!(c == '"' && !escaped), c == '\\' && !escaped) else Mode(c == '"', false)
    }
  }

  const OUTSIDE := Mode(false, false)

  /** The input without white space outside strings. */
  function Strip(s: string, m: Mode): string {
    if s == "" then ""
    else if !m.inString && Space(s[0]) then Strip(s[1..], m)
    else [s[0]] + Strip(s[1..], m.After(s[0]))
  }

  function Spaces(depth: int): string {
    if depth <= 0 then "" else Spaces(depth - 1) + "  "
  }

  function NewLine(depth: int): string {
    "\n" + Spaces(depth)
  }

  /** What is printed for the stripped text t at this depth. */
  function Pretty(t: string, depth: int, m: Mode): string
    decreases |t|
  {
    if t == "" then ""
    else
      var c := t[0];
      if m.inString then [c] + Pretty(t[1..], depth, m.After(c))
      else if Opens(c) then
        if |t| > 1 && Shuts(t[1]) then [c, t[1]] + Pretty(t[2..], depth, m)
        else [c] + NewLine(depth + 1) + Pretty(t[1..], depth + 1, m)
      else if Shuts(c) then NewLine(depth - 1) + [c] + Pretty(t[1..], depth - 1, m)
      else if c == ',' then [c] + NewLine(depth) + Pretty(t[1..], depth, m)
      else if c == ':' then ": " + Pretty(t[1..], depth, m)
      else [c] + Pretty(t[1..], depth, m.After(c))
  }

  function Indented(raw: string): string {
    Pretty(Strip(raw, OUTSIDE), 0, OUTSIDE)
  }

  // ----- the pass of the source -----

  /** What is still to be printed before byte i. */
  ghost function Left(raw: string, i: nat, depth: int, m: Mode): string
    requires i <= |raw|
  {
    Pretty(Strip(raw[i..], m), depth, m)
  }

  lemma LeftKept(raw: string, i: nat, depth: int, m: Mode)
    requires i < |raw| && (m.escaped ==> m.inString)
    ensures m.inString ==> Left(raw, i, depth, m) == [raw[i]] + Left(raw, i + 1, depth, m.After(raw[i]))
    ensures !m.inString && Space(raw[i]) ==> Left(raw, i, depth, m) == Left(raw, i + 1, depth, m)
    ensures AtomChar(raw[i]) || raw[i] == '"' ==>
      Left(raw, i, depth, m) == [raw[i]] + Left(raw, i + 1, depth, m.After(raw[i]))
  {
    hide NewLine;
    assert raw[i..][1..] == raw[i + 1..];
    if m.inString || !Space(raw[i]) {
      assert ([raw[i]] + Strip(raw[i + 1..], m.After(raw[i])))[1..] == Strip(raw[i + 1..], m.After(raw[i]));
    }
  }

  lemma LeftPunctuation(raw: string, i: nat, depth: int)
    requires i < |raw|
    ensures Shuts(raw[i]) ==>
      Left(raw, i, depth, OUTSIDE) == NewLine(depth - 1) + [raw[i]] + Left(raw, i + 1, depth - 1, OUTSIDE)
    ensures raw[i] == ',' ==>
      Left(raw, i, depth, OUTSIDE) == [raw[i]] + NewLine(depth) + Left(raw, i + 1, depth, OUTSIDE)
    ensures raw[i] == ':' ==> Left(raw, i, depth, OUTSIDE) == ": " + Left(raw, i + 1, depth, OUTSIDE)
  {
    hide NewLine;
    assert raw[i..][1..] == raw[i + 1..];
    assert ([raw[i]] + Strip(raw[i + 1..], OUTSIDE))[1..] == Strip(raw[i + 1..], OUTSIDE);
  }

  /** j is the first byte after i + 1 that is not white space. */
  lemma LeftOpens(raw: string, i: nat, j: nat, depth: int)
    requires i < j <= |raw| && Opens(raw[i])
    requires forall k :: i < k < j ==> Space(raw[k])
    requires j < |raw| ==> !Space(raw[j])
    ensures Left(raw, i, depth, OUTSIDE) ==
            if j < |raw| && Shuts(raw[j]) then [raw[i], raw[j]] + Left(raw, j + 1, depth, OUTSIDE)
            else [raw[i]] + NewLine(depth + 1) + Left(raw, i + 1, depth + 1, OUTSIDE)
  {
    hide NewLine;
    assert raw[i..][1..] == raw[i + 1..];
    StripSkips(raw, i + 1, j);
    var t := Strip(raw[i + 1..], OUTSIDE);
    assert ([raw[i]] + t)[1..] == t;
    if j < |raw| {
      assert ([raw[j]] + Strip(raw[j + 1..], OUTSIDE.After(raw[j])))[1..] == Strip(raw[j + 1..], OUTSIDE.After(raw[j]));
      assert ([raw[i]] + t)[2..] == t[1..];
      assert t[0] == raw[j];
    } else {
      assert raw[j..] == "";
    }
  }

  lemma LeftEnds(raw: string, depth: int, m: Mode)
    ensures Left(raw, 0, 0, OUTSIDE) == Indented(raw)
    ensures Left(raw, |raw|, depth, m) == ""
  {
    assert raw[0..] == raw;
    assert raw[|raw|..] == "";
  }

  /** Nil, here None, when the output is over the limit, and also when nothing is printed. */
  method Indent(raw: string, limit: nat) returns (r: Option<string>)
    ensures r == if |Indented(raw)| > limit || Indented(raw) == "" then None else Some(Indented(raw))
  {
    hide NewLine, Left, Pretty, Strip;
    var out, depth := "", 0;
    var m := OUTSIDE;
    LeftEnds(raw, 0, OUTSIDE);
    var i := 0;
    while i < |raw|
      invariant 0 <= i <= |raw|
      invariant m.escaped ==> m.inString
      invariant Indented(raw) == out + Left(raw, i, depth, m)
      invariant |out| <= limit
    {
      i, out, depth, m := Step(raw, i, out, depth, m);
      if |out| > limit {
        return None;
      }
    }
    LeftEnds(raw, depth, m);
    assert out + "" == out;
    return if out == "" then None else Some(out);
  }

  /** One round of the loop: what is printed plus what is left stays the same text. */
  method Step(raw: string, from: nat, before: string, level: int, mode: Mode)
    returns (i: nat, out: string, depth: int, m: Mode)
    requires from < |raw| && (mode.escaped ==> mode.inString)
    ensures from < i <= |raw| && (m.escaped ==> m.inString)
    ensures out + Left(raw, i, depth, m) == before + Left(raw, from, level, mode)
  {
    hide NewLine, Left, Pretty, Strip;
    var c := raw[from];
    var piece := "";
    i, depth, m := from, level, mode;
    LeftKept(raw, from, level, mode);
    if mode.inString {
      piece := [c];
      m := mode.After(c);
    } else if Space(c) {
    } else if Opens(c) {
      var j := SkipSpace(raw, from + 1);
      LeftOpens(raw, from, j, level);
      if j < |raw| && Shuts(raw[j]) {
        piece := [c, raw[j]];
        i := j;
      } else {
        depth := depth + 1;
        piece := [c] + NewLine(depth);
      }
    } else if Shuts(c) {
      LeftPunctuation(raw, from, level);
      depth := depth - 1;
      piece := NewLine(depth) + [c];
    } else if c == ',' {
      LeftPunctuation(raw, from, level);
      piece := [c] + NewLine(depth);
    } else if c == ':' {
      LeftPunctuation(raw, from, level);
      piece := ": ";
    } else {
      piece := [c];
      m := Mode(c == '"', false);
    }
    i := i + 1;
    out := before + piece;
    assert Left(raw, from, level, mode) == piece + Left(raw, i, depth, m);
  }

  method SkipSpace(raw: string, from: nat) returns (j: nat)
    requires from <= |raw|
    ensures from <= j <= |raw|
    ensures forall k :: from <= k < j ==> Space(raw[k])
    ensures j < |raw| ==> !Space(raw[j])
  {
    j := from;
    while j < |raw| && Space(raw[j])
      invariant from <= j <= |raw|
      invariant forall k :: from <= k < j ==> Space(raw[k])
    {
      j := j + 1;
    }
  }

  lemma {:induction false} StripSkips(raw: string, from: nat, j: nat)
    requires from <= j <= |raw| && forall k :: from <= k < j ==> Space(raw[k])
    requires j < |raw| ==> !Space(raw[j])
    ensures Strip(raw[from..], OUTSIDE) == Strip(raw[j..], OUTSIDE)
    ensures j < |raw| ==> Strip(raw[j..], OUTSIDE) == [raw[j]] + Strip(raw[j + 1..], OUTSIDE.After(raw[j]))
    decreases j - from
  {
    if j < |raw| {
      assert raw[j..][1..] == raw[j + 1..];
    }
    if from < j {
      assert raw[from..][1..] == raw[from + 1..];
      StripSkips(raw, from + 1, j);
    }
  }

  // ----- the meaning is kept -----

  lemma {:induction false} StripConcat(a: string, b: string)
    requires forall i :: 0 <= i < |a| ==> Space(a[i])
    ensures Strip(a + b, OUTSIDE) == Strip(b, OUTSIDE)
  {
    if a == "" {
      assert a + b == b;
    } else {
      assert (a + b)[1..] == a[1..] + b;
      StripConcat(a[1..], b);
    }
  }

  /** Every level indents by two spaces. */
  lemma {:induction false} SpacesAreSpace(depth: int)
    ensures |Spaces(depth)| == if depth > 0 then 2 * depth else 0
    ensures forall i :: 0 <= i < |Spaces(depth)| ==> Spaces(depth)[i] == ' '
  {
    if depth > 0 {
      SpacesAreSpace(depth - 1);
    }
  }

  lemma StripNewLine(depth: int, rest: string)
    ensures Strip(NewLine(depth) + rest, OUTSIDE) == Strip(rest, OUTSIDE)
  {
    SpacesAreSpace(depth);
    StripConcat(NewLine(depth), rest);
  }

  lemma StripKeeps(c: char, rest: string, m: Mode)
    requires m.inString || !Space(c)
    ensures Strip([c] + rest, m) == [c] + Strip(rest, m.After(c))
  {
    assert ([c] + rest)[1..] == rest;
  }

  lemma {:induction false} StripTwice(s: string, m: Mode)
    ensures Strip(Strip(s, m), m) == Strip(s, m)
  {
    if s != "" {
      if !m.inString && Space(s[0]) {
        StripTwice(s[1..], m);
      } else {
        StripTwice(s[1..], m.After(s[0]));
        StripKeeps(s[0], Strip(s[1..], m.After(s[0])), m);
      }
    }
  }

  /** Printing adds and removes nothing but white space outside strings. */
  lemma {:induction false} StripPretty(t: string, depth: int, m: Mode)
    requires Strip(t, m) == t && (m.escaped ==> m.inString)
    ensures Strip(Pretty(t, depth, m), m) == t
    decreases |t|
  {
    hide NewLine;
    if t != "" {
      var c, rest := t[0], t[1..];
      StripHead(t, m);
      if m.inString {
        StripPretty(rest, depth, m.After(c));
        StripKeeps(c, Pretty(rest, depth, m.After(c)), m);
      } else if Opens(c) {
        if |t| > 1 && Shuts(t[1]) {
          StripHead(rest, m);
          assert rest[1..] == t[2..];
          StripPretty(t[2..], depth, m);
          var tail := Pretty(t[2..], depth, m);
          assert [c, t[1]] + tail == [c] + ([t[1]] + tail);
          StripKeeps(c, [t[1]] + tail, m);
          StripKeeps(t[1], tail, m);
        } else {
          var tail := Pretty(rest, depth + 1, m);
          StripPretty(rest, depth + 1, m);
          assert [c] + NewLine(depth + 1) + tail == [c] + (NewLine(depth + 1) + tail);
          StripKeeps(c, NewLine(depth + 1) + tail, m);
          StripNewLine(depth + 1, tail);
        }
      } else if Shuts(c) {
        var tail := Pretty(rest, depth - 1, m);
        StripPretty(rest, depth - 1, m);
        assert NewLine(depth - 1) + [c] + tail == NewLine(depth - 1) + ([c] + tail);
        StripNewLine(depth - 1, [c] + tail);
        StripKeeps(c, tail, m);
      } else if c == ',' {
        var tail := Pretty(rest, depth, m);
        StripPretty(rest, depth, m);
        assert [c] + NewLine(depth) + tail == [c] + (NewLine(depth) + tail);
        StripKeeps(c, NewLine(depth) + tail, m);
        StripNewLine(depth, tail);
      } else if c == ':' {
        var tail := Pretty(rest, depth, m);
        StripPretty(rest, depth, m);
        assert ": " + tail == [c] + (" " + tail);
        StripKeeps(c, " " + tail, m);
        StripConcat(" ", tail);
      } else {
        StripPretty(rest, depth, m.After(c));
        StripKeeps(c, Pretty(rest, depth, m.After(c)), m);
      }
    }
  }

  /** A stripped text starts with a byte that is kept, and what follows is stripped. */
  lemma StripHead(t: string, m: Mode)
    requires t != "" && Strip(t, m) == t
    ensures m.inString || !Space(t[0])
    ensures Strip(t[1..], m.After(t[0])) == t[1..]
  {
    StripShrinks(t[1..], m);
    assert !m.inString && Space(t[0]) ==> |Strip(t, m)| < |t|;
    assert Strip(t, m)[1..] == Strip(t[1..], m.After(t[0]));
  }

  lemma {:induction false} StripShrinks(s: string, m: Mode)
    ensures |Strip(s, m)| <= |s|
  {
    if s != "" {
      StripShrinks(s[1..], m);
      StripShrinks(s[1..], m.After(s[0]));
    }
  }

  /** Input and output are equal without white space outside strings, and indenting twice equals
      indenting once, for every input. */
  lemma IndentKeepsMeaning(raw: string)
    ensures Strip(Indented(raw), OUTSIDE) == Strip(raw, OUTSIDE)
    ensures Indented(Indented(raw)) == Indented(raw)
  {
    StripTwice(raw, OUTSIDE);
    StripPretty(Strip(raw, OUTSIDE), 0, OUTSIDE);
  }

  // ----- JSON texts -----

  /** A number or literal name keeps its text, a string its body with escapes. */
  datatype Json = Atom(text: string) | Str(body: string) | Arr(items: seq<Json>) | Obj(members: seq<Member>)
  datatype Member = Member(name: string, value: Json)

  predicate AtomChar(c: char) {
    !Space(c) && !Opens(c) && !Shuts(c) && c != ',' && c != ':' && c != '"'
  }

  predicate AtomText(text: string) {
    text != "" && forall i :: 0 <= i < |text| ==> AtomChar(text[i])
  }

  /** The body of a string: every quote is escaped and the last byte is not an open escape. */
  predicate Body(s: string, escaped: bool) {
    if s == "" then !escaped
    else (s[0] == '"' ==> escaped) && Body(s[1..], s[0] == '\\' && !escaped)
  }

  predicate Valid(j: Json) {
    match j
    case Atom(text) => AtomText(text)
    case Str(body) => Body(body, false)
    case Arr(items) => forall k :: 0 <= k < |items| ==> Valid(items[k])
    case Obj(members) => forall k :: 0 <= k < |members| ==> Body(members[k].name, false) && Valid(members[k].value)
  }

  function Quoted(body: string): string {
    ['"'] + (body + ['"'])
  }

  /** The tokens of a text, in order. */
  function Tokens(j: Json): seq<string>
    decreases j, 0
  {
    match j
    case Atom(text) => [text]
    case Str(body) => [Quoted(body)]
    case Arr(items) => ["["] + (ItemTokens(items) + ["]"])
    case Obj(members) => ["{"] + (MemberTokens(members) + ["}"])
  }

  function ItemTokens(items: seq<Json>): seq<string>
    decreases items, 1
  {
    if items == [] then []
    else if |items| == 1 then Tokens(items[0])
    else Tokens(items[0]) + ([","] + ItemTokens(items[1..]))
  }

  function MemberTokens(members: seq<Member>): seq<string>
    decreases members, 1
  {
    if members == [] then []
    else
      [Quoted(members[0].name), ":"]
      + (if |members| == 1 then Tokens(members[0].value)
         else Tokens(members[0].value) + ([","] + MemberTokens(members[1..])))
  }

  function Joined(tokens: seq<string>): string {
    if tokens == [] then "" else tokens[0] + Joined(tokens[1..])
  }

  predicate AllSpace(s: string) {
    forall i :: 0 <= i < |s| ==> Space(s[i])
  }

  /** The text consists of the tokens with any white space before, between and after them. */
  ghost predicate Spaced(raw: string, tokens: seq<string>)
    decreases |tokens|
  {
    if tokens == [] then AllSpace(raw)
    else exists k: nat :: SpacedAfter(raw, k, tokens[0]) && Spaced(raw[k + |tokens[0]|..], tokens[1..])
  }

  predicate SpacedAfter(raw: string, k: nat, token: string) {
    k + |token| <= |raw| && AllSpace(raw[..k]) && raw[k..k + |token|] == token
  }

  ghost predicate IsJsonText(raw: string, j: Json) {
    Valid(j) && Spaced(raw, Tokens(j))
  }

  /** The recursive printer. */
  function Printed(j: Json, depth: nat): string
    decreases j, 0
  {
    match j
    case Atom(text) => text
    case Str(body) => Quoted(body)
    case Arr(items) =>
      if items == [] then "[]"
      else "[" + NewLine(depth + 1) + PrintedItems(items, depth + 1) + NewLine(depth) + "]"
    case Obj(members) =>
      if members == [] then "{}"
      else "{" + NewLine(depth + 1) + PrintedMembers(members, depth + 1) + NewLine(depth) + "}"
  }

  function PrintedItems(items: seq<Json>, depth: nat): string
    decreases items, 1
  {
    if items == [] then ""
    else if |items| == 1 then Printed(items[0], depth)
    else Printed(items[0], depth) + "," + NewLine(depth) + PrintedItems(items[1..], depth)
  }

  function PrintedMembers(members: seq<Member>, depth: nat): string
    decreases members, 1
  {
    if members == [] then ""
    else if |members| == 1 then Quoted(members[0].name) + ": " + Printed(members[0].value, depth)
    else
      Quoted(members[0].name) + ": " + Printed(members[0].value, depth)
      + "," + NewLine(depth) + PrintedMembers(members[1..], depth)
  }

  /** The depth of the pass never falls below 0 on t and ends at 0, outside strings. */
  predicate Balanced(t: string, depth: nat, m: Mode)
    decreases |t|
  {
    if t == "" then depth == 0 && !m.inString
    else
      var c := t[0];
      if m.inString then Balanced(t[1..], depth, m.After(c))
      else if Opens(c) then
        if |t| > 1 && Shuts(t[1]) then Balanced(t[2..], depth, m) else Balanced(t[1..], depth + 1, m)
      else if Shuts(c) then depth > 0 && Balanced(t[1..], depth - 1, m)
      else Balanced(t[1..], depth, m.After(c))
  }

  // ----- tokens survive stripping -----

  predicate Punctuation(t: string) {
    |t| == 1 && (Opens(t[0]) || Shuts(t[0]) || t[0] == ',' || t[0] == ':')
  }

  ghost predicate IsToken(t: string) {
    Punctuation(t) || AtomText(t) || exists body :: Body(body, false) && t == Quoted(body)
  }

  lemma {:induction false} StripToken(t: string, rest: string)
    requires IsToken(t)
    ensures Strip(t + rest, OUTSIDE) == t + Strip(rest, OUTSIDE)
  {
    if Punctuation(t) {
      StripKeeps(t[0], rest, OUTSIDE);
      assert t == [t[0]];
    } else if AtomText(t) {
      StripAtom(t, rest);
    } else {
      var body :| Body(body, false) && t == Quoted(body);
      assert t + rest == ['"'] + (body + ['"'] + rest);
      StripKeeps('"', body + ['"'] + rest, OUTSIDE);
      StripBody(body, false, rest);
    }
  }

  lemma {:induction false} StripAtom(t: string, rest: string)
    requires forall i :: 0 <= i < |t| ==> AtomChar(t[i])
    ensures Strip(t + rest, OUTSIDE) == t + Strip(rest, OUTSIDE)
  {
    if t == "" {
      assert t + rest == rest;
    } else {
      assert t + rest == [t[0]] + (t[1..] + rest);
      StripKeeps(t[0], t[1..] + rest, OUTSIDE);
      StripAtom(t[1..], rest);
    }
  }

  lemma {:induction false} StripBody(body: string, escaped: bool, rest: string)
    requires Body(body, escaped)
    ensures Strip(body + ['"'] + rest, Mode(true, escaped)) == body + ['"'] + Strip(rest, OUTSIDE)
  {
    if body == "" {
      assert body + ['"'] + rest == ['"'] + rest;
      StripKeeps('"', rest, Mode(true, escaped));
    } else {
      assert body + ['"'] + rest == [body[0]] + (body[1..] + ['"'] + rest);
      StripKeeps(body[0], body[1..] + ['"'] + rest, Mode(true, escaped));
      StripBody(body[1..], body[0] == '\\' && !escaped, rest);
    }
  }

  lemma {:induction false} TokensAreTokens(j: Json)
    requires Valid(j)
    ensures forall t :: t in Tokens(j) ==> IsToken(t)
    decreases j, 0
  {
    match j
    case Atom(_) =>
    case Str(_) =>
    case Arr(items) =>
      assert Punctuation("[") && Punctuation("]");
      ItemTokensAreTokens(items);
    case Obj(members) =>
      assert Punctuation("{") && Punctuation("}");
      MemberTokensAreTokens(members);
  }

  lemma {:induction false} ItemTokensAreTokens(items: seq<Json>)
    requires forall k :: 0 <= k < |items| ==> Valid(items[k])
    ensures forall t :: t in ItemTokens(items) ==> IsToken(t)
    decreases items, 1
  {
    if items != [] {
      assert Punctuation(",");
      TokensAreTokens(items[0]);
      ItemTokensAreTokens(items[1..]);
    }
  }

  lemma {:induction false} MemberTokensAreTokens(members: seq<Member>)
    requires forall k :: 0 <= k < |members| ==> Body(members[k].name, false) && Valid(members[k].value)
    ensures forall t :: t in MemberTokens(members) ==> IsToken(t)
    decreases members, 1
  {
    if members != [] {
      assert Punctuation(",") && Punctuation(":");
      TokensAreTokens(members[0].value);
      MemberTokensAreTokens(members[1..]);
    }
  }

  lemma {:induction false} StripSpaced(raw: string, tokens: seq<string>)
    requires Spaced(raw, tokens) && forall t :: t in tokens ==> IsToken(t)
    ensures Strip(raw, OUTSIDE) == Joined(tokens)
    decreases |tokens|
  {
    if tokens == [] {
      StripConcat(raw, "");
      assert raw + "" == raw;
    } else {
      var k: nat :| SpacedAfter(raw, k, tokens[0]) && Spaced(raw[k + |tokens[0]|..], tokens[1..]);
      var rest := raw[k + |tokens[0]|..];
      assert raw == raw[..k] + (tokens[0] + rest);
      StripConcat(raw[..k], tokens[0] + rest);
      StripToken(tokens[0], rest);
      StripSpaced(rest, tokens[1..]);
    }
  }

  // ----- printing a stripped text -----

  lemma {:induction false} JoinedConcat(a: seq<string>, b: seq<string>)
    ensures Joined(a + b) == Joined(a) + Joined(b)
  {
    if a == [] {
      assert a + b == b;
    } else {
      assert (a + b)[1..] == a[1..] + b;
      JoinedConcat(a[1..], b);
    }
  }

  /** One byte that is kept as it is. */
  lemma PrettyKept(c: char, rest: string, depth: nat, m: Mode)
    requires m.inString || AtomChar(c) || c == '"'
    ensures Pretty([c] + rest, depth, m) == [c] + Pretty(rest, depth, m.After(c))
    ensures Balanced([c] + rest, depth, m) == Balanced(rest, depth, m.After(c))
  {
    hide NewLine;
    assert ([c] + rest)[1..] == rest;
  }

  lemma {:induction false} PrettyAtom(t: string, rest: string, depth: nat)
    requires forall i :: 0 <= i < |t| ==> AtomChar(t[i])
    ensures Pretty(t + rest, depth, OUTSIDE) == t + Pretty(rest, depth, OUTSIDE)
    ensures Balanced(t + rest, depth, OUTSIDE) == Balanced(rest, depth, OUTSIDE)
  {
    hide Pretty, Balanced;
    if t == "" {
      assert t + rest == rest;
    } else {
      assert t + rest == [t[0]] + (t[1..] + rest);
      PrettyKept(t[0], t[1..] + rest, depth, OUTSIDE);
      PrettyAtom(t[1..], rest, depth);
    }
  }

  lemma {:induction false} PrettyBody(body: string, escaped: bool, rest: string, depth: nat)
    requires Body(body, escaped)
    ensures Pretty(body + ['"'] + rest, depth, Mode(true, escaped)) == body + ['"'] + Pretty(rest, depth, OUTSIDE)
    ensures Balanced(body + ['"'] + rest, depth, Mode(true, escaped)) == Balanced(rest, depth, OUTSIDE)
  {
    hide Pretty, Balanced;
    if body == "" {
      assert body + ['"'] + rest == ['"'] + rest;
      PrettyKept('"', rest, depth, Mode(true, escaped));
    } else {
      assert body + ['"'] + rest == [body[0]] + (body[1..] + ['"'] + rest);
      PrettyKept(body[0], body[1..] + ['"'] + rest, depth, Mode(true, escaped));
      PrettyBody(body[1..], body[0] == '\\' && !escaped, rest, depth);
    }
  }

  lemma PrettyQuoted(body: string, rest: string, depth: nat)
    requires Body(body, false)
    ensures Pretty(Quoted(body) + rest, depth, OUTSIDE) == Quoted(body) + Pretty(rest, depth, OUTSIDE)
    ensures Balanced(Quoted(body) + rest, depth, OUTSIDE) == Balanced(rest, depth, OUTSIDE)
  {
    hide Pretty, Balanced;
    assert Quoted(body) + rest == ['"'] + (body + ['"'] + rest);
    PrettyKept('"', body + ['"'] + rest, depth, OUTSIDE);
    PrettyBody(body, false, rest, depth);
  }

  lemma PrettyEmpty(c: char, d: char, rest: string, depth: nat)
    requires Opens(c) && Shuts(d)
    ensures Pretty([c, d] + rest, depth, OUTSIDE) == [c, d] + Pretty(rest, depth, OUTSIDE)
    ensures Balanced([c, d] + rest, depth, OUTSIDE) == Balanced(rest, depth, OUTSIDE)
  {
    hide NewLine;
    assert ([c, d] + rest)[2..] == rest;
  }

  lemma PrettyOpen(c: char, rest: string, depth: nat)
    requires Opens(c) && rest != "" && !Shuts(rest[0])
    ensures Pretty([c] + rest, depth, OUTSIDE) == [c] + NewLine(depth + 1) + Pretty(rest, depth + 1, OUTSIDE)
    ensures Balanced([c] + rest, depth, OUTSIDE) == Balanced(rest, depth + 1, OUTSIDE)
  {
    hide NewLine;
    assert ([c] + rest)[1..] == rest;
  }

  lemma PrettyShut(c: char, rest: string, depth: nat)
    requires Shuts(c)
    ensures Pretty([c] + rest, depth + 1, OUTSIDE) == NewLine(depth) + [c] + Pretty(rest, depth, OUTSIDE)
    ensures Balanced([c] + rest, depth + 1, OUTSIDE) == Balanced(rest, depth, OUTSIDE)
  {
    hide NewLine;
    assert ([c] + rest)[1..] == rest;
  }

  lemma PrettyBreak(rest: string, depth: nat)
    ensures Pretty(":" + rest, depth, OUTSIDE) == ": " + Pretty(rest, depth, OUTSIDE)
    ensures Balanced(":" + rest, depth, OUTSIDE) == Balanced(rest, depth, OUTSIDE)
    ensures Pretty("," + rest, depth, OUTSIDE) == "," + NewLine(depth) + Pretty(rest, depth, OUTSIDE)
    ensures Balanced("," + rest, depth, OUTSIDE) == Balanced(rest, depth, OUTSIDE)
  {
    hide NewLine;
    assert (":" + rest)[1..] == rest;
    assert ("," + rest)[1..] == rest;
  }

  /** No value starts with a closing bracket. */
  lemma FirstByte(j: Json)
    requires Valid(j)
    ensures Joined(Tokens(j)) != "" && !Shuts(Joined(Tokens(j))[0])
  {
  }

  function Text(j: Json): string {
    Joined(Tokens(j))
  }

  lemma {:induction false} PrettyJson(j: Json, rest: string, depth: nat)
    requires Valid(j)
    ensures Pretty(Text(j) + rest, depth, OUTSIDE) == Printed(j, depth) + Pretty(rest, depth, OUTSIDE)
    ensures Balanced(Text(j) + rest, depth, OUTSIDE) == Balanced(rest, depth, OUTSIDE)
    decreases j, 0
  {
    hide Pretty, Balanced, NewLine, Quoted, PrintedItems, PrintedMembers, ItemTokens, MemberTokens;
    match j
    case Atom(text) =>
      assert Joined([text]) == text;
      PrettyAtom(text, rest, depth);
    case Str(body) =>
      assert Joined([Quoted(body)]) == Quoted(body);
      PrettyQuoted(body, rest, depth);
    case Arr(items) => PrettyArr(items, rest, depth);
    case Obj(members) => PrettyObj(members, rest, depth);
  }

  lemma {:induction false} PrettyArr(items: seq<Json>, rest: string, depth: nat)
    requires Valid(Arr(items))
    ensures Pretty(Text(Arr(items)) + rest, depth, OUTSIDE) == Printed(Arr(items), depth) + Pretty(rest, depth, OUTSIDE)
    ensures Balanced(Text(Arr(items)) + rest, depth, OUTSIDE) == Balanced(rest, depth, OUTSIDE)
    decreases items, 2
  {
    hide Pretty, Balanced, NewLine, PrintedItems, ItemTokens, Joined;
    JoinedContainer("[", ItemTokens(items), "]", rest);
    if items == [] {
      NoTokens();
      PrettyEmpty('[', ']', rest, depth);
      assert "[" + "]" == ['[', ']'];
    } else {
      PrettyItems(items, "]" + rest, depth + 1);
      PrettyContainer('[', ']', Joined(ItemTokens(items)), PrintedItems(items, depth + 1), rest, depth);
    }
  }

  lemma {:induction false} PrettyObj(members: seq<Member>, rest: string, depth: nat)
    requires Valid(Obj(members))
    ensures Pretty(Text(Obj(members)) + rest, depth, OUTSIDE)
            == Printed(Obj(members), depth) + Pretty(rest, depth, OUTSIDE)
    ensures Balanced(Text(Obj(members)) + rest, depth, OUTSIDE) == Balanced(rest, depth, OUTSIDE)
    decreases members, 2
  {
    hide Pretty, Balanced, NewLine, PrintedMembers, MemberTokens, Joined;
    JoinedContainer("{", MemberTokens(members), "}", rest);
    if members == [] {
      NoTokens();
      PrettyEmpty('{', '}', rest, depth);
      assert "{" + "}" == ['{', '}'];
    } else {
      PrettyMembers(members, "}" + rest, depth + 1);
      PrettyContainer('{', '}', Joined(MemberTokens(members)), PrintedMembers(members, depth + 1), rest, depth);
    }
  }

  lemma NoTokens()
    ensures Joined(ItemTokens([])) == "" && Joined(MemberTokens([])) == ""
  {
  }

  lemma JoinedContainer(open: string, tokens: seq<string>, shut: string, rest: string)
    ensures Joined([open] + (tokens + [shut])) + rest == open + (Joined(tokens) + (shut + rest))
    ensures Joined(tokens) == "" ==> Joined([open] + (tokens + [shut])) + rest == open + shut + rest
  {
    JoinedConcat(tokens, [shut]);
    assert Joined([shut]) == shut;
    assert ([open] + (tokens + [shut]))[1..] == tokens + [shut];
    assert open + (Joined(tokens) + shut) + rest == open + (Joined(tokens) + (shut + rest));
  }

  lemma PrettyContainer(c: char, d: char, inner: string, printed: string, rest: string, depth: nat)
    requires Opens(c) && Shuts(d) && inner != "" && !Shuts(inner[0])
    requires Pretty(inner + ([d] + rest), depth + 1, OUTSIDE) == printed + Pretty([d] + rest, depth + 1, OUTSIDE)
    requires Balanced(inner + ([d] + rest), depth + 1, OUTSIDE) == Balanced([d] + rest, depth + 1, OUTSIDE)
    ensures Pretty([c] + (inner + ([d] + rest)), depth, OUTSIDE)
            == [c] + NewLine(depth + 1) + printed + NewLine(depth) + [d] + Pretty(rest, depth, OUTSIDE)
    ensures Balanced([c] + (inner + ([d] + rest)), depth, OUTSIDE) == Balanced(rest, depth, OUTSIDE)
  {
    hide Pretty, Balanced, NewLine;
    PrettyOpen(c, inner + ([d] + rest), depth);
    PrettyShut(d, rest, depth);
    var a, z := [c] + NewLine(depth + 1), Pretty(rest, depth, OUTSIDE);
    assert a + (printed + (NewLine(depth) + [d] + z)) == a + printed + NewLine(depth) + [d] + z;
  }

  lemma {:induction false} PrettyItems(items: seq<Json>, rest: string, depth: nat)
    requires items != [] && forall k :: 0 <= k < |items| ==> Valid(items[k])
    ensures var inner := Joined(ItemTokens(items));
      inner != "" && !Shuts(inner[0])
      && Pretty(inner + rest, depth, OUTSIDE) == PrintedItems(items, depth) + Pretty(rest, depth, OUTSIDE)
      && Balanced(inner + rest, depth, OUTSIDE) == Balanced(rest, depth, OUTSIDE)
    decreases items, 1
  {
    hide Pretty, Balanced, NewLine, Joined, Tokens, Printed;
    FirstByte(items[0]);
    if |items| == 1 {
      PrettyJson(items[0], rest, depth);
    } else {
      var tail := Joined(ItemTokens(items[1..]));
      JoinedComma(Tokens(items[0]), ItemTokens(items[1..]), rest);
      PrettyJson(items[0], "," + (tail + rest), depth);
      PrettyBreak(tail + rest, depth);
      PrettyItems(items[1..], rest, depth);
    }
  }

  lemma JoinedComma(a: seq<string>, b: seq<string>, rest: string)
    ensures Joined(a + ([","] + b)) == Joined(a) + ("," + Joined(b))
    ensures Joined(a + ([","] + b)) + rest == Joined(a) + ("," + (Joined(b) + rest))
  {
    JoinedConcat(a, [","] + b);
    assert ([","] + b)[1..] == b;
    assert Joined(a) + ("," + Joined(b)) + rest == Joined(a) + ("," + (Joined(b) + rest));
  }

  lemma JoinedName(name: string, a: seq<string>, rest: string)
    ensures Joined([name, ":"] + a) == name + (":" + Joined(a))
    ensures Joined([name, ":"] + a) + rest == name + (":" + (Joined(a) + rest))
  {
    assert [name, ":"] + a == [name] + ([":"] + a);
    assert ([name] + ([":"] + a))[1..] == [":"] + a;
    assert ([":"] + a)[1..] == a;
    assert name + (":" + Joined(a)) + rest == name + (":" + (Joined(a) + rest));
  }

  lemma {:induction false} PrettyMembers(members: seq<Member>, rest: string, depth: nat)
    requires members != [] && forall k :: 0 <= k < |members| ==> Body(members[k].name, false) && Valid(members[k].value)
    ensures var inner := Joined(MemberTokens(members));
      inner != "" && !Shuts(inner[0])
      && Pretty(inner + rest, depth, OUTSIDE) == PrintedMembers(members, depth) + Pretty(rest, depth, OUTSIDE)
      && Balanced(inner + rest, depth, OUTSIDE) == Balanced(rest, depth, OUTSIDE)
    decreases members, 1
  {
    hide Pretty, Balanced, NewLine, Joined, Tokens, Printed;
    var name, value := Quoted(members[0].name), Tokens(members[0].value);
    if |members| == 1 {
      JoinedName(name, value, rest);
      PrettyName(members[0], rest, depth);
    } else {
      var after := MemberTokens(members[1..]);
      var tail := Joined(after);
      JoinedName(name, value + ([","] + after), rest);
      JoinedComma(value, after, rest);
      PrettyMembers(members[1..], rest, depth);
      PrettyNext(members[0], tail, PrintedMembers(members[1..], depth), rest, depth);
    }
  }

  /** A member with a further member after it, whose tokens are tail and whose print is printed. */
  lemma {:induction false} PrettyNext(m: Member, tail: string, printed: string, rest: string, depth: nat)
    requires Body(m.name, false) && Valid(m.value)
    requires Pretty(tail + rest, depth, OUTSIDE) == printed + Pretty(rest, depth, OUTSIDE)
    requires Balanced(tail + rest, depth, OUTSIDE) == Balanced(rest, depth, OUTSIDE)
    ensures Pretty(Quoted(m.name) + (":" + (Text(m.value) + ("," + (tail + rest)))), depth, OUTSIDE)
            == Quoted(m.name) + ": " + Printed(m.value, depth) + "," + NewLine(depth) + printed
               + Pretty(rest, depth, OUTSIDE)
    ensures Balanced(Quoted(m.name) + (":" + (Text(m.value) + ("," + (tail + rest)))), depth, OUTSIDE)
            == Balanced(rest, depth, OUTSIDE)
    decreases m, 2
  {
    hide *;
    PrettyName(m, "," + (tail + rest), depth);
    PrettyBreak(tail + rest, depth);
  }

  lemma {:induction false} PrettyName(m: Member, rest: string, depth: nat)
    requires Body(m.name, false) && Valid(m.value)
    ensures Pretty(Quoted(m.name) + (":" + (Text(m.value) + rest)), depth, OUTSIDE)
            == Quoted(m.name) + ": " + Printed(m.value, depth) + Pretty(rest, depth, OUTSIDE)
    ensures Balanced(Quoted(m.name) + (":" + (Text(m.value) + rest)), depth, OUTSIDE) == Balanced(rest, depth, OUTSIDE)
    decreases m, 1
  {
    hide Pretty, Balanced, Printed, Quoted, Joined, Tokens;
    PrettyQuoted(m.name, ":" + (Text(m.value) + rest), depth);
    PrettyBreak(Text(m.value) + rest, depth);
    PrettyJson(m.value, rest, depth);
  }

  /** On a JSON text the pass is the recursive printer, and its depth stays non-negative and ends at 0. */
  lemma JsonIsPrinted(raw: string, j: Json)
    requires IsJsonText(raw, j)
    ensures Indented(raw) == Printed(j, 0)
    ensures Balanced(Strip(raw, OUTSIDE), 0, OUTSIDE)
  {
    TokensAreTokens(j);
    StripSpaced(raw, Tokens(j));
    PrettyJson(j, "", 0);
    assert Text(j) + "" == Text(j);
    assert Printed(j, 0) + "" == Printed(j, 0);
  }
}

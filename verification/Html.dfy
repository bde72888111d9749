/** HTML as a tree, its text form, and a strict reader of that text. The renderer's output is the
    text of a tree; the reader accepts it only if tags nest, names and attributes come from a fixed
    list, no anchor stands inside another, and every special character of the text is escaped. */
module Html {
  import opened Basics

  datatype Attribute = Attribute(key: string, value: string)

  datatype Node =
    | Text(text: string)
    | Void(name: string, attrs: seq<Attribute>)
    | Element(name: string, attrs: seq<Attribute>, kids: seq<Node>)

  // ----- printing -----

  /** html.EscapeString on one byte. */
  function EscapeChar(c: char): (s: string)
    ensures |s| > 0
  {
    if c == '&' then "&amp;"
    else if c == '\'' then "&#39;"
    else if c == '<' then "&lt;"
    else if c == '>' then "&gt;"
    else if c == '"' then "&#34;"
    else [c]
  }

  function Escape(s: string): string {
    if s == "" then "" else EscapeChar(s[0]) + Escape(s[1..])
  }

  function PrintAttributes(attrs: seq<Attribute>): string {
    if attrs == [] then ""
    else " " + attrs[0].key + "=\"" + Escape(attrs[0].value) + "\"" + PrintAttributes(attrs[1..])
  }

  function OpenTag(name: string, attrs: seq<Attribute>): string {
    "<" + name + PrintAttributes(attrs) + ">"
  }

  function CloseTag(name: string): string {
    "</" + name + ">"
  }

  function PrintNode(node: Node): string
    decreases node, 0
  {
    match node
    case Text(text) => Escape(text)
    case Void(name, attrs) => OpenTag(name, attrs)
    case Element(name, attrs, kids) => OpenTag(name, attrs) + Print(kids) + CloseTag(name)
  }

  function Print(nodes: seq<Node>): string
    decreases nodes, 1
  {
    if nodes == [] then "" else PrintNode(nodes[0]) + Print(nodes[1..])
  }

  lemma {:induction false} EscapeConcat(a: string, b: string)
    ensures Escape(a + b) == Escape(a) + Escape(b)
  {
    hide EscapeChar;
    if a == "" {
      assert a + b == b;
    } else {
      EscapeConcat(a[1..], b);
      assert (a + b)[1..] == a[1..] + b && (a + b)[0] == a[0];
    }
  }

  lemma {:induction false} PrintConcat(a: seq<Node>, b: seq<Node>)
    ensures Print(a + b) == Print(a) + Print(b)
  {
    hide PrintNode;
    if a == [] {
      assert a + b == b;
    } else {
      PrintConcat(a[1..], b);
      assert (a + b)[0] == a[0] && (a + b)[1..] == a[1..] + b;
      assert PrintNode(a[0]) + (Print(a[1..]) + Print(b)) == PrintNode(a[0]) + Print(a[1..]) + Print(b);
    }
  }

  lemma PrintOne(node: Node)
    ensures Print([node]) == PrintNode(node)
  {
    assert Print([node][1..]) == "";
  }

  // ----- trees the renderer may produce -----

  const NAMES: set<string> := {
    "a", "code", "del", "strong", "em", "pre", "h3", "h4", "blockquote", "p", "ul", "ol", "li", "span",
    "div", "table", "thead", "tbody", "tr", "th", "td"
  }

  const VOID_NAMES: set<string> := {"hr", "br", "img"}

  const KEYS: set<string> := {
    "class", "href", "target", "rel", "src", "alt", "loading", "start", "role", "aria-label", "tabindex"
  }

  predicate NameChar(c: char) {
    'a' <= c <= 'z' || '0' <= c <= '9' || c == '-'
  }

  predicate Plain(s: string) {
    s != "" && forall i :: 0 <= i < |s| ==> NameChar(s[i])
  }

  predicate GoodAttributes(attrs: seq<Attribute>) {
    forall k :: 0 <= k < |attrs| ==> attrs[k].key in KEYS && Plain(attrs[k].key)
  }

  predicate GoodNode(node: Node, inAnchor: bool)
    decreases node, 0
  {
    match node
    case Text(_) => true
    case Void(name, attrs) => name in VOID_NAMES && Plain(name) && GoodAttributes(attrs)
    case Element(name, attrs, kids) =>
      && name in NAMES && name !in VOID_NAMES && Plain(name) && GoodAttributes(attrs)
      && !(inAnchor && name == "a")
      && Good(kids, inAnchor || name == "a")
  }

  predicate Good(nodes: seq<Node>, inAnchor: bool)
    decreases nodes, 1
  {
    nodes == [] || (GoodNode(nodes[0], inAnchor) && Good(nodes[1..], inAnchor))
  }

  lemma {:induction false} GoodConcat(a: seq<Node>, b: seq<Node>, inAnchor: bool)
    requires Good(a, inAnchor) && Good(b, inAnchor)
    ensures Good(a + b, inAnchor)
  {
    if a == [] {
      assert a + b == b;
    } else {
      GoodConcat(a[1..], b, inAnchor);
      assert (a + b)[1..] == a[1..] + b;
    }
  }

  // ----- the reader -----

  /** The letters at the start. */
  function NameOf(s: string): (name: string)
    ensures name <= s
  {
    if s != "" && NameChar(s[0]) then [s[0]] + NameOf(s[1..]) else ""
  }

  /** A list of ` key="value"` with known keys. */
  predicate ReadAttributes(s: string)
    decreases |s|
  {
    if s == "" then true
    else
      var key := NameOf(s[1..]);
      && s[0] == ' ' && key in KEYS && |key| + 3 <= |s|
      && s[1 + |key|] == '=' && s[2 + |key|] == '"'
      && (var value := s[3 + |key|..];
          var end := IndexFrom(value, '"', 0);
          end < |value| && ReadAttributes(value[end + 1..]))
  }

  const ENTITIES: seq<string> := ["&amp;", "&#39;", "&lt;", "&gt;", "&#34;"]

  predicate StartsEntity(s: string) {
    exists k :: 0 <= k < |ENTITIES| && ENTITIES[k] <= s
  }

  /** html is well formed when the elements in `open`, innermost first, are still open. */
  predicate WellFormed(html: string, open: seq<string>)
    decreases |html|
  {
    if html == "" then open == []
    else if html[0] == '<' then
      var end := IndexFrom(html, '>', 0);
      if end == |html| then false
      else if html[1] == '/' then
        open != [] && html[2..end] == open[0] && WellFormed(html[end + 1..], open[1..])
      else
        var tag := html[1..end];
        var name := NameOf(tag);
        && ReadAttributes(tag[|name|..])
        && (if name in VOID_NAMES then WellFormed(html[end + 1..], open)
            else
              && name in NAMES && !(name == "a" && "a" in open)
              && WellFormed(html[end + 1..], [name] + open))
    else
      && html[0] != '>' && html[0] != '"' && html[0] != '\''
      && (html[0] == '&' ==> StartsEntity(html))
      && WellFormed(html[1..], open)
  }

  // ----- the reader accepts the text of every good tree -----

  predicate NoMarkup(s: string) {
    forall i :: 0 <= i < |s| ==> s[i] != '<' && s[i] != '>' && s[i] != '"' && s[i] != '\''
  }

  lemma {:induction false} EscapedIsPlain(s: string)
    ensures NoMarkup(Escape(s))
  {
    if s != "" {
      EscapedIsPlain(s[1..]);
    }
  }

  /** Reading over one character of text. */
  lemma ReadPlain(c: char, rest: string, open: seq<string>)
    requires c != '<' && c != '>' && c != '"' && c != '\'' && c != '&'
    ensures WellFormed([c] + rest, open) == WellFormed(rest, open)
  {
    assert ([c] + rest)[1..] == rest;
  }

  lemma ReadEntity(k: nat, rest: string, open: seq<string>)
    requires k < |ENTITIES|
    ensures WellFormed(ENTITIES[k] + rest, open) == WellFormed(rest, open)
  {
    var e := ENTITIES[k];
    assert e <= e + rest;
    assert (e + rest)[1..] == e[1..] + rest;
    ReadRun(e[1..], rest, open);
  }

  lemma {:induction false} ReadRun(run: string, rest: string, open: seq<string>)
    requires NoMarkup(run) && forall i :: 0 <= i < |run| ==> run[i] != '&'
    ensures WellFormed(run + rest, open) == WellFormed(rest, open)
  {
    if run == "" {
      assert run + rest == rest;
    } else {
      assert run + rest == [run[0]] + (run[1..] + rest);
      ReadPlain(run[0], run[1..] + rest, open);
      ReadRun(run[1..], rest, open);
    }
  }

  lemma {:induction false} ReadText(s: string, rest: string, open: seq<string>)
    ensures WellFormed(Escape(s) + rest, open) == WellFormed(rest, open)
  {
    hide WellFormed;
    if s == "" {
      assert Escape(s) + rest == rest;
    } else {
      assert Escape(s) + rest == EscapeChar(s[0]) + (Escape(s[1..]) + rest);
      ReadText(s[1..], rest, open);
      ReadEscapedChar(s[0], Escape(s[1..]) + rest, open);
    }
  }

  lemma ReadEscapedChar(c: char, rest: string, open: seq<string>)
    ensures WellFormed(EscapeChar(c) + rest, open) == WellFormed(rest, open)
  {
    hide WellFormed;
    if c == '&' { ReadEntity(0, rest, open); }
    else if c == '\'' { ReadEntity(1, rest, open); }
    else if c == '<' { ReadEntity(2, rest, open); }
    else if c == '>' { ReadEntity(3, rest, open); }
    else if c == '"' { ReadEntity(4, rest, open); }
    else { ReadPlain(c, rest, open); }
  }

  lemma {:induction false} NameStops(name: string, rest: string)
    requires forall i :: 0 <= i < |name| ==> NameChar(name[i])
    requires rest == "" || !NameChar(rest[0])
    ensures NameOf(name + rest) == name
  {
    if name != "" {
      assert (name + rest)[1..] == name[1..] + rest;
      NameStops(name[1..], rest);
    } else {
      assert name + rest == rest;
    }
  }

  predicate NoBrackets(s: string) {
    forall i :: 0 <= i < |s| ==> s[i] != '<' && s[i] != '>'
  }

  lemma {:induction false} AttributesHaveNoBrackets(attrs: seq<Attribute>)
    requires GoodAttributes(attrs)
    ensures NoBrackets(PrintAttributes(attrs))
    ensures attrs != [] ==> PrintAttributes(attrs) != "" && PrintAttributes(attrs)[0] == ' '
  {
    hide KEYS, Escape;
    if attrs != [] {
      AttributesHaveNoBrackets(attrs[1..]);
      EscapedIsPlain(attrs[0].value);
    }
  }

  lemma OneAttributeRead(key: string, value: string, rest: string)
    requires key in KEYS && Plain(key) && NoMarkup(value) && ReadAttributes(rest)
    ensures ReadAttributes(" " + key + "=\"" + value + "\"" + rest)
  {
    hide KEYS, IndexFrom, NameOf, NoMarkup;
    NoQuote(value);
    var s, tail := " " + key + "=\"" + value + "\"" + rest, value + "\"" + rest;
    assert s == " " + (key + ("=\"" + tail));
    assert s[1..] == key + ("=\"" + tail);
    NameStops(key, "=\"" + tail);
    assert s[3 + |key|..] == tail;
    assert s[1 + |key|] == '=' && s[2 + |key|] == '"';
    IndexAfter(value, '"', rest);
    assert tail == value + ['"'] + rest && tail[|value| + 1..] == rest;
  }

  lemma NoQuote(value: string)
    requires NoMarkup(value)
    ensures '"' !in value
  {
  }

  lemma {:induction false} AttributesRead(attrs: seq<Attribute>)
    requires GoodAttributes(attrs)
    ensures ReadAttributes(PrintAttributes(attrs))
  {
    hide KEYS, Escape, Plain;
    if attrs != [] {
      AttributesRead(attrs[1..]);
      EscapedIsPlain(attrs[0].value);
      OneAttributeRead(attrs[0].key, Escape(attrs[0].value), PrintAttributes(attrs[1..]));
    }
  }

  /** Reading over an opening tag whose parts are known. */
  lemma TagRead(name: string, attrs: string, rest: string, open: seq<string>)
    requires name != "" && name[0] != '/' && NoBrackets(name) && NoBrackets(attrs)
    requires NameOf(name + attrs) == name && ReadAttributes(attrs)
    requires name in VOID_NAMES || (name in NAMES && !(name == "a" && "a" in open))
    ensures WellFormed("<" + (name + attrs) + ">" + rest, open) ==
      WellFormed(rest, if name in VOID_NAMES then open else [name] + open)
  {
    hide NAMES, VOID_NAMES, ReadAttributes, StartsEntity, IndexFrom, NameOf;
    var body := name + attrs;
    var html := "<" + body + ">" + rest;
    IndexAfter("<" + body, '>', rest);
    assert html[1..|body| + 1] == body && html[|body| + 2..] == rest;
    assert body[|name|..] == attrs;
    assert html[1] == name[0];
  }

  lemma OpenTagRead(name: string, attrs: seq<Attribute>, rest: string, open: seq<string>)
    requires Plain(name) && GoodAttributes(attrs)
    requires name in VOID_NAMES || (name in NAMES && !(name == "a" && "a" in open))
    ensures WellFormed(OpenTag(name, attrs) + rest, open) ==
      WellFormed(rest, if name in VOID_NAMES then open else [name] + open)
  {
    hide NAMES, VOID_NAMES, KEYS, ReadAttributes, PrintAttributes, GoodAttributes, WellFormed, IndexFrom;
    var printed := PrintAttributes(attrs);
    AttributesHaveNoBrackets(attrs);
    AttributesRead(attrs);
    AttributesStart(attrs);
    NameStops(name, printed);
    TagRead(name, printed, rest, open);
    assert OpenTag(name, attrs) == "<" + (name + printed) + ">";
  }

  lemma AttributesStart(attrs: seq<Attribute>)
    requires GoodAttributes(attrs)
    ensures PrintAttributes(attrs) == "" || !NameChar(PrintAttributes(attrs)[0])
  {
    AttributesHaveNoBrackets(attrs);
  }

  lemma CloseTagRead(name: string, rest: string, open: seq<string>)
    requires Plain(name)
    ensures WellFormed(CloseTag(name) + rest, [name] + open) == WellFormed(rest, open)
  {
    var html := CloseTag(name) + rest;
    assert html == ("</" + name) + [ '>' ] + rest;
    IndexAfter("</" + name, '>', rest);
    assert html[2..|name| + 2] == name && html[|name| + 3..] == rest;
    assert ([name] + open)[1..] == open;
  }

  lemma {:induction false} NodeReads(node: Node, rest: string, open: seq<string>)
    requires GoodNode(node, "a" in open)
    ensures WellFormed(PrintNode(node) + rest, open) == WellFormed(rest, open)
    decreases node, 0
  {
    hide WellFormed, OpenTag, CloseTag, Plain, GoodAttributes, NAMES, VOID_NAMES;
    match node
    case Text(text) => ReadText(text, rest, open);
    case Void(name, attrs) => OpenTagRead(name, attrs, rest, open);
    case Element(name, attrs, kids) =>
      var inner := Print(kids) + (CloseTag(name) + rest);
      assert PrintNode(node) + rest == OpenTag(name, attrs) + inner;
      OpenTagRead(name, attrs, inner, open);
      assert "a" in [name] + open <==> "a" in open || name == "a";
      NodesRead(kids, CloseTag(name) + rest, [name] + open);
      CloseTagRead(name, rest, open);
  }

  lemma {:induction false} NodesRead(nodes: seq<Node>, rest: string, open: seq<string>)
    requires Good(nodes, "a" in open)
    ensures WellFormed(Print(nodes) + rest, open) == WellFormed(rest, open)
    decreases nodes, 1
  {
    hide WellFormed, PrintNode, GoodNode;
    if nodes == [] {
      assert Print(nodes) + rest == rest;
    } else {
      assert Print(nodes) + rest == PrintNode(nodes[0]) + (Print(nodes[1..]) + rest);
      NodeReads(nodes[0], Print(nodes[1..]) + rest, open);
      NodesRead(nodes[1..], rest, open);
    }
  }

  lemma PrintIsWellFormed(nodes: seq<Node>)
    requires Good(nodes, false)
    ensures WellFormed(Print(nodes), [])
  {
    assert Print(nodes) + "" == Print(nodes);
    NodesRead(nodes, "", []);
  }
}

/** Reading printed trees back: tags with their attributes, and characters with their entities decoded
    by a table. What is read from the text of a tree is the tree. */
module HtmlReading {
  import opened Basics
  import opened Html

  /** One thing that a reader of HTML meets. */
  datatype Event = Char(c: char) | Open(name: string, attrs: seq<Attribute>) | Close(name: string)

  // ----- what a tree shows -----

  function Chars(s: string): seq<Event> {
    seq(|s|, k requires 0 <= k < |s| => Char(s[k]))
  }

  function NodeEvents(node: Node): seq<Event>
    decreases node, 0
  {
    match node
    case Text(text) => Chars(text)
    case Void(name, attrs) => [Open(name, attrs)]
    case Element(name, attrs, kids) => [Open(name, attrs)] + Events(kids) + [Close(name)]
  }

  function Events(nodes: seq<Node>): seq<Event>
    decreases nodes, 1
  {
    if nodes == [] then [] else NodeEvents(nodes[0]) + Events(nodes[1..])
  }

  // ----- what a reader sees -----

  const ENTITY: seq<(string, char)> :=
    [("&amp;", '&'), ("&#39;", '\''), ("&lt;", '<'), ("&gt;", '>'), ("&#34;", '"')]

  /** The number of the entity that s starts with; 5 for none. */
  function EntityAt(s: string, k: nat): (j: nat)
    requires k <= 5
    ensures k <= j <= 5 && (j < 5 ==> ENTITY[j].0 <= s)
    decreases 5 - k
  {
    if k == 5 || ENTITY[k].0 <= s then k else EntityAt(s, k + 1)
  }

  function Decoded(s: string): string
    decreases |s|
  {
    if s == "" then ""
    else
      var k := EntityAt(s, 0);
      if k < 5 then [ENTITY[k].1] + Decoded(s[|ENTITY[k].0|..]) else [s[0]] + Decoded(s[1..])
  }

  function SeenAttributes(s: string): Option<seq<Attribute>>
    decreases |s|
  {
    if s == "" then Some([])
    else
      var key := NameOf(s[1..]);
      if s[0] != ' ' || !("=\"" <= s[1 + |key|..]) then None
      else
        var value := s[3 + |key|..];
        var end := IndexFrom(value, '"', 0);
        if end == |value| then None
        else
          match SeenAttributes(value[end + 1..])
          case None => None
          case Some(more) => Some([Attribute(key, Decoded(value[..end]))] + more)
  }

  function Before(event: Event, rest: Option<seq<Event>>): Option<seq<Event>> {
    match rest
    case None => None
    case Some(events) => Some([event] + events)
  }

  function Seen(html: string): Option<seq<Event>>
    decreases |html|
  {
    if html == "" then Some([])
    else if html[0] == '<' then
      var end := IndexFrom(html, '>', 0);
      if end == |html| then None
      else if html[1] == '/' then Before(Close(html[2..end]), Seen(html[end + 1..]))
      else
        var name := NameOf(html[1..end]);
        match SeenAttributes(html[1..end][|name|..])
        case None => None
        case Some(attrs) => Before(Open(name, attrs), Seen(html[end + 1..]))
    else if html[0] == '&' then
      var k := EntityAt(html, 0);
      if k == 5 then None else Before(Char(ENTITY[k].1), Seen(html[|ENTITY[k].0|..]))
    else Before(Char(html[0]), Seen(html[1..]))
  }

  // ----- the reader sees the tree -----

  lemma EntityOf(c: char, rest: string)
    ensures var e := EscapeChar(c);
      if c == '&' || c == '\'' || c == '<' || c == '>' || c == '"'
      then EntityAt(e + rest, 0) < 5 && ENTITY[EntityAt(e + rest, 0)] == (e, c)
      else e == [c] && EntityAt(e + rest, 0) == 5
  {
    var s := EscapeChar(c) + rest;
    if c == '&' {
      assert ENTITY[0].0 <= s;
    } else if c == '\'' {
      assert s[1] == '#' && s[3] == '9' && ENTITY[1].0 <= s;
    } else if c == '<' {
      assert s[1] == 'l' && ENTITY[2].0 <= s;
    } else if c == '>' {
      assert s[1] == 'g' && ENTITY[3].0 <= s;
    } else if c == '"' {
      assert s[1] == '#' && s[3] == '4' && ENTITY[4].0 <= s;
    } else {
      assert s[0] != '&';
    }
  }

  /** Escaping is undone by the entities. */
  lemma {:induction false} EscapeDecodes(s: string)
    ensures Decoded(Escape(s)) == s
  {
    hide EscapeChar, EntityAt;
    if s != "" {
      var e, more := EscapeChar(s[0]), Escape(s[1..]);
      EntityOf(s[0], more);
      EscapeDecodes(s[1..]);
      assert (e + more)[|e|..] == more;
    }
  }

  lemma {:induction false} TextSeen(s: string, rest: string)
    requires Seen(rest).Some?
    ensures Seen(Escape(s) + rest) == Some(Chars(s) + Seen(rest).value)
  {
    hide EscapeChar, EntityAt, Seen;
    if s == "" {
      assert Escape(s) + rest == rest;
      assert Chars(s) + Seen(rest).value == Seen(rest).value;
    } else {
      TextSeen(s[1..], rest);
      assert Escape(s) + rest == EscapeChar(s[0]) + (Escape(s[1..]) + rest);
      CharSeen(s[0], Escape(s[1..]) + rest);
      assert Chars(s) == [Char(s[0])] + Chars(s[1..]);
      assert [Char(s[0])] + (Chars(s[1..]) + Seen(rest).value) == Chars(s) + Seen(rest).value;
    }
  }

  lemma CharSeen(c: char, rest: string)
    ensures Seen(EscapeChar(c) + rest) == Before(Char(c), Seen(rest))
  {
    hide EntityAt;
    EntityOf(c, rest);
    var e := EscapeChar(c);
    assert (e + rest)[|e|..] == rest && (e + rest)[0] == e[0];
  }

  lemma {:induction false} AttributesSeen(attrs: seq<Attribute>)
    requires GoodAttributes(attrs)
    ensures SeenAttributes(PrintAttributes(attrs)) == Some(attrs)
  {
    hide KEYS, Escape, Plain, SeenAttributes;
    if attrs == [] {
      NothingSeen();
    } else {
      AttributesSeen(attrs[1..]);
      EscapedIsPlain(attrs[0].value);
      EscapeDecodes(attrs[0].value);
      AttributeSeen(attrs[0].key, Escape(attrs[0].value), PrintAttributes(attrs[1..]));
      assert attrs == [attrs[0]] + attrs[1..];
    }
  }

  lemma NothingSeen()
    ensures SeenAttributes("") == Some([])
  {
  }

  lemma AttributeSeen(key: string, value: string, rest: string)
    requires Plain(key) && NoMarkup(value) && SeenAttributes(rest).Some?
    ensures SeenAttributes(" " + key + "=\"" + value + "\"" + rest)
      == Some([Attribute(key, Decoded(value))] + SeenAttributes(rest).value)
  {
    hide IndexFrom, NameOf, NoMarkup, Decoded, SeenAttributes;
    NoQuote(value);
    var s, tail := " " + key + "=\"" + value + "\"" + rest, value + "\"" + rest;
    assert s == " " + (key + ("=\"" + tail));
    NameStops(key, "=\"" + tail);
    IndexAfter(value, '"', rest);
    assert tail[..|value|] == value && tail[|value| + 1..] == rest;
    AttributeStep(key, tail);
  }

  /** One attribute is taken off, up to the quote that ends its value. */
  lemma AttributeStep(key: string, tail: string)
    requires NameOf(key + ("=\"" + tail)) == key && IndexFrom(tail, '"', 0) < |tail|
    requires SeenAttributes(tail[IndexFrom(tail, '"', 0) + 1..]).Some?
    ensures var end := IndexFrom(tail, '"', 0);
      SeenAttributes(" " + (key + ("=\"" + tail)))
      == Some([Attribute(key, Decoded(tail[..end]))] + SeenAttributes(tail[end + 1..]).value)
  {
    hide IndexFrom, NameOf, Decoded;
    var s := " " + (key + ("=\"" + tail));
    assert s[1..] == key + ("=\"" + tail);
    assert s[1 + |key|..] == "=\"" + tail;
    assert s[3 + |key|..] == tail;
  }

  lemma OpenTagSeen(name: string, attrs: seq<Attribute>, rest: string)
    requires Plain(name) && GoodAttributes(attrs)
    ensures Seen(OpenTag(name, attrs) + rest) == Before(Open(name, attrs), Seen(rest))
  {
    hide KEYS, SeenAttributes, PrintAttributes, GoodAttributes, NameOf, IndexFrom;
    var printed := PrintAttributes(attrs);
    AttributesHaveNoBrackets(attrs);
    AttributesSeen(attrs);
    AttributesStart(attrs);
    NameStops(name, printed);
    var html := OpenTag(name, attrs) + rest;
    var body := name + printed;
    assert html == "<" + body + ['>'] + rest;
    IndexAfter("<" + body, '>', rest);
    assert html[1..|body| + 1] == body && html[|body| + 2..] == rest && html[1] == name[0];
    assert body[|name|..] == printed;
  }

  lemma CloseTagSeen(name: string, rest: string)
    requires Plain(name)
    ensures Seen(CloseTag(name) + rest) == Before(Close(name), Seen(rest))
  {
    hide IndexFrom;
    var html := CloseTag(name) + rest;
    assert html == ("</" + name) + ['>'] + rest;
    IndexAfter("</" + name, '>', rest);
    assert html[2..|name| + 2] == name && html[|name| + 3..] == rest;
  }

  lemma {:induction false} NodeSeen(node: Node, rest: string, inAnchor: bool)
    requires GoodNode(node, inAnchor) && Seen(rest).Some?
    ensures Seen(PrintNode(node) + rest) == Some(NodeEvents(node) + Seen(rest).value)
    decreases node, 0
  {
    hide Seen, OpenTag, CloseTag, Plain, GoodAttributes, NAMES, VOID_NAMES;
    match node
    case Text(text) => TextSeen(text, rest);
    case Void(name, attrs) => OpenTagSeen(name, attrs, rest);
    case Element(name, attrs, kids) =>
      var inner := Print(kids) + (CloseTag(name) + rest);
      assert PrintNode(node) + rest == OpenTag(name, attrs) + inner;
      CloseTagSeen(name, rest);
      NodesSeen(kids, CloseTag(name) + rest, inAnchor || name == "a");
      OpenTagSeen(name, attrs, inner);
      var shown := Events(kids) + ([Close(name)] + Seen(rest).value);
      assert [Open(name, attrs)] + shown == NodeEvents(node) + Seen(rest).value;
  }

  lemma {:induction false} NodesSeen(nodes: seq<Node>, rest: string, inAnchor: bool)
    requires Good(nodes, inAnchor) && Seen(rest).Some?
    ensures Seen(Print(nodes) + rest) == Some(Events(nodes) + Seen(rest).value)
    decreases nodes, 1
  {
    hide Seen, PrintNode, NodeEvents, GoodNode;
    if nodes == [] {
      assert Print(nodes) + rest == rest;
      assert Events(nodes) + Seen(rest).value == Seen(rest).value;
    } else {
      NodesSeen(nodes[1..], rest, inAnchor);
      NodeSeen(nodes[0], Print(nodes[1..]) + rest, inAnchor);
      assert Print(nodes) + rest == PrintNode(nodes[0]) + (Print(nodes[1..]) + rest);
      assert NodeEvents(nodes[0]) + (Events(nodes[1..]) + Seen(rest).value) == Events(nodes) + Seen(rest).value;
    }
  }

  /** The text of a good tree is read back as the tree. */
  lemma PrintIsRead(nodes: seq<Node>)
    requires Good(nodes, false)
    ensures Seen(Print(nodes)) == Some(Events(nodes))
  {
    hide Good, Print, Events;
    assert Seen("") == Some([]);
    NodesSeen(nodes, "", false);
    assert Print(nodes) + "" == Print(nodes);
    assert Events(nodes) + [] == Events(nodes);
  }
}

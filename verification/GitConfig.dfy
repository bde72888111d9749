/** The record of a project's git settings: a text with one hash per setting, and the exact
    difference between a record and the settings read now. Texts are byte sequences. */
module GitConfig {
  import opened Basics

  const HEADER := "v1\n"
  const WORKTREE_SUFFIX := " (worktree)"
  const ATTRIBUTES := ".git/info/attributes"

  datatype Setting = Setting(name: string, values: seq<string>)

  // ----- the patterns of names -----

  const PATTERNS := [
    "browser.*.cmd", "browser.*.path", "core.alternaterefscommand", "core.askpass", "core.editor", "core.fsmonitor",
    "core.gitproxy", "core.hookspath", "core.pager", "core.sshcommand", "credential.helper", "credential.*.helper",
    "diff.external", "diff.*.command", "diff.*.textconv", "difftool.*.cmd", "difftool.*.path", "filter.*.clean",
    "filter.*.process", "filter.*.smudge", "gc.recentobjectshook", "gpg.program", "gpg.*.defaultkeycommand",
    "gpg.*.program", "guitool.*.cmd", "help.browser", "hook.*.command", "hook.*.enabled", "hook.*.event",
    "imap.tunnel", "include.path", "includeif.*.path", "instaweb.browser", "instaweb.httpd",
    "interactive.difffilter", "lfs.customtransfer.*.args", "lfs.customtransfer.*.path",
    "lfs.standalonetransferagent", "man.*.cmd", "man.*.path", "merge.*.driver", "mergetool.*.cmd",
    "mergetool.*.path", "pager.*", "protocol.allow", "protocol.*.allow", "remote.*.proxy", "remote.*.receivepack",
    "remote.*.uploadpack", "remote.*.vcs", "sendemail.smtpserver", "sendemail.*.smtpserver", "sequence.editor",
    "submodule.*.update", "trailer.*.cmd", "trailer.*.command", "web.browser"
  ]

  predicate Matches(name: string, pattern: string) {
    var i := IndexFrom(pattern, '*', 0);
    if i == |pattern| then name == pattern
    else
      var pre, post := pattern[..i], pattern[i + 1..];
      |name| >= |pre| + |post| && pre <= name && EndsWith(name, post)
  }

  /** The star of a pattern stands for any text. */
  lemma StarIsAnyText(name: string, pre: string, post: string)
    requires '*' !in pre
    ensures Matches(name, pre + "*" + post) <==> exists middle: string :: name == pre + middle + post
  {
    var pattern := pre + "*" + post;
    IndexAfter(pre, '*', post);
    assert pattern == pre + ("*" + post);
    assert pattern[..|pre|] == pre && pattern[|pre| + 1..] == post;
    if Matches(name, pattern) {
      assert name == pre + name[|pre|..|name| - |post|] + post;
    }
  }

  predicate Listed(name: string, lower: string -> string) {
    exists k :: 0 <= k < |PATTERNS| && Matches(lower(name), PATTERNS[k])
  }

  // ----- the encoding of values -----

  /** Every value with its length before it. */
  function Encoded(values: seq<string>): string {
    if values == [] then "" else Decimal(|values[0]|) + ":" + values[0] + Encoded(values[1..])
  }

  function Decoded(text: string): seq<string>
    decreases |text|
  {
    var i := IndexFrom(text, ':', 0);
    var n := Value(text[..i]);
    if i + 1 + n > |text| then [] else [text[i + 1..i + 1 + n]] + Decoded(text[i + 1 + n..])
  }

  /** The encoding tells the values apart, whatever bytes they hold. */
  lemma {:induction false} EncodingIsDecodable(values: seq<string>)
    ensures Decoded(Encoded(values)) == values
  {
    hide Decoded, Decimal;
    if values == [] {
      NothingDecoded();
    } else {
      EncodingIsDecodable(values[1..]);
      FirstDecoded(values[0], Encoded(values[1..]));
    }
  }

  lemma NothingDecoded()
    ensures Decoded("") == []
  {
  }

  lemma FirstDecoded(v: string, rest: string)
    ensures Decoded(Decimal(|v|) + ":" + v + rest) == [v] + Decoded(rest)
  {
    hide Decimal, Value, IndexFrom;
    var head := Decimal(|v|);
    var text := head + ":" + v + rest;
    DecimalReads(|v|);
    assert text == head + ":" + (v + rest);
    IndexAfter(head, ':', v + rest);
    assert text[..|head|] == head;
    assert text[|head| + 1..|head| + 1 + |v|] == v;
    assert text[|head| + 1 + |v|..] == rest;
  }

  lemma EncodingIsInjective(a: seq<string>, b: seq<string>)
    requires Encoded(a) == Encoded(b)
    ensures a == b
  {
    EncodingIsDecodable(a);
    EncodingIsDecodable(b);
  }

  // ----- the record -----

  /** What the record needs of the hash: no two texts share one, and it has no separator in it. */
  ghost predicate IsHash(hash: string -> string) {
    && (forall a, b :: hash(a) == hash(b) ==> a == b)
    && forall a :: hash(a) != "" && ' ' !in hash(a) && '\n' !in hash(a)
  }

  function HashOf(s: Setting, hash: string -> string): string {
    hash(Encoded(s.values))
  }

  function Body(s: seq<Setting>, hash: string -> string): string {
    if s == [] then ""
    else Body(s[..|s| - 1], hash) + HashOf(s[|s| - 1], hash) + " " + s[|s| - 1].name + "\n"
  }

  method Digest(s: seq<Setting>, hash: string -> string) returns (text: string)
    ensures text == HEADER + Body(s, hash)
  {
    hide HashOf;
    text := HEADER;
    for i := 0 to |s|
      invariant text == HEADER + Body(s[..i], hash)
    {
      text := text + (HashOf(s[i], hash) + " " + s[i].name + "\n");
      assert s[..i + 1][..i] == s[..i];
    }
    assert s[..|s|] == s;
  }

  function Lines(s: string): (r: seq<string>)
    ensures r != []
    decreases |s|
  {
    var i := IndexFrom(s, '\n', 0);
    if i == |s| then [s] else [s[..i]] + Lines(s[i + 1..])
  }

  /** A line is a hash, a space and a name; a name may have spaces. Lines of a linked worktree's own
      settings are skipped when the check runs in another one. */
  function Noted(then_: map<string, string>, line: string, linked: bool): map<string, string> {
    var i := IndexFrom(line, ' ', 0);
    if i == |line| then then_
    else
      var name := line[i + 1..];
      if linked && EndsWith(name, WORKTREE_SUFFIX) then then_ else then_[name := line[..i]]
  }

  function NotedAll(lines: seq<string>, linked: bool): map<string, string> {
    if lines == [] then map[] else Noted(NotedAll(lines[..|lines| - 1], linked), lines[|lines| - 1], linked)
  }

  /** The hashes that a record holds; one without the header holds none. */
  function Recorded(record: string, linked: bool): map<string, string> {
    if HEADER <= record then NotedAll(Lines(record[|HEADER|..]), linked) else map[]
  }

  // ----- the difference -----

  predicate Distinct(s: seq<Setting>) {
    forall i, j :: 0 <= i < j < |s| ==> s[i].name != s[j].name
  }

  function Names(s: seq<Setting>): set<string> {
    set k | 0 <= k < |s| :: s[k].name
  }

  predicate Less(a: string, b: string) {
    if b == "" then false
    else if a == "" then true
    else a[0] < b[0] || (a[0] == b[0] && Less(a[1..], b[1..]))
  }

  /** The names in byte order, each once. */
  ghost predicate Lists(r: seq<string>, names: set<string>) {
    (forall i, j :: 0 <= i < j < |r| ==> Less(r[i], r[j])) && (forall n :: n in r <==> n in names)
  }

  function ChangedNames(s: seq<Setting>, then_: map<string, string>, hash: string -> string): set<string> {
    (set k | 0 <= k < |s| && (s[k].name !in then_ || then_[s[k].name] != HashOf(s[k], hash)) :: s[k].name)
    + (then_.Keys - Names(s))
  }

  lemma {:induction false} NotLess(a: string)
    ensures !Less(a, a)
  {
    if a != "" {
      NotLess(a[1..]);
    }
  }

  lemma {:induction false} LessIsOrder(a: string, b: string, c: string)
    ensures !Less(a, a)
    ensures Less(a, b) && Less(b, c) ==> Less(a, c)
    ensures a == b || Less(a, b) || Less(b, a)
    decreases |a| + |b| + |c|
  {
    NotLess(a);
    if a != "" && b != "" {
      LessIsOrder(a[1..], b[1..], if c == "" then "" else c[1..]);
      assert a[0] == b[0] && a[1..] == b[1..] ==> a == [a[0]] + a[1..] == [b[0]] + b[1..] == b;
    }
  }

  function Inserted(r: seq<string>, n: string): seq<string> {
    if r == [] || Less(n, r[0]) then [n] + r else [r[0]] + Inserted(r[1..], n)
  }

  lemma {:induction false} InsertKeepsOrder(r: seq<string>, n: string, names: set<string>)
    requires Lists(r, names) && n !in names
    ensures Lists(Inserted(r, n), names + {n})
  {
    hide Less;
    if r == [] {
    } else if Less(n, r[0]) {
      forall j | 0 < j < |r|
        ensures Less(n, r[j])
      {
        LessIsOrder(n, r[0], r[j]);
      }
    } else {
      assert r[0] in names;
      LessIsOrder(n, r[0], "");
      forall k | k in r[1..]
        ensures k != r[0] && Less(r[0], k)
      {
        var j :| 0 <= j < |r| - 1 && r[1..][j] == k;
        assert Less(r[0], r[j + 1]);
        LessIsOrder(k, k, "");
      }
      assert r == [r[0]] + r[1..];
      InsertKeepsOrder(r[1..], n, names - {r[0]});
    }
  }

  method Sort(names: set<string>) returns (r: seq<string>)
    ensures Lists(r, names)
  {
    hide Less;
    r := [];
    var left := names;
    while left != {}
      invariant left <= names && Lists(r, names - left)
      decreases |left|
    {
      var n :| n in left;
      InsertKeepsOrder(r, n, names - left);
      assert names - (left - {n}) == names - left + {n};
      r := Inserted(r, n);
      left := left - {n};
    }
  }

  /** The names whose settings differ from the record, in order. */
  method Changed(s: seq<Setting>, record: string, linked: bool, hash: string -> string) returns (r: seq<string>)
    requires Distinct(s) && IsHash(hash)
    ensures Lists(r, ChangedNames(s, Recorded(record, linked), hash))
  {
    var then_ := Parse(record, linked);
    var changed: set<string>;
    changed, then_ := Compare(s, then_, hash);
    changed := AddAll(changed, then_);
    r := Sort(changed);
  }

  method AddAll(changed: set<string>, then_: map<string, string>) returns (r: set<string>)
    ensures r == changed + then_.Keys
  {
    r := changed;
    var left := then_.Keys;
    while left != {}
      invariant r + left == changed + then_.Keys
      decreases |left|
    {
      var name :| name in left;
      r := r + {name};
      left := left - {name};
    }
  }

  method Parse(record: string, linked: bool) returns (then_: map<string, string>)
    ensures then_ == Recorded(record, linked)
  {
    hide Lines, Noted;
    then_ := map[];
    if !(HEADER <= record) {
      return;
    }
    var lines := Lines(record[|HEADER|..]);
    for i := 0 to |lines|
      invariant then_ == NotedAll(lines[..i], linked)
    {
      then_ := Noted(then_, lines[i], linked);
      assert lines[..i + 1][..i] == lines[..i];
    }
    assert lines[..|lines|] == lines;
  }

  method Compare(s: seq<Setting>, recorded: map<string, string>, hash: string -> string)
    returns (changed: set<string>, left: map<string, string>)
    requires Distinct(s) && IsHash(hash)
    ensures left == recorded - Names(s)
    ensures changed + left.Keys == ChangedNames(s, recorded, hash)
  {
    changed, left := {}, recorded;
    for i := 0 to |s|
      invariant left == recorded - Names(s[..i])
      invariant changed ==
        set k | 0 <= k < i && (s[k].name !in recorded || recorded[s[k].name] != HashOf(s[k], hash)) :: s[k].name
    {
      hide HashOf, IsHash;
      NewName(s, i);
      if s[i].name !in left || left[s[i].name] != HashOf(s[i], hash) {
        changed := changed + {s[i].name};
      }
      left := left - {s[i].name};
    }
    assert s[..|s|] == s;
  }

  lemma NewName(s: seq<Setting>, i: nat)
    requires Distinct(s) && i < |s|
    ensures s[i].name !in Names(s[..i]) && Names(s[..i + 1]) == Names(s[..i]) + {s[i].name}
  {
    assert forall k :: 0 <= k < i ==> s[..i + 1][k] == s[..i][k] == s[k];
    assert s[..i + 1][i] == s[i];
  }

  // ----- a record read back -----

  predicate OneLine(s: seq<Setting>) {
    forall k :: 0 <= k < |s| ==> '\n' !in s[k].name
  }

  function ValuesIn(s: seq<Setting>, name: string): Option<seq<string>> {
    if s == [] then None
    else if s[|s| - 1].name == name then Some(s[|s| - 1].values)
    else ValuesIn(s[..|s| - 1], name)
  }

  /** A last line without its newline so far, and one more line. */
  lemma {:induction false} LinesMore(a: string, line: string, before: seq<string>)
    requires Lines(a) == before + [""] && '\n' !in line
    ensures Lines(a + line + "\n") == before + [line, ""]
    decreases |a|
  {
    hide Lines;
    LinesSplit(a);
    var i := IndexFrom(a, '\n', 0);
    if i == |a| {
      assert Lines(a) == [a] && |before + [""]| == 1 && (before + [""])[0] == "";
      HeadLine(line, "");
      assert a + line + "\n" == line + "\n" + "";
    } else {
      var rest := a[i + 1..];
      HeadLine(a[..i], rest);
      assert a == a[..i] + "\n" + rest;
      SplitBefore(a[..i], Lines(rest), before);
      LinesMore(rest, line, before[1..]);
      HeadLine(a[..i], rest + line + "\n");
      assert a + line + "\n" == a[..i] + "\n" + (rest + line + "\n");
      assert [a[..i]] + (before[1..] + [line, ""]) == before + [line, ""];
    }
  }

  lemma HeadLine(x: string, rest: string)
    requires '\n' !in x
    ensures Lines(x + "\n" + rest) == [x] + Lines(rest)
  {
    IndexAfter(x, '\n', rest);
    assert x + "\n" + rest == x + ("\n" + rest);
    assert (x + "\n" + rest)[..|x|] == x && (x + "\n" + rest)[|x| + 1..] == rest;
  }

  lemma SplitBefore(x: string, r: seq<string>, before: seq<string>)
    requires [x] + r == before + [""] && r != []
    ensures before != [] && before[0] == x && r == before[1..] + [""]
  {
    assert |before| == |r|;
    assert ([x] + r)[0] == before[0];
    assert r == ([x] + r)[1..] == (before + [""])[1..];
  }

  lemma LinesSplit(a: string)
    ensures var i := IndexFrom(a, '\n', 0);
      Lines(a) == if i == |a| then [a] else [a[..i]] + Lines(a[i + 1..])
  {
    hide IndexFrom;
  }

  function LineOf(s: Setting, hash: string -> string): string {
    HashOf(s, hash) + " " + s.name
  }

  function LinesOf(s: seq<Setting>, hash: string -> string): seq<string> {
    if s == [] then [] else LinesOf(s[..|s| - 1], hash) + [LineOf(s[|s| - 1], hash)]
  }

  lemma {:induction false} BodyLines(s: seq<Setting>, hash: string -> string)
    requires OneLine(s) && IsHash(hash)
    ensures Lines(Body(s, hash)) == LinesOf(s, hash) + [""]
  {
    hide HashOf;
    if s != [] {
      var front, last := s[..|s| - 1], s[|s| - 1];
      BodyLines(front, hash);
      LineHasNoNewline(last, hash);
      LinesMore(Body(front, hash), LineOf(last, hash), LinesOf(front, hash));
      assert Body(s, hash) == Body(front, hash) + LineOf(last, hash) + "\n";
      assert LinesOf(front, hash) + [LineOf(last, hash), ""] == LinesOf(s, hash) + [""];
    }
  }

  lemma LineHasNoNewline(s: Setting, hash: string -> string)
    requires '\n' !in s.name && IsHash(hash)
    ensures '\n' !in LineOf(s, hash)
  {
  }

  /** The line of a setting gives back its name and hash. */
  lemma LineReads(s: Setting, hash: string -> string, then_: map<string, string>, linked: bool)
    requires IsHash(hash)
    ensures Noted(then_, LineOf(s, hash), linked)
            == if linked && EndsWith(s.name, WORKTREE_SUFFIX) then then_ else then_[s.name := HashOf(s, hash)]
  {
    hide EndsWith;
    var h := HashOf(s, hash);
    assert ' ' !in h;
    IndexAfter(h, ' ', s.name);
    assert LineOf(s, hash) == h + (" " + s.name);
    assert LineOf(s, hash)[..|h|] == h && LineOf(s, hash)[|h| + 1..] == s.name;
  }

  /** What a name's recorded hash is. */
  ghost predicate Tells(then_: map<string, string>, s: seq<Setting>, hash: string -> string, linked: bool) {
    forall n: string :: var v := ValuesIn(s, n);
      (if n in then_ then Some(then_[n]) else None)
      == if v == None || (linked && EndsWith(n, WORKTREE_SUFFIX)) then None else Some(hash(Encoded(v.value)))
  }

  lemma {:induction false} LinesTell(s: seq<Setting>, hash: string -> string, linked: bool)
    requires IsHash(hash)
    ensures Tells(NotedAll(LinesOf(s, hash), linked), s, hash, linked)
  {
    hide EndsWith, Encoded, IsHash, Noted, LineOf;
    if s != [] {
      var front, last := s[..|s| - 1], s[|s| - 1];
      LinesTell(front, hash, linked);
      var lines := LinesOf(s, hash);
      assert lines[..|lines| - 1] == LinesOf(front, hash);
      LineReads(last, hash, NotedAll(LinesOf(front, hash), linked), linked);
    }
  }

  /** Reading a record back gives the hash of every recorded setting. */
  lemma RecordTells(s: seq<Setting>, hash: string -> string, linked: bool)
    requires OneLine(s) && IsHash(hash)
    ensures Tells(Recorded(HEADER + Body(s, hash), linked), s, hash, linked)
  {
    hide Lines, Body, IsHash, Tells;
    assert (HEADER + Body(s, hash))[|HEADER|..] == Body(s, hash);
    BodyLines(s, hash);
    LinesTell(s, hash, linked);
    var lines := LinesOf(s, hash);
    assert (lines + [""])[..|lines|] == lines;
    NoName(NotedAll(lines, linked), linked);
  }

  lemma NoName(then_: map<string, string>, linked: bool)
    ensures Noted(then_, "", linked) == then_
  {
  }

  lemma {:induction false} ValuesAt(s: seq<Setting>, k: nat)
    requires Distinct(s) && k < |s|
    ensures ValuesIn(s, s[k].name) == Some(s[k].values)
  {
    if k < |s| - 1 {
      ValuesAt(s[..|s| - 1], k);
    }
  }

  lemma {:induction false} ValuesOutside(s: seq<Setting>, name: string)
    requires name !in Names(s)
    ensures ValuesIn(s, name) == None
  {
    if s != [] {
      var front := s[..|s| - 1];
      assert s[|s| - 1].name in Names(s);
      assert forall k :: 0 <= k < |front| ==> front[k] == s[k];
      assert forall n :: n in Names(front) ==> n in Names(s);
      ValuesOutside(front, name);
    }
  }

  /** Against the record of t, exactly the names whose values differ are reported; in a linked
      worktree, recorded worktree settings are ignored and current ones always reported. */
  lemma ChangedExactlyWhen(s: seq<Setting>, t: seq<Setting>, hash: string -> string, linked: bool, n: string)
    requires Distinct(s) && OneLine(t) && IsHash(hash)
    ensures n in ChangedNames(s, Recorded(HEADER + Body(t, hash), linked), hash) <==>
      if linked && EndsWith(n, WORKTREE_SUFFIX) then n in Names(s) else ValuesIn(s, n) != ValuesIn(t, n)
  {
    hide Body, Recorded, EndsWith;
    var then_ := Recorded(HEADER + Body(t, hash), linked);
    RecordTells(t, hash, linked);
    if n in Names(s) {
      var k :| 0 <= k < |s| && s[k].name == n;
      ValuesAt(s, k);
      InChanged(s, then_, hash, k);
      if ValuesIn(t, n).Some? && hash(Encoded(s[k].values)) == hash(Encoded(ValuesIn(t, n).value)) {
        EncodingIsInjective(s[k].values, ValuesIn(t, n).value);
      }
    } else {
      ValuesOutside(s, n);
      assert n in ChangedNames(s, then_, hash) <==> n in then_;
    }
  }

  lemma InChanged(s: seq<Setting>, then_: map<string, string>, hash: string -> string, k: nat)
    requires Distinct(s) && k < |s|
    ensures s[k].name in ChangedNames(s, then_, hash) <==> s[k].name !in then_ || then_[s[k].name] != HashOf(s[k], hash)
  {
    hide HashOf;
    assert s[k].name in Names(s);
  }

  /** A record of another format, or none, makes every current setting a change. */
  lemma NoRecordChangesAll(s: seq<Setting>, record: string, linked: bool, hash: string -> string)
    requires !(HEADER <= record)
    ensures ChangedNames(s, Recorded(record, linked), hash) == Names(s)
  {
    hide HashOf;
  }

  // ----- reading the settings -----

  /** The attributes file: absent, unreadable, or its content. */
  datatype Content = Missing | Unreadable | Text(text: string)

  /** The setting of the k-th pair of fields, a scope and a name with its value, when it counts. */
  function PairAt(fields: seq<string>, k: nat, lower: string -> string): Option<(string, string)>
    requires 2 * k + 1 < |fields|
  {
    var scope, entry := fields[2 * k], fields[2 * k + 1];
    var i := IndexFrom(entry, '\n', 0);
    var name := entry[..i];
    if (scope != "local" && scope != "worktree") || !Listed(name, lower) then None
    else Some((if scope == "worktree" then name + WORKTREE_SUFFIX else name,
               if i < |entry| then entry[i + 1..] else "true"))
  }

  /** The values of a name in the first k pairs, in order. */
  function ValuesOf(fields: seq<string>, k: nat, name: string, lower: string -> string): seq<string>
    requires 2 * k <= |fields|
  {
    if k == 0 then []
    else
      var pair := PairAt(fields, k - 1, lower);
      ValuesOf(fields, k - 1, name, lower) + if pair.Some? && pair.value.0 == name then [pair.value.1] else []
  }

  function TrimNewlines(s: string): string {
    if s != "" && s[|s| - 1] == '\n' then TrimNewlines(s[..|s| - 1]) else s
  }

  /** What a name is set to: the lines of the attributes file, or the values git lists. */
  function Expected(fields: seq<string>, content: Content, name: string, lower: string -> string): Option<seq<string>> {
    if name == ATTRIBUTES && content.Text? && content.text != "" then Some(Lines(TrimNewlines(content.text)))
    else
      var values := ValuesOf(fields, |fields| / 2, name, lower);
      if values == [] then None else Some(values)
  }

  function Found(found: map<string, seq<string>>, name: string): seq<string> {
    if name in found then found[name] else []
  }

  /** The settings have distinct one-line names in order, each with what it is set to. */
  method ReadSettings(fields: Option<seq<string>>, content: Content, lower: string -> string)
    returns (r: Option<seq<Setting>>)
    ensures r == None <==> fields == None || content.Unreadable?
    ensures r.Some? ==>
      && Distinct(r.value) && OneLine(r.value)
      && (forall i, j :: 0 <= i < j < |r.value| ==> Less(r.value[i].name, r.value[j].name))
      && forall n :: ValuesIn(r.value, n) == Expected(fields.value, content, n, lower)
  {
    hide Less, Lines, Listed, IndexFrom;
    if fields == None {
      return None;
    }
    var found := Collect(fields.value, lower);
    if content.Unreadable? {
      return None;
    }
    if content.Text? && content.text != "" {
      found := found[ATTRIBUTES := Lines(TrimNewlines(content.text))];
      AttributesIsOneLine();
    }
    var names := Sort(found.Keys);
    var s: seq<Setting> := [];
    for i := 0 to |names|
      invariant |s| == i && forall k :: 0 <= k < i ==> s[k] == Setting(names[k], found[names[k]])
    {
      s := s + [Setting(names[i], found[names[i]])];
    }
    SettingsOf(s, names, found);
    return Some(s);
  }

  lemma AttributesIsOneLine()
    ensures '\n' !in ATTRIBUTES
  {
  }

  method Collect(fields: seq<string>, lower: string -> string) returns (found: map<string, seq<string>>)
    ensures forall n :: Found(found, n) == ValuesOf(fields, |fields| / 2, n, lower)
    ensures forall n :: n in found ==> found[n] != [] && '\n' !in n
  {
    hide PairAt;
    found := map[];
    var i := 0;
    ghost var k := 0;
    while i + 1 < |fields|
      invariant i == 2 * k <= |fields|
      invariant forall n :: Found(found, n) == ValuesOf(fields, k, n, lower)
      invariant forall n :: n in found ==> found[n] != [] && '\n' !in n
    {
      assert i / 2 == k;
      var pair := PairAt(fields, i / 2, lower);
      PairName(fields, k, lower);
      if pair.Some? {
        found := found[pair.value.0 := Found(found, pair.value.0) + [pair.value.1]];
      }
      i := i + 2;
      k := k + 1;
    }
    assert |fields| / 2 == k;
  }

  lemma PairName(fields: seq<string>, k: nat, lower: string -> string)
    requires 2 * k + 1 < |fields|
    ensures PairAt(fields, k, lower).Some? ==> '\n' !in PairAt(fields, k, lower).value.0
  {
    hide Listed;
  }

  lemma SettingsOf(s: seq<Setting>, names: seq<string>, found: map<string, seq<string>>)
    requires Lists(names, found.Keys) && |s| == |names|
    requires forall k :: 0 <= k < |s| ==> s[k] == Setting(names[k], found[names[k]])
    ensures Distinct(s)
    ensures forall i, j :: 0 <= i < j < |s| ==> Less(s[i].name, s[j].name)
    ensures forall n :: ValuesIn(s, n) == if n in found then Some(found[n]) else None
  {
    hide Less;
    forall i, j | 0 <= i < j < |s|
      ensures s[i].name != s[j].name
    {
      NotLess(names[i]);
    }
    forall n: string
      ensures ValuesIn(s, n) == if n in found then Some(found[n]) else None
    {
      if n in found {
        var k :| 0 <= k < |names| && names[k] == n;
        ValuesAt(s, k);
      } else {
        ValuesOutside(s, n);
      }
    }
  }
}

/** The table of attempts and its event log. Each method is one transaction: it reads a row, updates
    it and appends events, or changes nothing. */
module Attempts {
  import opened Basics

  // ----- names -----

  /** tN-aM. */
  function Name(task: nat, id: nat): string {
    "t" + Decimal(task) + ("-" + ("a" + Decimal(id)))
  }

  /** What comes before the first separator. */
  function Before(s: string, sep: char): string {
    if s == "" || s[0] == sep then "" else [s[0]] + Before(s[1..], sep)
  }

  lemma {:induction false} BeforeOf(x: string, y: string, sep: char)
    requires sep !in x && y != "" && y[0] == sep
    ensures Before(x + y, sep) == x
  {
    if x == "" {
      assert x + y == y;
    } else {
      assert (x + y)[1..] == x[1..] + y;
      BeforeOf(x[1..], y, sep);
    }
  }

  /** What comes after the last separator. */
  function After(s: string, sep: char): string {
    if s == "" || s[|s| - 1] == sep then "" else After(s[..|s| - 1], sep) + [s[|s| - 1]]
  }

  lemma {:induction false} AfterOf(x: string, y: string, sep: char)
    requires sep !in y && x != "" && x[|x| - 1] == sep
    ensures After(x + y, sep) == y
  {
    if y == "" {
      assert x + y == x;
    } else {
      assert (x + y)[..|x + y| - 1] == x + y[..|y| - 1];
      AfterOf(x, y[..|y| - 1], sep);
    }
  }

  lemma NameReads(t: nat, a: nat)
    ensures Before(Name(t, a), '-') == "t" + Decimal(t)
    ensures After(Name(t, a), '-') == "a" + Decimal(a)
    ensures '/' !in Name(t, a)
  {
    hide Decimal, Before, After;
    DecimalReads(t);
    DecimalReads(a);
    BeforeOf("t" + Decimal(t), "-" + ("a" + Decimal(a)), '-');
    AfterOf("t" + Decimal(t) + "-", "a" + Decimal(a), '-');
    assert Name(t, a) == "t" + Decimal(t) + "-" + ("a" + Decimal(a));
  }

  lemma NameIsUnique(t: nat, a: nat, t': nat, a': nat)
    requires Name(t, a) == Name(t', a')
    ensures t == t' && a == a'
  {
    hide Decimal, Value, Name, Before, After;
    NameReads(t, a);
    NameReads(t', a');
    assert Decimal(t) == ("t" + Decimal(t))[1..] && Decimal(t') == ("t" + Decimal(t'))[1..];
    assert Decimal(a) == ("a" + Decimal(a))[1..] && Decimal(a') == ("a" + Decimal(a'))[1..];
    DecimalReads(t);
    DecimalReads(t');
    DecimalReads(a);
    DecimalReads(a');
  }

  function BranchOf(fleet: string, task: nat, id: nat): string {
    "hand/" + fleet + "/" + Name(task, id)
  }

  function Join(root: string, name: string): string {
    root + "/" + name
  }

  /** A worktree names its attempt, whatever the roots are, and so does the branch of a first attempt. */
  lemma PathsAreUnique(root: string, root': string, fleet: string, t: nat, a: nat, t': nat, a': nat)
    ensures Join(root, Name(t, a)) == Join(root', Name(t', a')) ==> t == t' && a == a'
    ensures BranchOf(fleet, t, a) == BranchOf(fleet, t', a') ==> t == t' && a == a'
  {
    hide Name;
    NameReads(t, a);
    NameReads(t', a');
    AfterOf(root + "/", Name(t, a), '/');
    AfterOf(root' + "/", Name(t', a'), '/');
    AfterOf("hand/" + fleet + "/", Name(t, a), '/');
    AfterOf("hand/" + fleet + "/", Name(t', a'), '/');
    if Name(t, a) == Name(t', a') {
      NameIsUnique(t, a, t', a');
    }
  }

  // ----- rows and events -----

  datatype Terminal = Terminal(generation: string, id: string, pane: string, pid: int, marker: string)

  datatype Attempt = Attempt(
    task: nat, harness: string, model: string, effort: string, argv: seq<string>,
    worktree: string, branch: string, status: string, terminal: Terminal, reason: string, continues: nat,
    createdAt: string, endedAt: string, cleanedAt: string, approve: string, access: string, kept: string,
    screen: string)

  datatype Event = Event(at: string, kind: string, task: nat, detail: string)

  const LAUNCHING := "launching"
  const RUNNING := "running"
  const HARNESSES := {"claude", "codex", "opencode", "agy", "copilot", "omp"}
  const STATUSES := {"launching", "running", "exited", "stopped", "interrupted", "failed"}
  const NO_TERMINAL := Terminal("", "", "", 0, "")

  predicate Live(a: Attempt) {
    a.status == "launching" || a.status == "running"
  }

  function Ends(status: string): set<string> {
    if status == "launching" then {"failed"}
    else if status == "running" then {"exited", "stopped", "interrupted"}
    else {}
  }

  datatype DB = DB(attempts: map<nat, Attempt>, tasks: map<nat, string>, fleet: string, events: seq<Event>)

  datatype Error = Invalid | NotFound | Conflict

  datatype Outcome = Done(db: DB) | Refused(error: Error)

  predicate HasLive(db: DB, task: nat) {
    exists id :: id in db.attempts && db.attempts[id].task == task && Live(db.attempts[id])
  }

  lemma {:induction false} MaxExists(s: set<nat>)
    requires s != {}
    ensures exists x :: x in s && forall y :: y in s ==> y <= x
    decreases |s|
  {
    var x :| x in s;
    var rest := s - {x};
    if rest == {} {
      assert s == {x};
      IsMax(s, rest, x, x);
    } else {
      MaxExists(rest);
      var m :| m in rest && forall y :: y in rest ==> y <= m;
      IsMax(s, rest, x, if m < x then x else m);
    }
  }

  lemma IsMax(s: set<nat>, rest: set<nat>, x: nat, top: nat)
    requires s == rest + {x} || s - {x} == rest
    requires x <= top && top in s && forall y :: y in rest ==> y <= top
    ensures exists t :: t in s && forall y :: y in s ==> y <= t
  {
    assert forall y :: y in s ==> y in rest || y == x;
    assert top in s && forall y :: y in s ==> y <= top;
  }

  /** The largest id, or 0. */
  function MaxId(s: set<nat>): (r: nat)
    ensures s != {} ==> r in s
    ensures forall x :: x in s ==> x <= r
  {
    if s == {} then 0
    else
      MaxExists(s);
      var x :| x in s && forall y :: y in s ==> y <= x;
      x
  }

  function Ref(id: nat): string {
    "a" + Decimal(id)
  }

  function Emitted(db: DB, at: string, kind: string, task: nat, detail: string): DB {
    db.(events := db.events + [Event(at, kind, task, detail)])
  }

  function Stored(db: DB, id: nat, a: Attempt): DB {
    db.(attempts := db.attempts[id := a])
  }

  function Noted(id: nat, note: string): string {
    Ref(id) + ": " + note
  }

  // ----- the operations on values -----

  datatype Spec = Spec(
    task: nat, harness: string, model: string, effort: string, argv: seq<string>,
    continues: nat, approve: string, access: string)

  predicate SpecOk(s: Spec) {
    s.harness in HARNESSES && s.approve in {"", "never", "ask"} && s.access in {"", "open", "readonly"}
  }

  function Continuing(db: DB, s: Spec): Option<Error> {
    if s.continues == 0 then None
    else if s.continues !in db.attempts then Some(NotFound)
    else
      var prev := db.attempts[s.continues];
      if prev.task != s.task then Some(Invalid)
      else if Live(prev) || prev.cleanedAt == "" then Some(Conflict)
      else None
  }

  function NewAttempt(db: DB, s: Spec, root: string, now: string): Attempt
    requires s.continues == 0 || s.continues in db.attempts
  {
    var id := MaxId(db.attempts.Keys) + 1;
    var name := Name(s.task, id);
    var branch := if s.continues != 0 then db.attempts[s.continues].branch else "";
    Attempt(s.task, s.harness, s.model, s.effort, s.argv, Join(root, name),
            if branch == "" then BranchOf(db.fleet, s.task, id) else branch,
            LAUNCHING, NO_TERMINAL, "", s.continues, now, "", "",
            if s.approve == "" then "never" else s.approve, if s.access == "" then "open" else s.access, "", "")
  }

  /** What is noted of a model that was asked for. */
  function AskedModel(model: string, effort: string): string {
    if effort == "" then model else model + "#" + effort
  }

  function AddAttempt(db: DB, s: Spec, root: string, now: string): Outcome {
    if !SpecOk(s) then Refused(Invalid)
    else if s.task !in db.tasks then Refused(NotFound)
    else if db.tasks[s.task] != "active" then Refused(Conflict)
    else if Continuing(db, s).Some? then Refused(Continuing(db, s).value)
    else if HasLive(db, s.task) then Refused(Conflict)
    else if db.fleet == "" then Refused(NotFound)
    else if s.argv == [] then Refused(Invalid)
    else
      var id := MaxId(db.attempts.Keys) + 1;
      var a := NewAttempt(db, s, root, now);
      var added := Emitted(Stored(db, id, a), now, "attempt." + LAUNCHING, s.task, Ref(id));
      Done(if s.harness == "opencode" && s.model != "" then
             Emitted(added, now, "model.requested", s.task, Noted(id, AskedModel(s.model, s.effort)))
           else added)
  }

  function AttemptRunning(db: DB, id: nat, t: Terminal, now: string): Outcome {
    if id !in db.attempts then Refused(NotFound)
    else
      var a := db.attempts[id];
      if a.status != LAUNCHING then Refused(Conflict)
      else
        Done(Emitted(Stored(db, id, a.(status := RUNNING, terminal := t)), now, "attempt." + RUNNING, a.task,
                     Noted(id, "pane " + t.pane)))
  }

  predicate Space(c: char) {
    c in " \t\n\U{B}\U{C}\r"
  }

  /** The words between the white space. */
  function Words(s: string): (words: seq<string>)
    ensures s != "" && !Space(s[0]) ==> words != []
  {
    if s == "" then []
    else
      var rest := Words(s[1..]);
      if Space(s[0]) then rest
      else if |s| > 1 && !Space(s[1]) then [[s[0]] + rest[0]] + rest[1..]
      else [[s[0]]] + rest
  }

  function Spaced(words: seq<string>): string {
    if words == [] then ""
    else if |words| == 1 then words[0]
    else words[0] + " " + Spaced(words[1..])
  }

  /** What is noted of a model that changed, with one space between its words. */
  function ModelNote(id: nat, model: string, effort: string): string {
    Spaced(Words(Noted(id, model + " " + effort)))
  }

  function AttemptSwitched(db: DB, id: nat, t: Terminal, to: string, model: string, effort: string,
                           requested: bool, now: string): Outcome {
    if id !in db.attempts then Refused(NotFound)
    else
      var a := db.attempts[id];
      if a.status != RUNNING then Refused(Conflict)
      else
        var d1 := Emitted(Stored(db, id, a.(terminal := t, model := model, effort := effort)), now, "attempt.switched",
                          a.task, Noted(id, to + ", pane " + t.pane));
        var d2 := if a.model == model && a.effort == effort then d1
                  else Emitted(d1, now, "model.changed", a.task, ModelNote(id, model, effort));
        Done(if requested && a.harness == "opencode" && model != "" then
               Emitted(d2, now, "model.requested", a.task, Noted(id, AskedModel(model, effort)))
             else d2)
  }

  function EndAttempt(db: DB, id: nat, to: string, reason: string, screen: string, now: string): Outcome {
    if id !in db.attempts then Refused(NotFound)
    else
      var a := db.attempts[id];
      if to !in Ends(a.status) then Refused(Conflict)
      else
        Done(Emitted(Stored(db, id, a.(status := to, reason := reason, endedAt := now, screen := screen)), now,
                     "attempt." + to, a.task, Noted(id, reason)))
  }

  function CleanAttempt(db: DB, id: nat, why: string, now: string): Outcome {
    if id !in db.attempts then Refused(NotFound)
    else
      var a := db.attempts[id];
      if Live(a) || a.cleanedAt != "" then Refused(Conflict)
      else
        Done(Emitted(Stored(db, id, a.(cleanedAt := now)), now, "attempt.cleaned", a.task,
                     if why == "" then Ref(id) else Noted(id, why)))
  }

  function KeepAttempt(db: DB, id: nat, reason: string, now: string): Outcome {
    if id !in db.attempts then Refused(NotFound)
    else
      var a := db.attempts[id];
      if a.kept == reason || a.cleanedAt != "" then Done(db)
      else Done(Emitted(Stored(db, id, a.(kept := reason)), now, "attempt.kept", a.task, Noted(id, reason)))
  }

  function NoteAttempt(db: DB, id: nat, kind: string, detail: string, now: string): Outcome {
    if id !in db.attempts then Refused(NotFound)
    else
      var a := db.attempts[id];
      if !Live(a) && kind in {"blocked", "working", "limited", "long", "denied"} then Refused(Conflict)
      else Done(Emitted(db, now, "attempt." + kind, a.task, Noted(id, detail)))
  }

  /** A task is done or abandoned only without a live attempt; unread reports are not modelled. */
  function Transition(db: DB, task: nat, to: string, now: string): Outcome {
    if to !in {"inbox", "active", "done", "abandoned"} then Refused(Invalid)
    else if task !in db.tasks then Refused(NotFound)
    else
      var from := db.tasks[task];
      if !((from == "inbox" && to in {"active", "abandoned"}) || (from == "active" && to in {"done", "abandoned"})) then
        Refused(Conflict)
      else if to in {"done", "abandoned"} && HasLive(db, task) then Refused(Conflict)
      else Done(Emitted(db.(tasks := db.tasks[task := to]), now, "task." + to, task, from + "->" + to))
  }

  // ----- the store -----

  /** The new state is the outcome's, or nothing changed. */
  ghost predicate Follows(o: Outcome, before: DB, after: DB, r: Option<Error>) {
    match o
    case Done(db) => r == None && after == db
    case Refused(e) => r == Some(e) && after == before
  }

  class Store {
    var attempts: map<nat, Attempt>
    var tasks: map<nat, string>
    var fleet: string
    var events: seq<Event>

    function Model(): DB
      reads this
    {
      DB(attempts, tasks, fleet, events)
    }

    method Emit(at: string, kind: string, task: nat, detail: string)
      modifies `events
      ensures Model() == Emitted(old(Model()), at, kind, task, detail)
    {
      events := events + [Event(at, kind, task, detail)];
    }

    method Add(s: Spec, root: string, now: string) returns (r: Option<Error>)
      modifies this
      ensures Follows(AddAttempt(old(Model()), s, root, now), old(Model()), Model(), r)
    {
      hide Decimal, Join, BranchOf, Name, HasLive, Ref, Noted, MaxId;
      if s.harness !in HARNESSES {
        return Some(Invalid);
      }
      var approve := if s.approve == "" then "never" else s.approve;
      if approve != "never" && approve != "ask" {
        return Some(Invalid);
      }
      var access := if s.access == "" then "open" else s.access;
      if access != "open" && access != "readonly" {
        return Some(Invalid);
      }
      if s.task !in tasks {
        return Some(NotFound);
      }
      if tasks[s.task] != "active" {
        return Some(Conflict);
      }
      var branch := "";
      if s.continues != 0 {
        if s.continues !in attempts {
          return Some(NotFound);
        }
        var prev := attempts[s.continues];
        if prev.task != s.task {
          return Some(Invalid);
        }
        if Live(prev) {
          return Some(Conflict);
        }
        if prev.cleanedAt == "" {
          return Some(Conflict);
        }
        branch := prev.branch;
      }
      if HasLive(Model(), s.task) {
        return Some(Conflict);
      }
      if fleet == "" {
        return Some(NotFound);
      }
      var id := MaxId(attempts.Keys) + 1;
      var name := Name(s.task, id);
      if branch == "" {
        branch := BranchOf(fleet, s.task, id);
      }
      if s.argv == [] {
        return Some(Invalid);
      }
      attempts := attempts[id := Attempt(s.task, s.harness, s.model, s.effort, s.argv, Join(root, name), branch,
        LAUNCHING, NO_TERMINAL, "", s.continues, now, "", "", approve, access, "", "")];
      Emit(now, "attempt." + LAUNCHING, s.task, Ref(id));
      if s.harness == "opencode" && s.model != "" {
        Emit(now, "model.requested", s.task, Noted(id, AskedModel(s.model, s.effort)));
      }
      return None;
    }

    method Running(id: nat, t: Terminal, now: string) returns (r: Option<Error>)
      modifies this
      ensures Follows(AttemptRunning(old(Model()), id, t, now), old(Model()), Model(), r)
    {
      if id !in attempts {
        return Some(NotFound);
      }
      var a := attempts[id];
      if a.status != LAUNCHING {
        return Some(Conflict);
      }
      attempts := attempts[id := a.(status := RUNNING, terminal := t)];
      Emit(now, "attempt." + RUNNING, a.task, Noted(id, "pane " + t.pane));
      return None;
    }

    method Switched(id: nat, t: Terminal, to: string, model: string, effort: string, requested: bool, now: string)
      returns (r: Option<Error>)
      modifies this
      ensures Follows(AttemptSwitched(old(Model()), id, t, to, model, effort, requested, now), old(Model()), Model(), r)
    {
      hide Ref, Noted, Decimal, ModelNote;
      if id !in attempts {
        return Some(NotFound);
      }
      var a := attempts[id];
      if a.status != RUNNING {
        return Some(Conflict);
      }
      attempts := attempts[id := a.(terminal := t)];
      Emit(now, "attempt.switched", a.task, Noted(id, to + ", pane " + t.pane));
      if a.model != model || a.effort != effort {
        attempts := attempts[id := attempts[id].(model := model, effort := effort)];
        Emit(now, "model.changed", a.task, ModelNote(id, model, effort));
      }
      if requested && a.harness == "opencode" && model != "" {
        Emit(now, "model.requested", a.task, Noted(id, AskedModel(model, effort)));
      }
      return None;
    }

    method End(id: nat, to: string, reason: string, screen: string, now: string) returns (r: Option<Error>)
      modifies this
      ensures Follows(EndAttempt(old(Model()), id, to, reason, screen, now), old(Model()), Model(), r)
    {
      if id !in attempts {
        return Some(NotFound);
      }
      var a := attempts[id];
      if to !in Ends(a.status) {
        return Some(Conflict);
      }
      attempts := attempts[id := a.(status := to, reason := reason, endedAt := now, screen := screen)];
      Emit(now, "attempt." + to, a.task, Noted(id, reason));
      return None;
    }

    method Clean(id: nat, why: string, now: string) returns (r: Option<Error>)
      modifies this
      ensures Follows(CleanAttempt(old(Model()), id, why, now), old(Model()), Model(), r)
    {
      if id !in attempts {
        return Some(NotFound);
      }
      var a := attempts[id];
      if Live(a) {
        return Some(Conflict);
      }
      if a.cleanedAt != "" {
        return Some(Conflict);
      }
      attempts := attempts[id := a.(cleanedAt := now)];
      var detail := Ref(id);
      if why != "" {
        detail := detail + ": " + why;
      }
      Emit(now, "attempt.cleaned", a.task, detail);
      return None;
    }

    method Keep(id: nat, reason: string, now: string) returns (r: Option<Error>)
      modifies this
      ensures Follows(KeepAttempt(old(Model()), id, reason, now), old(Model()), Model(), r)
    {
      if id !in attempts {
        return Some(NotFound);
      }
      var a := attempts[id];
      if a.kept == reason || a.cleanedAt != "" {
        return None;
      }
      attempts := attempts[id := a.(kept := reason)];
      Emit(now, "attempt.kept", a.task, Noted(id, reason));
      return None;
    }

    method Note(id: nat, kind: string, detail: string, now: string) returns (r: Option<Error>)
      modifies this
      ensures Follows(NoteAttempt(old(Model()), id, kind, detail, now), old(Model()), Model(), r)
    {
      if id !in attempts {
        return Some(NotFound);
      }
      var a := attempts[id];
      if !Live(a) && kind in {"blocked", "working", "limited", "long", "denied"} {
        return Some(Conflict);
      }
      Emit(now, "attempt." + kind, a.task, Noted(id, detail));
      return None;
    }
  }

  // ----- the log tells the statuses -----

  datatype Life = Life(status: string, cleaned: bool)

  predicate Lifecycle(kind: string) {
    kind in STATUSES || kind == "cleaned"
  }

  /** What an event of a kind says. */
  function Effect(life: Life, kind: string): Life {
    if kind in STATUSES then life.(status := kind) else if kind == "cleaned" then life.(cleaned := true) else life
  }

  /** The kind of an attempt event without its prefix; other events have none. */
  function AttemptKind(kind: string): Option<string> {
    if "attempt." <= kind then Some(kind[8..]) else None
  }

  /** The attempt that a detail names before its note. */
  function AboutId(detail: string): nat {
    Value(Before(detail + ":", ':'))
  }

  function Replayed(m: map<nat, Life>, e: Event): map<nat, Life> {
    match AttemptKind(e.kind)
    case None => m
    case Some(kind) =>
      var id := AboutId(e.detail);
      if Lifecycle(kind) then m[id := Effect(if id in m then m[id] else Life("", false), kind)] else m
  }

  /** The lives that the events tell. */
  function Replay(events: seq<Event>): map<nat, Life> {
    if events == [] then map[] else Replayed(Replay(events[..|events| - 1]), events[|events| - 1])
  }

  function LifeOf(a: Attempt): Life {
    Life(a.status, a.cleanedAt != "")
  }

  function Lives(attempts: map<nat, Attempt>): map<nat, Life> {
    map id | id in attempts :: LifeOf(attempts[id])
  }

  ghost predicate Agrees(db: DB) {
    Replay(db.events) == Lives(db.attempts)
  }

  lemma AboutReads(id: nat, note: string)
    ensures AboutId(Ref(id)) == id && AboutId(Noted(id, note)) == id
  {
    hide Before, Value, Decimal;
    DecimalReads(id);
    BeforeOf(Ref(id), ":", ':');
    BeforeOf(Ref(id), ": " + note + ":", ':');
    assert Noted(id, note) + ":" == Ref(id) + (": " + note + ":");
    RefValue(id);
  }

  lemma {:induction false} RefValue(id: nat)
    ensures Value(Ref(id)) == id
  {
    ValueAfterLetter(Decimal(id));
    DecimalReads(id);
  }

  lemma {:induction false} ValueAfterLetter(s: string)
    ensures Value("a" + s) == Value(s)
  {
    if s != "" {
      assert ("a" + s)[..|"a" + s| - 1] == "a" + s[..|s| - 1];
      ValueAfterLetter(s[..|s| - 1]);
    } else {
      assert Value("a") == 10 * Value("a"[..0]);
    }
  }

  lemma ReplayMore(db: DB, at: string, kind: string, task: nat, detail: string)
    ensures Replay(Emitted(db, at, kind, task, detail).events)
      == Replayed(Replay(db.events), Event(at, kind, task, detail))
  {
    assert (db.events + [Event(at, kind, task, detail)])[..|db.events|] == db.events;
  }

  lemma KindReads(kind: string)
    ensures AttemptKind("attempt." + kind) == Some(kind)
    ensures kind != "" && kind[0] != 'a' ==> AttemptKind(kind) == None
  {
    assert "attempt."[0] == 'a';
    assert ("attempt." + kind)[..8] == "attempt.";
    assert ("attempt." + kind)[8..] == kind;
  }

  /** One more event of an attempt, in either form of its detail. */
  lemma ReplayEvent(db: DB, at: string, kind: string, task: nat, id: nat, detail: string, note: string)
    requires detail == Ref(id) || detail == Noted(id, note)
    ensures var m := Replay(db.events); var life := if id in m then m[id] else Life("", false);
      Replay(Emitted(db, at, "attempt." + kind, task, detail).events)
      == if Lifecycle(kind) then m[id := Effect(life, kind)] else m
  {
    hide Ref, Noted, AttemptKind, AboutId, Replay;
    ReplayMore(db, at, "attempt." + kind, task, detail);
    KindReads(kind);
    AboutReads(id, note);
  }

  lemma ReplayOther(db: DB, at: string, kind: string, task: nat, detail: string)
    requires kind != "" && kind[0] != 'a'
    ensures Replay(Emitted(db, at, kind, task, detail).events) == Replay(db.events)
  {
    hide AttemptKind, AboutId, Replay;
    ReplayMore(db, at, kind, task, detail);
    KindReads(kind);
  }

  /** A transaction, with the time it gets. */
  datatype Op =
    | Add(spec: Spec, root: string, now: string)
    | Running(id: nat, t: Terminal, now: string)
    | Switched(id: nat, t: Terminal, to: string, model: string, effort: string, requested: bool, now: string)
    | End(id: nat, to: string, reason: string, screen: string, now: string)
    | Clean(id: nat, why: string, now: string)
    | Keep(id: nat, reason: string, now: string)
    | Note(id: nat, kind: string, detail: string, now: string)
    | Task(task: nat, to: string, now: string)
    | NewTask(task: nat, now: string)

  function Ran(db: DB, op: Op): Outcome {
    match op
    case Add(spec, root, now) => AddAttempt(db, spec, root, now)
    case Running(id, t, now) => AttemptRunning(db, id, t, now)
    case Switched(id, t, to, model, effort, requested, now) =>
      AttemptSwitched(db, id, t, to, model, effort, requested, now)
    case End(id, to, reason, screen, now) => EndAttempt(db, id, to, reason, screen, now)
    case Clean(id, why, now) => CleanAttempt(db, id, why, now)
    case Keep(id, reason, now) => KeepAttempt(db, id, reason, now)
    case Note(id, kind, detail, now) => NoteAttempt(db, id, kind, detail, now)
    case Task(task, to, now) => Transition(db, task, to, now)
    case NewTask(task, now) =>
      if task in db.tasks then Refused(Conflict)
      else Done(Emitted(db.(tasks := db.tasks[task := "inbox"]), now, "task.created", task, ""))
  }

  function Next(db: DB, op: Op): DB {
    match Ran(db, op)
    case Done(d) => d
    case Refused(_) => db
  }

  lemma LivesAfter(attempts: map<nat, Attempt>, id: nat, a: Attempt)
    ensures Lives(attempts[id := a]) == Lives(attempts)[id := LifeOf(a)]
    ensures id in attempts ==> Lives(attempts)[id := LifeOf(attempts[id])] == Lives(attempts)
  {
  }

  /** A row that changes as its event says. */
  lemma RowAndEvent(db: DB, id: nat, a: Attempt, kind: string, task: nat, detail: string, note: string, now: string)
    requires Agrees(db) && (detail == Ref(id) || detail == Noted(id, note))
    requires LifeOf(a) == Effect(if id in db.attempts then LifeOf(db.attempts[id]) else Life("", false), kind)
    requires id !in db.attempts ==> Lifecycle(kind)
    ensures Agrees(Emitted(Stored(db, id, a), now, "attempt." + kind, task, detail))
  {
    hide Replay, AttemptKind, Ref, Noted, LifeOf;
    LivesAfter(db.attempts, id, a);
    ReplayEvent(Stored(db, id, a), now, kind, task, id, detail, note);
  }

  lemma OtherEvent(db: DB, kind: string, task: nat, detail: string, now: string)
    requires Agrees(db) && kind != "" && kind[0] != 'a'
    ensures Agrees(Emitted(db, now, kind, task, detail))
  {
    hide Replay, AttemptKind, LifeOf;
    ReplayOther(db, now, kind, task, detail);
  }

  /** Every operation keeps the log in step with the rows, a note as long as its kind is not the
      name of a lifecycle event. */
  lemma LogAgrees(db: DB, op: Op)
    requires Agrees(db) && op.now != "" && (op.Note? ==> !Lifecycle(op.kind))
    ensures Agrees(Next(db, op))
  {
    hide Agrees, Decimal, Name, BranchOf, Join, HasLive, Ref, Noted, AttemptKind;
    if Ran(db, op).Done? {
      match op
      case Add(_, _, _) => AddAgrees(db, op);
      case Running(id, t, now) =>
        var a := db.attempts[id];
        var note := "pane " + t.pane;
        RowAndEvent(db, id, a.(status := RUNNING, terminal := t), RUNNING, a.task, Noted(id, note), note, now);
      case Switched(_, _, _, _, _, _, _) => SwitchedAgrees(db, op);
      case End(id, to, reason, screen, now) => EndAgrees(db, op);
      case Clean(id, why, now) =>
        var a := db.attempts[id];
        assert "attempt." + "cleaned" == "attempt.cleaned";
        RowAndEvent(db, id, a.(cleanedAt := now), "cleaned", a.task,
                    if why == "" then Ref(id) else Noted(id, why), why, now);
      case Keep(id, reason, now) =>
        var a := db.attempts[id];
        assert "attempt." + "kept" == "attempt.kept";
        RowAndEvent(db, id, a.(kept := reason), "kept", a.task, Noted(id, reason), reason, now);
      case Note(id, kind, detail, now) =>
        var a := db.attempts[id];
        assert Stored(db, id, a) == db;
        RowAndEvent(db, id, a, kind, a.task, Noted(id, detail), detail, now);
      case Task(task, to, now) => TaskAgrees(db, task, to, "task." + to, db.tasks[task] + "->" + to, now);
      case NewTask(task, now) => TaskAgrees(db, task, "inbox", "task.created", "", now);
    }
  }

  lemma TaskAgrees(db: DB, task: nat, to: string, kind: string, detail: string, now: string)
    requires Agrees(db) && kind != "" && kind[0] == 't'
    ensures Agrees(Emitted(db.(tasks := db.tasks[task := to]), now, kind, task, detail))
  {
    OtherEvent(db.(tasks := db.tasks[task := to]), kind, task, detail, now);
  }

  lemma EndAgrees(db: DB, op: Op)
    requires Agrees(db) && op.End? && Ran(db, op).Done?
    ensures Agrees(Next(db, op))
  {
    hide Agrees, Noted;
    var a := db.attempts[op.id];
    RowAndEvent(db, op.id, a.(status := op.to, reason := op.reason, endedAt := op.now, screen := op.screen), op.to,
                a.task, Noted(op.id, op.reason), op.reason, op.now);
  }

  lemma AddAgrees(db: DB, op: Op)
    requires Agrees(db) && op.Add? && Ran(db, op).Done?
    ensures Agrees(Next(db, op))
  {
    hide Agrees, Decimal, Name, BranchOf, Join, HasLive, Ref, Noted;
    var Add(spec, root, now) := op;
    var id := MaxId(db.attempts.Keys) + 1;
    var a := NewAttempt(db, spec, root, now);
    RowAndEvent(db, id, a, LAUNCHING, spec.task, Ref(id), "", now);
    OtherEvent(Emitted(Stored(db, id, a), now, "attempt." + LAUNCHING, spec.task, Ref(id)), "model.requested",
               spec.task, Noted(id, AskedModel(spec.model, spec.effort)), now);
  }

  lemma SwitchedAgrees(db: DB, op: Op)
    requires Agrees(db) && op.Switched? && Ran(db, op).Done?
    ensures Agrees(Next(db, op))
  {
    hide Agrees, Ref, Noted, ModelNote;
    var Switched(id, t, to, model, effort, requested, now) := op;
    var a := db.attempts[id];
    var a' := a.(terminal := t, model := model, effort := effort);
    var note := to + ", pane " + t.pane;
    assert "attempt." + "switched" == "attempt.switched";
    RowAndEvent(db, id, a', "switched", a.task, Noted(id, note), note, now);
    var d1 := Emitted(Stored(db, id, a'), now, "attempt.switched", a.task, Noted(id, note));
    OtherEvent(d1, "model.changed", a.task, ModelNote(id, model, effort), now);
    OtherEvent(d1, "model.requested", a.task, Noted(id, AskedModel(model, effort)), now);
    OtherEvent(Emitted(d1, now, "model.changed", a.task, ModelNote(id, model, effort)), "model.requested", a.task,
               Noted(id, AskedModel(model, effort)), now);
  }

  /** A note keeps the log in step exactly when its kind is no lifecycle event, or one that tells
      what the row says already. */
  lemma NoteAgreesExactlyWhen(db: DB, id: nat, kind: string, detail: string, now: string)
    requires Agrees(db) && NoteAttempt(db, id, kind, detail, now).Done?
    ensures Agrees(NoteAttempt(db, id, kind, detail, now).db) <==>
      !Lifecycle(kind)
      || (kind in STATUSES && kind == db.attempts[id].status)
      || (kind == "cleaned" && db.attempts[id].cleanedAt != "")
  {
    hide Replay, AttemptKind, Ref, Noted;
    ReplayEvent(db, now, kind, db.attempts[id].task, id, Noted(id, detail), detail);
    var m, life := Lives(db.attempts), LifeOf(db.attempts[id]);
    assert id in m && m[id] == life;
    CleanedIsNoStatus();
    Overwrite(m, id, life, Effect(life, kind));
  }

  lemma CleanedIsNoStatus()
    ensures "cleaned" !in STATUSES
  {
    assert "cleaned"[0] == 'c' && "running"[0] == 'r' && "stopped"[0] == 's';
  }

  lemma Overwrite(m: map<nat, Life>, id: nat, life: Life, effect: Life)
    requires id in m && m[id] == life
    ensures m[id := effect] == m <==> effect == life
  {
    assert m[id := effect][id] == effect;
    if effect == life {
      assert m[id := effect] == m;
    }
  }

  /** A running attempt noted as exited: the log says exited, the row says running. */
  lemma ANoteCanContradictTheRow(db: DB, id: nat)
    requires Agrees(db) && id in db.attempts && db.attempts[id].status == "running"
    ensures NoteAttempt(db, id, "exited", "", "now").Done?
    ensures !Agrees(NoteAttempt(db, id, "exited", "", "now").db)
  {
    NoteAgreesExactlyWhen(db, id, "exited", "", "now");
  }

  // ----- what every transaction keeps -----

  /** The attempt that this one continues is an older one of the same task on the same branch, ended
      and cleaned. */
  ghost predicate Continues(db: DB, id: nat) {
    id in db.attempts && db.attempts[id].continues != 0 ==>
      var a, from := db.attempts[id], db.attempts[id].continues;
      && from < id
      && from in db.attempts
      && db.attempts[from].task == a.task
      && db.attempts[from].branch == a.branch
      && !Live(db.attempts[from])
      && db.attempts[from].cleanedAt != ""
  }

  ghost predicate RowOk(db: DB, id: nat, a: Attempt) {
    && id > 0
    && a.status in STATUSES
    && (Live(a) ==> a.cleanedAt == "" && a.task in db.tasks && db.tasks[a.task] == "active")
    && (a.continues == 0 ==> a.branch == BranchOf(db.fleet, a.task, id))
    && After(a.worktree, '/') == Name(a.task, id)
    && a.branch != ""
  }

  ghost predicate OneLive(db: DB) {
    forall i, j ::
      i in db.attempts && j in db.attempts && Live(db.attempts[i]) && Live(db.attempts[j])
      && db.attempts[i].task == db.attempts[j].task
      ==> i == j
  }

  ghost predicate Inv(db: DB) {
    && OneLive(db)
    && forall id :: id in db.attempts ==> RowOk(db, id, db.attempts[id]) && Continues(db, id)
  }

  /** A row that keeps its identity, does not come to life and stays cleaned. */
  predicate Grows(a: Attempt, b: Attempt) {
    && b.task == a.task && b.branch == a.branch && b.worktree == a.worktree && b.continues == a.continues
    && b.status in STATUSES
    && (Live(b) ==> Live(a) && b.cleanedAt == a.cleanedAt)
    && (!Live(a) ==> b.status == a.status)
    && (a.cleanedAt != "" ==> b.cleanedAt == a.cleanedAt)
  }

  lemma GrowingKeeps(db: DB, db': DB, id: nat, b: Attempt)
    requires Inv(db) && id in db.attempts && Grows(db.attempts[id], b)
    requires db'.attempts == db.attempts[id := b] && db'.tasks == db.tasks && db'.fleet == db.fleet
    ensures Inv(db')
  {
    hide BranchOf, Name, After, STATUSES;
    GrowingChains(db, db', id, b);
    forall k | k in db'.attempts
      ensures RowOk(db', k, db'.attempts[k])
    {
      assert RowOk(db, k, db.attempts[k]);
    }
  }

  lemma GrowingChains(db: DB, db': DB, id: nat, b: Attempt)
    requires Inv(db) && id in db.attempts && Grows(db.attempts[id], b)
    requires db'.attempts == db.attempts[id := b]
    ensures forall k :: k in db'.attempts ==> Continues(db', k)
  {
    hide RowOk, STATUSES;
    forall k | k in db'.attempts
      ensures Continues(db', k)
    {
      assert Continues(db, k);
    }
  }

  /** The operations that change one row. */
  predicate RowOp(op: Op) {
    op.Running? || op.Switched? || op.End? || op.Clean? || op.Keep?
  }

  ghost predicate OneRowGrows(db: DB, id: nat, db': DB) {
    && id in db.attempts && id in db'.attempts
    && db'.attempts == db.attempts[id := db'.attempts[id]]
    && Grows(db.attempts[id], db'.attempts[id])
    && db'.tasks == db.tasks && db'.fleet == db.fleet
  }

  function RowAfter(a: Attempt, op: Op): Attempt {
    match op
    case Running(_, t, _) => a.(status := RUNNING, terminal := t)
    case Switched(_, t, _, model, effort, _, _) => a.(terminal := t, model := model, effort := effort)
    case End(_, to, reason, screen, now) => a.(status := to, reason := reason, endedAt := now, screen := screen)
    case Clean(_, _, now) => a.(cleanedAt := now)
    case Keep(_, reason, _) => if a.kept == reason || a.cleanedAt != "" then a else a.(kept := reason)
    case _ => a
  }

  lemma RowChanges(db: DB, op: Op)
    requires Ran(db, op).Done? && RowOp(op)
    ensures var db' := Ran(db, op).db;
      && op.id in db.attempts
      && db'.attempts == db.attempts[op.id := RowAfter(db.attempts[op.id], op)]
      && db'.tasks == db.tasks && db'.fleet == db.fleet
  {
    hide Ref, Noted;
    assert op.Keep? ==> db.attempts == db.attempts[op.id := db.attempts[op.id]];
  }

  lemma RowAllowed(db: DB, op: Op)
    requires Ran(db, op).Done? && RowOp(op)
    ensures op.id in db.attempts
    ensures var a := db.attempts[op.id];
      && (op.Running? ==> a.status == LAUNCHING)
      && (op.End? ==> op.to in Ends(a.status))
      && (op.Clean? ==> !Live(a) && a.cleanedAt == "")
  {
    hide Ref, Noted;
  }

  lemma RowGrows(db: DB, op: Op)
    requires Inv(db) && op.now != "" && Ran(db, op).Done? && RowOp(op)
    ensures OneRowGrows(db, op.id, Ran(db, op).db)
  {
    hide Name, BranchOf, After, Grows, Ran;
    RowChanges(db, op);
    RowAllowed(db, op);
    var a := db.attempts[op.id];
    assert RowOk(db, op.id, a);
    GrowsTo(a, RowAfter(a, op));
  }

  lemma GrowsTo(a: Attempt, b: Attempt)
    requires a.status in STATUSES && (Live(a) ==> a.cleanedAt == "")
    requires b.task == a.task && b.branch == a.branch && b.worktree == a.worktree && b.continues == a.continues
    requires b.status == a.status || b.status in Ends(a.status) || (a.status == LAUNCHING && b.status == RUNNING)
    requires b.cleanedAt == a.cleanedAt || (!Live(a) && a.cleanedAt == "" && b.status == a.status)
    ensures Grows(a, b)
  {
    assert !Live(a) ==> Ends(a.status) == {};
  }

  lemma RowsElse(db: DB, op: Op)
    requires Ran(db, op).Done? && !RowOp(op) && !op.Add?
    ensures Ran(db, op).db.attempts == db.attempts && Ran(db, op).db.fleet == db.fleet
    ensures op.Note? ==> Ran(db, op).db.tasks == db.tasks
    ensures op.Task? ==>
      Ran(db, op).db.tasks == db.tasks[op.task := op.to] && (op.to == "active" || !HasLive(db, op.task))
    ensures op.NewTask? ==> op.task !in db.tasks && Ran(db, op).db.tasks == db.tasks[op.task := "inbox"]
  {
    hide HasLive, Ref, Noted;
  }

  lemma RowsAdded(db: DB, op: Op)
    requires op.Add? && Ran(db, op).Done?
    ensures var db' := Ran(db, op).db; var id := MaxId(db.attempts.Keys) + 1;
      && db'.fleet == db.fleet && db'.tasks == db.tasks
      && id !in db.attempts
      && (op.spec.continues == 0 || op.spec.continues in db.attempts)
      && db'.attempts == db.attempts[id := NewAttempt(db, op.spec, op.root, op.now)]
      && op.spec.task in db.tasks && db.tasks[op.spec.task] == "active" && !HasLive(db, op.spec.task)
      && Continuing(db, op.spec) == None
  {
    hide HasLive, Ref, Noted, Join, BranchOf, Name;
  }

  lemma AddKeeps(db: DB, op: Op)
    requires Inv(db) && op.Add? && Ran(db, op).Done?
    ensures Inv(Ran(db, op).db)
  {
    hide Join, Before, After, BranchOf, Name, Ran, NewAttempt, Continuing, STATUSES, OneLive;
    var id := MaxId(db.attempts.Keys) + 1;
    var db' := Ran(db, op).db;
    RowsAdded(db, op);
    RowAdded(db, db', op.spec, op.root, op.now, id);
    StillOneLive(db, db', id, db'.attempts[id]);
    forall k | k in db.attempts
      ensures RowOk(db', k, db.attempts[k]) && Continues(db', k)
    {
      assert RowOk(db, k, db.attempts[k]) && Continues(db, k);
    }
  }

  lemma StillOneLive(db: DB, db': DB, id: nat, a: Attempt)
    requires OneLive(db) && id !in db.attempts && db'.attempts == db.attempts[id := a] && !HasLive(db, a.task)
    ensures OneLive(db')
  {
  }

  lemma RowAdded(db: DB, db': DB, spec: Spec, root: string, now: string, id: nat)
    requires Inv(db) && id > 0 && id !in db.attempts && id == MaxId(db.attempts.Keys) + 1
    requires (spec.continues == 0 || spec.continues in db.attempts) && Continuing(db, spec) == None
    requires spec.task in db.tasks && db.tasks[spec.task] == "active"
    requires db'.fleet == db.fleet && db'.tasks == db.tasks
    requires db'.attempts == db.attempts[id := NewAttempt(db, spec, root, now)]
    ensures RowOk(db', id, db'.attempts[id]) && Continues(db', id)
    ensures db'.attempts[id].task == spec.task
  {
    hide Join, Before, After, BranchOf, Name;
    NewWorktree(root, spec.task, id);
    BranchIsText(db.fleet, spec.task, id);
    if spec.continues != 0 {
      assert RowOk(db, spec.continues, db.attempts[spec.continues]);
    }
  }

  lemma NewWorktree(root: string, task: nat, id: nat)
    ensures After(Join(root, Name(task, id)), '/') == Name(task, id)
  {
    hide Name, After;
    NameReads(task, id);
    AfterOf(root + "/", Name(task, id), '/');
  }

  lemma BranchIsText(fleet: string, task: nat, id: nat)
    ensures BranchOf(fleet, task, id) != ""
  {
    hide Name;
    assert |BranchOf(fleet, task, id)| >= |"hand/"|;
  }

  lemma TaskKeeps(db: DB, db': DB, task: nat, to: string)
    requires Inv(db) && db'.attempts == db.attempts && db'.fleet == db.fleet && db'.tasks == db.tasks[task := to]
    requires to == "active" || !HasLive(db, task)
    ensures Inv(db')
  {
    hide BranchOf, Name, After, STATUSES;
    forall k | k in db'.attempts
      ensures RowOk(db', k, db'.attempts[k]) && Continues(db', k)
    {
      assert RowOk(db, k, db.attempts[k]) && Continues(db, k);
    }
  }

  /** Every transaction keeps at most one live attempt a task, names, chains and cleaning in order. */
  lemma StepKeeps(db: DB, op: Op)
    requires Inv(db) && op.now != ""
    ensures Inv(Next(db, op))
  {
    hide Ran, Inv;
    if Ran(db, op).Done? {
      var db' := Ran(db, op).db;
      if RowOp(op) {
        RowGrows(db, op);
        GrowingKeeps(db, db', op.id, db'.attempts[op.id]);
      } else if op.Add? {
        AddKeeps(db, op);
      } else {
        RowsElse(db, op);
        if op.Task? {
          TaskKeeps(db, db', op.task, op.to);
        } else if op.NewTask? {
          NewTaskKeeps(db, db', op.task);
        } else {
          NothingKeeps(db, db');
        }
      }
    }
  }

  lemma NothingKeeps(db: DB, db': DB)
    requires Inv(db) && db'.attempts == db.attempts && db'.fleet == db.fleet && db'.tasks == db.tasks
    ensures Inv(db')
  {
    hide BranchOf, Name, After, STATUSES;
    forall k | k in db'.attempts
      ensures RowOk(db', k, db'.attempts[k]) && Continues(db', k)
    {
      assert RowOk(db, k, db.attempts[k]) && Continues(db, k);
    }
  }

  lemma NewTaskKeeps(db: DB, db': DB, task: nat)
    requires Inv(db) && db'.attempts == db.attempts && db'.fleet == db.fleet
    requires task !in db.tasks && db'.tasks == db.tasks[task := "inbox"]
    ensures Inv(db')
  {
    forall id | id in db.attempts && db.attempts[id].task == task
      ensures !Live(db.attempts[id])
    {
      assert RowOk(db, id, db.attempts[id]);
    }
    TaskKeeps(db, db', task, "inbox");
  }

  // ----- runs -----

  ghost predicate IsRun(run: seq<DB>, ops: seq<Op>) {
    && |run| == |ops| + 1
    && run[0].attempts == map[] && run[0].events == []
    && forall i :: 0 <= i < |ops| ==> ops[i].now != "" && run[i + 1] == Next(run[i], ops[i])
  }

  lemma {:induction false} RunKeeps(run: seq<DB>, ops: seq<Op>, k: nat)
    requires IsRun(run, ops) && k < |run|
    ensures Inv(run[k])
  {
    if k > 0 {
      RunKeeps(run, ops, k - 1);
      StepKeeps(run[k - 1], ops[k - 1]);
    }
  }

  /** Over every run the log tells the status of every attempt and whether it was cleaned, as long
      as no note was given the name of a lifecycle event. */
  lemma {:induction false} RunLogAgrees(run: seq<DB>, ops: seq<Op>, k: nat)
    requires IsRun(run, ops) && k < |run|
    requires forall i :: 0 <= i < |ops| && ops[i].Note? ==> !Lifecycle(ops[i].kind)
    ensures Agrees(run[k])
  {
    if k > 0 {
      RunLogAgrees(run, ops, k - 1);
      LogAgrees(run[k - 1], ops[k - 1]);
    }
  }

  /** An attempt keeps its identity; one that ended keeps its status, one that was cleaned stays so. */
  lemma {:induction false} AttemptsGrow(run: seq<DB>, ops: seq<Op>, i: nat, k: nat, id: nat)
    requires IsRun(run, ops) && i <= k < |run| && id in run[i].attempts
    ensures id in run[k].attempts && Grows(run[i].attempts[id], run[k].attempts[id])
    decreases k
  {
    hide BranchOf, Name, After, STATUSES, Next, Ran;
    RunKeeps(run, ops, i);
    assert RowOk(run[i], id, run[i].attempts[id]);
    if i < k {
      AttemptsGrow(run, ops, i, k - 1, id);
      RunKeeps(run, ops, k - 1);
      OneStepGrows(run[k - 1], ops[k - 1], id);
    }
  }

  lemma OneStepGrows(db: DB, op: Op, id: nat)
    requires Inv(db) && op.now != "" && id in db.attempts
    ensures id in Next(db, op).attempts && Grows(db.attempts[id], Next(db, op).attempts[id])
  {
    hide BranchOf, Name, After, Ran, NewAttempt, HasLive, Continuing;
    assert RowOk(db, id, db.attempts[id]);
    if Ran(db, op).Done? {
      if RowOp(op) {
        RowGrows(db, op);
      } else if op.Add? {
        RowsAdded(db, op);
      } else {
        RowsElse(db, op);
      }
    }
  }

  /** No attempt is cleaned twice. */
  lemma CleanedOnce(run: seq<DB>, ops: seq<Op>, i: nat, k: nat)
    requires IsRun(run, ops) && i < k < |ops| && ops[i].Clean? && ops[k].Clean?
    requires Ran(run[i], ops[i]).Done? && Ran(run[k], ops[k]).Done?
    ensures ops[i].id != ops[k].id
  {
    var id := ops[i].id;
    assert run[i + 1] == Next(run[i], ops[i]);
    assert run[i + 1].attempts[id].cleanedAt != "";
    AttemptsGrow(run, ops, i + 1, k, id);
  }

  /** The first attempt of a chain. */
  ghost function First(db: DB, id: nat): nat
    requires Inv(db) && id in db.attempts
    decreases id
  {
    assert Continues(db, id);
    if db.attempts[id].continues == 0 then id else First(db, db.attempts[id].continues)
  }

  /** A chain goes down in ids, stays in one task and on one branch, which is named for its first attempt. */
  lemma {:induction false} ChainIsOneLine(db: DB, id: nat)
    requires Inv(db) && id in db.attempts
    ensures var first := First(db, id);
      && first <= id && first in db.attempts
      && db.attempts[first].task == db.attempts[id].task
      && db.attempts[first].branch == db.attempts[id].branch
      && db.attempts[id].branch == BranchOf(db.fleet, db.attempts[id].task, first)
    decreases id
  {
    hide BranchOf, Name, After, STATUSES;
    assert Continues(db, id) && RowOk(db, id, db.attempts[id]);
    if db.attempts[id].continues != 0 {
      ChainIsOneLine(db, db.attempts[id].continues);
    }
  }

  /** No two attempts share a worktree, and no two live ones a branch. */
  lemma NothingShared(db: DB, i: nat, j: nat)
    requires Inv(db) && i in db.attempts && j in db.attempts && i != j
    ensures db.attempts[i].worktree != db.attempts[j].worktree
    ensures Live(db.attempts[i]) && Live(db.attempts[j]) ==> db.attempts[i].branch != db.attempts[j].branch
  {
    hide BranchOf, Name, After, STATUSES;
    var a, b := db.attempts[i], db.attempts[j];
    assert RowOk(db, i, a) && RowOk(db, j, b);
    if Name(a.task, i) == Name(b.task, j) {
      NameIsUnique(a.task, i, b.task, j);
    }
    ChainIsOneLine(db, i);
    ChainIsOneLine(db, j);
    PathsAreUnique("", "", db.fleet, a.task, First(db, i), b.task, First(db, j));
  }
}

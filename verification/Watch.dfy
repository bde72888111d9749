/** The watcher's status machine: what it does with each status of an agent, with the lists of busy
    opencode sessions, and over reconnects. What luvus, the store and the harness patterns answer is
    arbitrary. The ghost log says of every recorded note what was known when it was made. */
module Watch {
  import opened Basics

  const QUIET_GRACE := 30 * 1_000_000_000

  datatype Attempt = Attempt(id: nat, harness: string, session: string, pane: string, terminal: string, running: bool,
                             here: bool, asks: bool)

  datatype Turn = Turn(since: int, long: bool)

  /** A list of sessions with the time just before it was read; without ids it was unreadable. */
  datatype BusyList = BusyList(at: int, ids: Option<set<string>>, idle: map<string, int>)

  datatype Screen = Screen(text: string, terminal: string)

  /** What the harness patterns say about a screen. */
  datatype Patterns = Patterns(
    waiting: (string, string) -> bool, limit: (string, string) -> Option<string>, idleScreen: string -> bool,
    title: string -> string)

  /** The answers one observation gets: the clock, the screen, the store's events and conflicts, and
      whether a store call fails. */
  datatype Answers = Answers(
    now: int, read: Option<Screen>, explain: Option<string>, lastEvent: Option<string>, lastLimit: Option<string>,
    turnStart: Option<Option<int>>, turnLong: bool, conflict: bool, fails: bool)

  /** The list that was being handled, as it bears on one attempt: since when the attempt was held,
      whether the list and the one before it were readable, and whether the session was busy in it. */
  datatype Seen = Seen(at: int, heldAt: int, readable: bool, previousReadable: bool, busy: bool)

  /** A note with what was known: the observed status, the one observed before it in this connection,
      and the list that was being handled. */
  datatype Record = Record(id: nat, kind: string, opencode: bool, status: string, before: Option<string>,
                           list: Option<Seen>)

  predicate ListSays(l: Seen) {
    l.heldAt <= l.at && ((l.readable && !l.busy) || (!l.readable && !l.previousReadable))
  }

  /** When a note is well-founded. */
  predicate RecordOk(r: Record) {
    && (r.opencode && r.kind in {"quiet", "limited"} ==> r.list.Some? && ListSays(r.list.value))
    && (r.kind == "blocked" && r.status == "blocked" ==> r.before == Some("blocked"))
  }

  predicate MadeBy(r: Record, b: BusyList, previousReadable: bool) {
    r.list.Some? && r.list.value.at == b.at && r.list.value.readable == b.ids.Some?
    && r.list.value.previousReadable == previousReadable
  }

  /** The limit line without its estimate. */
  function Shown(line: string): string {
    if line == "" || " (~" <= line then "" else [line[0]] + Shown(line[1..])
  }

  predicate Status(s: string) {
    s != "held" && s != "idle?"
  }

  predicate Opencode(a: Attempt) {
    a.harness == "opencode" && a.session != ""
  }

  // ----- what one observation does, as a function of what is known of the attempt -----

  /** What the watcher knows of an attempt: the status it saw last, or none, whether a block waits to
      be confirmed, since when it is held, and its turn. */
  datatype Local = Local(seen: string, pending: bool, heldAt: Option<int>, turn: Option<Turn>)

  function LocalIn(seen: map<nat, string>, pending: set<nat>, heldAt: map<nat, int>, turns: map<nat, Turn>, id: nat)
    : Local
  {
    Local(if id in seen then seen[id] else "", id in pending,
          if id in heldAt then Some(heldAt[id]) else None, if id in turns then Some(turns[id]) else None)
  }

  ghost function LocalsIn(seen: map<nat, string>, pending: set<nat>, heldAt: map<nat, int>, turns: map<nat, Turn>)
    : (locals: imap<nat, Local>)
    ensures forall id: nat :: id in locals && locals[id] == LocalIn(seen, pending, heldAt, turns, id)
  {
    imap id: nat | true :: LocalIn(seen, pending, heldAt, turns, id)
  }

  /** What differs only at one attempt leaves what is known of all others. */
  lemma OthersKnown(seen: map<nat, string>, pending: set<nat>, heldAt: map<nat, int>, turns: map<nat, Turn>,
                    seen': map<nat, string>, pending': set<nat>, heldAt': map<nat, int>, turns': map<nat, Turn>,
                    id: nat, other: nat)
    requires seen' - {id} == seen - {id} && pending' - {id} == pending - {id}
    requires heldAt' - {id} == heldAt - {id} && turns' - {id} == turns - {id} && other != id
    ensures LocalIn(seen', pending', heldAt', turns', other) == LocalIn(seen, pending, heldAt, turns, other)
  {
    assert other in seen' - {id} <==> other in seen';
    assert other in seen - {id} <==> other in seen;
    assert other in heldAt' - {id} <==> other in heldAt';
    assert other in heldAt - {id} <==> other in heldAt;
    assert other in turns' - {id} <==> other in turns';
    assert other in turns - {id} <==> other in turns;
    assert other in pending' - {id} <==> other in pending';
    assert other in pending - {id} <==> other in pending;
  }

  /** What is known afterwards, the kind that is noted, or none, and whether all calls succeeded. */
  datatype Effect = Effect(local: Local, note: string, ok: bool)

  function Stored(l: Local, after: Local, kind: string, w: Answers): Effect {
    if w.conflict then Effect(l, "", true) else if w.fails then Effect(l, "", false) else Effect(after, kind, true)
  }

  function Blocking(p: Patterns, l: Local, a: Attempt, title: string, screen: string, w: Answers): Effect {
    if screen != "" && title == "" && !p.waiting(a.harness, screen) then Effect(l, "", true)
    else Stored(l, l.(seen := "blocked"), "blocked", w)
  }

  /** A turn that only just began is let pass. */
  function Quieting(l: Local, t: Option<Turn>, w: Answers): Effect {
    if w.turnStart == None then Effect(l, "", false)
    else
      var since := w.turnStart.value;
      var start := if t.Some? then Some(t.value.since) else since;
      if since.Some? && start.Some? && 0 <= w.now - start.value < QUIET_GRACE then Effect(l, "", true)
      else Stored(l, l, "quiet", w)
  }

  /** The screen decides what a turn that is over is recorded as: limited, blocked or quiet. */
  function Resting(p: Patterns, l: Local, a: Attempt, t: Option<Turn>, status: string, w: Answers): Effect {
    if w.read == None then Effect(l, "", false)
    else
      var text := w.read.value.text;
      var line := p.limit(a.harness, text);
      if line.Some? && w.lastLimit == None then Effect(l, "", false)
      else if line.Some? && Shown(w.lastLimit.value) != Shown(line.value) then Stored(l, l, "limited", w)
      else if status == "idle" && a.asks && !p.idleScreen(text) then Blocking(p, l, a, p.title(text), text, w)
      else Quieting(l, t, w)
  }

  /** A turn is over: the session is held, or the turn is recorded. */
  function Ending(p: Patterns, busy: Option<set<string>>, l: Local, a: Attempt, t: Option<Turn>, status: string,
                  w: Answers): Effect
  {
    if Opencode(a) && (busy == None || a.session in busy.value) then
      if t == None && w.turnStart == None then Effect(l, "", false)
      else
        var turn := if t.Some? then t.value
                    else Turn(if w.turnStart.value == None then w.now else w.turnStart.value.value, w.turnLong);
        Effect(l.(seen := "held", heldAt := Some(w.now), turn := Some(turn)), "", true)
    else Resting(p, l, a, t, status, w)
  }

  /** A status that is new for the attempt; prior is what it was before. */
  function Reacting(p: Patterns, busy: Option<set<string>>, l: Local, a: Attempt, t: Option<Turn>, prior: string,
                    screen: string, status: string, w: Answers): Effect {
    if status == "working" then if prior == "blocked" then Stored(l, l, "working", w) else Effect(l, "", true)
    else if status == "blocked" then Blocking(p, l, a, "", screen, w)
    else if status != "done" && status != "idle" then Effect(l, "", true)
    else if status == "idle" && prior != "working" && prior != "blocked" then Effect(l, "", true)
    else Ending(p, busy, l, a, t, status, w)
  }

  /** The screen as far as it is this attempt's. */
  function ScreenOf(a: Attempt, w: Answers): Option<string> {
    if w.read.Some? && w.read.value.terminal == a.terminal then Some(w.read.value.text) else None
  }

  function PriorOf(a: Attempt, status: string, prev: string, w: Answers): Option<string> {
    if status == "working" && prev != "blocked" && a.harness == "opencode" then
      if w.lastEvent == None then None
      else Some(if w.lastEvent.value == "attempt.blocked" then "blocked" else prev)
    else Some(prev)
  }

  function TurnAfter(t: Option<Turn>, status: string, now: int): Option<Turn> {
    if status != "working" then None else if t == None then Some(Turn(now, false)) else t
  }

  /** A status that is acted on, when it is new. */
  function Going(p: Patterns, busy: Option<set<string>>, l: Local, a: Attempt, status: string, screen: string,
                 w: Answers): Effect
  {
    var m := l.(turn := TurnAfter(l.turn, status, w.now));
    var prior := PriorOf(a, status, l.seen, w);
    if prior == None then Effect(m, "", false)
    else if prior.value == status then Effect(m, "", true)
    else Reacting(p, busy, m.(seen := status, heldAt := None), a, l.turn, prior.value, screen, status, w)
  }

  function Observing(p: Patterns, busy: Option<set<string>>, l: Local, a: Attempt, status: string, w: Answers): Effect {
    var screen := ScreenOf(a, w);
    if l.seen == "held" && (status == "done" || status == "idle") then Effect(l.(pending := false), "", true)
    else if status == "blocked" && !l.pending then Effect(l.(pending := l.seen != "blocked"), "", true)
    else if status == "blocked" && screen.Some? && !p.waiting(a.harness, screen.value) then Effect(l, "", true)
    else
      Going(p, busy, l.(pending := false), a, status,
            if status == "blocked" && screen.Some? then screen.value else "", w)
  }

  /** A held attempt is looked at again as if it had worked until now. */
  function Again(p: Patterns, ids: set<string>, l: Local, a: Attempt, w: Answers): Effect {
    if w.explain == None then Effect(l, "", true)
    else Observing(p, Some(ids), l.(seen := "working", heldAt := None), a, w.explain.value, w)
  }

  /** A list as it bears on one attempt. */
  function Listing(p: Patterns, ids: set<string>, idle: map<string, int>, l: Local, a: Attempt, w: Answers): Effect {
    var again := Again(p, ids, l, a, w);
    if l.seen == "held" || a.session in ids then again
    else if w.turnStart == None then Effect(l, "", false)
    else if w.turnStart.value.Some? && a.session in idle && idle[a.session] > w.turnStart.value.value then again
    else if l.pending && w.explain.Some? then Observing(p, Some(ids), l, a, w.explain.value, w)
    else Effect(l.(seen := "idle", pending := false, heldAt := None), "", true)
  }

  /** The first look at an attempt after a connection; prev is what it is taken to have been. */
  function CatchingUp(p: Patterns, l: Local, a: Attempt, prev: string, status: string, w: Answers): Effect {
    if prev == "idle?" then Effect(l.(seen := "idle?", heldAt := Some(w.now)), "", true)
    else
      var m := l.(seen := prev, heldAt := None);
      if status != "working" || l.turn.Some? then Observing(p, None, m, a, status, w)
      else if w.turnStart == None then Effect(m, "", false)
      else
        var since := if w.turnStart.value == None then w.now else w.turnStart.value.value;
        Observing(p, None, m.(turn := Some(Turn(since, w.turnLong))), a, status, w)
  }

  /** A block seen as a status is noted exactly when one waits to be confirmed, the attempt was not
      seen as blocked already, its own screen, if readable, waits, and the store takes the note. */
  lemma BlockNotedExactlyWhen(p: Patterns, busy: Option<set<string>>, l: Local, a: Attempt, w: Answers)
    ensures Observing(p, busy, l, a, "blocked", w).note == "blocked" <==>
      && l.pending && l.seen != "blocked" && !w.conflict && !w.fails
      && (ScreenOf(a, w).Some? ==> p.waiting(a.harness, ScreenOf(a, w).value))
    ensures Observing(p, busy, l, a, "blocked", w).note in {"", "blocked"}
  {
  }

  /** The screen shows a limit that was not noted last. */
  predicate NewLimit(p: Patterns, a: Attempt, w: Answers)
    requires w.read.Some?
  {
    var line := p.limit(a.harness, w.read.value.text);
    line.Some? && w.lastLimit.Some? && Shown(w.lastLimit.value) != Shown(line.value)
  }

  /** No limit stands in the way: none is shown, or it was noted last. */
  predicate NoNewLimit(p: Patterns, a: Attempt, w: Answers)
    requires w.read.Some?
  {
    var line := p.limit(a.harness, w.read.value.text);
    line == None || (w.lastLimit.Some? && Shown(w.lastLimit.value) == Shown(line.value))
  }

  /** A turn that began less than thirty seconds ago. */
  predicate Fresh(l: Local, w: Answers)
    requires w.turnStart.Some?
  {
    var start := if l.turn.Some? then Some(l.turn.value.since) else w.turnStart.value;
    w.turnStart.value.Some? && start.Some? && 0 <= w.now - start.value < 30_000_000_000
  }

  /** The attempt was seen as blocked, or the event log says so of an opencode agent. */
  predicate WasBlocked(l: Local, a: Attempt, w: Answers) {
    l.seen == "blocked" || (a.harness == "opencode" && w.lastEvent == Some("attempt.blocked"))
  }

  /** An idle screen that is none, of an agent that asks for approval. */
  predicate Asks(p: Patterns, a: Attempt, status: string, w: Answers)
    requires w.read.Some?
  {
    status == "idle" && a.asks && !p.idleScreen(w.read.value.text)
  }

  /** A status that ends a turn: new, not of a held attempt, and idle only after work or a block. */
  predicate Ends(l: Local, status: string) {
    || (status == "done" && l.seen !in {"held", "done"})
    || (status == "idle" && l.seen in {"working", "blocked"})
  }

  lemma RestingNotes(p: Patterns, l: Local, a: Attempt, t: Option<Turn>, status: string, w: Answers)
    ensures var note := Resting(p, l, a, t, status, w).note; var takes := w.read.Some? && !w.conflict && !w.fails;
      && note in {"", "blocked", "limited", "quiet"}
      && (note == "limited" <==> takes && NewLimit(p, a, w))
      && (note == "quiet" <==>
           takes && NoNewLimit(p, a, w) && !Asks(p, a, status, w) && w.turnStart.Some? && !Fresh(l.(turn := t), w))
  {
    hide Shown;
  }

  lemma OverNotes(p: Patterns, busy: Option<set<string>>, l: Local, a: Attempt, status: string, w: Answers)
    requires status == "done" || status == "idle"
    ensures var note := Observing(p, busy, l, a, status, w).note;
      var m := l.(pending := false, turn := None, seen := status, heldAt := None);
      note == if Ends(l, status) && !(Opencode(a) && (busy == None || a.session in busy.value))
              then Resting(p, m, a, l.turn, status, w).note else ""
  {
    hide Resting;
  }

  lemma OtherNotes(p: Patterns, busy: Option<set<string>>, l: Local, a: Attempt, status: string, w: Answers)
    requires status != "done" && status != "idle"
    ensures var note := Observing(p, busy, l, a, status, w).note;
      && note in {"", "working", "blocked"}
      && (note == "working" <==> status == "working" && WasBlocked(l, a, w) && !w.conflict && !w.fails)
  {
    hide Ending;
  }

  /** What a status makes the watcher note, for every attempt and everything that is known: work after
      a block; a limit, when a turn ends and its screen shows a new one; a turn that ended as quiet,
      when the screen shows no new limit, asks nothing, and the turn is not fresh. A session that is or
      may be busy is left alone. */
  lemma NotedExactlyWhen(p: Patterns, busy: Option<set<string>>, l: Local, a: Attempt, status: string, w: Answers)
    ensures var note := Observing(p, busy, l, a, status, w).note;
      var over := Ends(l, status) && !(Opencode(a) && (busy == None || a.session in busy.value))
                  && w.read.Some? && !w.conflict && !w.fails;
      && note in {"", "working", "blocked", "limited", "quiet"}
      && (note == "working" <==> status == "working" && WasBlocked(l, a, w) && !w.conflict && !w.fails)
      && (note == "limited" <==> over && NewLimit(p, a, w))
      && (note == "quiet" <==>
           over && NoNewLimit(p, a, w) && !Asks(p, a, status, w) && w.turnStart.Some? && !Fresh(l, w))
  {
    hide Observing, Resting, NewLimit, NoNewLimit;
    if status == "done" || status == "idle" {
      OverNotes(p, busy, l, a, status, w);
      RestingNotes(p, l.(pending := false, turn := None, seen := status, heldAt := None), a, l.turn, status, w);
    } else {
      OtherNotes(p, busy, l, a, status, w);
    }
  }

  /** Outside a list, an opencode session is never recorded quiet or limited, whatever its status;
      a turn that ended is held instead. */
  lemma SessionIsHeld(p: Patterns, l: Local, a: Attempt, status: string, w: Answers)
    requires Opencode(a)
    ensures Observing(p, None, l, a, status, w).note !in {"quiet", "limited"}
    ensures status == "done" && l.seen !in {"held", "done"} && (l.turn.Some? || w.turnStart.Some?) ==>
      var e := Observing(p, None, l, a, status, w);
      e.ok && e.local.seen == "held" && e.local.heldAt == Some(w.now) && e.note == ""
  {
    hide Shown;
  }

  /** What an attempt is taken to have been before the connection. */
  function Carried(a: Attempt, carried: set<nat>, status: string, last: string): string {
    if a.id in carried then "working"
    else if last in {"attempt.quiet", "attempt.idle", "attempt.limited"} && status != "blocked" then status
    else if last == "attempt.blocked" && (status != "working" || a.harness == "opencode") then "blocked"
    else if last in {"attempt.long", "attempt.working", "attempt.blocked"} then "working"
    else if status == "idle" && last != "attempt.keys" && last != "attempt.sent" then
      if Opencode(a) then "idle?" else "idle"
    else "working"
  }

  // ----- one live attempt after the other -----

  /** Why the live attempts are looked at: for a list, after a connection, for pending blocks, or for
      agents that work again. */
  datatype Look = ForList(ids: set<string>, b: BusyList) | ForCatchUp(carried: set<nat>) | ForBlocks | ForUnblock

  /** What such a look does to one of them. */
  function Looked(p: Patterns, k: Look, l: Local, a: Attempt, v: Answers): Effect {
    match k
    case ForList(ids, b) =>
      if !a.running || !a.here || l.seen !in {"held", "idle?"} || (l.heldAt.Some? && l.heldAt.value > b.at) then
        Effect(l, "", true)
      else Listing(p, ids, b.idle, l, a, v)
    case ForCatchUp(carried) =>
      if !a.running || !a.here || v.explain == None then Effect(l, "", true)
      else if v.lastEvent == None then Effect(l, "", false)
      else CatchingUp(p, l, a, Carried(a, carried, v.explain.value, v.lastEvent.value), v.explain.value, v)
    case ForBlocks =>
      if !l.pending || v.explain == None then Effect(l, "", true)
      else Observing(p, None, l, a, v.explain.value, v)
    case ForUnblock =>
      if !a.running || !a.here || l.seen == "blocked" || a.harness != "opencode" then Effect(l, "", true)
      else if v.lastEvent == None then Effect(l, "", false)
      else if v.lastEvent.value == "attempt.blocked" && v.explain == Some("working") then
        Observing(p, None, l, a, "working", v)
      else Effect(l, "", true)
  }

  predicate DistinctIds(live: seq<Attempt>) {
    forall i, j :: 0 <= i < j < |live| ==> live[i].id != live[j].id
  }

  /** The kinds that were noted of one attempt, in order. */
  function KindsOf(made: seq<Record>, id: nat): seq<string> {
    if made == [] then []
    else KindsOf(made[..|made| - 1], id) + if made[|made| - 1].id == id then [made[|made| - 1].kind] else []
  }

  /** Attempt a was looked at: it has the state and the note of its look. */
  ghost predicate TurnOf(p: Patterns, k: Look, a: Attempt, v: Answers, was: imap<nat, Local>, now: imap<nat, Local>,
                         ok: bool, made: seq<Record>)
    requires a.id in was && a.id in now
  {
    var e := Looked(p, k, was[a.id], a, v);
    now[a.id] == e.local && e.ok == ok && KindsOf(made, a.id) == if e.note == "" then [] else [e.note]
  }

  predicate NotAmong(live: seq<Attempt>, n: nat, id: nat)
    requires n <= |live|
  {
    forall i :: 0 <= i < n ==> live[i].id != id
  }

  /** The first n live attempts were looked at, one after the other, and with ok all looks succeeded,
      else all but the last. All other attempts are as in rest, without a note. */
  ghost predicate Turns(p: Patterns, k: Look, live: seq<Attempt>, w: nat -> Answers, was: imap<nat, Local>,
                        rest: imap<nat, Local>, now: imap<nat, Local>, n: nat, ok: bool, made: seq<Record>)
    requires forall id: nat :: id in was && id in rest && id in now
    requires n <= |live|
  {
    && (forall i :: 0 <= i < n ==> TurnOf(p, k, live[i], w(i), was, now, ok || i < n - 1, made))
    && forall id: nat :: NotAmong(live, n, id) ==> now[id] == rest[id] && KindsOf(made, id) == []
  }

  lemma KindsMore(made: seq<Record>, more: seq<Record>, id: nat)
    requires |more| <= 1
    ensures KindsOf(made + more, id)
            == KindsOf(made, id) + if more != [] && more[0].id == id then [more[0].kind] else []
  {
    if more == [] {
      assert made + more == made;
    } else {
      assert (made + more)[..|made|] == made;
    }
  }

  /** What one look made, and where it left its attempt. */
  ghost predicate OneLook(e: Effect, id: nat, now: imap<nat, Local>, later: imap<nat, Local>, ok: bool,
                          more: seq<Record>)
    requires forall other: nat :: other in now && other in later
  {
    && ok == e.ok && later[id] == e.local
    && (forall other: nat :: other != id ==> later[other] == now[other])
    && |more| == (if e.note == "" then 0 else 1)
    && (more != [] ==> more[0].id == id && more[0].kind == e.note)
  }

  lemma LastTurn(p: Patterns, k: Look, live: seq<Attempt>, v: Answers, was: imap<nat, Local>,
                 now: imap<nat, Local>, later: imap<nat, Local>, n: nat, made: seq<Record>, more: seq<Record>, ok: bool)
    requires forall id: nat :: id in was && id in now && id in later
    requires n < |live| && now[live[n].id] == was[live[n].id] && KindsOf(made, live[n].id) == []
    requires OneLook(Looked(p, k, now[live[n].id], live[n], v), live[n].id, now, later, ok, more)
    ensures TurnOf(p, k, live[n], v, was, later, ok, made + more)
  {
    hide Looked, KindsOf;
    KindsMore(made, more, live[n].id);
  }

  lemma OthersStay(now: imap<nat, Local>, later: imap<nat, Local>, e: Effect, id: nat, other: nat, ok: bool,
                   made: seq<Record>, more: seq<Record>)
    requires forall x: nat :: x in now && x in later
    requires id != other && OneLook(e, id, now, later, ok, more)
    ensures later[other] == now[other] && KindsOf(made + more, other) == KindsOf(made, other)
  {
    hide KindsOf;
    KindsMore(made, more, other);
  }

  lemma EarlierTurn(p: Patterns, k: Look, a: Attempt, v: Answers, was: imap<nat, Local>, now: imap<nat, Local>,
                    later: imap<nat, Local>, e: Effect, id: nat, ok: bool, made: seq<Record>, more: seq<Record>)
    requires forall x: nat :: x in was && x in now && x in later
    requires a.id != id && OneLook(e, id, now, later, ok, more)
    requires TurnOf(p, k, a, v, was, now, true, made)
    ensures TurnOf(p, k, a, v, was, later, true, made + more)
  {
    hide Looked, KindsOf, OneLook;
    OthersStay(now, later, e, id, a.id, ok, made, more);
  }

  lemma NotAmongMore(live: seq<Attempt>, n: nat, id: nat)
    requires n < |live|
    ensures NotAmong(live, n + 1, id) <==> NotAmong(live, n, id) && live[n].id != id
    ensures DistinctIds(live) ==> NotAmong(live, n, live[n].id)
  {
  }

  /** One more attempt is looked at. */
  lemma TurnMore(p: Patterns, k: Look, live: seq<Attempt>, w: nat -> Answers, was: imap<nat, Local>,
                 now: imap<nat, Local>, later: imap<nat, Local>, n: nat, made: seq<Record>, more: seq<Record>, ok: bool)
    requires forall id: nat :: id in was && id in now && id in later
    requires DistinctIds(live) && n < |live| && Turns(p, k, live, w, was, was, now, n, true, made)
    requires OneLook(Looked(p, k, now[live[n].id], live[n], w(n)), live[n].id, now, later, ok, more)
    ensures Turns(p, k, live, w, was, was, later, n + 1, ok, made + more)
  {
    hide Looked, KindsOf, OneLook, NotAmong, TurnOf;
    var id0, e := live[n].id, Looked(p, k, now[live[n].id], live[n], w(n));
    NotAmongMore(live, n, id0);
    LastTurn(p, k, live, w(n), was, now, later, n, made, more, ok);
    forall i | 0 <= i < n
      ensures TurnOf(p, k, live[i], w(i), was, later, true, made + more)
    {
      EarlierTurn(p, k, live[i], w(i), was, now, later, e, id0, ok, made, more);
    }
    forall id: nat | NotAmong(live, n + 1, id)
      ensures later[id] == was[id] && KindsOf(made + more, id) == []
    {
      NotAmongMore(live, n, id);
      OthersStay(now, later, e, id0, id, ok, made, more);
    }
  }

  /** One more attempt was looked at, and only what is known of it changed. */
  lemma TurnTaken(p: Patterns, k: Look, live: seq<Attempt>, w: nat -> Answers, was: imap<nat, Local>,
                  seen: map<nat, string>, pending: set<nat>, heldAt: map<nat, int>, turns: map<nat, Turn>,
                  seen': map<nat, string>, pending': set<nat>, heldAt': map<nat, int>, turns': map<nat, Turn>,
                  n: nat, made: seq<Record>, more: seq<Record>, ok: bool)
    requires DistinctIds(live) && n < |live| && forall id: nat :: id in was
    requires Turns(p, k, live, w, was, was, LocalsIn(seen, pending, heldAt, turns), n, true, made)
    requires var id := live[n].id;
      && seen' - {id} == seen - {id} && pending' - {id} == pending - {id}
      && heldAt' - {id} == heldAt - {id} && turns' - {id} == turns - {id}
    requires var e := Looked(p, k, LocalIn(seen, pending, heldAt, turns, live[n].id), live[n], w(n));
      && LocalIn(seen', pending', heldAt', turns', live[n].id) == e.local && ok == e.ok
      && |more| == (if e.note == "" then 0 else 1)
      && (more != [] ==> more[0].kind == e.note && more[0].id == live[n].id)
    ensures Turns(p, k, live, w, was, was, LocalsIn(seen', pending', heldAt', turns'), n + 1, ok, made + more)
  {
    hide Looked, Turns, LocalIn, DistinctIds;
    var now, later := LocalsIn(seen, pending, heldAt, turns), LocalsIn(seen', pending', heldAt', turns');
    forall other: nat | other != live[n].id
      ensures later[other] == now[other]
    {
      OthersKnown(seen, pending, heldAt, turns, seen', pending', heldAt', turns', live[n].id, other);
    }
    TurnMore(p, k, live, w, was, now, later, n, made, more, ok);
  }

  lemma NoTurns(p: Patterns, k: Look, live: seq<Attempt>, w: nat -> Answers, was: imap<nat, Local>)
    requires forall id: nat :: id in was
    ensures Turns(p, k, live, w, was, was, was, 0, true, [])
  {
  }

  lemma TurnsUntouched(p: Patterns, k: Look, live: seq<Attempt>, w: nat -> Answers, was: imap<nat, Local>,
                       now: imap<nat, Local>, n: nat, made: seq<Record>)
    requires DistinctIds(live) && n < |live| && forall id: nat :: id in was && id in now
    requires Turns(p, k, live, w, was, was, now, n, true, made)
    ensures now[live[n].id] == was[live[n].id]
  {
    hide TurnOf;
    NotAmongMore(live, n, live[n].id);
  }

  /** Of the first n attempts, those with a pending block are checked. */
  ghost predicate Checks(live: seq<Attempt>, n: nat, was: imap<nat, Local>, checked: set<nat>, distinct: bool)
    requires n <= |live| && forall id: nat :: id in was
  {
    && (checked <= set j | 0 <= j < n :: live[j].id)
    && (distinct ==> forall j :: 0 <= j < n ==> (live[j].id in checked <==> was[live[j].id].pending))
  }

  lemma NoChecks(live: seq<Attempt>, was: imap<nat, Local>)
    requires forall id: nat :: id in was
    ensures Checks(live, 0, was, {}, DistinctIds(live))
  {
  }

  lemma ChecksMore(live: seq<Attempt>, n: nat, was: imap<nat, Local>, checked: set<nat>, pending: bool, distinct: bool)
    requires n < |live| && (forall id: nat :: id in was) && Checks(live, n, was, checked, distinct)
    requires distinct ==> DistinctIds(live) && pending == was[live[n].id].pending
    ensures Checks(live, n + 1, was, if pending then checked + {live[n].id} else checked, distinct)
  {
    var id := live[n].id;
    if distinct {
      NotAmongMore(live, n, id);
      assert id !in checked;
    }
  }

  /** Without their pending blocks. */
  ghost function Unpended(locals: imap<nat, Local>): (r: imap<nat, Local>)
    requires forall id: nat :: id in locals
    ensures forall id: nat :: id in r
  {
    imap id: nat | true :: locals[id].(pending := false)
  }

  lemma NothingPending(p: Patterns, l: Local, a: Attempt, v: Answers)
    requires !l.pending
    ensures Looked(p, ForBlocks, l, a, v).local == l
  {
  }

  lemma CheckedStays(p: Patterns, a: Attempt, v: Answers, was: imap<nat, Local>, now: imap<nat, Local>,
                     later: imap<nat, Local>, checked: set<nat>, made: seq<Record>)
    requires a.id in was && a.id in now && a.id in later && (a.id in checked <==> was[a.id].pending)
    requires later[a.id] == now[a.id].(pending := now[a.id].pending && a.id in checked)
    requires TurnOf(p, ForBlocks, a, v, was, now, true, made)
    ensures TurnOf(p, ForBlocks, a, v, was, later, true, made)
  {
    hide Looked, KindsOf;
    if !was[a.id].pending {
      NothingPending(p, was[a.id], a, v);
    }
  }

  /** Dropping the pending blocks that were not checked changes nothing for the live attempts. */
  lemma PendingDropped(p: Patterns, live: seq<Attempt>, w: nat -> Answers, was: imap<nat, Local>,
                       now: imap<nat, Local>, later: imap<nat, Local>, checked: set<nat>, made: seq<Record>)
    requires forall id: nat :: id in was && id in now && id in later
    requires Turns(p, ForBlocks, live, w, was, was, now, |live|, true, made)
    requires Checks(live, |live|, was, checked, true)
    requires forall id: nat :: later[id] == now[id].(pending := now[id].pending && id in checked)
    ensures Turns(p, ForBlocks, live, w, was, Unpended(was), later, |live|, true, made)
  {
    hide TurnOf, KindsOf;
    forall i | 0 <= i < |live|
      ensures TurnOf(p, ForBlocks, live[i], w(i), was, later, true, made)
    {
      assert TurnOf(p, ForBlocks, live[i], w(i), was, now, true, made);
      CheckedStays(p, live[i], w(i), was, now, later, checked, made);
    }
  }

  /** Held no later than the list was read, at rest in it, without a limit on its screen, and in a turn
      that is not fresh. */
  predicate Rests(p: Patterns, ids: set<string>, b: BusyList, l: Local, a: Attempt, v: Answers) {
    && a.running && a.here && Opencode(a) && a.session !in ids
    && l.seen == "held" && l.heldAt.Some? && l.heldAt.value <= b.at
    && l.turn.Some? && v.now - l.turn.value.since >= 30_000_000_000
    && v.explain == Some("done") && v.read.Some? && v.turnStart.Some? && !v.conflict && !v.fails
    && p.limit(a.harness, v.read.value.text) == None
  }

  lemma RestingIsQuiet(p: Patterns, ids: set<string>, b: BusyList, l: Local, a: Attempt, v: Answers)
    requires Rests(p, ids, b, l, a, v)
    ensures var e := Looked(p, ForList(ids, b), l, a, v);
      e.note == "quiet" && e.ok && e.local.seen == "done" && e.local.heldAt == None
  {
    hide Shown;
  }

  /** A list that is handled to its end releases every held session that it shows to be at rest: it is
      noted as quiet once, and is not held any more. */
  lemma RestingSessionIsReleased(p: Patterns, ids: set<string>, b: BusyList, live: seq<Attempt>, w: nat -> Answers,
                                 was: imap<nat, Local>, now: imap<nat, Local>, made: seq<Record>, i: nat)
    requires forall id: nat :: id in was && id in now
    requires Turns(p, ForList(ids, b), live, w, was, was, now, |live|, true, made)
    requires i < |live| && Rests(p, ids, b, was[live[i].id], live[i], w(i))
    ensures KindsOf(made, live[i].id) == ["quiet"]
    ensures now[live[i].id].seen == "done" && now[live[i].id].heldAt == None
  {
    hide KindsOf, Looked, Rests;
    assert TurnOf(p, ForList(ids, b), live[i], w(i), was, now, true, made);
    RestingIsQuiet(p, ids, b, was[live[i].id], live[i], w(i));
  }

  /** The notes an effect makes. */
  ghost function Made(e: Effect, a: Attempt, status: string, before: Option<string>, list: Option<Seen>): seq<Record> {
    if e.note == "" then [] else [Record(a.id, e.note, Opencode(a), status, before, list)]
  }

  function Before(observed: map<nat, string>, id: nat): Option<string> {
    if id in observed then Some(observed[id]) else None
  }

  /** A running opencode agent whose last event is a block and that works. */
  predicate WorksAgain(a: Attempt, v: Answers) {
    && a.running && a.here && a.harness == "opencode"
    && v.lastEvent == Some("attempt.blocked") && v.explain == Some("working")
  }

  class Watcher {
    const patterns: Patterns
    var seen: map<nat, string>
    var turns: map<nat, Turn>
    var blockedPending: set<nat>
    var heldAt: map<nat, int>
    var busy: Option<set<string>>
    var busyMisses: nat
    var busyNow: Option<BusyList>
    ghost var observed: map<nat, string>
    ghost var log: seq<Record>
    ghost var unreadable: bool

    /** What is known of one attempt. */
    function LocalOf(id: nat): Local
      reads `seen, `blockedPending, `heldAt, `turns
    {
      LocalIn(seen, blockedPending, heldAt, turns, id)
    }

    ghost function Locals(): imap<nat, Local>
      reads `seen, `blockedPending, `heldAt, `turns
    {
      LocalsIn(seen, blockedPending, heldAt, turns)
    }

    /** Nothing is known differently of any other attempt. */
    twostate predicate OnlyOf(id: nat)
      reads `seen, `blockedPending, `heldAt, `turns
    {
      && seen - {id} == old(seen) - {id}
      && heldAt - {id} == old(heldAt) - {id}
      && turns - {id} == old(turns) - {id}
      && blockedPending - {id} == old(blockedPending) - {id}
    }

    ghost predicate Inv()
      reads `seen, `heldAt, `blockedPending, `observed, `busyMisses, `unreadable, `log
    {
      && (forall id :: id in seen && seen[id] in {"held", "idle?"} ==> id in heldAt)
      && (forall id :: id in blockedPending ==> id in observed && observed[id] == "blocked")
      && busyMisses <= 1
      && (busyMisses == 1 ==> unreadable)
      && forall i :: 0 <= i < |log| ==> RecordOk(log[i])
    }

    ghost predicate Valid()
      reads this
    {
      Inv() && busy == None
    }

    constructor (patterns: Patterns)
      ensures Valid() && log == []
    {
      this.patterns := patterns;
      seen, turns, blockedPending, heldAt := map[], map[], {}, map[];
      busy, busyMisses, busyNow := None, 0, None;
      observed, log, unreadable := map[], [], false;
    }

    /** The list being handled fits what the watcher knows. */
    ghost predicate Fits(a: Attempt, list: Option<Seen>)
      reads `busy
    {
      && (busy == None <==> list == None)
      && (busy.Some? && a.session !in busy.value ==> ListSays(list.value))
    }

    method Note(a: Attempt, kind: string, ghost status: string, ghost before: Option<string>, ghost list: Option<Seen>)
      returns (ghost made: seq<Record>)
      requires Inv() && RecordOk(Record(a.id, kind, Opencode(a), status, before, list))
      modifies `log
      ensures Inv() && log == old(log) + made && made == [Record(a.id, kind, Opencode(a), status, before, list)]
    {
      made := [Record(a.id, kind, Opencode(a), status, before, list)];
      log := log + made;
    }

    /** One observed status. False is an error, after which the watcher connects again. */
    method Observe(a: Attempt, status: string, w: Answers, ghost list: Option<Seen>)
      returns (ok: bool, ghost made: seq<Record>)
      requires Inv() && Status(status) && Fits(a, list)
      modifies `seen, `turns, `blockedPending, `heldAt, `observed, `log
      ensures Inv() && OnlyOf(a.id)
      ensures observed == old(observed)[a.id := status]
      ensures var e := Observing(patterns, busy, old(LocalOf(a.id)), a, status, w);
        && LocalOf(a.id) == e.local && ok == e.ok
        && made == Made(e, a, status, Before(old(observed), a.id), list)
      ensures log == old(log) + made
    {
      hide Inv, Status, Fits, Opencode, Going;
      var prev := if a.id in seen then seen[a.id] else "";
      var go, screen := Waits(a, status, prev, w);
      if !go {
        return true, [];
      }
      ok, made := Proceed(a, status, prev, screen, w, Before(old(observed), a.id), list);
    }

    method Proceed(a: Attempt, status: string, prev: string, screen: string, w: Answers,
                   ghost before: Option<string>, ghost list: Option<Seen>) returns (ok: bool, ghost made: seq<Record>)
      requires Inv() && Status(status) && Fits(a, list) && (status == "blocked" ==> before == Some("blocked"))
      requires prev == LocalOf(a.id).seen
      modifies `seen, `turns, `heldAt, `log
      ensures Inv() && OnlyOf(a.id)
      ensures var e := Going(patterns, busy, old(LocalOf(a.id)), a, status, screen, w);
        LocalOf(a.id) == e.local && ok == e.ok && made == Made(e, a, status, before, list)
      ensures log == old(log) + made
    {
      hide Inv, Status, Fits, Opencode, Reacting, PriorOf, TurnAfter;
      var t := KeepTurn(a, status, w.now);
      var prior := Prior(a, status, prev, w);
      if prior == None {
        return false, [];
      }
      if prior.value == status {
        return true, [];
      }
      See(a, status);
      ok, made := React(a, status, prior.value, t, screen, w, before, list);
    }

    method KeepTurn(a: Attempt, status: string, now: int) returns (t: Option<Turn>)
      modifies `turns
      ensures t == old(LocalOf(a.id)).turn
      ensures OnlyOf(a.id)
        && LocalOf(a.id) == old(LocalOf(a.id)).(turn := TurnAfter(old(LocalOf(a.id)).turn, status, now))
    {
      t := if a.id in turns then Some(turns[a.id]) else None;
      if status != "working" {
        turns := turns - {a.id};
      } else if t == None {
        turns := turns[a.id := Turn(now, false)];
      }
    }

    /** An opencode agent that works was blocked before when the last event says so. */
    method Prior(a: Attempt, status: string, prev: string, w: Answers) returns (p: Option<string>)
      ensures p == PriorOf(a, status, prev, w)
    {
      if status == "working" && prev != "blocked" && a.harness == "opencode" {
        if w.lastEvent == None {
          return None;
        }
        if w.lastEvent.value == "attempt.blocked" {
          return Some("blocked");
        }
      }
      return Some(prev);
    }

    method See(a: Attempt, status: string)
      requires Inv() && Status(status)
      modifies `seen, `heldAt
      ensures Inv() && OnlyOf(a.id) && LocalOf(a.id) == old(LocalOf(a.id)).(seen := status, heldAt := None)
    {
      seen := seen[a.id := status];
      heldAt := heldAt - {a.id};
    }

    /** What a status has to pass first: a held attempt that is still at rest changes nothing, and a
        blocked one is acted on when the status before it was blocked too and the screen waits. */
    method Waits(a: Attempt, status: string, prev: string, w: Answers) returns (go: bool, screen: string)
      requires Inv() && prev == LocalOf(a.id).seen
      modifies `blockedPending, `observed
      ensures Inv() && OnlyOf(a.id) && observed == old(observed)[a.id := status]
      ensures go ==> (status == "blocked" ==> Before(old(observed), a.id) == Some("blocked"))
      ensures var l := old(LocalOf(a.id)); var own := ScreenOf(a, w);
        if l.seen == "held" && (status == "done" || status == "idle") then !go && LocalOf(a.id) == l.(pending := false)
        else if status == "blocked" && !l.pending then !go && LocalOf(a.id) == l.(pending := l.seen != "blocked")
        else if status == "blocked" && own.Some? && !patterns.waiting(a.harness, own.value) then
          !go && LocalOf(a.id) == l
        else go && LocalOf(a.id) == l.(pending := false)
             && screen == if status == "blocked" && own.Some? then own.value else ""
    {
      hide RecordOk;
      observed := observed[a.id := status];
      if prev == "held" && (status == "done" || status == "idle") {
        blockedPending := blockedPending - {a.id};
        return false, "";
      }
      screen := "";
      if status == "blocked" {
        if a.id !in blockedPending {
          if prev != "blocked" {
            blockedPending := blockedPending + {a.id};
          }
          return false, "";
        }
        if w.read.Some? && w.read.value.terminal == a.terminal {
          if !patterns.waiting(a.harness, w.read.value.text) {
            return false, "";
          }
          screen := w.read.value.text;
        }
      }
      blockedPending := blockedPending - {a.id};
      return true, screen;
    }

    /** A status that is new for the attempt. */
    method React(a: Attempt, status: string, prev: string, t: Option<Turn>, screen: string, w: Answers,
                 ghost before: Option<string>, ghost list: Option<Seen>) returns (ok: bool, ghost made: seq<Record>)
      requires Inv() && Fits(a, list) && (status == "blocked" ==> before == Some("blocked"))
      modifies `seen, `turns, `heldAt, `log
      ensures Inv() && OnlyOf(a.id)
      ensures var e := Reacting(patterns, busy, old(LocalOf(a.id)), a, t, prev, screen, status, w);
        LocalOf(a.id) == e.local && ok == e.ok && made == Made(e, a, status, before, list)
      ensures log == old(log) + made
    {
      hide Ending, Blocking, ListSays;
      if status == "working" {
        if prev == "blocked" {
          ok, made := Store(a, "working", w, status, before, list);
          return;
        }
        return true, [];
      }
      if status == "blocked" {
        ok, made := NoteBlocked(a, "", screen, w, status, before, list);
        return;
      }
      if status == "done" || status == "idle" {
        if status == "idle" && prev != "working" && prev != "blocked" {
          return true, [];
        }
        ok, made := TurnEnded(a, t, status, w, before, list);
        return;
      }
      return true, [];
    }

    /** The turn may be over: an opencode session is held until a list shows it is not busy. */
    method TurnEnded(a: Attempt, t: Option<Turn>, status: string, w: Answers, ghost before: Option<string>,
                     ghost list: Option<Seen>)
      returns (ok: bool, ghost made: seq<Record>)
      requires Inv() && Fits(a, list) && (status == "done" || status == "idle")
      modifies `seen, `turns, `heldAt, `log
      ensures Inv() && OnlyOf(a.id)
      ensures var e := Ending(patterns, busy, old(LocalOf(a.id)), a, t, status, w);
        LocalOf(a.id) == e.local && ok == e.ok && made == Made(e, a, status, before, list)
      ensures log == old(log) + made
    {
      hide Inv, Resting, ListSays;
      if a.harness == "opencode" && a.session != "" && (busy == None || a.session in busy.value) {
        ok := KeepHolding(a, t, w);
        return ok, [];
      }
      FitsQuiet(a, list);
      ok, made := Rest(a, t, status, w, before, list);
    }

    lemma FitsQuiet(a: Attempt, list: Option<Seen>)
      requires Fits(a, list) && !(Opencode(a) && (busy == None || a.session in busy.value))
      ensures Opencode(a) ==> list.Some? && ListSays(list.value)
    {
    }

    /** An opencode session that may still be busy is held, and its turn goes on. */
    method KeepHolding(a: Attempt, t: Option<Turn>, w: Answers) returns (ok: bool)
      requires Inv()
      modifies `seen, `turns, `heldAt
      ensures Inv() && OnlyOf(a.id)
      ensures ok == (t.Some? || w.turnStart.Some?)
      ensures LocalOf(a.id) ==
        if !ok then old(LocalOf(a.id))
        else old(LocalOf(a.id)).(seen := "held", heldAt := Some(w.now), turn := Some(
          if t.Some? then t.value
          else Turn(if w.turnStart.value == None then w.now else w.turnStart.value.value, w.turnLong)))
    {
      var turn := Turn(w.now, false);
      if t.Some? {
        turn := t.value;
      } else {
        if w.turnStart == None {
          return false;
        }
        turn := Turn(if w.turnStart.value == None then w.now else w.turnStart.value.value, w.turnLong);
      }
      turns := turns[a.id := turn];
      Hold(a, w.now);
      return true;
    }

    method Rest(a: Attempt, t: Option<Turn>, status: string, w: Answers,
                ghost before: Option<string>, ghost list: Option<Seen>)
      returns (ok: bool, ghost made: seq<Record>)
      requires Inv() && (status == "done" || status == "idle")
      requires Opencode(a) ==> list.Some? && ListSays(list.value)
      modifies `seen, `log
      ensures Inv() && OnlyOf(a.id)
      ensures var e := Resting(patterns, old(LocalOf(a.id)), a, t, status, w);
        LocalOf(a.id) == e.local && ok == e.ok && made == Made(e, a, status, before, list)
      ensures log == old(log) + made
    {
      hide Inv, Shown, Blocking, ListSays, Quieting, Stored, Watcher.LocalOf, Opencode;
      if w.read == None {
        return false, [];
      }
      var text := w.read.value.text;
      var line := patterns.limit(a.harness, text);
      if line.Some? {
        if w.lastLimit == None {
          return false, [];
        }
        if Shown(w.lastLimit.value) != Shown(line.value) {
          ok, made := StoreLimited(a, w, status, before, list);
          return;
        }
      }
      if status == "idle" && a.asks && !patterns.idleScreen(text) {
        ok, made := NoteBlocked(a, patterns.title(text), text, w, status, before, list);
        return;
      }
      ok, made := Quiet(a, t, status, w, before, list);
    }

    method StoreLimited(a: Attempt, w: Answers, ghost status: string, ghost before: Option<string>,
                        ghost list: Option<Seen>)
      returns (ok: bool, ghost made: seq<Record>)
      requires Inv() && (Opencode(a) ==> list.Some? && ListSays(list.value))
      modifies `log
      ensures Inv()
      ensures var e := Stored(LocalOf(a.id), LocalOf(a.id), "limited", w);
        e.local == LocalOf(a.id) && ok == e.ok && made == Made(e, a, status, before, list)
      ensures log == old(log) + made
    {
      hide Inv, ListSays;
      ok, made := Store(a, "limited", w, status, before, list);
    }

    method Quiet(a: Attempt, t: Option<Turn>, status: string, w: Answers, ghost before: Option<string>,
                 ghost list: Option<Seen>)
      returns (ok: bool, ghost made: seq<Record>)
      requires Inv() && (Opencode(a) ==> list.Some? && ListSays(list.value))
      modifies `log
      ensures Inv()
      ensures var e := Quieting(LocalOf(a.id), t, w);
        e.local == LocalOf(a.id) && ok == e.ok && made == Made(e, a, status, before, list)
      ensures log == old(log) + made
    {
      hide Inv, ListSays;
      if w.turnStart == None {
        return false, [];
      }
      var since := w.turnStart.value;
      var start := if t.Some? then Some(t.value.since) else since;
      if since.Some? && start.Some? && 0 <= w.now - start.value < QUIET_GRACE {
        return true, [];
      }
      ok, made := Store(a, "quiet", w, status, before, list);
    }

    /** A note that the store may refuse, because the attempt ended, or fail to take. */
    method Store(a: Attempt, kind: string, w: Answers, ghost status: string, ghost before: Option<string>,
                 ghost list: Option<Seen>)
      returns (ok: bool, ghost made: seq<Record>)
      requires Inv() && RecordOk(Record(a.id, kind, Opencode(a), status, before, list)) && kind != ""
      modifies `log
      ensures Inv() && ok == (w.conflict || !w.fails)
      ensures made == if w.conflict || w.fails then [] else [Record(a.id, kind, Opencode(a), status, before, list)]
      ensures log == old(log) + made
    {
      if w.conflict {
        return true, [];
      }
      if w.fails {
        return false, [];
      }
      made := Note(a, kind, status, before, list);
      return true, made;
    }

    method Hold(a: Attempt, now: int)
      requires Inv()
      modifies `seen, `heldAt
      ensures Inv() && OnlyOf(a.id) && LocalOf(a.id) == old(LocalOf(a.id)).(seen := "held", heldAt := Some(now))
    {
      seen := seen[a.id := "held"];
      heldAt := heldAt[a.id := now];
    }

    method NoteBlocked(a: Attempt, title: string, screen: string, w: Answers, ghost status: string,
                       ghost before: Option<string>, ghost list: Option<Seen>)
      returns (ok: bool, ghost made: seq<Record>)
      requires Inv() && (status == "blocked" ==> before == Some("blocked"))
      modifies `seen, `log
      ensures Inv() && OnlyOf(a.id)
      ensures var e := Blocking(patterns, old(LocalOf(a.id)), a, title, screen, w);
        LocalOf(a.id) == e.local && ok == e.ok && made == Made(e, a, status, before, list)
      ensures log == old(log) + made
    {
      if screen != "" && title == "" && !patterns.waiting(a.harness, screen) {
        return true, [];
      }
      ok, made := Store(a, "blocked", w, status, before, list);
      if ok && !w.conflict {
        seen := seen[a.id := "blocked"];
      }
    }

    /** One list of sessions replaces the one that was not taken yet. */
    method ListSessions(b: BusyList)
      modifies `busyNow
      ensures busyNow == Some(b)
    {
      busyNow := None;
      if busyNow == None {
        busyNow := Some(b);
      }
    }

    /** A list of sessions. One unreadable list is let pass; after the second in a row no session
        counts as busy. A list that is handled is applied to every live attempt in turn, up to the first
        failure. */
    method Held(live: seq<Attempt>, b: BusyList, w: nat -> Answers)
      returns (ok: bool, ghost made: seq<Record>, ghost reached: nat)
      requires Valid() && forall k :: w(k).explain.Some? ==> Status(w(k).explain.value)
      modifies `seen, `turns, `blockedPending, `heldAt, `observed, `log, `busy, `busyMisses, `unreadable
      ensures Valid() && unreadable == (b.ids == None)
      ensures log == old(log) + made
      ensures forall r :: r in made ==> MadeBy(r, b, !old(unreadable))
      ensures b.ids == None && !old(unreadable) ==> made == []
      ensures busyMisses == if old(heldAt) != map[] && b.ids == None && old(busyMisses) == 0 then 1 else 0
      ensures old(heldAt) == map[] || (b.ids == None && old(busyMisses) == 0) ==>
        ok && made == [] && Locals() == old(Locals())
      ensures old(heldAt) != map[] && (b.ids.Some? || old(busyMisses) == 1) ==>
        && reached <= |live| && (if ok then reached == |live| else reached > 0)
        && (DistinctIds(live) ==>
              Turns(patterns, ForList(if b.ids.Some? then b.ids.value else {}, b), live, w,
                    old(Locals()), old(Locals()), Locals(), reached, ok, made))
    {
      hide Inv, MadeBy, Looked, Listing, Observing, Turns, DistinctIds, LocalsIn;
      made, reached := [], 0;
      ghost var previousReadable := !unreadable;
      var go := Count(b);
      if !go {
        return true, [], 0;
      }
      var ids := if b.ids.Some? then b.ids.value else {};
      busy := Some(ids);
      ok, made, reached := HeldEach(live, b, ids, w, previousReadable);
      busy := None;
    }

    /** Whether a list is handled: not while no attempt is held, nor the first unreadable one in a row. */
    method Count(b: BusyList) returns (go: bool)
      requires Inv()
      modifies `busyMisses, `unreadable
      ensures Inv() && unreadable == (b.ids == None)
      ensures go == (heldAt != map[] && (b.ids.Some? || old(busyMisses) == 1))
      ensures go && b.ids == None ==> old(unreadable)
      ensures busyMisses == if heldAt != map[] && b.ids == None && old(busyMisses) == 0 then 1 else 0
    {
      unreadable := b.ids == None;
      if heldAt == map[] {
        busyMisses := 0;
        return false;
      }
      if b.ids.Some? {
        busyMisses := 0;
      } else {
        busyMisses := busyMisses + 1;
        if busyMisses < 2 {
          return false;
        }
        busyMisses := 0;
      }
      return true;
    }

    method HeldEach(live: seq<Attempt>, b: BusyList, ids: set<string>, w: nat -> Answers, ghost previousReadable: bool)
      returns (ok: bool, ghost made: seq<Record>, ghost reached: nat)
      requires Inv() && busy == Some(ids) && forall k :: w(k).explain.Some? ==> Status(w(k).explain.value)
      requires if b.ids.Some? then ids == b.ids.value else ids == {} && !previousReadable
      modifies `seen, `turns, `blockedPending, `heldAt, `observed, `log
      ensures Inv() && log == old(log) + made && forall r :: r in made ==> MadeBy(r, b, previousReadable)
      ensures reached <= |live| && (if ok then reached == |live| else reached > 0)
      ensures DistinctIds(live) ==>
        Turns(patterns, ForList(ids, b), live, w, old(Locals()), old(Locals()), Locals(), reached, ok, made)
    {
      hide Inv, MadeBy, Looked, Listing, Observing, Turns, DistinctIds, LocalIn;
      made, ok := [], true;
      NoTurns(patterns, ForList(ids, b), live, w, Locals());
      var i := 0;
      while i < |live| && ok
        invariant 0 <= i <= |live| && Inv() && log == old(log) + made && (ok || i > 0)
        invariant forall r :: r in made ==> MadeBy(r, b, previousReadable)
        invariant DistinctIds(live) ==>
          Turns(patterns, ForList(ids, b), live, w, old(Locals()), old(Locals()), Locals(), i, ok, made)
      {
        ghost var more, s, q, h, t := [], seen, blockedPending, heldAt, turns;
        ok, more := HeldOne(live[i], b, ids, w(i), previousReadable);
        if DistinctIds(live) {
          TurnTaken(patterns, ForList(ids, b), live, w, old(Locals()), s, q, h, t,
                    seen, blockedPending, heldAt, turns, i, made, more, ok);
        }
        made := made + more;
        i := i + 1;
      }
      reached := i;
    }

    /** A list that was read after the attempt was held decides about it. */
    method HeldOne(a: Attempt, b: BusyList, ids: set<string>, w: Answers, ghost previousReadable: bool)
      returns (ok: bool, ghost made: seq<Record>)
      requires Inv() && busy == Some(ids) && (w.explain.Some? ==> Status(w.explain.value))
      requires if b.ids.Some? then ids == b.ids.value else ids == {} && !previousReadable
      modifies `seen, `turns, `blockedPending, `heldAt, `observed, `log
      ensures Inv() && OnlyOf(a.id) && log == old(log) + made
      ensures forall r :: r in made ==> MadeBy(r, b, previousReadable)
      ensures var e := Looked(patterns, ForList(ids, b), old(LocalOf(a.id)), a, w);
        && LocalOf(a.id) == e.local && ok == e.ok
        && |made| == (if e.note == "" then 0 else 1)
        && (made != [] ==> made[0].kind == e.note && made[0].id == a.id)
    {
      hide Inv, RecordOk, ListSays, Opencode, Observing, Again;
      if !a.running || !a.here || (a.id in heldAt && heldAt[a.id] > b.at) {
        return true, [];
      }
      var state := if a.id in seen then seen[a.id] else "";
      if state != "held" && state != "idle?" {
        return true, [];
      }
      HeldSince(a.id);
      ghost var list := Seen(b.at, heldAt[a.id], b.ids.Some?, previousReadable, a.session in ids);
      ListFits(list, a, ids);
      if state == "idle?" && a.session !in ids {
        if w.turnStart == None {
          return false, [];
        }
        var since := w.turnStart.value;
        if since == None || !(a.session in b.idle && b.idle[a.session] > since.value) {
          if a.id in blockedPending && w.explain.Some? {
            ok, made := Observe(a, w.explain.value, w, Some(list));
            return;
          }
          Unpend(a.id);
          See(a, "idle");
          return true, [];
        }
      }
      ok, made := LookAgain(a, ids, w, list);
    }

    method LookAgain(a: Attempt, ids: set<string>, w: Answers, ghost list: Seen)
      returns (ok: bool, ghost made: seq<Record>)
      requires Inv() && busy == Some(ids) && (w.explain.Some? ==> Status(w.explain.value)) && Fits(a, Some(list))
      modifies `seen, `turns, `blockedPending, `heldAt, `observed, `log
      ensures Inv() && OnlyOf(a.id) && log == old(log) + made && forall r :: r in made ==> r.list == Some(list)
      ensures var e := Again(patterns, ids, old(LocalOf(a.id)), a, w);
        && LocalOf(a.id) == e.local && ok == e.ok
        && |made| == (if e.note == "" then 0 else 1)
        && (made != [] ==> made[0].kind == e.note && made[0].id == a.id)
    {
      hide Inv, RecordOk, ListSays, Opencode, Observing;
      if w.explain == None {
        return true, [];
      }
      See(a, "working");
      ok, made := Observe(a, w.explain.value, w, Some(list));
    }

    lemma HeldSince(id: nat)
      requires Inv() && id in seen && seen[id] in {"held", "idle?"}
      ensures id in heldAt
    {
    }

    lemma ListFits(list: Seen, a: Attempt, ids: set<string>)
      requires list.heldAt <= list.at && list.busy == (a.session in ids)
      requires list.readable || (ids == {} && !list.previousReadable)
      ensures a.session !in ids ==> ListSays(list)
    {
    }

    method Unpend(id: nat)
      requires Inv()
      modifies `blockedPending
      ensures Inv() && OnlyOf(id) && LocalOf(id) == old(LocalOf(id)).(pending := false)
    {
      blockedPending := blockedPending - {id};
    }

    /** A new connection starts from nothing but which attempts were held. */
    method Reconnect() returns (carried: set<nat>)
      requires Valid()
      modifies `seen, `heldAt, `blockedPending, `observed
      ensures Valid() && seen == map[] && heldAt == map[] && blockedPending == {} && observed == map[]
      ensures carried == set id | id in old(seen) && old(seen)[id] == "held"
    {
      carried := set id | id in seen && seen[id] == "held";
      seen, heldAt, blockedPending := map[], map[], {};
      observed := map[];
    }

    /** After a connection every live attempt is looked at in turn, up to the first failure. */
    method CatchUp(live: seq<Attempt>, carried: set<nat>, w: nat -> Answers)
      returns (ok: bool, ghost made: seq<Record>, ghost reached: nat)
      requires Valid() && forall k :: w(k).explain.Some? ==> Status(w(k).explain.value)
      modifies `seen, `turns, `blockedPending, `heldAt, `observed, `log
      ensures Valid() && log == old(log) + made && forall r :: r in made ==> r.list == None
      ensures reached <= |live| && (if ok then reached == |live| else reached > 0)
      ensures DistinctIds(live) ==>
        Turns(patterns, ForCatchUp(carried), live, w, old(Locals()), old(Locals()), Locals(), reached, ok, made)
    {
      hide Inv, RecordOk, Looked, CatchingUp, Observing, Carried, Opencode, Turns, DistinctIds, LocalIn;
      made := [];
      NoTurns(patterns, ForCatchUp(carried), live, w, Locals());
      for i := 0 to |live|
        invariant Valid() && log == old(log) + made && forall r :: r in made ==> r.list == None
        invariant DistinctIds(live) ==>
          Turns(patterns, ForCatchUp(carried), live, w, old(Locals()), old(Locals()), Locals(), i, true, made)
      {
        ghost var more, s, q, h, t := [], seen, blockedPending, heldAt, turns;
        ok, more := CatchUpOne(live[i], carried, w(i));
        if DistinctIds(live) {
          TurnTaken(patterns, ForCatchUp(carried), live, w, old(Locals()), s, q, h, t,
                    seen, blockedPending, heldAt, turns, i, made, more, ok);
        }
        made := made + more;
        if !ok {
          return false, made, i + 1;
        }
      }
      return true, made, |live|;
    }

    method CatchUpOne(a: Attempt, carried: set<nat>, v: Answers) returns (ok: bool, ghost made: seq<Record>)
      requires Valid() && (v.explain.Some? ==> Status(v.explain.value))
      modifies `seen, `turns, `blockedPending, `heldAt, `observed, `log
      ensures Valid() && OnlyOf(a.id) && log == old(log) + made && forall r :: r in made ==> r.list == None
      ensures var e := Looked(patterns, ForCatchUp(carried), old(LocalOf(a.id)), a, v);
        && LocalOf(a.id) == e.local && ok == e.ok
        && |made| == (if e.note == "" then 0 else 1)
        && (made != [] ==> made[0].kind == e.note && made[0].id == a.id)
    {
      hide Inv, RecordOk, Observing, Carried;
      if !a.running || !a.here || v.explain == None {
        return true, [];
      }
      CarriedIsStatus(a, carried, v.explain.value, v.lastEvent);
      if v.lastEvent == None {
        return false, [];
      }
      var prev := Carried(a, carried, v.explain.value, v.lastEvent.value);
      if prev == "idle?" {
        Wait(a, v.now);
        return true, [];
      }
      See(a, prev);
      if v.explain.value == "working" && a.id !in turns {
        if v.turnStart == None {
          return false, [];
        }
        GoOn(a, Turn(if v.turnStart.value == None then v.now else v.turnStart.value.value, v.turnLong));
      }
      ok, made := Observe(a, v.explain.value, v, None);
    }

    method GoOn(a: Attempt, t: Turn)
      modifies `turns
      ensures OnlyOf(a.id) && LocalOf(a.id) == old(LocalOf(a.id)).(turn := Some(t))
    {
      turns := turns[a.id := t];
    }

    lemma CarriedIsStatus(a: Attempt, carried: set<nat>, status: string, last: Option<string>)
      requires Status(status)
      ensures last.Some? ==> Carried(a, carried, status, last.value) != "held"
    {
    }

    method Wait(a: Attempt, now: int)
      requires Inv()
      modifies `seen, `heldAt
      ensures Inv() && OnlyOf(a.id) && LocalOf(a.id) == old(LocalOf(a.id)).(seen := "idle?", heldAt := Some(now))
    {
      seen := seen[a.id := "idle?"];
      heldAt := heldAt[a.id := now];
    }

    /** Pending blocks are looked at again, one live attempt after the other; when no look fails, those
        of attempts that are gone are dropped. */
    method ConfirmBlocked(live: seq<Attempt>, w: nat -> Answers)
      returns (ok: bool, ghost made: seq<Record>, ghost reached: nat)
      requires Valid() && forall k :: w(k).explain.Some? ==> Status(w(k).explain.value)
      modifies `seen, `turns, `blockedPending, `heldAt, `observed, `log
      ensures Valid() && log == old(log) + made && forall r :: r in made ==> r.list == None
      ensures ok ==> blockedPending <= set i | 0 <= i < |live| :: live[i].id
      ensures old(blockedPending) == {} ==> ok && made == [] && Locals() == old(Locals())
      ensures old(blockedPending) != {} ==>
        && reached <= |live| && (if ok then reached == |live| else reached > 0)
        && (DistinctIds(live) ==>
              Turns(patterns, ForBlocks, live, w, old(Locals()), if ok then Unpended(old(Locals())) else old(Locals()),
                    Locals(), reached, ok, made))
    {
      hide Inv, RecordOk, Looked, Observing, Opencode, Turns, DistinctIds, LocalIn, Checks;
      made := [];
      if blockedPending == {} {
        return true, [], 0;
      }
      ghost var was := Locals();
      var checked: set<nat> := {};
      NoTurns(patterns, ForBlocks, live, w, Locals());
      NoChecks(live, was);
      for i := 0 to |live|
        invariant Valid() && log == old(log) + made && forall r :: r in made ==> r.list == None
        invariant Checks(live, i, was, checked, DistinctIds(live))
        invariant DistinctIds(live) ==> Turns(patterns, ForBlocks, live, w, was, was, Locals(), i, true, made)
      {
        ghost var more, s, q, h, t := [], seen, blockedPending, heldAt, turns;
        if DistinctIds(live) {
          TurnsUntouched(patterns, ForBlocks, live, w, was, Locals(), i, made);
        }
        IsPending(live[i].id);
        ChecksMore(live, i, was, checked, LocalOf(live[i].id).pending, DistinctIds(live));
        if live[i].id in blockedPending {
          checked := checked + {live[i].id};
        }
        ok, more := ConfirmOne(live[i], w(i));
        if DistinctIds(live) {
          TurnTaken(patterns, ForBlocks, live, w, was, s, q, h, t,
                    seen, blockedPending, heldAt, turns, i, made, more, ok);
        }
        made := made + more;
        if !ok {
          return false, made, i + 1;
        }
      }
      Drop(checked, live, w, was, made);
      return true, made, |live|;
    }

    lemma IsPending(id: nat)
      ensures LocalOf(id).pending == (id in blockedPending)
    {
    }

    method Drop(checked: set<nat>, ghost live: seq<Attempt>, ghost w: nat -> Answers, ghost was: imap<nat, Local>,
                ghost made: seq<Record>)
      requires Valid() && (forall id: nat :: id in was) && Checks(live, |live|, was, checked, DistinctIds(live))
      requires DistinctIds(live) ==> Turns(patterns, ForBlocks, live, w, was, was, Locals(), |live|, true, made)
      modifies `blockedPending
      ensures Valid() && blockedPending <= set i | 0 <= i < |live| :: live[i].id
      ensures DistinctIds(live) ==>
        Turns(patterns, ForBlocks, live, w, was, Unpended(was), Locals(), |live|, true, made)
    {
      hide Turns, RecordOk, DistinctIds, Looked;
      ghost var now := Locals();
      blockedPending := blockedPending * checked;
      if DistinctIds(live) {
        PendingDropped(patterns, live, w, was, now, Locals(), checked, made);
      }
    }

    method ConfirmOne(a: Attempt, v: Answers) returns (ok: bool, ghost made: seq<Record>)
      requires Valid() && (v.explain.Some? ==> Status(v.explain.value))
      modifies `seen, `turns, `blockedPending, `heldAt, `observed, `log
      ensures Valid() && OnlyOf(a.id) && log == old(log) + made && forall r :: r in made ==> r.list == None
      ensures var e := Looked(patterns, ForBlocks, old(LocalOf(a.id)), a, v);
        && LocalOf(a.id) == e.local && ok == e.ok
        && |made| == (if e.note == "" then 0 else 1)
        && (made != [] ==> made[0].kind == e.note && made[0].id == a.id)
    {
      hide Inv, RecordOk, Observing;
      if a.id !in blockedPending || v.explain == None {
        return true, [];
      }
      ok, made := Observe(a, v.explain.value, v, None);
    }

    /** An opencode agent whose last event is a block and that works again is observed, and no other. */
    method Unblock(live: seq<Attempt>, w: nat -> Answers)
      returns (ok: bool, ghost made: seq<Record>, ghost reached: nat)
      requires Valid()
      modifies `seen, `turns, `blockedPending, `heldAt, `observed, `log
      ensures Valid() && log == old(log) + made && forall r :: r in made ==> r.list == None
      ensures forall r :: r in made ==> exists i :: 0 <= i < |live| && r.id == live[i].id && WorksAgain(live[i], w(i))
      ensures reached <= |live| && (if ok then reached == |live| else reached > 0)
      ensures DistinctIds(live) ==>
        Turns(patterns, ForUnblock, live, w, old(Locals()), old(Locals()), Locals(), reached, ok, made)
    {
      hide RecordOk, Looked, Observing, Opencode, Turns, DistinctIds, LocalIn;
      made := [];
      NoTurns(patterns, ForUnblock, live, w, Locals());
      for i := 0 to |live|
        invariant Valid() && log == old(log) + made && forall r :: r in made ==> r.list == None
        invariant forall r :: r in made ==> exists j :: 0 <= j < i && r.id == live[j].id && WorksAgain(live[j], w(j))
        invariant DistinctIds(live) ==>
          Turns(patterns, ForUnblock, live, w, old(Locals()), old(Locals()), Locals(), i, true, made)
      {
        ghost var more, s, q, h, t := [], seen, blockedPending, heldAt, turns;
        ok, more := UnblockOne(live[i], w(i));
        if DistinctIds(live) {
          TurnTaken(patterns, ForUnblock, live, w, old(Locals()), s, q, h, t,
                    seen, blockedPending, heldAt, turns, i, made, more, ok);
        }
        made := made + more;
        if !ok {
          return false, made, i + 1;
        }
      }
      return true, made, |live|;
    }

    method UnblockOne(a: Attempt, v: Answers) returns (ok: bool, ghost made: seq<Record>)
      requires Valid()
      modifies `seen, `turns, `blockedPending, `heldAt, `observed, `log
      ensures Valid() && OnlyOf(a.id) && log == old(log) + made && forall r :: r in made ==> r.list == None
      ensures made != [] ==> WorksAgain(a, v)
      ensures var e := Looked(patterns, ForUnblock, old(LocalOf(a.id)), a, v);
        && LocalOf(a.id) == e.local && ok == e.ok
        && |made| == (if e.note == "" then 0 else 1)
        && (made != [] ==> made[0].kind == e.note && made[0].id == a.id)
    {
      hide Inv, RecordOk, Observing;
      if !a.running || !a.here || (a.id in seen && seen[a.id] == "blocked") || a.harness != "opencode" {
        return true, [];
      }
      if v.lastEvent == None {
        return false, [];
      }
      if v.lastEvent.value != "attempt.blocked" || v.explain != Some("working") {
        return true, [];
      }
      ok, made := Observe(a, "working", v, None);
    }

    /** Attempts that ended are forgotten. */
    method Reconcile(ended: set<nat>)
      requires Valid()
      modifies `seen
      ensures Valid() && seen == old(seen) - ended
    {
      seen := seen - ended;
    }
  }

  // ----- the watch loop -----

  /** What wakes the watcher. */
  datatype Event =
    | Changed(a: Attempt, status: string, answers: Answers)
    | Tick(ended: set<nat>, live: seq<Attempt>, w: nat -> Answers, u: nat -> Answers)
    | Sampled(b: BusyList)
    | Took(live: seq<Attempt>, w: nat -> Answers)
    | Connect(ended: set<nat>, live: seq<Attempt>, w: nat -> Answers)

  ghost predicate Possible(e: Event) {
    match e
    case Changed(_, status, _) => Status(status)
    case Tick(_, _, w, _) => forall k :: w(k).explain.Some? ==> Status(w(k).explain.value)
    case Sampled(_) => true
    case Took(_, w) => forall k :: w(k).explain.Some? ==> Status(w(k).explain.value)
    case Connect(_, _, w) => forall k :: w(k).explain.Some? ==> Status(w(k).explain.value)
  }

  /** Over every sequence of status events, ticks, lists and reconnects, every note is well-founded:
      an opencode session is recorded quiet or limited only by a list read no earlier than it was
      held that shows it not busy, or by the second unreadable list in a row; and a block seen as a
      status only when the status observed before it was blocked too. */
  method Drive(w: Watcher, events: seq<Event>)
    requires w.Valid() && w.log == [] && forall i :: 0 <= i < |events| ==> Possible(events[i])
    modifies w
    ensures w.Valid()
    ensures forall r :: r in w.log ==> RecordOk(r)
  {
    var connected := false;
    for i := 0 to |events|
      invariant w.Valid()
    {
      ghost var made, reached;
      match events[i] {
        case Sampled(b) =>
          w.ListSessions(b);
        case Connect(ended, live, answers) =>
          var carried := w.Reconnect();
          w.Reconcile(ended);
          connected, made, reached := w.CatchUp(live, carried, answers);
        case Changed(a, status, answers) =>
          if connected {
            connected, made := w.Observe(a, status, answers, None);
          }
        case Tick(ended, live, confirm, unblock) =>
          if connected {
            w.Reconcile(ended);
            connected, made, reached := w.ConfirmBlocked(live, confirm);
            if connected {
              connected, made, reached := w.Unblock(live, unblock);
            }
          }
        case Took(live, answers) =>
          if connected && w.busyNow.Some? {
            var b := w.busyNow.value;
            w.busyNow := None;
            connected, made, reached := w.Held(live, b, answers);
          }
      }
    }
  }
}

/** Waking the supervisor: which events are read, what the digest holds, and how the cursor moves.
    Texts are byte sequences; the one-line and title texts come from functions of the caller. */
module Wake {
  import opened Basics
  import opened Attempts

  const WAKE_KINDS := {
    "attempt.blocked", "attempt.denied", "attempt.quiet", "attempt.limited", "attempt.long", "attempt.reported",
    "attempt.exited", "attempt.interrupted", "attempt.failed", "decision.answered", "supervisor.stalled", "timer.fired"
  }
  const WAKE_BATCH := 50
  const MAX_PROMPT := 16384
  const HEADER := "[hand v1 wake]"

  /** An event with its number in the log. */
  datatype Logged = Logged(seqNo: nat, event: Event)

  // ----- the batch -----

  predicate Contains(s: string, part: string) {
    part <= s || (s != "" && Contains(s[1..], part))
  }

  lemma {:induction false} ContainsMeans(s: string, part: string)
    ensures Contains(s, part) <==> exists k :: 0 <= k <= |s| && part <= s[k..]
  {
    if part <= s {
      assert s[0..] == s;
    } else if s != "" {
      ContainsMeans(s[1..], part);
      forall k | 0 <= k <= |s[1..]| && part <= s[1..][k..]
        ensures part <= s[k + 1..]
      {
      }
      forall k | 0 <= k <= |s| && part <= s[k..]
        ensures k > 0 && part <= s[1..][k - 1..]
      {
        assert s[0..] == s;
      }
    }
  }

  /** Events about an attempt that ended or was cleaned since say nothing that needs a wake. */
  predicate Stale(attempts: map<nat, Attempt>, e: Event) {
    var id := AboutId(e.detail);
    && "a" <= e.detail
    && id in attempts
    && var a := attempts[id];
      || ((e.kind in {"attempt.blocked", "attempt.long"}
           || (e.kind == "attempt.quiet" && !Contains(e.detail, ": api error: ")))
          && !Live(a))
      || (e.kind in {"attempt.limited", "attempt.quiet"} && (a.status == "stopped" || a.cleanedAt != ""))
      || (e.kind in {"attempt.exited", "attempt.interrupted", "attempt.failed"} && a.cleanedAt != "")
  }

  predicate Wanted(attempts: map<nat, Attempt>, after: nat, l: Logged) {
    l.seqNo > after && l.event.kind in WAKE_KINDS && !Stale(attempts, l.event)
  }

  function Matching(log: seq<Logged>, attempts: map<nat, Attempt>, after: nat): seq<Logged> {
    if log == [] then []
    else
      var rest := Matching(log[..|log| - 1], attempts, after);
      var l := log[|log| - 1];
      if Wanted(attempts, after, l) then rest + [l] else rest
  }

  function WakeEventsAfter(log: seq<Logged>, attempts: map<nat, Attempt>, after: nat, limit: nat): seq<Logged> {
    var all := Matching(log, attempts, after);
    if |all| <= limit then all else all[..limit]
  }

  /** A progress report alone does not wake. */
  predicate Wakes(e: Event) {
    e.kind != "attempt.reported" || !EndsWith(e.detail, " progress")
  }

  function WakeEvents(log: seq<Logged>, attempts: map<nat, Attempt>, after: nat): seq<Logged> {
    var events := WakeEventsAfter(log, attempts, after, WAKE_BATCH);
    if |events| == WAKE_BATCH || exists k :: 0 <= k < |events| && Wakes(events[k].event) then events else []
  }

  // ----- the digest -----

  /** The texts that the digest takes from elsewhere. A valid text is not longer than its bytes. */
  datatype Texts = Texts(oneLine: string -> string, title: nat -> string, valid: string -> string)

  ghost predicate TextsOk(t: Texts) {
    forall s: string :: |t.valid(s)| <= |s|
  }

  function CutAt(s: string, part: string): nat {
    if s == "" || part <= s then 0 else 1 + CutAt(s[1..], part)
  }

  /** What a screen shows is not passed on. */
  function Shown(e: Event): string {
    if e.kind == "attempt.blocked" then
      var i := CutAt(e.detail, ": ");
      var ref := if i < |e.detail| then e.detail[..i] else e.detail;
      var rest := if i + 2 <= |e.detail| then e.detail[i + 2..] else "";
      if "question" <= rest then ref + ": its screen shows a question for the operator"
      else ref + ": its screen waits for a key"
    else e.detail
  }

  function Line(e: Event, t: Texts): (line: string)
    ensures line != ""
  {
    var line := "\n" + e.kind + " " + t.oneLine(Shown(e));
    if e.task != 0 && t.title(e.task) != "" then
      line + " (t" + Decimal(e.task) + " \"" + t.title(e.task) + "\")"
    else line
  }

  /** Of a blocked attempt the digest names the reference and what its screen waits for, and nothing
      that the screen shows; every other event is passed on as it is. */
  lemma ShownMeans(e: Event, ref: string, rest: string)
    requires e.kind == "attempt.blocked" && (forall k :: 0 <= k < |ref| ==> !(": " <= (ref + ": ")[k..]))
    ensures e.detail == ref + ": question" + rest ==> Shown(e) == ref + ": its screen shows a question for the operator"
    ensures e.detail == ref + ": " + rest && !("question" <= rest) ==> Shown(e) == ref + ": its screen waits for a key"
  {
    hide CutAt;
    if e.detail == ref + ": question" + rest {
      assert e.detail == ref + ": " + ("question" + rest);
      assert e.detail[|ref| + 2..] == "question" + rest && e.detail[..|ref|] == ref;
      CutThere(ref, "question" + rest);
    }
    if e.detail == ref + ": " + rest {
      CutThere(ref, rest);
      assert e.detail[|ref| + 2..] == rest && e.detail[..|ref|] == ref;
    }
  }

  lemma {:induction false} CutThere(ref: string, rest: string)
    requires forall k :: 0 <= k < |ref| ==> !(": " <= (ref + ": ")[k..])
    ensures CutAt(ref + ": " + rest, ": ") == |ref|
  {
    var s := ref + ": " + rest;
    if ref == "" {
      assert ": " <= s;
    } else {
      assert s[1..] == ref[1..] + ": " + rest;
      assert (ref + ": ")[0..] == ref + ": ";
      assert s[..2] == (ref + ": ")[..2];
      forall k | 0 <= k < |ref[1..]|
        ensures !(": " <= (ref[1..] + ": ")[k..])
      {
        assert (ref[1..] + ": ")[k..] == (ref + ": ")[k + 1..];
      }
      CutThere(ref[1..], rest);
    }
  }

  /** A line of the digest starts with the kind of the event, and ends with the number and the title of
      its task when there is one. */
  lemma LineMeans(e: Event, t: Texts)
    ensures e.task == 0 || t.title(e.task) == "" ==> Line(e, t) == "\n" + e.kind + " " + t.oneLine(Shown(e))
    ensures e.task != 0 && t.title(e.task) != "" ==>
      exists number :: Value(number) == e.task && Line(e, t)
        == "\n" + e.kind + " " + t.oneLine(Shown(e)) + " (t" + number + " \"" + t.title(e.task) + "\")"
  {
    hide Shown;
    DecimalReads(e.task);
    var number := Decimal(e.task);
  }

  /** The lines of the first k events; the first is cut when it alone is too long. */
  function Lines(events: seq<Logged>, t: Texts, k: nat): string
    requires k <= |events|
  {
    if k == 0 then HEADER
    else
      var line := Line(events[k - 1].event, t);
      if k == 1 && |HEADER| + |line| > MAX_PROMPT then HEADER + t.valid(line[..MAX_PROMPT - |HEADER|])
      else Lines(events, t, k - 1) + line
  }

  /** The digest is the longest prefix of the batch that fits, at least one event, and names the
      number of its last event. */
  ghost predicate IsDigest(events: seq<Logged>, t: Texts, text: string, last: nat, k: nat) {
    && 1 <= k <= |events|
    && text == Lines(events, t, k)
    && last == events[k - 1].seqNo
    && |text| <= MAX_PROMPT
    && (k < |events| ==> |text| + |Line(events[k].event, t)| > MAX_PROMPT)
  }

  method WakeDigest(events: seq<Logged>, t: Texts) returns (text: string, last: nat)
    requires events != [] && TextsOk(t) && forall i :: 0 <= i < |events| ==> events[i].seqNo > 0
    ensures exists k: nat :: IsDigest(events, t, text, last, k)
    ensures |text| <= MAX_PROMPT
  {
    hide Line, TextsOk;
    text, last := HEADER, 0;
    var i := 0;
    while i < |events|
      invariant 0 <= i <= |events|
      invariant text == Lines(events, t, i) && |text| <= MAX_PROMPT
      invariant last == if i == 0 then 0 else events[i - 1].seqNo
    {
      var line := Line(events[i].event, t);
      if |text| + |line| > MAX_PROMPT {
        if last != 0 {
          assert IsDigest(events, t, text, last, i);
          return;
        }
        ValidFits(t, line[..MAX_PROMPT - |text|]);
        line := t.valid(line[..MAX_PROMPT - |text|]);
      }
      text := text + line;
      last := events[i].seqNo;
      i := i + 1;
    }
    assert IsDigest(events, t, text, last, i);
  }

  lemma ValidFits(t: Texts, s: string)
    requires TextsOk(t)
    ensures |t.valid(s)| <= |s|
  {
  }

  // ----- one delivery -----

  /** What the terminal and the clock do during a delivery: whether the k-th prompt is accepted,
      whether the delivery is cancelled before it, and the status after it, if it can be read. */
  datatype World = World(accepts: nat -> bool, cancelled: nat -> bool, after: nat -> Option<string>, limited: bool)

  datatype Digest = Digest(from: nat, last: nat, included: seq<Logged>, attempts: map<nat, Attempt>)

  class Supervisor {
    var pending: seq<string>
    var delivered: seq<string>
    var cursor: nat
    var prompts: seq<string>

    /** Inputs go out in order, one at a time. The digest goes out only when no input was waiting and
        the supervisor is idle and not limited, and then the cursor moves to the digest's last event. */
    method Deliver(status: string, w: World, log: seq<Logged>, attempts: map<nat, Attempt>, t: Texts)
      returns (ghost woke: bool, ghost k: nat)
      requires TextsOk(t)
      modifies this
      ensures old(delivered) <= delivered && old(pending) == delivered[|old(delivered)|..] + pending
      ensures woke ==> old(pending) == [] && status in {"idle", "done"} && !w.limited
      ensures !woke ==> cursor == old(cursor) && prompts == old(prompts) + delivered[|old(delivered)|..]
      ensures woke ==>
        var events := WakeEvents(log, attempts, old(cursor));
        && |prompts| == |old(prompts)| + 1 && prompts[..|old(prompts)|] == old(prompts)
        && IsDigest(events, t, prompts[|old(prompts)|], cursor, k)
        && cursor > old(cursor)
    {
      woke, k := false, 0;
      var waiting := pending;
      var i := 0;
      while i < |waiting|
        invariant 0 <= i <= |waiting| && pending == waiting[i..] && cursor == old(cursor)
        invariant delivered == old(delivered) + waiting[..i]
        invariant prompts == old(prompts) + waiting[..i]
      {
        if w.cancelled(i) || !w.accepts(i) {
          return;
        }
        prompts := prompts + [waiting[i]];
        delivered := delivered + [waiting[i]];
        pending := pending[1..];
        assert waiting[..i + 1] == waiting[..i] + [waiting[i]];
        if w.after(i) == None {
          return;
        }
        i := i + 1;
      }
      if |waiting| > 0 || (status != "idle" && status != "done") {
        return;
      }
      if w.limited {
        return;
      }
      woke, k := Wake(w, log, attempts, t);
    }

    method Wake(w: World, log: seq<Logged>, attempts: map<nat, Attempt>, t: Texts)
      returns (ghost woke: bool, ghost k: nat)
      requires TextsOk(t)
      modifies `cursor, `prompts
      ensures !woke ==> cursor == old(cursor) && prompts == old(prompts)
      ensures woke ==>
        var events := WakeEvents(log, attempts, old(cursor));
        && |prompts| == |old(prompts)| + 1 && prompts[..|old(prompts)|] == old(prompts)
        && IsDigest(events, t, prompts[|old(prompts)|], cursor, k)
        && cursor > old(cursor)
    {
      hide TextsOk, IsDigest, Wanted;
      woke, k := false, 0;
      var events := WakeEvents(log, attempts, cursor);
      if events == [] || w.cancelled(0) || !w.accepts(0) {
        return;
      }
      BatchIsAfter(log, attempts, cursor);
      var text, last;
      text, last := WakeDigest(events, t);
      ghost var digested: nat :| IsDigest(events, t, text, last, digested);
      k := digested;
      DigestLast(events, t, text, last, k);
      prompts := prompts + [text];
      woke := true;
      if last > cursor {
        cursor := last;
      }
    }
  }

  lemma DigestLast(events: seq<Logged>, t: Texts, text: string, last: nat, k: nat)
    requires IsDigest(events, t, text, last, k)
    ensures 1 <= k <= |events| && last == events[k - 1].seqNo
  {
  }

  lemma {:induction false} MatchingAreWanted(log: seq<Logged>, attempts: map<nat, Attempt>, after: nat)
    ensures forall i :: 0 <= i < |Matching(log, attempts, after)| ==>
      Matching(log, attempts, after)[i] in log && Wanted(attempts, after, Matching(log, attempts, after)[i])
  {
    hide Wanted;
    if log != [] {
      MatchingAreWanted(log[..|log| - 1], attempts, after);
    }
  }

  lemma BatchIsAfter(log: seq<Logged>, attempts: map<nat, Attempt>, after: nat)
    ensures forall i :: 0 <= i < |WakeEvents(log, attempts, after)| ==>
      WakeEvents(log, attempts, after)[i].seqNo > after
  {
    MatchingAreWanted(log, attempts, after);
  }

  // ----- runs of deliveries -----

  /** top is the number of the newest event. */
  datatype State = State(log: seq<Logged>, top: nat, attempts: map<nat, Attempt>, start: nat, cursor: nat,
                         digests: seq<Digest>)

  predicate Starts(s: State) {
    s.log == [] && s.digests == [] && s.cursor == s.start <= s.top
  }

  function Emitted(s: State, e: Event): State {
    s.(log := s.log + [Logged(s.top + 1, e)], top := s.top + 1)
  }

  /** A delivery that succeeds: its batch is read from the log and the attempts as they are then. */
  ghost predicate Delivers(s: State, s': State) {
    var events := WakeEvents(s.log, s.attempts, s.cursor);
    exists t: Texts, text: string, last: nat, k: nat ::
      && IsDigest(events, t, text, last, k)
      && s' == s.(cursor := last, digests := s.digests + [Digest(s.cursor, last, events[..k], s.attempts)])
  }

  ghost predicate Next(s: State, s': State) {
    || (exists e :: s' == Emitted(s, e))
    || s' == s.(attempts := s'.attempts)
    || Delivers(s, s')
  }

  predicate Sorted(log: seq<Logged>) {
    forall i, j :: 0 <= i < j < |log| ==> log[i].seqNo < log[j].seqNo
  }

  /** The digest holds events between its cursors, in order, and misses only stale ones. */
  ghost predicate DigestOk(s: State, d: Digest) {
    && d.from < d.last <= s.cursor
    && d.included != []
    && Sorted(d.included)
    && (forall l :: l in d.included ==> l in s.log && d.from < l.seqNo <= d.last && !Stale(d.attempts, l.event))
    && (forall l :: l in s.log && l.event.kind in WAKE_KINDS && d.from < l.seqNo <= d.last ==>
        l in d.included || Stale(d.attempts, l.event))
  }

  /** The cursor after the first n digests. */
  function Reached(s: State, n: nat): nat
    requires n <= |s.digests|
  {
    if n == 0 then s.start else s.digests[n - 1].last
  }

  ghost predicate Inv(s: State) {
    && Sorted(s.log)
    && (forall l :: l in s.log ==> l.seqNo <= s.top)
    && s.start <= s.cursor <= s.top
    && (forall i :: 0 <= i < |s.digests| ==> DigestOk(s, s.digests[i]))
    && (forall i :: 0 <= i < |s.digests| ==> s.digests[i].from == Reached(s, i))
    && s.cursor == Reached(s, |s.digests|)
  }

  /** The matches are sorted like the log, and complete. */
  lemma {:induction false} MatchingIsComplete(log: seq<Logged>, attempts: map<nat, Attempt>, after: nat)
    requires Sorted(log)
    ensures Sorted(Matching(log, attempts, after))
    ensures forall l :: l in Matching(log, attempts, after) <==> l in log && Wanted(attempts, after, l)
  {
    hide Wanted;
    if log != [] {
      var front, l := log[..|log| - 1], log[|log| - 1];
      assert log == front + [l];
      MatchingIsComplete(front, attempts, after);
      var rest := Matching(front, attempts, after);
      forall i | 0 <= i < |rest|
        ensures rest[i].seqNo < l.seqNo
      {
        assert rest[i] in front;
      }
    }
  }

  /** A prefix of the batch misses nothing up to its last event. */
  lemma PrefixIsComplete(log: seq<Logged>, attempts: map<nat, Attempt>, after: nat, k: nat)
    requires Sorted(log) && 1 <= k <= |WakeEvents(log, attempts, after)|
    ensures var events := WakeEvents(log, attempts, after); var last := events[k - 1].seqNo;
      && after < last
      && Sorted(events[..k])
      && (forall l :: l in events[..k] <==> l in log && Wanted(attempts, after, l) && l.seqNo <= last)
  {
    hide Wanted, Matching, Wakes;
    var all := Matching(log, attempts, after);
    var events := WakeEvents(log, attempts, after);
    MatchingIsComplete(log, attempts, after);
    assert events[..k] == all[..k];
    assert all[k - 1] in all;
    WantedIsAfter(attempts, after, all[k - 1]);
    SortedPrefix(all, k);
  }

  lemma SortedPrefix(all: seq<Logged>, k: nat)
    requires Sorted(all) && 1 <= k <= |all|
    ensures Sorted(all[..k])
    ensures forall l :: l in all[..k] <==> l in all && l.seqNo <= all[k - 1].seqNo
  {
    forall l | l in all && l.seqNo <= all[k - 1].seqNo
      ensures l in all[..k]
    {
      var i :| 0 <= i < |all| && all[i] == l;
      assert i <= k - 1;
      assert all[..k][i] == l;
    }
    forall l | l in all[..k]
      ensures l in all && l.seqNo <= all[k - 1].seqNo
    {
      var i :| 0 <= i < k && all[i] == l;
    }
  }

  lemma WantedIsAfter(attempts: map<nat, Attempt>, after: nat, l: Logged)
    requires Wanted(attempts, after, l)
    ensures l.seqNo > after
  {
  }

  lemma EmitKeeps(s: State, e: Event)
    requires Inv(s)
    ensures Inv(Emitted(s, e))
  {
    hide Stale;
    var s' := Emitted(s, e);
    forall i | 0 <= i < |s.digests|
      ensures DigestOk(s', s.digests[i])
    {
      assert DigestOk(s, s.digests[i]);
    }
  }

  lemma DeliverKeeps(s: State, s': State)
    requires Inv(s) && Delivers(s, s')
    ensures Inv(s') && s'.cursor > s.cursor
  {
    hide Stale, Lines, Line;
    var events := WakeEvents(s.log, s.attempts, s.cursor);
    var t: Texts, text: string, last: nat, k: nat :| IsDigest(events, t, text, last, k)
      && s' == s.(cursor := last, digests := s.digests + [Digest(s.cursor, last, events[..k], s.attempts)]);
    var d := Digest(s.cursor, last, events[..k], s.attempts);
    NewDigestOk(s, s', k);
    DigestsMore(s, s', d);
  }

  lemma NewDigestOk(s: State, s': State, k: nat)
    requires Inv(s) && 1 <= k <= |WakeEvents(s.log, s.attempts, s.cursor)|
    requires s'.log == s.log && s'.cursor == WakeEvents(s.log, s.attempts, s.cursor)[k - 1].seqNo
    ensures var events := WakeEvents(s.log, s.attempts, s.cursor);
      DigestOk(s', Digest(s.cursor, events[k - 1].seqNo, events[..k], s.attempts))
    ensures s.cursor < s'.cursor <= s.top
  {
    hide Stale, WakeEvents;
    PrefixIsComplete(s.log, s.attempts, s.cursor, k);
    var events := WakeEvents(s.log, s.attempts, s.cursor);
    assert events[k - 1] in events[..k] by {
      assert events[..k][k - 1] == events[k - 1];
    }
  }

  lemma DigestStays(s: State, s': State, d: Digest)
    requires DigestOk(s, d) && s'.log == s.log && s.cursor <= s'.cursor
    ensures DigestOk(s', d)
  {
  }

  lemma DigestsMore(s: State, s': State, d: Digest)
    requires Inv(s) && s.cursor < s'.cursor <= s.top && DigestOk(s', d) && d.from == s.cursor && d.last == s'.cursor
    requires s' == s.(cursor := s'.cursor, digests := s.digests + [d])
    ensures Inv(s')
  {
    hide DigestOk;
    forall i | 0 <= i < |s'.digests|
      ensures DigestOk(s', s'.digests[i]) && s'.digests[i].from == Reached(s', i)
    {
      if i < |s.digests| {
        DigestStays(s, s', s.digests[i]);
      }
      assert Reached(s', i) == Reached(s, i);
    }
  }

  ghost predicate IsRun(run: seq<State>) {
    run != [] && Starts(run[0]) && forall i :: 0 <= i < |run| - 1 ==> Next(run[i], run[i + 1])
  }

  lemma StepKeeps(s: State, s': State)
    requires Inv(s) && Next(s, s')
    ensures Inv(s') && s'.cursor >= s.cursor
  {
    hide Stale;
    if Delivers(s, s') {
      DeliverKeeps(s, s');
    } else if e :| s' == Emitted(s, e) {
      EmitKeeps(s, e);
    } else {
      forall i | 0 <= i < |s.digests|
        ensures DigestOk(s', s.digests[i])
      {
        assert DigestOk(s, s.digests[i]);
      }
    }
  }

  lemma {:induction false} RunKeeps(run: seq<State>, k: nat)
    requires IsRun(run) && k < |run|
    ensures Inv(run[k])
  {
    if k > 0 {
      RunKeeps(run, k - 1);
      StepKeeps(run[k - 1], run[k]);
    }
  }

  /** Digests follow each other: the later one holds later events. */
  lemma {:induction false} DigestsFollow(s: State, i: nat, j: nat)
    requires Inv(s) && i < j < |s.digests|
    ensures s.digests[i].last <= s.digests[j].from
    decreases j
  {
    hide DigestOk;
    if i < j - 1 {
      DigestsFollow(s, i, j - 1);
      Between(s, j - 1);
    }
  }

  lemma Between(s: State, i: nat)
    requires Inv(s) && i < |s.digests|
    ensures s.digests[i].from < s.digests[i].last
  {
    assert DigestOk(s, s.digests[i]);
  }

  /** The digest whose span an event up to the cursor falls in. */
  lemma {:induction false} SpanOf(s: State, n: nat, seqNo: nat) returns (i: nat)
    requires Inv(s) && n <= |s.digests|
    requires s.start < seqNo <= Reached(s, n)
    ensures i < n && s.digests[i].from < seqNo <= s.digests[i].last
  {
    hide DigestOk;
    i := n - 1;
    if seqNo <= s.digests[n - 1].from {
      i := SpanOf(s, n - 1, seqNo);
    }
  }

  /** The i-th digest spans the event and holds it unless it was stale; no other digest holds it. */
  ghost predicate OnlyIn(digests: seq<Digest>, i: nat, l: Logged)
    requires i < |digests|
  {
    && digests[i].from < l.seqNo <= digests[i].last
    && (l in digests[i].included <==> !Stale(digests[i].attempts, l.event))
    && forall j :: 0 <= j < |digests| && j != i ==> l !in digests[j].included
  }

  /** Over every run of deliveries: each wake event up to the cursor is in exactly one digest, or
      was stale when its batch was read, and then in none. */
  lemma EachWakeEventOnce(run: seq<State>, n: nat, l: Logged)
    requires IsRun(run) && n < |run|
    requires l in run[n].log && l.event.kind in WAKE_KINDS && run[n].start < l.seqNo <= run[n].cursor
    ensures exists i :: 0 <= i < |run[n].digests| && OnlyIn(run[n].digests, i, l)
  {
    hide Stale;
    var s := run[n];
    RunKeeps(run, n);
    var i := SpanOf(s, |s.digests|, l.seqNo);
    assert DigestOk(s, s.digests[i]);
    forall j | 0 <= j < |s.digests| && j != i
      ensures l !in s.digests[j].included
    {
      assert DigestOk(s, s.digests[j]);
      if i < j {
        DigestsFollow(s, i, j);
      } else {
        DigestsFollow(s, j, i);
      }
    }
    assert OnlyIn(s.digests, i, l);
  }

  /** The cursor of a run never goes back, and a delivery moves it on. */
  lemma {:induction false} CursorRises(run: seq<State>, i: nat, k: nat)
    requires IsRun(run) && i < k < |run|
    ensures run[i].cursor <= run[k].cursor
    ensures Delivers(run[i], run[i + 1]) ==> run[i].cursor < run[k].cursor
    decreases k
  {
    hide Delivers, Inv;
    RunKeeps(run, k - 1);
    StepKeeps(run[k - 1], run[k]);
    if i < k - 1 {
      CursorRises(run, i, k - 1);
    } else if Delivers(run[i], run[i + 1]) {
      DeliverKeeps(run[i], run[k]);
    }
  }

  /** No event that should wake is held back: while one is after the cursor and not stale, there is a batch. */
  lemma NothingIsStarved(log: seq<Logged>, attempts: map<nat, Attempt>, after: nat, l: Logged)
    requires Sorted(log) && l in log && Wanted(attempts, after, l) && Wakes(l.event)
    ensures WakeEvents(log, attempts, after) != []
  {
    hide Wanted, Matching;
    MatchingIsComplete(log, attempts, after);
    var all := Matching(log, attempts, after);
    var k :| 0 <= k < |all| && all[k] == l;
    assert |all| < WAKE_BATCH ==> WakeEventsAfter(log, attempts, after, WAKE_BATCH)[k] == l;
  }

  /** An event that is stale stays stale while the store runs, so skipping it loses nothing. */
  lemma StaleStays(run: seq<DB>, ops: seq<Op>, i: nat, k: nat, e: Event)
    requires Attempts.IsRun(run, ops) && i <= k < |run| && Stale(run[i].attempts, e)
    ensures Stale(run[k].attempts, e)
  {
    hide AboutId, Contains;
    AttemptsGrow(run, ops, i, k, AboutId(e.detail));
  }
}

/** When the current turn of an attempt began, told by the event log. */
module Turns {
  import opened Basics
  import opened Attempts

  predicate About(e: Event, id: nat) {
    Ref(id) + ": " <= e.detail
  }

  /** What ends a turn, or begins the first one. */
  const ENDS := {"attempt.running", "attempt.quiet", "attempt.idle", "attempt.blocked", "attempt.limited"}

  /** What the operator or the supervisor does to begin a turn or go on with it. */
  const STARTS := {"attempt.sent", "attempt.keys", "attempt.denied"}

  predicate Ending(e: Event, id: nat) {
    e.kind in ENDS && About(e, id)
  }

  predicate Starting(e: Event, id: nat) {
    e.kind in STARTS && About(e, id)
  }

  /** The turn that is on after the first n events begins behind event end - 1. */
  ghost predicate TurnSince(log: seq<Event>, id: nat, end: nat, n: nat) {
    && end <= n <= |log|
    && (end > 0 ==> Ending(log[end - 1], id))
    && forall i :: end <= i < n ==> !Ending(log[i], id)
  }

  /** The first start of the turn counts; without one, the launch when that is what began it. */
  ghost predicate Began(log: seq<Event>, id: nat, end: nat, at: Option<string>)
    requires end <= |log|
  {
    if exists i :: end <= i < |log| && Starting(log[i], id) then
      exists i :: end <= i < |log| && FirstStart(log, id, end, i) && at == Some(log[i].at)
    else at == if end > 0 && log[end - 1].kind == "attempt.running" then Some(log[end - 1].at) else None
  }

  ghost predicate FirstStart(log: seq<Event>, id: nat, end: nat, i: nat) {
    end <= i < |log| && Starting(log[i], id) && forall k :: end <= k < i ==> !Starting(log[k], id)
  }

  /** The events are scanned from the newest back to the one that ended the turn before. */
  method TurnStart(log: seq<Event>, id: nat) returns (at: Option<string>, long: bool, ghost end: nat)
    requires forall i :: 0 <= i < |log| ==> log[i].at != ""
    ensures TurnSince(log, id, end, |log|)
    ensures Began(log, id, end, at)
    ensures long <==> exists i :: end <= i < |log| && log[i].kind == "attempt.long" && About(log[i], id)
  {
    hide About;
    var start := "";
    ghost var first: nat := |log|;
    long := false;
    var n := |log|;
    while n > 0
      invariant 0 <= n <= |log|
      invariant forall i :: n <= i < |log| ==> !Ending(log[i], id)
      invariant start == "" ==> forall i :: n <= i < |log| ==> !Starting(log[i], id)
      invariant start != "" ==> FirstStart(log, id, n, first) && start == log[first].at
      invariant long <==> exists i :: n <= i < |log| && log[i].kind == "attempt.long" && About(log[i], id)
    {
      var e := log[n - 1];
      if About(e, id) {
        if e.kind in ENDS {
          if e.kind == "attempt.running" && start == "" {
            return Some(e.at), long, n;
          }
          break;
        }
        if e.kind == "attempt.long" {
          long := true;
        } else if e.kind in STARTS {
          start := e.at;
          first := n - 1;
        }
      }
      n := n - 1;
    }
    end := n;
    at := if start == "" then None else Some(start);
  }
}

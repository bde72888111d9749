/** Moving a fleet's home, and finishing the move after crashes at any point. */
module FleetMove {
  import opened Basics
  import opened Gitfiles

  // ----- the marks in the event log -----

  datatype Mark = Moving(from: string, to: string) | Moved(from: string, to: string) | Else

  /** The last mark of a move, when it is a start. */
  function PendingOf(log: seq<Mark>): Option<(string, string)> {
    if log == [] then None
    else match log[|log| - 1]
      case Moving(from, to) => Some((from, to))
      case Moved(_, _) => None
      case Else => PendingOf(log[..|log| - 1])
  }

  /** A start that leaves out one of its homes does not name a move. */
  predicate NamesMove(detail: (string, string)) {
    detail.0 != "" && detail.1 != ""
  }

  /** The newest start and the newest end are looked for from the end of the log. A pending start that
      does not name a move is an error. */
  method PendingMove(log: seq<Mark>) returns (r: Option<(string, string)>, bad: bool)
    ensures bad <==> PendingOf(log).Some? && !NamesMove(PendingOf(log).value)
    ensures r == if bad then None else PendingOf(log)
  {
    var moving, moved, detail := 0, 0, ("", "");
    var i := |log|;
    assert log[..|log|] == log;
    while i > 0
      invariant 0 <= i <= |log|
      invariant moving == 0 && moved == 0 ==> PendingOf(log[..i]) == PendingOf(log)
      invariant moving == 0 || i < moving <= |log|
      invariant moved == 0 || i < moved <= |log|
      invariant moving != 0 || moved != 0 ==>
        PendingOf(log) == if moving > moved then Some(detail) else None
      invariant moving != moved || moving == 0
    {
      i := i - 1;
      assert log[..i + 1][..i] == log[..i];
      match log[i] {
        case Moved(_, _) =>
          if moved == 0 {
            moved := i + 1;
          }
        case Moving(from, to) =>
          if moving == 0 {
            moving, detail := i + 1, (from, to);
          }
        case Else =>
      }
    }
    if moving == 0 || moving < moved {
      return None, false;
    }
    if !NamesMove(detail) {
      return None, true;
    }
    return Some(detail), false;
  }

  // ----- crashes and reruns -----

  /** Where the folder is, whether an empty folder stands at the destination, what the database says,
      the gitfiles of the worktrees, and where the registry points. */
  datatype World = World(
    at: string, emptyDest: bool, log: seq<Mark>, home: string, files: map<string, Gitfile>, registry: string)

  /** The move: its two homes, and the worktrees in the order they are read. */
  datatype Move = Move(from: string, to: string, names: seq<string>)

  /** The homes of a move whose rewrite settles. */
  predicate MoveOk(m: Move) {
    m.from != "" && m.to != "" && m.from != m.to && Settles(m.from, m.to)
  }

  predicate Pending(w: World, m: Move) {
    PendingOf(w.log) == Some((m.from, m.to))
  }

  /** A world that a move starts from. */
  predicate Starts(w: World, m: Move) {
    w.at == m.from && PendingOf(w.log) == None
  }

  /** MoveHome is one transaction: it rewrites the recorded paths and notes that the move started. */
  function MoveHome(w: World, m: Move): World {
    w.(log := w.log + [Moving(m.from, m.to)], home := m.to)
  }

  /** The folder is renamed, the registry replaced and the database changed in one step each. Writing a
      gitfile empties it first. */
  datatype Action =
    | RemoveEmpty | Rename
    | Truncate(name: string) | Write(name: string, text: string)
    | Register | Confirm

  function Do(w: World, m: Move, a: Action): World {
    match a
    case RemoveEmpty => w.(emptyDest := false)
    case Rename => w.(at := m.to)
    case Truncate(n) => w.(files := w.files[n := File("")])
    case Write(n, text) => w.(files := w.files[n := File(text)])
    case Register => w.(registry := m.to)
    case Confirm => if Pending(w, m) then w.(log := w.log + [Moved(m.from, m.to)], home := m.to) else w
  }

  function DoAll(w: World, m: Move, actions: seq<Action>): World
    decreases |actions|
  {
    if actions == [] then w else DoAll(Do(w, m, actions[0]), m, actions[1..])
  }

  predicate DueIn(files: map<string, Gitfile>, n: string, home: string) {
    n in files && files[n].File? && Due(files[n].text, home)
  }

  function WriteOne(files: map<string, Gitfile>, n: string, m: Move): seq<Action> {
    if DueIn(files, n, m.from) then [Truncate(n), Write(n, Rewritten(files[n].text, m.from, m.to))] else []
  }

  function Writes(files: map<string, Gitfile>, names: seq<string>, m: Move): seq<Action> {
    if names == [] then []
    else Writes(files, names[..|names| - 1], m) + WriteOne(files, names[|names| - 1], m)
  }

  /** What comes before the gitfiles: in the new place the folder is done. */
  function FirstOf(w: World, m: Move): seq<Action> {
    if w.at == m.to then [] else if w.emptyDest then [RemoveEmpty, Rename] else [Rename]
  }

  function LaterOf(w: World, m: Move): seq<Action> {
    Writes(w.files, m.names, m) + [Register, Confirm]
  }

  /** What the command does in this world, in its order. Without a pending move there is nothing to
      finish. */
  function Plan(w: World, m: Move): seq<Action> {
    if !Pending(w, m) then [] else FirstOf(w, m) + LaterOf(w, m)
  }

  /** A run to its end. */
  function Finished(w: World, m: Move): World {
    DoAll(w, m, Plan(w, m))
  }

  /** A crash after so many actions, and with so much written when the next one writes a gitfile. */
  datatype Crash = Crash(after: nat, written: nat)

  /** What a crash lets an action do. */
  function Cut(a: Action, written: nat): seq<Action> {
    if a.Write? then [Write(a.name, if written < |a.text| then a.text[..written] else a.text)] else []
  }

  function Ran(w: World, m: Move, c: Crash): seq<Action> {
    var plan := Plan(w, m);
    if c.after < |plan| then plan[..c.after] + Cut(plan[c.after], c.written) else plan
  }

  /** The crash falls between the emptying of a gitfile and the last byte of its new text. */
  predicate InsideWrite(w: World, m: Move, c: Crash) {
    var plan := Plan(w, m);
    c.after < |plan| && plan[c.after].Write? && c.written < |plan[c.after].text|
  }

  function Crashed(w: World, m: Move, c: Crash): World {
    DoAll(w, m, Ran(w, m, c))
  }

  function CrashedAll(w: World, m: Move, crashes: seq<Crash>): World
    decreases |crashes|
  {
    if crashes == [] then w else CrashedAll(Crashed(w, m, crashes[0]), m, crashes[1..])
  }

  /** No crash falls inside the write of a gitfile. */
  predicate OutsideWrites(w: World, m: Move, crashes: seq<Crash>)
    decreases |crashes|
  {
    crashes == [] || (!InsideWrite(w, m, crashes[0]) && OutsideWrites(Crashed(w, m, crashes[0]), m, crashes[1..]))
  }

  /** The log after the move. */
  function LogAfter(w: World, m: Move): seq<Mark> {
    if Pending(w, m) then w.log + [Moved(m.from, m.to)] else w.log
  }

  /** The state a finished move leaves. */
  function Goal(w: World, m: Move): World {
    World(m.to, false, LogAfter(w, m), m.to, RewrittenFiles(w.files, m.names, m.from, m.to), m.to)
  }

  /** A world that a move starts from or a crash leaves: the folder is in one of its places, an empty
      folder can stand only at a destination that is free, and a move that is over reached its goal. */
  predicate Reached(w: World, m: Move) {
    && (w.at == m.from || w.at == m.to)
    && (w.at == m.to ==> !w.emptyDest)
    && (!Pending(w, m) ==> w == Goal(w, m))
  }

  // Action by action.

  lemma MarksEnd(log: seq<Mark>, m: Move)
    ensures PendingOf(log + [Moved(m.from, m.to)]) == None
    ensures PendingOf(log + [Moving(m.from, m.to)]) == Some((m.from, m.to))
  {
    assert (log + [Moved(m.from, m.to)])[..|log|] == log;
  }

  lemma NoActions(w: World, m: Move)
    ensures DoAll(w, m, []) == w
  {
  }

  lemma DoOne(w: World, m: Move, a: Action)
    ensures DoAll(w, m, [a]) == Do(w, m, a)
  {
  }

  lemma {:induction false} DoAllConcat(w: World, m: Move, a: seq<Action>, b: seq<Action>)
    ensures DoAll(w, m, a + b) == DoAll(DoAll(w, m, a), m, b)
    decreases |a|
  {
    hide Do;
    if a == [] {
      assert a + b == b;
    } else {
      assert (a + b)[1..] == a[1..] + b;
      DoAllConcat(Do(w, m, a[0]), m, a[1..], b);
    }
  }

  lemma DoLast(w: World, m: Move, a: seq<Action>, x: Action)
    ensures DoAll(w, m, a + [x]) == Do(DoAll(w, m, a), m, x)
  {
    hide DoAll, Do;
    DoAllConcat(w, m, a, [x]);
    DoOne(DoAll(w, m, a), m, x);
  }

  lemma FirstMoves(w: World, m: Move, k: nat)
    requires k <= |FirstOf(w, m)| && (w.at == m.to ==> !w.emptyDest)
    ensures DoAll(w, m, FirstOf(w, m)[..k]).(at := w.at, emptyDest := w.emptyDest) == w
    ensures var v := DoAll(w, m, FirstOf(w, m)[..k]);
      (v.at == w.at || v.at == m.to) && (v.at == m.to ==> !v.emptyDest)
      && (k == |FirstOf(w, m)| ==> v.at == m.to && !v.emptyDest)
  {
    hide DoAll;
    var first := FirstOf(w, m);
    NoActions(w, m);
    if k == 0 {
      assert first[..k] == [];
    } else if w.emptyDest {
      DoOne(w, m, RemoveEmpty);
      DoLast(w, m, [RemoveEmpty], Rename);
      assert [RemoveEmpty] + [Rename] == [RemoveEmpty, Rename];
      assert first[..k] == if k == 1 then [RemoveEmpty] else [RemoveEmpty, Rename];
    } else {
      DoOne(w, m, Rename);
      assert first[..k] == [Rename];
    }
  }

  predicate Later(a: Action) {
    a.Truncate? || a.Write? || a.Register?
  }

  predicate AllLater(actions: seq<Action>) {
    forall i :: 0 <= i < |actions| ==> Later(actions[i])
  }

  /** The later actions leave the folder and the log alone; only the last one ends the move. */
  lemma {:induction false} LaterActions(w: World, m: Move, actions: seq<Action>)
    requires AllLater(actions)
    ensures var v := DoAll(w, m, actions); v.at == w.at && v.emptyDest == w.emptyDest && v.log == w.log
    decreases |actions|
  {
    if actions != [] {
      assert Later(actions[0]);
      LaterActions(Do(w, m, actions[0]), m, actions[1..]);
    }
  }

  lemma {:induction false} WritesAreLater(files: map<string, Gitfile>, names: seq<string>, m: Move)
    ensures AllLater(Writes(files, names, m))
  {
    hide Rewritten, DueIn, AllLater;
    NoneIsLater();
    if names != [] {
      var n := names[|names| - 1];
      WritesAreLater(files, names[..|names| - 1], m);
      LaterConcat(Writes(files, names[..|names| - 1], m), WriteOne(files, n, m));
    }
  }

  lemma NoneIsLater()
    ensures AllLater([]) && forall n, text :: AllLater([Truncate(n), Write(n, text)])
  {
  }

  lemma LaterConcat(a: seq<Action>, b: seq<Action>)
    requires AllLater(a) && AllLater(b)
    ensures AllLater(a + b)
  {
  }

  // One pass over the gitfiles.

  /** The gitfiles that name no old home are as they were; the others hold some text. */
  predicate Kept(before: map<string, Gitfile>, files: map<string, Gitfile>, m: Move) {
    && files.Keys == before.Keys
    && forall n :: n in before ==>
      if n in m.names && DueIn(before, n, m.from) then files[n].File? else files[n] == before[n]
  }

  /** Every gitfile is as it was or as it should be. */
  predicate Whole(before: map<string, Gitfile>, files: map<string, Gitfile>, m: Move) {
    && files.Keys == before.Keys
    && forall n :: n in before ==>
      files[n] == before[n] || (n in m.names && files[n] == RewrittenFile(before[n], m.from, m.to))
  }

  lemma WholeIsKept(before: map<string, Gitfile>, files: map<string, Gitfile>, m: Move)
    requires Whole(before, files, m)
    ensures Kept(before, files, m)
  {
    hide Due, Rewritten;
    forall n | n in before && !(n in m.names && DueIn(before, n, m.from))
      ensures files[n] == before[n]
    {
      if n in m.names && before[n].File? {
        NotDueStays(before[n].text, m.from, m.to);
      }
    }
  }

  /** The action touches only a gitfile that is due. */
  predicate Fits(before: map<string, Gitfile>, a: Action, m: Move) {
    a.Truncate? || a.Write? ==> a.name in m.names && DueIn(before, a.name, m.from)
  }

  predicate AllFit(before: map<string, Gitfile>, actions: seq<Action>, m: Move) {
    forall i :: 0 <= i < |actions| ==> Fits(before, actions[i], m)
  }

  lemma {:induction false} DoAllKeeps(before: map<string, Gitfile>, w: World, m: Move, actions: seq<Action>)
    requires Kept(before, w.files, m) && AllFit(before, actions, m)
    ensures Kept(before, DoAll(w, m, actions).files, m)
    decreases |actions|
  {
    hide Due;
    if actions != [] {
      assert Fits(before, actions[0], m);
      DoAllKeeps(before, Do(w, m, actions[0]), m, actions[1..]);
    }
  }

  lemma {:induction false} WritesFit(
    before: map<string, Gitfile>, files: map<string, Gitfile>, names: seq<string>, m: Move)
    requires Kept(before, files, m) && forall n :: n in names ==> n in m.names
    ensures AllFit(before, Writes(files, names, m), m)
  {
    hide Due, Rewritten, AllFit;
    NoneToFit(before, m);
    if names != [] {
      var n := names[|names| - 1];
      WritesFit(before, files, names[..|names| - 1], m);
      OneFits(before, files, n, m);
      FitConcat(before, Writes(files, names[..|names| - 1], m), WriteOne(files, n, m), m);
    }
  }

  lemma NoneToFit(before: map<string, Gitfile>, m: Move)
    ensures AllFit(before, [], m)
  {
  }

  lemma OneFits(before: map<string, Gitfile>, files: map<string, Gitfile>, n: string, m: Move)
    requires Kept(before, files, m) && n in m.names
    ensures AllFit(before, WriteOne(files, n, m), m)
  {
    hide Due, Rewritten;
    if DueIn(files, n, m.from) {
      assert n in before;
      assert DueIn(before, n, m.from);
    }
  }

  lemma FitConcat(before: map<string, Gitfile>, a: seq<Action>, b: seq<Action>, m: Move)
    requires AllFit(before, a, m) && AllFit(before, b, m)
    ensures AllFit(before, a + b, m)
  {
    hide Fits;
  }

  /** Every gitfile is emptied right before its new text is written. */
  predicate Paired(before: map<string, Gitfile>, actions: seq<Action>, m: Move) {
    forall i {:trigger actions[i]} :: 0 <= i < |actions| ==>
      && (actions[i].Truncate? ==> i + 1 < |actions| && actions[i + 1].Write?)
      && (actions[i].Write? ==>
        && i > 0 && actions[i - 1] == Truncate(actions[i].name)
        && actions[i].name in before && actions[i].name in m.names
        && File(actions[i].text) == RewrittenFile(before[actions[i].name], m.from, m.to))
  }

  lemma PairedConcat(before: map<string, Gitfile>, a: seq<Action>, b: seq<Action>, m: Move)
    requires Paired(before, a, m) && Paired(before, b, m)
    ensures Paired(before, a + b, m)
  {
    hide RewrittenFile;
    var c := a + b;
    forall i {:trigger c[i]} | 0 <= i < |c|
      ensures (c[i].Truncate? ==> i + 1 < |c| && c[i + 1].Write?)
        && (c[i].Write? ==>
          && i > 0 && c[i - 1] == Truncate(c[i].name) && c[i].name in before && c[i].name in m.names
          && File(c[i].text) == RewrittenFile(before[c[i].name], m.from, m.to))
    {
      if i < |a| {
        assert c[i] == a[i];
      } else {
        assert c[i] == b[i - |a|];
      }
    }
  }

  lemma {:induction false} WritesArePaired(
    before: map<string, Gitfile>, files: map<string, Gitfile>, names: seq<string>, m: Move)
    requires MoveOk(m) && Whole(before, files, m) && forall n :: n in names ==> n in m.names
    ensures Paired(before, Writes(files, names, m), m)
  {
    hide Due, Rewritten, MoveOk;
    if names != [] {
      var n := names[|names| - 1];
      WritesArePaired(before, files, names[..|names| - 1], m);
      OneIsPaired(before, files, n, m);
      PairedConcat(before, Writes(files, names[..|names| - 1], m), WriteOne(files, n, m), m);
    }
  }

  lemma OneIsPaired(before: map<string, Gitfile>, files: map<string, Gitfile>, n: string, m: Move)
    requires MoveOk(m) && Whole(before, files, m) && n in m.names
    ensures Paired(before, WriteOne(files, n, m), m)
  {
    hide Due, Rewritten, Settles;
    if DueIn(files, n, m.from) {
      assert n in before;
      RewrittenTwice(before[n].text, m.from, m.to);
    }
  }

  /** Between two gitfiles each of them is whole. */
  lemma {:induction false} PrefixIsWhole(
    before: map<string, Gitfile>, w: World, m: Move, actions: seq<Action>, k: nat)
    requires Paired(before, actions, m) && Whole(before, w.files, m)
    requires k <= |actions| && (k < |actions| ==> !actions[k].Write?)
    ensures Whole(before, DoAll(w, m, actions[..k]).files, m)
  {
    hide DoAll, RewrittenFile, Paired;
    if k == 0 {
      assert actions[..0] == [];
      NoActions(w, m);
    } else if actions[k - 1].Write? {
      var n, text := actions[k - 1].name, actions[k - 1].text;
      PairAt(before, actions, m, k - 1);
      PrefixIsWhole(before, w, m, actions, k - 2);
      assert actions[..k - 1] == actions[..k - 2] + [Truncate(n)];
      assert actions[..k] == actions[..k - 1] + [Write(n, text)];
      DoLast(w, m, actions[..k - 2], Truncate(n));
      DoLast(w, m, actions[..k - 1], Write(n, text));
    } else {
      PairAt(before, actions, m, k - 1);
      PrefixIsWhole(before, w, m, actions, k - 1);
      assert actions[..k] == actions[..k - 1] + [actions[k - 1]];
      DoLast(w, m, actions[..k - 1], actions[k - 1]);
    }
  }

  lemma PairAt(before: map<string, Gitfile>, actions: seq<Action>, m: Move, i: nat)
    requires Paired(before, actions, m) && i < |actions|
    ensures actions[i].Truncate? ==> i + 1 < |actions| && actions[i + 1].Write?
    ensures actions[i].Write? ==>
      && i > 0 && actions[i - 1] == Truncate(actions[i].name)
      && actions[i].name in before && actions[i].name in m.names
      && File(actions[i].text) == RewrittenFile(before[actions[i].name], m.from, m.to)
  {
  }

  /** The writes of the pass, one after another, are the pass. */
  lemma {:induction false} WritesAreThePass(w: World, m: Move, n: nat)
    requires n <= |m.names|
    ensures DoAll(w, m, Writes(w.files, m.names[..n], m))
            == w.(files := RewrittenFiles(w.files, m.names[..n], m.from, m.to))
  {
    hide DoAll, RewrittenFile, DueIn, Rewritten;
    if n == 0 {
      NoActions(w, m);
      assert RewrittenFiles(w.files, [], m.from, m.to) == w.files;
    } else {
      var name := m.names[n - 1];
      WritesAreThePass(w, m, n - 1);
      assert m.names[..n][..n - 1] == m.names[..n - 1];
      DoAllConcat(w, m, Writes(w.files, m.names[..n - 1], m), WriteOne(w.files, name, m));
      OneMore(w, m, n);
    }
  }

  lemma OneMore(w: World, m: Move, n: nat)
    requires 0 < n <= |m.names|
    ensures DoAll(w.(files := RewrittenFiles(w.files, m.names[..n - 1], m.from, m.to)), m,
                  WriteOne(w.files, m.names[n - 1], m))
            == w.(files := RewrittenFiles(w.files, m.names[..n], m.from, m.to))
  {
    hide DoAll, Rewritten, Due;
    var name := m.names[n - 1];
    var v := w.(files := RewrittenFiles(w.files, m.names[..n - 1], m.from, m.to));
    assert m.names[..n] == m.names[..n - 1] + [name];
    if DueIn(w.files, name, m.from) {
      var text := Rewritten(w.files[name].text, m.from, m.to);
      DoOne(v, m, Truncate(name));
      DoLast(v, m, [Truncate(name)], Write(name, text));
      assert [Truncate(name)] + [Write(name, text)] == [Truncate(name), Write(name, text)];
    } else {
      NoActions(v, m);
      if name in w.files && w.files[name].File? {
        NotDueStays(w.files[name].text, m.from, m.to);
      }
    }
  }

  // Whole runs.

  /** All of a run but its last action. */
  lemma AllButConfirm(w: World, m: Move)
    requires w.at == m.to ==> !w.emptyDest
    ensures DoAll(w, m, FirstOf(w, m) + (Writes(w.files, m.names, m) + [Register]))
            == World(m.to, false, w.log, w.home, RewrittenFiles(w.files, m.names, m.from, m.to), m.to)
  {
    hide DoAll, RewrittenFiles, Writes;
    var first, writes := FirstOf(w, m), Writes(w.files, m.names, m);
    var v := w.(at := m.to, emptyDest := false);
    FirstMoves(w, m, |first|);
    assert first[..|first|] == first;
    assert m.names[..|m.names|] == m.names;
    WritesAreThePass(v, m, |m.names|);
    DoLast(v, m, writes, Register);
    DoAllConcat(w, m, first, writes + [Register]);
  }

  /** A run that is not interrupted reaches the goal, from the old place and from the new one. */
  lemma CompleteReachesGoal(w: World, m: Move)
    requires (w.at == m.to ==> !w.emptyDest) && (!Pending(w, m) ==> w == Goal(w, m))
    ensures Finished(w, m) == Goal(w, m)
  {
    hide DoAll, RewrittenFiles, Writes, FirstOf;
    NoActions(w, m);
    if Pending(w, m) {
      AllButConfirm(w, m);
      PlanEnds(w, m);
      DoLast(w, m, FirstOf(w, m) + (Writes(w.files, m.names, m) + [Register]), Confirm);
    }
  }

  lemma PlanEnds(w: World, m: Move)
    requires Pending(w, m)
    ensures Plan(w, m) == FirstOf(w, m) + (Writes(w.files, m.names, m) + [Register]) + [Confirm]
  {
    hide Writes, FirstOf;
    var first, writes := FirstOf(w, m), Writes(w.files, m.names, m);
    assert writes + [Register, Confirm] == (writes + [Register]) + [Confirm];
    assert first + ((writes + [Register]) + [Confirm]) == first + (writes + [Register]) + [Confirm];
  }

  /** What ran before a crash: a part of what moves the folder, and then actions that do not end the
      move. */
  lemma RanParts(w: World, m: Move, c: Crash) returns (k: nat, later: seq<Action>)
    requires c.after < |Plan(w, m)|
    ensures k <= |FirstOf(w, m)| && Ran(w, m, c) == FirstOf(w, m)[..k] + later
    ensures later != [] ==> k == |FirstOf(w, m)|
    ensures AllLater(later)
  {
    hide Writes;
    var first, rest := FirstOf(w, m), LaterOf(w, m);
    var plan := Plan(w, m);
    WritesAreLater(w.files, m.names, m);
    if c.after < |first| {
      k, later := c.after, [];
      assert plan[c.after] == first[c.after];
      assert plan[..c.after] + Cut(plan[c.after], c.written) == first[..k] + [];
    } else {
      var j := c.after - |first|;
      k, later := |first|, rest[..j] + Cut(rest[j], c.written);
      assert plan[..c.after] == first[..k] + rest[..j] && plan[c.after] == rest[j];
    }
  }

  /** A crash inside a run leaves the log, and the folder in one of its places. */
  lemma CrashIsReached(w: World, m: Move, c: Crash)
    requires Reached(w, m) && c.after < |Plan(w, m)|
    ensures Reached(Crashed(w, m, c), m) && Crashed(w, m, c).log == w.log
  {
    hide DoAll, Plan, Ran, FirstOf, Goal;
    var k, later := RanParts(w, m, c);
    FirstMoves(w, m, k);
    var v := DoAll(w, m, FirstOf(w, m)[..k]);
    DoAllConcat(w, m, FirstOf(w, m)[..k], later);
    LaterActions(v, m, later);
    PlanIsPending(w, m);
  }

  lemma PlanIsPending(w: World, m: Move)
    ensures Plan(w, m) != [] ==> Pending(w, m)
  {
  }

  lemma RanFits(before: map<string, Gitfile>, w: World, m: Move, c: Crash)
    requires Kept(before, w.files, m)
    ensures AllFit(before, Ran(w, m, c), m)
  {
    hide Writes, Kept, DueIn, FirstOf;
    WritesFit(before, w.files, m.names, m);
    FirstFits(before, w, m);
    FitConcat(before, Writes(w.files, m.names, m), [Register, Confirm], m);
    FitConcat(before, FirstOf(w, m), LaterOf(w, m), m);
    CutFits(before, Plan(w, m), m, c);
  }

  lemma FirstFits(before: map<string, Gitfile>, w: World, m: Move)
    ensures AllFit(before, FirstOf(w, m), m) && AllFit(before, [Register, Confirm], m)
  {
  }

  lemma CutFits(before: map<string, Gitfile>, actions: seq<Action>, m: Move, c: Crash)
    requires AllFit(before, actions, m)
    ensures c.after < |actions| ==> AllFit(before, actions[..c.after] + Cut(actions[c.after], c.written), m)
  {
    hide DueIn;
  }

  lemma PlanIsPaired(before: map<string, Gitfile>, w: World, m: Move)
    requires MoveOk(m) && Whole(before, w.files, m)
    ensures Paired(before, Plan(w, m), m)
  {
    hide Writes, Whole, MoveOk;
    WritesArePaired(before, w.files, m.names, m);
    assert Paired(before, [Register, Confirm], m);
    PairedConcat(before, Writes(w.files, m.names, m), [Register, Confirm], m);
    PairedConcat(before, FirstOf(w, m), LaterOf(w, m), m);
  }

  lemma CrashIsWhole(before: map<string, Gitfile>, w: World, m: Move, c: Crash)
    requires MoveOk(m) && Whole(before, w.files, m) && !InsideWrite(w, m, c)
    ensures Whole(before, Crashed(w, m, c).files, m)
  {
    hide DoAll, Plan, Whole, MoveOk, Paired;
    PlanIsPaired(before, w, m);
    var plan := Plan(w, m);
    var k := if c.after >= |plan| then |plan| else if plan[c.after].Write? then c.after + 1 else c.after;
    if c.after < |plan| && plan[c.after].Write? {
      PairAt(before, plan, m, c.after);
      if k < |plan| {
        PairAt(before, plan, m, k);
      }
    }
    assert Ran(w, m, c) == plan[..k];
    PrefixIsWhole(before, w, m, plan, k);
  }

  lemma WholeSettles(before: map<string, Gitfile>, files: map<string, Gitfile>, m: Move)
    requires MoveOk(m) && Kept(before, files, m)
    ensures RewrittenFiles(files, m.names, m.from, m.to) == RewrittenFiles(before, m.names, m.from, m.to)
            <==> Whole(before, files, m)
  {
    hide Rewritten, Due, Settles;
    var a := RewrittenFiles(files, m.names, m.from, m.to);
    var b := RewrittenFiles(before, m.names, m.from, m.to);
    forall n | n in before
      ensures a[n] == b[n] <==>
        files[n] == before[n] || (n in m.names && files[n] == RewrittenFile(before[n], m.from, m.to))
    {
      if n in m.names && before[n].File? {
        if DueIn(before, n, m.from) {
          HealsExactlyWhen(before[n].text, files[n].text, m.from, m.to);
        } else {
          NotDueStays(before[n].text, m.from, m.to);
        }
      }
    }
    if a == b {
      forall n | n in before
        ensures files[n] == before[n] || (n in m.names && files[n] == RewrittenFile(before[n], m.from, m.to))
      {
        assert a[n] == b[n];
      }
    }
  }

  /** The goal is reached, and stays so. */
  lemma GoalIsReached(w: World, m: Move)
    requires MoveOk(m)
    ensures Reached(Goal(w, m), m) && LogAfter(Goal(w, m), m) == LogAfter(w, m)
  {
    hide Rewritten, Settles;
    MarksEnd(w.log, m);
    forall n | n in w.files && n in m.names && w.files[n].File?
      ensures RewrittenFile(RewrittenFile(w.files[n], m.from, m.to), m.from, m.to)
              == RewrittenFile(w.files[n], m.from, m.to)
    {
      RewrittenTwice(w.files[n].text, m.from, m.to);
    }
    var once := RewrittenFiles(w.files, m.names, m.from, m.to);
    assert RewrittenFiles(once, m.names, m.from, m.to) == once;
  }

  /** A crash anywhere, also inside a write, leaves a world that a rerun finishes, with the same log at
      the end, and touches only the gitfiles that are due. Outside a write it leaves every gitfile
      whole. */
  lemma CrashKeeps(before: map<string, Gitfile>, w: World, m: Move, c: Crash)
    requires MoveOk(m) && Reached(w, m) && Kept(before, w.files, m)
    ensures Reached(Crashed(w, m, c), m) && LogAfter(Crashed(w, m, c), m) == LogAfter(w, m)
    ensures Kept(before, Crashed(w, m, c).files, m)
    ensures Whole(before, w.files, m) && !InsideWrite(w, m, c) ==> Whole(before, Crashed(w, m, c).files, m)
  {
    hide Goal, DoAll, Plan, Kept, Whole, MoveOk, Fits, InsideWrite;
    RanFits(before, w, m, c);
    DoAllKeeps(before, w, m, Ran(w, m, c));
    if Whole(before, w.files, m) && !InsideWrite(w, m, c) {
      CrashIsWhole(before, w, m, c);
    }
    if c.after < |Plan(w, m)| {
      CrashIsReached(w, m, c);
    } else {
      CompleteReachesGoal(w, m);
      GoalIsReached(w, m);
    }
  }

  lemma {:induction false} CrashesKeep(before: map<string, Gitfile>, w: World, m: Move, crashes: seq<Crash>)
    requires MoveOk(m) && Reached(w, m) && Kept(before, w.files, m)
    ensures var v := CrashedAll(w, m, crashes);
      && Reached(v, m) && LogAfter(v, m) == LogAfter(w, m) && Kept(before, v.files, m)
      && (Whole(before, w.files, m) && OutsideWrites(w, m, crashes) ==> Whole(before, v.files, m))
    decreases |crashes|
  {
    hide Reached, LogAfter, Kept, Whole, Crashed, MoveOk, InsideWrite;
    if crashes != [] {
      CrashKeeps(before, w, m, crashes[0]);
      CrashesKeep(before, Crashed(w, m, crashes[0]), m, crashes[1..]);
    }
  }

  /** What a move is for: the folder at the destination, every gitfile rewritten once, the registry and
      the record pointing there, and the move confirmed. */
  function Complete(w0: World, m: Move): World {
    World(m.to, false, w0.log + [Moving(m.from, m.to)] + [Moved(m.from, m.to)], m.to,
          RewrittenFiles(w0.files, m.names, m.from, m.to), m.to)
  }

  /** However often a move is interrupted and wherever, also inside the write of a gitfile: a run to
      its end completes it exactly when the crashes left every gitfile as it was or as it should be. */
  lemma FinishesExactlyWhen(w0: World, m: Move, crashes: seq<Crash>)
    requires MoveOk(m) && Starts(w0, m)
    ensures var w := CrashedAll(MoveHome(w0, m), m, crashes);
      && (Finished(w, m) == Complete(w0, m) <==> Whole(w0.files, w.files, m))
      && Finished(w, m).(files := map[]) == Complete(w0, m).(files := map[])
      && PendingOf(Finished(w, m).log) == None
    ensures OutsideWrites(MoveHome(w0, m), m, crashes) ==>
      Whole(w0.files, CrashedAll(MoveHome(w0, m), m, crashes).files, m)
  {
    hide Finished, OutsideWrites, CrashedAll, Settles, Kept, RewrittenFiles;
    var start := MoveHome(w0, m);
    MarksEnd(w0.log, m);
    MarksEnd(start.log, m);
    AsItWas(w0.files, m);
    CrashesKeep(w0.files, start, m, crashes);
    var w := CrashedAll(start, m, crashes);
    CompleteReachesGoal(w, m);
    WholeSettles(w0.files, w.files, m);
  }

  lemma AsItWas(files: map<string, Gitfile>, m: Move)
    ensures Whole(files, files, m) && Kept(files, files, m)
  {
    WholeIsKept(files, files, m);
  }

  /** Whatever was interrupted, but not inside the write of a gitfile, reaches one and the same state. */
  lemma AnyCrashFinishes(w0: World, m: Move, crashes: seq<Crash>)
    requires MoveOk(m) && Starts(w0, m) && OutsideWrites(MoveHome(w0, m), m, crashes)
    ensures Finished(CrashedAll(MoveHome(w0, m), m, crashes), m) == Complete(w0, m)
  {
    hide Finished, OutsideWrites, CrashedAll, Complete, Whole, MoveOk;
    FinishesExactlyWhen(w0, m, crashes);
  }

  ghost predicate FinishesAlways(from: string, to: string) {
    forall w0: World, names: seq<string>, crashes: seq<Crash> ::
      FinishesFrom(w0, Move(from, to, names), crashes)
  }

  predicate FinishesFrom(w0: World, m: Move, crashes: seq<Crash>) {
    Starts(w0, m) && OutsideWrites(MoveHome(w0, m), m, crashes) ==>
      Finished(CrashedAll(MoveHome(w0, m), m, crashes), m) == Complete(w0, m)
  }

  /** Every move between two homes reaches its one state, whatever is interrupted outside the write of
      a gitfile, exactly when the homes settle. */
  lemma MovesSettleExactlyWhen(from: string, to: string)
    requires Writable(from) && to != "" && from != to
    ensures FinishesAlways(from, to) <==> Settles(from, to)
  {
    hide FinishesFrom, Settles;
    if Settles(from, to) {
      forall w0: World, names: seq<string>, crashes: seq<Crash>
        ensures FinishesFrom(w0, Move(from, to, names), crashes)
      {
        FinishesFromSettled(w0, Move(from, to, names), crashes);
      }
    } else {
      var w0, m, crashes := RewritesAgain(from, to);
      assert m == Move(from, to, m.names);
    }
  }

  lemma FinishesFromSettled(w0: World, m: Move, crashes: seq<Crash>)
    requires MoveOk(m)
    ensures FinishesFrom(w0, m, crashes)
  {
    hide MoveOk, Starts, OutsideWrites, Finished, CrashedAll, Complete;
    if Starts(w0, m) && OutsideWrites(MoveHome(w0, m), m, crashes) {
      AnyCrashFinishes(w0, m, crashes);
    }
  }

  /** A run that crashes right before its last action. */
  lemma BeforeConfirm(w: World, m: Move) returns (c: Crash)
    requires Pending(w, m) && (w.at == m.to ==> !w.emptyDest)
    ensures !InsideWrite(w, m, c)
    ensures Crashed(w, m, c)
            == World(m.to, false, w.log, w.home, RewrittenFiles(w.files, m.names, m.from, m.to), m.to)
  {
    hide DoAll, Writes, FirstOf, Plan, Pending, RewrittenFiles;
    var plan, most := Plan(w, m), FirstOf(w, m) + (Writes(w.files, m.names, m) + [Register]);
    PlanEnds(w, m);
    AllButConfirm(w, m);
    c := Crash(|plan| - 1, 0);
    assert plan[c.after] == Confirm && plan[..c.after] == most;
    assert Ran(w, m, c) == most + [] == most;
  }

  /** A move that is interrupted right before it is confirmed, and whose rerun rewrites a gitfile again. */
  lemma RewritesAgain(from: string, to: string) returns (w0: World, m: Move, crashes: seq<Crash>)
    requires Writable(from) && to != "" && from != to && !Settles(from, to)
    ensures m.from == from && m.to == to && !FinishesFrom(w0, m, crashes)
  {
    hide Settles, Rewritten, Due, Crashed, Finished, Writable, InsideWrite;
    var b := Unsettled(from, to);
    m := Move(from, to, ["w"]);
    w0 := World(from, false, [], from, map["w" := File(b)], from);
    var start := MoveHome(w0, m);
    MarksEnd(w0.log, m);
    var c := BeforeConfirm(start, m);
    crashes := [c];
    var w := Crashed(start, m, c);
    assert crashes[1..] == [] && OutsideWrites(w, m, []);
    assert OutsideWrites(start, m, crashes) && CrashedAll(start, m, crashes) == CrashedAll(w, m, []) == w;
    CompleteReachesGoal(w, m);
    assert "w" in w.files && "w" in Goal(w, m).files && "w" in Complete(w0, m).files;
    assert Goal(w, m).files["w"] != Complete(w0, m).files["w"];
  }

  // A crash inside a write.

  /** The command empties every gitfile that is due. */
  lemma {:induction false} WritesEmpty(files: map<string, Gitfile>, names: seq<string>, m: Move, n: string)
    returns (i: nat)
    requires n in names && DueIn(files, n, m.from)
    ensures var a := Writes(files, names, m); var text := Rewritten(files[n].text, m.from, m.to);
      i + 1 < |a| && a[i] == Truncate(n) && a[i + 1] == Write(n, text)
  {
    hide DueIn, Rewritten;
    var before := names[..|names| - 1];
    if names[|names| - 1] == n {
      i := |Writes(files, before, m)|;
    } else {
      assert n in before;
      i := WritesEmpty(files, before, m, n);
    }
  }

  /** Whatever is due, a crash right after it was emptied leaves it empty for good: no rerun repairs it,
      however often it is interrupted itself. */
  lemma AnEmptiedGitfileStays(w0: World, m: Move, n: string) returns (c: Crash)
    requires MoveOk(m) && Starts(w0, m)
    requires n in m.names && DueIn(w0.files, n, m.from)
    ensures InsideWrite(MoveHome(w0, m), m, c)
    ensures forall more: seq<Crash> :: StaysEmpty(Crashed(MoveHome(w0, m), m, c), m, more, n)
    ensures Complete(w0, m).files[n] != File("")
  {
    hide DoAll, Rewritten, Due, Settles, StaysEmpty;
    var start := MoveHome(w0, m);
    MarksEnd(w0.log, m);
    var i := WritesEmpty(start.files, m.names, m, n);
    c := Crash(|FirstOf(start, m)| + i + 1, 0);
    NotEmpty(w0.files[n].text, m);
    var text := Rewritten(w0.files[n].text, m.from, m.to);
    assert Plan(start, m)[c.after] == Write(n, text);
    assert text[..0] == "";
    DoLast(start, m, Plan(start, m)[..c.after], Write(n, ""));
    var w := Crashed(start, m, c);
    CrashIsReached(start, m, c);
    forall more: seq<Crash>
      ensures StaysEmpty(w, m, more, n)
    {
      EmptyStays(w, m, more, n);
    }
  }

  predicate Empty(files: map<string, Gitfile>, n: string) {
    n in files && files[n] == File("")
  }

  /** Empty after these crashes, and after a run to its end. */
  predicate StaysEmpty(w: World, m: Move, more: seq<Crash>, n: string) {
    var v := CrashedAll(w, m, more);
    Empty(v.files, n) && Empty(Finished(v, m).files, n)
  }

  lemma EmptyStays(w: World, m: Move, more: seq<Crash>, n: string)
    requires MoveOk(m) && Reached(w, m) && Empty(w.files, n)
    ensures StaysEmpty(w, m, more, n)
  {
    hide Finished, CrashedAll, Rewritten, MoveOk, Reached;
    AsItWas(w.files, m);
    CrashesKeep(w.files, w, m, more);
    var v := CrashedAll(w, m, more);
    assert !Due("", m.from);
    NotDueStays("", m.from, m.to);
    ReachedCompletes(v, m);
  }

  lemma ReachedCompletes(v: World, m: Move)
    requires Reached(v, m)
    ensures Finished(v, m) == Goal(v, m)
  {
    hide Goal, Finished;
    CompleteReachesGoal(v, m);
  }

  lemma NotEmpty(b: string, m: Move)
    requires Due(b, m.from)
    ensures Rewritten(b, m.from, m.to) != ""
  {
    hide Due, GitdirTarget, TargetEnd;
    var _, _ := DueParts(b, m.from, m.to);
  }

  /** The folder, the database, the gitfiles and the registry, changed in the order of the command. */
  class Disk {
    var at: string
    var emptyDest: bool
    var log: seq<Mark>
    var home: string
    var files: map<string, Gitfile>
    var registry: string

    function Model(): World
      reads this
    {
      World(at, emptyDest, log, home, files, registry)
    }

    /** Finishing a pending move reaches the goal and leaves no worktree that names the old home. In the
        old place the checks of the destination and of running agents may refuse it; then, and without
        a pending move, nothing changes. */
    method Finish(m: Move, refused: bool, exists_: (string, string) -> bool) returns (ok: bool, rep: Report)
      requires MoveOk(m) && Reached(Model(), m)
      requires (set w | w in m.names) == files.Keys && Distinct(m.names)
      modifies this
      ensures ok <==> old(Pending(Model(), m)) && (old(at) == m.to || !refused)
      ensures Model() == if ok then Goal(old(Model()), m) else old(Model())
      ensures rep.stale == []
      ensures ok ==> Tells(rep, old(files), m.names, Pass(exists_, m.from, m.to, true))
    {
      hide RewrittenFiles, Settles, Tells;
      ok, rep := false, Report(0, 0, [], []);
      var pending, bad := PendingMove(log);
      if bad || pending != Some((m.from, m.to)) {
        return;
      }
      if at != m.to {
        if refused {
          return;
        }
        if emptyDest {
          emptyDest := false;
        }
        at := m.to;
      }
      ghost var before := files;
      files, rep := RewriteWorktrees(files, m.names, Pass(exists_, m.from, m.to, true));
      NothingStale(before, m, rep.stale);
      registry := m.to;
      log := log + [Moved(m.from, m.to)];
      home := m.to;
      ok := true;
    }
  }

  lemma NoMembers(s: seq<string>)
    ensures (forall w :: w !in s) ==> s == []
  {
    if s != [] {
      assert s[0] in s;
    }
  }

  lemma NothingStale(files: map<string, Gitfile>, m: Move, stale: seq<string>)
    requires MoveOk(m) && (set w | w in m.names) == files.Keys
    requires var after := RewrittenFiles(files, m.names, m.from, m.to);
      forall w :: w in stale <==> w in m.names && Target(after[w]).Some? && Names(Target(after[w]).value, m.from)
    ensures stale == []
  {
    hide Names, Nested, Target;
    forall w | w in m.names
      ensures w !in stale
    {
      assert w in files;
      NoneIsStale(files, m.names, m.from, m.to, w);
    }
    NoMembers(stale);
  }
}

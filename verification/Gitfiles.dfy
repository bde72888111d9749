/** The gitfiles of worktrees: one home in place of another in a path, in a gitfile, and in one pass over
    all worktrees. Paths are POSIX paths in canonical form. */
module Gitfiles {
  import opened Basics

  const GITDIR := "gitdir: "

  // ----- one home in place of another -----

  predicate Separator(c: char) {
    c == '/' || c == '\\'
  }

  /** The target is the home or something below it. */
  predicate Names(target: string, home: string) {
    home != "" && home <= target && (|target| > |home| ==> Separator(target[|home|]))
  }

  function ReplaceHome(target: string, old_: string, new_: string): (string, bool) {
    if !Names(target, old_) then (target, false) else (new_ + target[|old_|..], true)
  }

  /** One home lies below the other. */
  predicate Nested(a: string, b: string) {
    a != b && (Names(a, b) || Names(b, a))
  }

  /** The check of the source, for clean absolute paths. */
  predicate Within(path: string, dir: string) {
    path == dir || dir + "/" <= path || dir == "/"
  }

  lemma NamesAgain(rest: string, old_: string, new_: string)
    requires (rest == "" || Separator(rest[0])) && new_ != "" && Names(new_ + rest, old_)
    ensures old_ == new_ || Nested(old_, new_)
  {
    var next := new_ + rest;
    if |old_| <= |new_| {
      assert next[..|old_|] == new_[..|old_|];
      assert |old_| < |new_| ==> next[|old_|] == new_[|old_|];
    } else {
      assert next[..|new_|] == new_ && next[|new_|] == rest[0];
      assert old_[..|new_|] == next[..|new_|] && old_[|new_|] == next[|new_|];
    }
  }

  /** What was replaced names the old home no more, unless the homes are nested. */
  lemma ReplacedIsGone(target: string, old_: string, new_: string)
    requires old_ != "" && new_ != "" && old_ != new_ && !Nested(old_, new_)
    ensures !Names(ReplaceHome(target, old_, new_).0, old_)
  {
    hide Nested;
    if Names(target, old_) && Names(new_ + target[|old_|..], old_) {
      NamesAgain(target[|old_|..], old_, new_);
    }
  }

  /** Replacing twice is replacing once, for every target, exactly when the homes are not nested. */
  lemma ReplaceTwiceExactlyWhen(old_: string, new_: string)
    requires old_ != "" && new_ != ""
    ensures (forall t: string {:trigger ReplaceHome(t, old_, new_)} ::
      ReplaceHome(ReplaceHome(t, old_, new_).0, old_, new_).0 == ReplaceHome(t, old_, new_).0) <==> !Nested(old_, new_)
  {
    if old_ == new_ {
      forall t: string
        ensures ReplaceHome(t, old_, new_).0 == t
      {
      }
    } else if !Nested(old_, new_) {
      forall t: string
        ensures ReplaceHome(ReplaceHome(t, old_, new_).0, old_, new_).0 == ReplaceHome(t, old_, new_).0
      {
        ReplacedIsGone(t, old_, new_);
      }
    } else if Names(new_, old_) {
      assert ReplaceHome(old_, old_, new_).0 == new_ + old_[|old_|..] == new_;
      assert |ReplaceHome(new_, old_, new_).0| == |new_| + (|new_| - |old_|);
    } else {
      var sub := old_[|new_|..];
      var t := old_ + sub;
      assert t[|old_|..] == sub && Names(t, old_);
      assert ReplaceHome(t, old_, new_).0 == new_ + sub == old_;
      assert ReplaceHome(old_, old_, new_).0 == new_ + old_[|old_|..] == new_;
    }
  }

  lemma NamesIsWithin(a: string, b: string)
    requires Names(a, b) && '\\' !in a
    ensures Within(a, b)
  {
    if |a| > |b| {
      assert a[..|b| + 1] == b + "/";
    } else {
      assert a == b;
    }
  }

  /** The check refuses the nested homes that are nested by a slash; a home whose name continues the
      other's with a backslash passes it. */
  lemma WithinRefusesNested(a: string, b: string)
    requires '\\' !in a && '\\' !in b && !Within(a, b) && !Within(b, a)
    ensures a != b && !Nested(a, b)
  {
    hide Names, Within;
    if Names(a, b) {
      NamesIsWithin(a, b);
    } else if Names(b, a) {
      NamesIsWithin(b, a);
    }
    SameIsWithin(a);
  }

  lemma SameIsWithin(a: string)
    ensures Within(a, a)
  {
  }

  lemma ABackslashPassesTheCheck()
    ensures !Within("/h", "/h\\n") && !Within("/h\\n", "/h") && Nested("/h", "/h\\n")
    ensures ReplaceHome("/h/g", "/h", "/h\\n").0 == "/h\\n/g"
    ensures ReplaceHome("/h\\n/g", "/h", "/h\\n").0 == "/h\\n\\n/g"
  {
    assert "/h\\n"[2] == '\\' && "/h\\n"[..2] == "/h" && "/h/g"[..2] == "/h";
    assert ("/h" + "/")[2] == '/';
    assert "/h/g"[2..] == "/g" && "/h\\n/g"[2..] == "\\n/g" && "/h\\n/g"[..2] == "/h";
  }

  // ----- gitfiles -----

  /** Where the target of a gitfile ends: before its newline and one carriage return. */
  function TargetEnd(b: string): (end: nat)
    requires GITDIR <= b
    ensures |GITDIR| <= end <= |b|
  {
    var end := IndexFrom(b, '\n', |GITDIR|);
    if end > |GITDIR| && b[end - 1] == '\r' then end - 1 else end
  }

  function GitdirTarget(b: string): Option<string> {
    if !(GITDIR <= b) || TargetEnd(b) == |GITDIR| then None else Some(b[|GITDIR|..TargetEnd(b)])
  }

  /** The gitfile with its target's home replaced; any other file as it is. */
  function Rewritten(b: string, old_: string, new_: string): string {
    match GitdirTarget(b)
    case None => b
    case Some(target) =>
      var (next, rewrote) := ReplaceHome(target, old_, new_);
      if rewrote then GITDIR + next + b[TargetEnd(b)..] else b
  }

  /** A folder name that a gitfile can hold. */
  predicate Writable(home: string) {
    home != "" && '\n' !in home && home[|home| - 1] != '\r'
  }

  /** What is left of the first line after the target. */
  predicate Tail(tail: string) {
    tail == "" || tail[0] == '\n' || (tail[0] == '\r' && (|tail| == 1 || tail[1] == '\n'))
  }

  /** A gitfile put together from a target and a tail is read back as that target. */
  lemma TargetReads(target: string, tail: string)
    requires target != "" && '\n' !in target && Tail(tail)
    requires target[|target| - 1] == '\r' ==> tail != "" && tail[0] == '\r'
    ensures GitdirTarget(GITDIR + target + tail) == Some(target)
    ensures TargetEnd(GITDIR + target + tail) == |GITDIR| + |target|
  {
    var b := GITDIR + target + tail;
    var i := IndexFrom(b, '\n', |GITDIR|);
    var n := |GITDIR| + |target|;
    assert b[..|GITDIR|] == GITDIR;
    assert forall j :: |GITDIR| <= j < n ==> b[j] == target[j - |GITDIR|];
    assert forall j :: n <= j < |b| ==> b[j] == tail[j - n];
    assert forall j :: 0 <= j < |target| ==> target[j] != '\n';
    assert i >= n;
    assert b[n - 1] == target[|target| - 1];
    if tail == "" {
      assert |b| == n;
    } else if tail[0] == '\n' {
      assert b[n] == '\n';
      assert i == n;
    } else {
      assert b[n] == '\r' && (|tail| > 1 ==> b[n + 1] == '\n');
      assert i == n + 1;
    }
    assert b[|GITDIR|..n] == target;
  }

  /** The parts of a gitfile that has a target. */
  lemma TargetParts(b: string)
    requires GitdirTarget(b).Some?
    ensures var target := GitdirTarget(b).value; var tail := b[TargetEnd(b)..];
      && b == GITDIR + target + tail
      && target != "" && '\n' !in target && Tail(tail)
      && (target[|target| - 1] == '\r' ==> tail != "" && tail[0] == '\r')
  {
    hide IndexFrom;
    var end := TargetEnd(b);
    Pieces(b, |GITDIR|, end);
  }

  lemma Pieces(b: string, i: nat, j: nat)
    requires i <= j <= |b|
    ensures b == b[..i] + b[i..j] + b[j..]
  {
  }

  /** What a rewritten gitfile is read back as. */
  predicate KeepsTarget(b: string, old_: string, new_: string) {
    GitdirTarget(b).Some? ==>
      GitdirTarget(Rewritten(b, old_, new_)) == Some(ReplaceHome(GitdirTarget(b).value, old_, new_).0)
  }

  lemma TargetKept(b: string, old_: string, new_: string)
    requires old_ != "" && Writable(new_)
    ensures KeepsTarget(b, old_, new_)
  {
    if GitdirTarget(b).Some? {
      var target, tail := GitdirTarget(b).value, b[TargetEnd(b)..];
      TargetParts(b);
      if Names(target, old_) {
        var rest := target[|old_|..];
        var next := new_ + rest;
        assert '\n' !in rest;
        assert next[|next| - 1] == if rest == "" then new_[|new_| - 1] else target[|target| - 1];
        TargetReads(next, tail);
      }
    }
  }

  /** Every gitfile is read back with the new home exactly when a gitfile can hold it. */
  lemma TargetKeptExactlyWhen(old_: string, new_: string)
    requires Writable(old_) && new_ != ""
    ensures (forall b: string :: KeepsTarget(b, old_, new_)) <==> Writable(new_)
  {
    if Writable(new_) {
      forall b: string
        ensures KeepsTarget(b, old_, new_)
      {
        TargetKept(b, old_, new_);
      }
    } else {
      var b := GITDIR + old_;
      TargetReads(old_, "");
      assert b == GITDIR + old_ + "";
      assert old_[|old_|..] == "" && b[TargetEnd(b)..] == "";
      assert GitdirTarget(b) == Some(old_) && ReplaceHome(old_, old_, new_).0 == new_ + "" == new_;
      assert Rewritten(b, old_, new_) == GITDIR + (new_ + "") + "" == GITDIR + new_;
      LosesHome(new_);
      assert !KeepsTarget(b, old_, new_);
    }
  }

  lemma LosesHome(home: string)
    requires home != "" && !Writable(home)
    ensures GitdirTarget(GITDIR + home) != Some(home)
  {
    var b := GITDIR + home;
    if '\n' in home {
      var k :| 0 <= k < |home| && home[k] == '\n';
      assert b[|GITDIR| + k] == '\n';
      assert IndexFrom(b, '\n', |GITDIR|) <= |GITDIR| + k;
    } else {
      assert forall j :: |GITDIR| <= j < |b| ==> b[j] == home[j - |GITDIR|];
      assert forall j :: 0 <= j < |home| ==> home[j] != '\n';
      assert IndexFrom(b, '\n', |GITDIR|) == |b|;
      assert b[|b| - 1] == '\r';
    }
    assert TargetEnd(b) < |b|;
  }

  /** Two texts that agree up to their first newline have one target. */
  lemma SameFirstLine(a: string, b: string)
    requires GITDIR <= a && GITDIR <= b
    requires var k := IndexFrom(a, '\n', |GITDIR|); k <= |b| && a[..k] == b[..k] && (k < |b| ==> b[k] == '\n')
    ensures GitdirTarget(a) == GitdirTarget(b)
  {
    var k := IndexFrom(a, '\n', |GITDIR|);
    assert forall j :: 0 <= j < k ==> a[j] == a[..k][j] == b[..k][j] == b[j];
    assert IndexFrom(b, '\n', |GITDIR|) == k;
    var end := TargetEnd(a);
    assert end == TargetEnd(b) && end <= k;
    assert a[|GITDIR|..end] == a[..k][|GITDIR|..end] && b[|GITDIR|..end] == b[..k][|GITDIR|..end];
  }

  /** What a gitfile is read back as whose home was replaced: the replaced target, or, for a home that
      no gitfile can hold, what a gitfile with nothing but that home is read as. */
  lemma ReplacedReads(home: string, rest: string, tail: string)
    requires home != "" && '\n' !in rest && Tail(tail)
    requires rest != "" && rest[|rest| - 1] == '\r' ==> tail != "" && tail[0] == '\r'
    ensures var t := GitdirTarget(GITDIR + (home + rest) + tail);
      t == Some(home + rest) || t == GitdirTarget(GITDIR + home)
  {
    var next := home + rest;
    var a, b := GITDIR + home, GITDIR + next + tail;
    assert b == a + (rest + tail);
    if '\n' in home {
      var k :| 0 <= k < |home| && home[k] == '\n';
      assert a[|GITDIR| + k] == '\n';
      SameFirstLine(a, b);
    } else {
      assert forall j :: |GITDIR| <= j < |a| ==> a[j] == home[j - |GITDIR|];
      assert forall j :: 0 <= j < |home| ==> home[j] != '\n';
      assert next[|next| - 1] == if rest == "" then home[|home| - 1] else rest[|rest| - 1];
      if next[|next| - 1] == '\r' && (tail == "" || tail[0] != '\r') {
        assert b == a + tail;
        SameFirstLine(a, b);
      } else {
        TargetReads(next, tail);
      }
    }
  }

  /** The rewrite settles: the homes are not nested, and what is left of the new home on the first line
      of a gitfile does not name the old one. */
  predicate Settles(old_: string, new_: string) {
    old_ == new_ || (!Nested(old_, new_) && !NamesOnRead(new_, old_))
  }

  predicate NamesOnRead(home: string, old_: string) {
    var t := GitdirTarget(GITDIR + home);
    t.Some? && Names(t.value, old_)
  }

  /** What is rewritten: the gitfiles whose target names the old home. */
  predicate Due(b: string, old_: string) {
    GitdirTarget(b).Some? && Names(GitdirTarget(b).value, old_)
  }

  lemma DueParts(b: string, old_: string, new_: string) returns (rest: string, tail: string)
    requires Due(b, old_)
    ensures b == GITDIR + (old_ + rest) + tail && Rewritten(b, old_, new_) == GITDIR + (new_ + rest) + tail
    ensures (rest == "" || Separator(rest[0])) && '\n' !in rest && Tail(tail)
    ensures rest != "" && rest[|rest| - 1] == '\r' ==> tail != "" && tail[0] == '\r'
  {
    TargetParts(b);
    var target := GitdirTarget(b).value;
    rest, tail := target[|old_|..], b[TargetEnd(b)..];
    assert target == old_ + rest;
  }

  lemma NotDueStays(b: string, old_: string, new_: string)
    requires !Due(b, old_)
    ensures Rewritten(b, old_, new_) == b
  {
  }

  /** What was rewritten is not due again, when the rewrite settles. */
  lemma RewrittenIsNotDue(b: string, old_: string, new_: string)
    requires old_ != "" && new_ != "" && old_ != new_ && Settles(old_, new_)
    ensures !Due(Rewritten(b, old_, new_), old_)
  {
    hide GitdirTarget, TargetEnd, Rewritten, Names, Nested, Tail;
    if Due(b, old_) {
      var rest, tail := DueParts(b, old_, new_);
      ReplacedReads(new_, rest, tail);
      if Names(new_ + rest, old_) {
        NamesAgain(rest, old_, new_);
      }
    } else {
      NotDueStays(b, old_, new_);
    }
  }

  /** Rewriting a gitfile again changes nothing, and no gitfile names the old home then. */
  lemma RewrittenTwice(b: string, old_: string, new_: string)
    requires old_ != "" && new_ != "" && Settles(old_, new_)
    ensures Rewritten(Rewritten(b, old_, new_), old_, new_) == Rewritten(b, old_, new_)
    ensures old_ != new_ ==> !Due(Rewritten(b, old_, new_), old_)
  {
    hide GitdirTarget, TargetEnd, Rewritten, Names, Settles;
    if old_ != new_ {
      RewrittenIsNotDue(b, old_, new_);
      NotDueStays(Rewritten(b, old_, new_), old_, new_);
    } else if Due(b, old_) {
      var _, _ := DueParts(b, old_, new_);
    } else {
      NotDueStays(b, old_, new_);
    }
  }

  /** A home that a gitfile holds alone is replaced whole. */
  lemma ReplacedAlone(home: string, old_: string, new_: string)
    requires Writable(home) && Names(home, old_)
    ensures GitdirTarget(GITDIR + home) == Some(home)
    ensures Rewritten(GITDIR + home, old_, new_) == GITDIR + (new_ + home[|old_|..])
  {
    var b := GITDIR + home;
    TargetReads(home, "");
    assert b + "" == b;
    assert b[TargetEnd(b)..] == "";
    assert GITDIR + (new_ + home[|old_|..]) + "" == GITDIR + (new_ + home[|old_|..]);
  }

  /** A home that continues the old one still names it when a gitfile holds less than all of it. */
  lemma NamesIsRead(home: string, old_: string)
    requires Writable(old_) && home != old_ && Names(home, old_)
    ensures NamesOnRead(home, old_)
  {
    hide Writable;
    var b := GITDIR + home;
    var n := |GITDIR| + |old_|;
    ReadsPast(home, old_);
    var end := TargetEnd(b);
    assert b[|GITDIR|..end] == home[..end - |GITDIR|];
    assert home[..end - |GITDIR|][..|old_|] == home[..|old_|];
  }

  lemma ReadsPast(home: string, old_: string)
    requires Writable(old_) && home != old_ && Names(home, old_)
    ensures GITDIR <= GITDIR + home && TargetEnd(GITDIR + home) > |GITDIR| + |old_|
  {
    var b := GITDIR + home;
    var i := IndexFrom(b, '\n', |GITDIR|);
    assert Separator(home[|old_|]) && b[|GITDIR| + |old_|] == home[|old_|];
    assert forall j :: |GITDIR| <= j < |GITDIR| + |old_| ==> b[j] == home[j - |GITDIR|] == old_[j - |GITDIR|];
  }

  lemma GrowsAgain(old_: string, new_: string)
    requires old_ != new_ && NamesOnRead(new_, old_)
    ensures Rewritten(GITDIR + new_, old_, new_) != GITDIR + new_
  {
    hide IndexFrom;
    var b := GITDIR + new_;
    var target := GitdirTarget(b).value;
    assert target == new_[..|target|];
    assert old_ == target[..|old_|] == new_[..|old_|];
    assert new_ == new_[..|new_|];
    assert |Rewritten(b, old_, new_)| == |b| + |new_| - |old_|;
  }

  /** A gitfile that a second rewrite changes again, for every pair of homes that does not settle. */
  lemma Unsettled(old_: string, new_: string) returns (b: string)
    requires Writable(old_) && new_ != "" && !Settles(old_, new_)
    ensures Due(b, old_) && Rewritten(Rewritten(b, old_, new_), old_, new_) != Rewritten(b, old_, new_)
  {
    hide GitdirTarget, TargetEnd, Rewritten, Tail;
    if Names(new_, old_) {
      NamesIsRead(new_, old_);
    }
    if NamesOnRead(new_, old_) {
      b := GITDIR + old_;
      ReplacedAlone(old_, old_, new_);
      assert new_ + old_[|old_|..] == new_;
      GrowsAgain(old_, new_);
    } else {
      var sub := old_[|new_|..];
      var below := old_ + sub;
      b := GITDIR + below;
      assert below[|old_|..] == sub && old_ == new_ + sub;
      assert below[|below| - 1] == old_[|old_| - 1];
      ReplacedAlone(below, old_, new_);
      ReplacedAlone(old_, old_, new_);
      assert new_ + old_[|old_|..] == new_;
    }
  }

  /** Rewriting a gitfile twice is rewriting it once, for every gitfile, exactly when the homes settle. */
  lemma SettlesExactlyWhen(old_: string, new_: string)
    requires Writable(old_) && new_ != ""
    ensures (forall b: string {:trigger Rewritten(b, old_, new_)} ::
      Rewritten(Rewritten(b, old_, new_), old_, new_) == Rewritten(b, old_, new_)) <==> Settles(old_, new_)
  {
    hide GitdirTarget, TargetEnd, Rewritten, Settles;
    if Settles(old_, new_) {
      forall b: string
        ensures Rewritten(Rewritten(b, old_, new_), old_, new_) == Rewritten(b, old_, new_)
      {
        RewrittenTwice(b, old_, new_);
      }
    } else {
      var b := Unsettled(old_, new_);
    }
  }

  /** What a torn write leaves is repaired by a rewrite exactly when it is the gitfile as it was or as
      it should be. */
  lemma HealsExactlyWhen(b: string, left: string, old_: string, new_: string)
    requires old_ != "" && new_ != "" && Settles(old_, new_) && Due(b, old_)
    ensures Rewritten(left, old_, new_) == Rewritten(b, old_, new_) <==> left == b || left == Rewritten(b, old_, new_)
  {
    hide GitdirTarget, TargetEnd, Rewritten, Names, Settles, Tail;
    RewrittenTwice(b, old_, new_);
    if Due(left, old_) {
      var rest, tail := DueParts(b, old_, new_);
      var rest', tail' := DueParts(left, old_, new_);
      if Rewritten(left, old_, new_) == Rewritten(b, old_, new_) {
        StripPrefix(GITDIR, new_, rest, tail);
        StripPrefix(GITDIR, new_, rest', tail');
        StripPrefix(GITDIR, old_, rest, tail);
        StripPrefix(GITDIR, old_, rest', tail');
        assert rest + tail == rest' + tail';
      }
    } else {
      NotDueStays(left, old_, new_);
    }
  }

  lemma StripPrefix(a: string, b: string, c: string, d: string)
    ensures a + (b + c) + d == a + b + (c + d)
    ensures (a + (b + c) + d)[|a| + |b|..] == c + d
  {
  }

  /** The check before a move leaves homes that settle, when they hold no backslash and a gitfile can
      hold the new one. */
  lemma CheckedHomesSettle(old_: string, new_: string)
    requires '\\' !in old_ && '\\' !in new_ && !Within(old_, new_) && !Within(new_, old_) && Writable(new_)
    ensures Settles(old_, new_)
  {
    hide Within, Names;
    WithinRefusesNested(old_, new_);
    ReadsHome(new_);
  }

  lemma ReadsHome(home: string)
    requires Writable(home)
    ensures GitdirTarget(GITDIR + home) == Some(home)
  {
    TargetReads(home, "");
    assert GITDIR + home + "" == GITDIR + home;
  }

  /** A home that continues the other's with a newline passes the check, and does not settle. */
  lemma ANewlinePassesTheCheck()
    ensures !Within("/h", "/h\nx") && !Within("/h\nx", "/h") && !Nested("/h", "/h\nx")
    ensures !Settles("/h", "/h\nx")
  {
    var home, b := "/h\nx", GITDIR + "/h\nx";
    assert home[2] == '\n' && home[..2] == "/h" && ("/h" + "/")[2] == '/';
    assert b == (GITDIR + "/h") + "\nx" && GITDIR + "/h" == GITDIR + "/h" + "";
    TargetReads("/h", "\nx");
  }

  // ----- the worktrees -----

  /** The .git of a worktree folder: a file with this text, or none. */
  datatype Gitfile = NoFile | File(text: string)

  datatype Report = Report(rewritten: nat, correct: nat, broken: seq<string>, stale: seq<string>)

  function RewrittenFile(g: Gitfile, old_: string, new_: string): Gitfile {
    if g.NoFile? then g else File(Rewritten(g.text, old_, new_))
  }

  /** The gitfiles with those of the worktrees rewritten. */
  function RewrittenFiles(files: map<string, Gitfile>, names: seq<string>, old_: string, new_: string)
    : (after: map<string, Gitfile>)
    ensures after.Keys == files.Keys
  {
    map w | w in files :: if w in names then RewrittenFile(files[w], old_, new_) else files[w]
  }

  function Target(g: Gitfile): Option<string> {
    if g.NoFile? then None else GitdirTarget(g.text)
  }

  /** A pass: which targets exist, the two homes, and whether it writes. */
  datatype Pass = Pass(exists_: (string, string) -> bool, old_: string, new_: string, apply: bool)

  /** The target that counts: the new one when the gitfile is rewritten, and in a dry pass when the old
      one does not exist; else the one that is there. */
  function Counted(target: string, p: Pass, there: bool): string {
    if Names(target, p.old_) && (p.apply || !there) then p.new_ + target[|p.old_|..] else target
  }

  datatype Kind = Rewritable | Correct | Broken

  /** Rewritten are those that name the old home; correct those that name another place, which exists;
      broken those without a target and those whose target, as it counts, does not exist. */
  predicate Is(kind: Kind, w: string, g: Gitfile, p: Pass) {
    var t := Target(g);
    match kind
    case Rewritable => t.Some? && Names(t.value, p.old_)
    case Correct => t.Some? && !Names(t.value, p.old_) && p.exists_(w, t.value)
    case Broken => t == None || !p.exists_(w, Counted(t.value, p, p.exists_(w, t.value)))
  }

  /** The worktrees of one kind. */
  ghost function Those(kind: Kind, files: map<string, Gitfile>, names: seq<string>, p: Pass): set<string> {
    set w | w in names && w in files && Is(kind, w, files[w], p)
  }

  predicate Distinct(names: seq<string>) {
    forall i, j :: 0 <= i < j < |names| ==> names[i] != names[j]
  }

  lemma OneMoreOf(kind: Kind, files: map<string, Gitfile>, names: seq<string>, i: nat, p: Pass)
    requires i < |names| && Distinct(names) && names[i] in files
    ensures var more := if Is(kind, names[i], files[names[i]], p) then {names[i]} else {};
      && Those(kind, files, names[..i + 1], p) == Those(kind, files, names[..i], p) + more
      && |Those(kind, files, names[..i + 1], p)| == |Those(kind, files, names[..i], p)| + |more|
  {
    hide Is;
    assert names[..i + 1] == names[..i] + [names[i]];
    assert names[i] !in Those(kind, files, names[..i], p);
  }

  /** What a report says of some of the worktrees. */
  ghost predicate Tells(r: Report, files: map<string, Gitfile>, names: seq<string>, p: Pass) {
    && r.rewritten == |Those(Rewritable, files, names, p)|
    && r.correct == |Those(Correct, files, names, p)|
    && (set w | w in r.broken) == Those(Broken, files, names, p)
    && |r.broken| == |Those(Broken, files, names, p)|
  }

  function Reported(w: string, g: Gitfile, p: Pass, r: Report): Report {
    Report(r.rewritten + (if Is(Rewritable, w, g, p) then 1 else 0),
           r.correct + (if Is(Correct, w, g, p) then 1 else 0),
           r.broken + (if Is(Broken, w, g, p) then [w] else []), r.stale)
  }

  lemma TellsMore(r: Report, files: map<string, Gitfile>, names: seq<string>, i: nat, p: Pass)
    requires i < |names| && Distinct(names) && names[i] in files && Tells(r, files, names[..i], p)
    ensures Tells(Reported(names[i], files[names[i]], p, r), files, names[..i + 1], p)
  {
    hide Is, Those, Distinct;
    OneMoreOf(Rewritable, files, names, i, p);
    OneMoreOf(Correct, files, names, i, p);
    OneMoreOf(Broken, files, names, i, p);
    SetOfMore(r.broken, names[i]);
  }

  lemma SetOfMore(s: seq<string>, w: string)
    ensures (set x | x in s + [w]) == (set x | x in s) + {w} && (set x | x in s + []) == set x | x in s
  {
  }

  lemma TellsNothing(files: map<string, Gitfile>, p: Pass)
    ensures Tells(Report(0, 0, [], []), files, [], p)
  {
    hide Is;
    forall kind: Kind
      ensures Those(kind, files, [], p) == {}
    {
    }
  }

  /** One pass over the worktrees. A dry pass changes nothing. The report counts those that name the old
      home and those that are right as they are, and lists every broken one once; a rewritten one may be
      broken too. */
  method RewriteWorktrees(files: map<string, Gitfile>, names: seq<string>, p: Pass)
    returns (after: map<string, Gitfile>, rep: Report)
    requires (set w | w in names) == files.Keys && Distinct(names)
    ensures after == if p.apply then RewrittenFiles(files, names, p.old_, p.new_) else files
    ensures Tells(rep, files, names, p)
    ensures forall w :: w in rep.stale <==>
      p.apply && w in names && Target(after[w]).Some? && Names(Target(after[w]).value, p.old_)
  {
    hide GitdirTarget, TargetEnd, ReplaceHome, Names, Tells, Reported, RewrittenFile, RewrittenFiles, Distinct;
    after, rep := files, Report(0, 0, [], []);
    TellsNothing(files, p);
    NoFilesYet(files, p);
    assert names[..0] == [];
    for i := 0 to |names|
      invariant after == if p.apply then RewrittenFiles(files, names[..i], p.old_, p.new_) else files
      invariant Tells(rep, files, names[..i], p) && rep.stale == []
    {
      var w := names[i];
      assert w in files;
      FilesMore(files, names, i, p);
      TellsMore(rep, files, names, i, p);
      var text;
      text, rep := RewriteOne(w, files[w], p, rep);
      if p.apply {
        after := after[w := text];
      }
    }
    assert names[..|names|] == names;
    if p.apply {
      assert forall w :: w in names ==> w in files;
      var stale := Stale(after, names, p.old_);
      StaleApart(rep, stale, files, names, p);
      rep := rep.(stale := stale);
    }
  }

  lemma StaleApart(r: Report, stale: seq<string>, files: map<string, Gitfile>, names: seq<string>, p: Pass)
    requires Tells(r, files, names, p)
    ensures Tells(r.(stale := stale), files, names, p)
  {
    hide Is;
  }

  lemma FilesMore(files: map<string, Gitfile>, names: seq<string>, i: nat, p: Pass)
    requires i < |names| && Distinct(names) && names[i] in files
    ensures var before := RewrittenFiles(files, names[..i], p.old_, p.new_);
      && names[i] in before && before[names[i]] == files[names[i]]
      && RewrittenFiles(files, names[..i + 1], p.old_, p.new_)
         == before[names[i] := RewrittenFile(files[names[i]], p.old_, p.new_)]
  {
    hide RewrittenFile;
    assert names[..i + 1] == names[..i] + [names[i]];
  }

  lemma NoFilesYet(files: map<string, Gitfile>, p: Pass)
    ensures RewrittenFiles(files, [], p.old_, p.new_) == files
  {
  }

  method RewriteOne(w: string, g: Gitfile, p: Pass, rep: Report) returns (after: Gitfile, r: Report)
    ensures after == if p.apply then RewrittenFile(g, p.old_, p.new_) else g
    ensures r == Reported(w, g, p, rep) && r.stale == rep.stale
  {
    hide IndexFrom, Names;
    after, r := g, rep;
    if g.NoFile? {
      r := r.(broken := r.broken + [w]);
      return;
    }
    var target := GitdirTarget(g.text);
    if target == None {
      r := r.(broken := r.broken + [w]);
      return;
    }
    var (next, rewrote) := ReplaceHome(target.value, p.old_, p.new_);
    var found := p.exists_(w, target.value);
    if rewrote {
      if p.apply {
        after := File(GITDIR + next + g.text[TargetEnd(g.text)..]);
      }
      if p.apply || !found {
        found := p.exists_(w, next);
      }
      r := r.(rewritten := r.rewritten + 1);
    }
    if !found {
      r := r.(broken := r.broken + [w]);
      return;
    }
    if !rewrote {
      r := r.(correct := r.correct + 1);
    }
  }

  /** The worktrees whose gitfile still names the home. */
  method Stale(files: map<string, Gitfile>, names: seq<string>, home: string) returns (stale: seq<string>)
    requires forall w :: w in names ==> w in files
    ensures forall w :: w in stale <==> w in names && Target(files[w]).Some? && Names(Target(files[w]).value, home)
  {
    hide GitdirTarget, Names;
    stale := [];
    for i := 0 to |names|
      invariant forall w :: w in stale <==>
        w in names[..i] && Target(files[w]).Some? && Names(Target(files[w]).value, home)
    {
      var t := Target(files[names[i]]);
      if t.Some? && Names(t.value, home) {
        stale := stale + [names[i]];
      }
    }
  }

  /** After the pass no worktree names the old home, so none is stale. */
  lemma NoneIsStale(files: map<string, Gitfile>, names: seq<string>, old_: string, new_: string, w: string)
    requires old_ != "" && new_ != "" && old_ != new_ && Settles(old_, new_) && w in files && w in names
    ensures var t := Target(RewrittenFiles(files, names, old_, new_)[w]); t.Some? ==> !Names(t.value, old_)
  {
    hide Settles, Names, GitdirTarget, Rewritten;
    if files[w].File? {
      RewrittenTwice(files[w].text, old_, new_);
    }
  }
}

/** Pairing a phone with a one-time code: minting, guessing, burning, and granting fleets.
    Times are in nanoseconds. */
module Phones {

  const SECOND := 1_000_000_000
  const PAIR_LIFE := 300 * SECOND
  const PAIR_KEEP := 3600 * SECOND
  const PAIR_FAILS := 10
  const ADDR_FAILS := 5
  const ADDR_WINDOW := 60 * SECOND
  const CODE_CHARS := "0123456789ABCDEFGHJKMNPQRSTVWXYZ"

  datatype PairCode = PairCode(until: int, used: bool, fleets: seq<string>)
  datatype Burst = Burst(n: nat, since: int)
  datatype Result = Ok | Wrong | Expired | Used | Burned | Blocked

  datatype State = State(codes: map<string, PairCode>, fails: nat, tries: map<string, Burst>)

  // ----- code texts -----

  /** Ten bytes, five bits of each. */
  function NewCode(buf: seq<nat>): string
    requires |buf| == 10
  {
    var chars := seq(10, i requires 0 <= i < 10 => CODE_CHARS[buf[i] % 32]);
    chars[..5] + "-" + chars[5..]
  }

  function Replaced(s: string): string {
    if s == "" then ""
    else
      var rest := Replaced(s[1..]);
      match s[0]
      case '-' => rest
      case ' ' => rest
      case 'O' => "0" + rest
      case 'o' => "0" + rest
      case 'I' => "1" + rest
      case 'i' => "1" + rest
      case 'L' => "1" + rest
      case 'l' => "1" + rest
      case c => [c] + rest
  }

  /** The code a typed text stands for, or the empty text. */
  function NormCode(s: string, upper: string -> string): string {
    if |s| > 32 then ""
    else
      var t := upper(Replaced(s));
      if |t| != 10 then "" else t[..5] + "-" + t[5..]
  }

  /** Digits and capitals without I, L, O and U. */
  predicate CodeChar(c: char) {
    '0' <= c <= '9' || ('A' <= c <= 'Z' && c != 'I' && c != 'L' && c != 'O' && c != 'U')
  }

  predicate CodeText(s: string) {
    forall i :: 0 <= i < |s| ==> CodeChar(s[i])
  }

  /** Upper-casing leaves the digits and capitals of a code alone. */
  ghost predicate IsUpper(upper: string -> string) {
    forall s: string :: CodeText(s) ==> upper(s) == s
  }

  lemma {:induction false} ReplacedCode(s: string)
    requires CodeText(s)
    ensures Replaced(s) == s
  {
    if s != "" {
      assert CodeChar(s[0]);
      ReplacedCode(s[1..]);
    }
  }

  lemma {:induction false} ReplacedConcat(a: string, b: string)
    ensures Replaced(a + b) == Replaced(a) + Replaced(b)
  {
    if a == "" {
      assert a + b == b;
    } else {
      assert (a + b)[1..] == a[1..] + b;
      ReplacedConcat(a[1..], b);
    }
  }

  /** A code typed as it was shown stands for itself. */
  lemma NormFixesNewCode(buf: seq<nat>, upper: string -> string)
    requires |buf| == 10 && IsUpper(upper)
    ensures NormCode(NewCode(buf), upper) == NewCode(buf) != ""
  {
    var chars := seq(10, i requires 0 <= i < 10 => CODE_CHARS[buf[i] % 32]);
    assert CodeText(chars);
    assert CodeText(chars[..5]) && CodeText(chars[5..]);
    ReplacedConcat(chars[..5] + "-", chars[5..]);
    ReplacedConcat(chars[..5], "-");
    ReplacedCode(chars[..5]);
    ReplacedCode(chars[5..]);
    assert Replaced("-") == "";
    assert chars[..5] + "" + chars[5..] == chars;
  }

  // ----- what the operations do to the state -----

  predicate Live(v: PairCode, now: int) {
    !v.used && now <= v.until
  }

  function Pruned(s: State, now: int): State {
    s.(codes := map c | c in s.codes && now <= s.codes[c].until + PAIR_KEEP :: s.codes[c],
       tries := map a | a in s.tries && now - s.tries[a].since < ADDR_WINDOW :: s.tries[a])
  }

  function Minted(s: State, now: int, fleets: seq<string>, code: string): State {
    var p := Pruned(s, now);
    var dead := map c | c in p.codes && !Live(p.codes[c], now) :: p.codes[c];
    p.(codes := dead[code := PairCode(now + PAIR_LIFE, false, fleets)])
  }

  datatype Answer = Answer(state: State, result: Result, fleets: seq<string>)

  /** The code that a guess hits. No code is the empty text, so a guess that hits none finds none. */
  function HitOf(p: State, want: string): string {
    if want in p.codes then want else ""
  }

  /** A guess that is not blocked and does not pair counts against the address and all codes. */
  function Failed(p: State, addr: string, want: string, now: int): Answer {
    var hit := HitOf(p, want);
    var t := if addr in p.tries then p.tries[addr] else Burst(0, now);
    var t' := Burst(t.n + 1, if t.n == 0 then now else t.since);
    if p.fails + 1 >= PAIR_FAILS then Answer(State(map[], 0, map[]), Burned, [])
    else
      Answer(p.(fails := p.fails + 1, tries := p.tries[addr := t']),
             if hit !in p.codes then Wrong else if p.codes[hit].used then Used else Expired, [])
  }

  function Redeemed(s: State, addr: string, want: string, now: int): Answer {
    var p := Pruned(s, now);
    if p.codes == map[] then Answer(p, Wrong, [])
    else if addr in p.tries && p.tries[addr].n >= ADDR_FAILS then Answer(p, Blocked, [])
    else
      var hit := HitOf(p, want);
      if hit in p.codes && Live(p.codes[hit], now) then
        Answer(State(p.codes[hit := p.codes[hit].(used := true)], 0, p.tries - {addr}), Ok, p.codes[hit].fleets)
      else Failed(p, addr, want, now)
  }

  // ----- the store of codes -----

  class Store {
    var codes: map<string, PairCode>
    var fails: nat
    var tries: map<string, Burst>

    function Model(): State
      reads this
    {
      State(codes, fails, tries)
    }

    constructor ()
      ensures Model() == State(map[], 0, map[])
    {
      codes, fails, tries := map[], 0, map[];
    }

    method Prune(now: int)
      modifies this
      ensures Model() == Pruned(old(Model()), now)
    {
      PruneCodes(now);
      PruneTries(now);
    }

    method PruneCodes(now: int)
      modifies `codes
      ensures codes == map c | c in old(codes) && now <= old(codes)[c].until + PAIR_KEEP :: old(codes)[c]
    {
      var keys := codes.Keys;
      while keys != {}
        invariant keys <= old(codes).Keys
        invariant codes ==
          map c | c in old(codes) && (c in keys || now <= old(codes)[c].until + PAIR_KEEP) :: old(codes)[c]
        decreases |keys|
      {
        var c :| c in keys;
        keys := keys - {c};
        if now > codes[c].until + PAIR_KEEP {
          codes := codes - {c};
        }
      }
    }

    method PruneTries(now: int)
      modifies `tries
      ensures tries == map a | a in old(tries) && now - old(tries)[a].since < ADDR_WINDOW :: old(tries)[a]
    {
      var addresses := tries.Keys;
      while addresses != {}
        invariant addresses <= old(tries).Keys
        invariant tries ==
          map a | a in old(tries) && (a in addresses || now - old(tries)[a].since < ADDR_WINDOW) :: old(tries)[a]
        decreases |addresses|
      {
        var a :| a in addresses;
        addresses := addresses - {a};
        if now - tries[a].since >= ADDR_WINDOW {
          tries := tries - {a};
        }
      }
    }

    /** Minting cancels the live codes. The random code is a parameter. */
    method Mint(now: int, fleets: seq<string>, code: string) returns (until: int)
      modifies this
      ensures Model() == Minted(old(Model()), now, fleets, code)
      ensures until == now + PAIR_LIFE
    {
      until := now + PAIR_LIFE;
      Prune(now);
      ghost var p := Model();
      var keys := codes.Keys;
      while keys != {}
        invariant keys <= p.codes.Keys && fails == p.fails && tries == p.tries
        invariant codes == map c | c in p.codes && (c in keys || !Live(p.codes[c], now)) :: p.codes[c]
        decreases |keys|
      {
        var c :| c in keys;
        keys := keys - {c};
        if !codes[c].used && !(now > codes[c].until) {
          codes := codes - {c};
        }
      }
      assert codes == map c | c in p.codes && !Live(p.codes[c], now) :: p.codes[c];
      codes := codes[code := PairCode(until, false, fleets)];
    }

    method Burn()
      modifies this
      ensures Model() == State(map[], 0, map[])
    {
      codes, tries, fails := map[], map[], 0;
    }

    method Redeem(addr: string, typed: string, upper: string -> string, now: int)
      returns (result: Result, fleets: seq<string>)
      modifies this
      ensures Answer(Model(), result, fleets) == Redeemed(old(Model()), addr, NormCode(typed, upper), now)
    {
      hide Pruned, Failed, NormCode;
      Prune(now);
      if codes == map[] {
        return Wrong, [];
      }
      if addr in tries && tries[addr].n >= ADDR_FAILS {
        return Blocked, [];
      }
      var hit := Find(NormCode(typed, upper));
      if hit in codes && !codes[hit].used && !(now > codes[hit].until) {
        fleets := Use(addr, hit);
        return Ok, fleets;
      }
      result := Fail(addr, hit, NormCode(typed, upper), now);
      return result, [];
    }

    /** A guess that pairs uses up its code and forgives the earlier wrong ones. */
    method Use(addr: string, hit: string) returns (fleets: seq<string>)
      requires hit in codes
      modifies this
      ensures Model() == State(old(codes)[hit := old(codes)[hit].(used := true)], 0, old(tries) - {addr})
      ensures fleets == old(codes)[hit].fleets
    {
      var entry := codes[hit].(used := true);
      codes := codes[hit := entry];
      fails := 0;
      tries := tries - {addr};
      return entry.fleets;
    }

    method Fail(addr: string, hit: string, ghost want: string, now: int) returns (result: Result)
      requires hit == HitOf(Model(), want)
      modifies this
      ensures Answer(Model(), result, []) == Failed(old(Model()), addr, want, now)
    {
      var t := if addr in tries then tries[addr] else Burst(0, 0);
      if t.n == 0 {
        t := t.(since := now);
      }
      tries := tries[addr := t.(n := t.n + 1)];
      fails := fails + 1;
      if fails >= PAIR_FAILS {
        Burn();
        return Burned;
      }
      if hit !in codes {
        return Wrong;
      }
      return if codes[hit].used then Used else Expired;
    }

    /** Every code is compared with the guess. */
    method Find(want: string) returns (hit: string)
      ensures hit == HitOf(Model(), want)
    {
      hit := "";
      var keys := codes.Keys;
      while keys != {}
        invariant keys <= codes.Keys
        invariant hit == if want in codes && want !in keys then want else ""
        decreases |keys|
      {
        var c :| c in keys;
        keys := keys - {c};
        if c == want {
          hit := c;
        }
      }
    }
  }

  // ----- runs -----

  datatype Event = Mint(now: int, fleets: seq<string>, code: string) | Redeem(now: int, addr: string, want: string)

  /** The state with its history: what every code was minted for, which codes paired, and the last time. */
  datatype Full = Full(s: State, minted: map<string, seq<string>>, spent: set<string>, clock: int)

  /** The clock does not go back, and a minted code is fresh. */
  predicate Enabled(f: Full, e: Event) {
    && f.clock <= e.now
    && (e.Mint? ==> e.code != "" && e.code !in f.minted)
  }

  function AnswerTo(f: Full, e: Event): Answer
    requires e.Redeem?
  {
    Redeemed(f.s, e.addr, e.want, e.now)
  }

  predicate Pairs(f: Full, e: Event) {
    e.Redeem? && AnswerTo(f, e).result == Ok
  }

  /** A wrong guess that counts. */
  predicate Counts(f: Full, e: Event) {
    e.Redeem? && Pruned(f.s, e.now).codes != map[] && AnswerTo(f, e).result !in {Ok, Blocked}
  }

  function Next(f: Full, e: Event): Full {
    match e
    case Mint(now, fleets, code) => Full(Minted(f.s, now, fleets, code), f.minted[code := fleets], f.spent, now)
    case Redeem(now, _, want) =>
      Full(AnswerTo(f, e).state, f.minted, f.spent + (if Pairs(f, e) then {want} else {}), now)
  }

  ghost predicate Inv(f: Full) {
    && "" !in f.minted
    && f.spent <= f.minted.Keys
    && (forall c :: c in f.s.codes ==> c in f.minted && f.s.codes[c].fleets == f.minted[c])
    && (forall c :: c in f.s.codes ==> (f.s.codes[c].used <==> c in f.spent))
    && (forall c, d ::
      c in f.s.codes && d in f.s.codes && Live(f.s.codes[c], f.clock) && Live(f.s.codes[d], f.clock) ==> c == d)
    && f.s.fails < PAIR_FAILS
    && (forall a :: a in f.s.tries ==> 1 <= f.s.tries[a].n <= ADDR_FAILS && f.s.tries[a].since <= f.clock)
  }

  /** At most one code is live, no code is live again after it paired, and no address holds more
      than five counted tries. */
  lemma StepKeeps(f: Full, e: Event)
    requires Inv(f) && Enabled(f, e)
    ensures Inv(Next(f, e))
  {
    hide Next, Inv, Enabled, Pairs, Counts;
    if e.Mint? {
      MintKeeps(f, e);
    } else if Pairs(f, e) {
      PairKeeps(f, e);
    } else if Counts(f, e) {
      CountKeeps(f, e);
    } else {
      RefusalKeeps(f, e);
    }
  }

  lemma MintKeeps(f: Full, e: Event)
    requires Inv(f) && Enabled(f, e) && e.Mint?
    ensures Inv(Next(f, e))
  {
  }

  lemma RefusalKeeps(f: Full, e: Event)
    requires Inv(f) && Enabled(f, e) && e.Redeem? && !Pairs(f, e) && !Counts(f, e)
    ensures Inv(Next(f, e))
  {
    assert Next(f, e).s == Pruned(f.s, e.now);
  }

  lemma PairKeeps(f: Full, e: Event)
    requires Inv(f) && Enabled(f, e) && Pairs(f, e)
    ensures Inv(Next(f, e))
  {
  }

  lemma CountKeeps(f: Full, e: Event)
    requires Inv(f) && Enabled(f, e) && Counts(f, e)
    ensures Inv(Next(f, e))
  {
  }

  /** A guess pairs exactly when it is a live code and the address is not blocked, and then with
      exactly the fleets the code was minted for; it never paired before. */
  lemma PairsExactlyWhen(f: Full, e: Event)
    requires Inv(f) && Enabled(f, e) && e.Redeem?
    ensures var t := Pruned(f.s, e.now).tries;
      Pairs(f, e) <==>
      e.want in f.s.codes && Live(f.s.codes[e.want], e.now) && !(e.addr in t && t[e.addr].n >= ADDR_FAILS)
    ensures Pairs(f, e) ==> e.want in f.minted && e.want !in f.spent && AnswerTo(f, e).fleets == f.minted[e.want]
    ensures !Pairs(f, e) ==> AnswerTo(f, e).fleets == []
  {
    assert e.want in f.s.codes && Live(f.s.codes[e.want], e.now) ==> e.want in Pruned(f.s, e.now).codes;
  }

  /** The code was minted, and its life ended less than an hour ago if it did. */
  predicate Kept(s: State, c: string, now: int) {
    c in s.codes && now <= s.codes[c].until + 3_600_000_000_000
  }

  /** The address made five counted guesses, the first of them less than a minute ago. */
  predicate TurnedAway(s: State, addr: string, now: int) {
    addr in s.tries && now < s.tries[addr].since + 60_000_000_000 && s.tries[addr].n >= 5
  }

  /** What each answer says: with no code kept every guess is wrong; an address is turned away before
      its guess is looked at; the tenth counted guess burns the codes; and before that a guess is wrong,
      used or expired as its code is unknown, paired before, or past its five minutes. */
  lemma AnswersTell(f: Full, e: Event)
    requires Inv(f) && Enabled(f, e) && e.Redeem?
    ensures var result := AnswerTo(f, e).result;
      var known := Kept(f.s, e.want, e.now);
      if forall c :: c in f.s.codes ==> !Kept(f.s, c, e.now) then result == Wrong
      else if TurnedAway(f.s, e.addr, e.now) then result == Blocked
      else if known && !f.s.codes[e.want].used && e.now <= f.s.codes[e.want].until then result == Ok
      else if f.s.fails >= 9 then result == Burned
      else if !known then result == Wrong
      else if f.s.codes[e.want].used then result == Used
      else result == Expired
  {
    var p := Pruned(f.s, e.now);
    assert forall c :: c in p.codes <==> Kept(f.s, c, e.now);
    if forall c :: c in f.s.codes ==> !Kept(f.s, c, e.now) {
      assert p.codes.Keys == {};
    }
  }

  /** An address with five tries is turned away, and nothing counts, until its window is over. */
  lemma BlockedForTheWindow(f: Full, e: Event)
    requires Inv(f) && Enabled(f, e) && e.Redeem? && Pruned(f.s, e.now).codes != map[]
    requires e.addr in f.s.tries && f.s.tries[e.addr].n == ADDR_FAILS && e.now < f.s.tries[e.addr].since + ADDR_WINDOW
    ensures AnswerTo(f, e).result == Blocked && Next(f, e).s == Pruned(f.s, e.now)
  {
  }

  ghost predicate IsRun(run: seq<Full>, events: seq<Event>) {
    && |run| == |events| + 1
    && run[0].s == State(map[], 0, map[]) && run[0].minted == map[] && run[0].spent == {}
    && forall i :: 0 <= i < |events| ==> Enabled(run[i], events[i]) && run[i + 1] == Next(run[i], events[i])
  }

  lemma {:induction false} RunKeeps(run: seq<Full>, events: seq<Event>, k: nat)
    requires IsRun(run, events) && k < |run|
    ensures Inv(run[k])
  {
    if k > 0 {
      RunKeeps(run, events, k - 1);
      StepKeeps(run[k - 1], events[k - 1]);
    }
  }

  lemma {:induction false} SpentStays(run: seq<Full>, events: seq<Event>, i: nat, k: nat)
    requires IsRun(run, events) && i <= k < |run|
    ensures run[i].spent <= run[k].spent && run[i].minted.Keys <= run[k].minted.Keys
    ensures run[i].clock <= run[k].clock
    decreases k
  {
    if i < k {
      SpentStays(run, events, i, k - 1);
      assert run[k] == Next(run[k - 1], events[k - 1]);
    }
  }

  /** Over every run each code pairs at most once. */
  lemma PairsOnce(run: seq<Full>, events: seq<Event>, i: nat, k: nat)
    requires IsRun(run, events) && i < k < |events|
    requires Pairs(run[i], events[i]) && Pairs(run[k], events[k])
    ensures events[i].want != events[k].want
  {
    assert run[i + 1] == Next(run[i], events[i]);
    SpentStays(run, events, i + 1, k);
    RunKeeps(run, events, k);
    PairsExactlyWhen(run[k], events[k]);
  }

  predicate LiveIn(f: Full, c: string) {
    c in f.s.codes && Live(f.s.codes[c], f.clock)
  }

  /** How many counted wrong guesses the events from i to k are. */
  ghost function Guesses(run: seq<Full>, events: seq<Event>, i: nat, k: nat): nat
    requires IsRun(run, events) && i <= k < |run|
    decreases k
  {
    if i == k then 0 else Guesses(run, events, i, k - 1) + if Counts(run[k - 1], events[k - 1]) then 1 else 0
  }

  /** A code that is live after a step and was minted before it was live before it, and the step
      only adds a counted guess. */
  lemma LiveStep(f: Full, e: Event, c: string)
    requires Inv(f) && Enabled(f, e) && c in f.minted && LiveIn(Next(f, e), c)
    ensures LiveIn(f, c)
    ensures Next(f, e).s.fails == f.s.fails + if Counts(f, e) then 1 else 0
  {
    if e.Redeem? {
      assert c in f.s.codes;
      assert c in Pruned(f.s, e.now).codes;
      if Pairs(f, e) {
        PairsExactlyWhen(f, e);
        assert LiveIn(f, e.want) && LiveIn(f, c);
      }
    }
  }

  /** While a code is live, at most nine counted wrong guesses are made; the tenth burns every code. */
  lemma {:induction false} FewGuessesWhileLive(run: seq<Full>, events: seq<Event>, i: nat, k: nat, c: string)
    requires IsRun(run, events) && i <= k < |run| && c in run[i].minted && LiveIn(run[k], c)
    ensures LiveIn(run[i], c)
    ensures run[k].s.fails == run[i].s.fails + Guesses(run, events, i, k)
    ensures Guesses(run, events, i, k) < PAIR_FAILS
    decreases k
  {
    hide Counts, LiveIn, Next, Pruned;
    RunKeeps(run, events, k);
    if i < k {
      RunKeeps(run, events, k - 1);
      SpentStays(run, events, i, k - 1);
      LiveStep(run[k - 1], events[k - 1], c);
      assert Guesses(run, events, i, k)
          == Guesses(run, events, i, k - 1) + if Counts(run[k - 1], events[k - 1]) then 1 else 0;
      FewGuessesWhileLive(run, events, i, k - 1, c);
    }
  }

  /** The counted guess that reaches ten leaves no code. */
  lemma TenthGuessBurns(f: Full, e: Event)
    requires Inv(f) && Enabled(f, e) && Counts(f, e)
    ensures f.s.fails + 1 == PAIR_FAILS <==> AnswerTo(f, e).result == Burned
    ensures AnswerTo(f, e).result == Burned ==> Next(f, e).s.codes == map[] && Next(f, e).s.fails == 0
  {
  }

  // ----- granting fleets -----

  /** What a redeemed code may still grant. */
  class Grant {
    const fleets: seq<string>
    var done: set<string>

    constructor (fleets: seq<string>)
      ensures this.fleets == fleets && done == {}
    {
      this.fleets, done := fleets, {};
    }

    /** A fleet is granted when the code names it and it was not granted before. */
    method Take(id: string) returns (ok: bool)
      modifies this
      ensures ok <==> id in fleets && id !in old(done)
      ensures done == if ok then old(done) + {id} else old(done)
    {
      if id !in fleets || id in done {
        return false;
      }
      done := done + {id};
      return true;
    }
  }

  /** One fleet's answer: the fleet that really stands behind the name, and whether it stored the phone. */
  datatype Fleet = Fleet(id: string, stores: bool)

  predicate Distinct(s: seq<string>) {
    forall i, j :: 0 <= i < j < |s| ==> s[i] != s[j]
  }

  /** The fleets of a code are paired in order. Every paired fleet is named, none twice, and a fleet
      named once that stands behind its own name and stores the phone is paired. */
  method Pair(named: seq<string>, behind: string -> Fleet) returns (paired: seq<string>)
    ensures Distinct(paired)
    ensures forall id :: id in paired ==> id in named && behind(id) == Fleet(id, true)
    ensures Distinct(named) && (forall id :: id in named ==> behind(id) == Fleet(id, true)) ==> paired == named
  {
    var rd := new Grant(named);
    paired := [];
    var k := 0;
    while k < |named|
      invariant 0 <= k <= |named| && rd.fleets == named
      invariant forall id :: id in paired ==> id in named[..k] && behind(id) == Fleet(id, true) && id in rd.done
      invariant Distinct(paired)
      invariant Distinct(named) && (forall id :: id in named ==> behind(id) == Fleet(id, true)) ==>
                  paired == named[..k] && rd.done == (set id | id in named[..k])
    {
      var id := named[k];
      var fleet := behind(id);
      var granted := rd.Take(fleet.id);
      if granted && fleet.stores && fleet.id == id {
        paired := paired + [id];
      }
      k := k + 1;
    }
  }
}

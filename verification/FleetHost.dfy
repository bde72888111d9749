/** The host's cache of opened fleets. Requests take a count on the fleet they use; a fleet that is
    retired is closed once its count is back at 0. Every lock region, call to the opener and
    goroutine step is one step of a machine, and steps of different requests interleave freely. */
module FleetHost {
  import opened Basics

  /** An opened fleet is known by its closer, a number that is never used again. */
  type Closer = nat

  datatype Entry = Entry(home: string, closer: Closer)

  /** What the mutex guards, the counts, and the closers that have a retiring goroutine. */
  datatype Cache = Cache(fleets: map<string, Entry>, busy: map<Closer, nat>, retiring: set<Closer>)

  function Count(busy: map<Closer, nat>, c: Closer): nat {
    if c in busy then busy[c] else 0
  }

  function Retired(k: Cache, id: string): Cache {
    if id in k.fleets then k.(fleets := k.fleets - {id}, retiring := k.retiring + {k.fleets[id].closer}) else k
  }

  function Taken(k: Cache, c: Closer): Cache {
    k.(busy := k.busy[c := Count(k.busy, c) + 1])
  }

  predicate Hit(k: Cache, id: string, home: Option<string>) {
    home.Some? && id in k.fleets && k.fleets[id].home == home.value
  }

  function Looked(k: Cache, id: string, home: Option<string>): Cache {
    if Hit(k, id, home) then Taken(k, k.fleets[id].closer) else Retired(k, id)
  }

  function Settled(k: Cache, id: string, home: string, c: Closer): Cache {
    if Hit(k, id, Some(home)) then Taken(k, k.fleets[id].closer)
    else
      var r := Retired(k, id);
      r.(fleets := r.fleets[id := Entry(home, c)], busy := r.busy[c := 1])
  }

  function Released(k: Cache, c: Closer): Cache
    requires Count(k.busy, c) > 0
  {
    k.(busy := k.busy[c := k.busy[c] - 1])
  }

  /** The host's fields and its lock regions. */
  class Host {
    var fleets: map<string, Entry>
    var busy: map<Closer, nat>
    var retiring: set<Closer>

    ghost function Model(): Cache
      reads this
    {
      Cache(fleets, busy, retiring)
    }

    constructor ()
      ensures Model() == Cache(map[], map[], {})
    {
      fleets, busy, retiring := map[], map[], {};
    }

    /** Found, with a count taken on it; or the entry of this fleet, which moved or is gone, retires. */
    method Cached(id: string, home: Option<string>) returns (f: Option<Closer>)
      modifies this
      ensures Model() == Looked(old(Model()), id, home)
      ensures f == if Hit(old(Model()), id, home) then Some(old(fleets)[id].closer) else None
    {
      if id in fleets && home.Some? && fleets[id].home == home.value {
        var c := fleets[id].closer;
        Add(c);
        return Some(c);
      }
      Retire(id);
      return None;
    }

    method Retire(id: string)
      modifies this
      ensures Model() == Retired(old(Model()), id)
    {
      if id !in fleets {
        return;
      }
      var c := fleets[id].closer;
      fleets := fleets - {id};
      retiring := retiring + {c};
    }

    method Add(c: Closer)
      modifies `busy
      ensures Model() == Taken(old(Model()), c)
    {
      busy := busy[c := (if c in busy then busy[c] else 0) + 1];
    }

    /** Puts the fleet opened from home into the cache, or gives back the one another request put
        there first. */
    method Settle(id: string, home: string, c: Closer) returns (f: Closer)
      modifies this
      ensures Model() == Settled(old(Model()), id, home, c)
      ensures f == if Hit(old(Model()), id, Some(home)) then old(fleets)[id].closer else c
    {
      if id in fleets && fleets[id].home == home {
        f := fleets[id].closer;
        Add(f);
        return;
      }
      Retire(id);
      fleets := fleets[id := Entry(home, c)];
      busy := busy[c := 1];
      return c;
    }

    method Done(c: Closer)
      requires c in busy && busy[c] > 0
      modifies `busy
      ensures Model() == Released(old(Model()), c)
    {
      busy := busy[c := busy[c] - 1];
    }
  }

  // ----- interleaved requests -----

  const ROUNDS := 3

  /** Where a request is in the handler. */
  datatype Pc =
    | Begin(id: string, round: nat)
    | Look(id: string, round: nat, found: Option<string>)
    | Opening(id: string, round: nat, home: string)
    | Checking(id: string, round: nat, home: string, own: Closer)
    | Settling(id: string, round: nat, home: string, own: Closer)
    | Dropping(own: Closer, next: Pc)
    | Serving(using: Closer)
    | Finished
    | Failed

  /** The opened fleet that only this request knows. */
  function Own(pc: Pc): Option<Closer> {
    match pc
    case Checking(_, _, _, c) => Some(c)
    case Settling(_, _, _, c) => Some(c)
    case Dropping(c, _) => Some(c)
    case _ => None
  }

  /** The fleet this request holds a count on. */
  function Holds(pc: Pc): Option<Closer> {
    match pc
    case Serving(c) => Some(c)
    case Dropping(_, Serving(c)) => Some(c)
    case _ => None
  }

  /** waited are the retiring closers whose wait for the count has returned. */
  datatype State = State(cache: Cache, waited: set<Closer>, closed: seq<Closer>, issued: nat, pcs: map<nat, Pc>)

  const INIT := State(Cache(map[], map[], {}), {}, [], 0, map[])

  /** The answers of the resolver and the opener are arbitrary. */
  datatype Event =
    | Arrive(r: nat, id: string)
    | Resolve(r: nat, home: Option<string>)
    | Lookup(r: nat)
    | Open(r: nat, ok: bool)
    | Check(r: nat, again: Option<string>)
    | Settle(r: nat)
    | Drop(r: nat)
    | Done(r: nat)
    | WaitReturns(c: Closer)
    | CloseRetired(c: Closer)

  ghost predicate Enabled(s: State, e: Event) {
    match e
    case Arrive(r, _) => r !in s.pcs
    case Resolve(r, _) => r in s.pcs && s.pcs[r].Begin?
    case Lookup(r) => r in s.pcs && s.pcs[r].Look?
    case Open(r, _) => r in s.pcs && s.pcs[r].Opening?
    case Check(r, _) => r in s.pcs && s.pcs[r].Checking?
    case Settle(r) => r in s.pcs && s.pcs[r].Settling?
    case Drop(r) => r in s.pcs && s.pcs[r].Dropping?
    case Done(r) => r in s.pcs && s.pcs[r].Serving? && Count(s.cache.busy, s.pcs[r].using) > 0
    case WaitReturns(c) => c in s.cache.retiring && c !in s.waited && Count(s.cache.busy, c) == 0
    case CloseRetired(c) => c in s.waited
  }

  function To(s: State, r: nat, pc: Pc): State {
    s.(pcs := s.pcs[r := pc])
  }

  ghost function Next(s: State, e: Event): State
    requires Enabled(s, e)
  {
    match e
    case Arrive(r, id) => To(s, r, Begin(id, 0))
    case Resolve(r, home) =>
      var pc := s.pcs[r];
      To(s, r, if pc.round >= ROUNDS then Failed else Look(pc.id, pc.round, home))
    case Lookup(r) =>
      var pc := s.pcs[r];
      var pc' :=
        if Hit(s.cache, pc.id, pc.found) then Serving(s.cache.fleets[pc.id].closer)
        else if pc.found.None? then Failed
        else Opening(pc.id, pc.round, pc.found.value);
      To(s, r, pc').(cache := Looked(s.cache, pc.id, pc.found))
    case Open(r, ok) =>
      var pc := s.pcs[r];
      if ok then To(s, r, Checking(pc.id, pc.round, pc.home, s.issued)).(issued := s.issued + 1)
      else To(s, r, Failed)
    case Check(r, again) =>
      var pc := s.pcs[r];
      To(s, r, if again == Some(pc.home) then Settling(pc.id, pc.round, pc.home, pc.own)
               else Dropping(pc.own, Begin(pc.id, pc.round + 1)))
    case Settle(r) =>
      var pc := s.pcs[r];
      var pc' :=
        if Hit(s.cache, pc.id, Some(pc.home)) then Dropping(pc.own, Serving(s.cache.fleets[pc.id].closer))
        else Serving(pc.own);
      To(s, r, pc').(cache := Settled(s.cache, pc.id, pc.home, pc.own))
    case Drop(r) => To(s, r, s.pcs[r].next).(closed := s.closed + [s.pcs[r].own])
    case Done(r) => To(s, r, Finished).(cache := Released(s.cache, s.pcs[r].using))
    case WaitReturns(c) => s.(waited := s.waited + {c})
    case CloseRetired(c) =>
      s.(waited := s.waited - {c}, closed := s.closed + [c], cache := s.cache.(retiring := s.cache.retiring - {c}))
  }

  // ----- the invariant -----

  ghost predicate InHands(s: State, c: Closer) {
    exists r :: r in s.pcs && Own(s.pcs[r]) == Some(c)
  }

  ghost predicate InCache(s: State, c: Closer) {
    exists id :: id in s.cache.fleets && s.cache.fleets[id].closer == c
  }

  function One(b: bool): nat {
    if b then 1 else 0
  }

  /** An opened closer is in exactly one place, and one that was not opened in none. */
  ghost predicate OnePlace(s: State, c: Closer) {
    One(InHands(s, c)) + One(InCache(s, c)) + One(c in s.cache.retiring) + One(c in s.closed)
    == One(c < s.issued)
  }

  function Holders(pcs: map<nat, Pc>, c: Closer): set<nat> {
    set r | r in pcs && Holds(pcs[r]) == Some(c)
  }

  ghost predicate OwnOnce(pcs: map<nat, Pc>) {
    forall r, q :: r in pcs && q in pcs && Own(pcs[r]).Some? && Own(pcs[r]) == Own(pcs[q]) ==> r == q
  }

  ghost predicate CachedOnce(fleets: map<string, Entry>) {
    forall i, j :: i in fleets && j in fleets && fleets[i].closer == fleets[j].closer ==> i == j
  }

  predicate ClosedOnce(closed: seq<Closer>) {
    forall i, j :: 0 <= i < j < |closed| ==> closed[i] != closed[j]
  }

  /** The count of a fleet is the number of requests that use it. */
  ghost predicate Counted(s: State) {
    forall c: Closer {:trigger Holders(s.pcs, c)} :: Count(s.cache.busy, c) == |Holders(s.pcs, c)|
  }

  /** A fleet that a request uses is not closed. */
  ghost predicate Alive(s: State, pc: Pc) {
    Holds(pc).Some? ==> InCache(s, Holds(pc).value) || Holds(pc).value in s.cache.retiring
  }

  predicate Shape(pc: Pc) {
    pc.Dropping? ==> pc.next.Begin? || pc.next.Serving?
  }

  ghost predicate Inv(s: State) {
    && (forall c: Closer :: OnePlace(s, c))
    && OwnOnce(s.pcs)
    && CachedOnce(s.cache.fleets)
    && ClosedOnce(s.closed)
    && Counted(s)
    && (forall r :: r in s.pcs ==> Alive(s, s.pcs[r]) && Shape(s.pcs[r]))
    && s.waited <= s.cache.retiring
    && (forall c :: c in s.waited ==> Count(s.cache.busy, c) == 0)
  }

  // ----- every step keeps it -----

  /** How one request's move changes what is in hands and who holds counts. */
  lemma Moves(pcs: map<nat, Pc>, r: nat, pc: Pc)
    requires OwnOnce(pcs)
    requires Own(pc).Some? && !(r in pcs && Own(pcs[r]) == Own(pc)) ==>
      forall q :: q in pcs ==> Own(pcs[q]) != Own(pc)
    ensures OwnOnce(pcs[r := pc])
  {
  }

  lemma HoldersAfter(pcs: map<nat, Pc>, r: nat, pc: Pc, c: Closer)
    ensures |Holders(pcs[r := pc], c)|
            == |Holders(pcs, c)| + One(Holds(pc) == Some(c)) - One(r in pcs && Holds(pcs[r]) == Some(c))
  {
    hide Holds, One;
    var h, h' := Holders(pcs, c), Holders(pcs[r := pc], c);
    assert forall q :: q != r ==> (q in h <==> q in h');
    assert r in h' <==> Holds(pc) == Some(c);
    assert r in h <==> r in pcs && Holds(pcs[r]) == Some(c);
    Swap(h, h', r);
  }

  /** Sets that differ in r at most. */
  lemma Swap(h: set<nat>, h': set<nat>, r: nat)
    requires forall q :: q != r ==> (q in h <==> q in h')
    ensures |h'| == |h| + One(r in h') - One(r in h)
  {
    var others := h - {r};
    assert h == if r in h then others + {r} else others;
    assert h' == if r in h' then others + {r} else others;
  }

  lemma HandsAfter(s: State, s': State, r: nat, pc: Pc)
    requires OwnOnce(s.pcs) && s'.pcs == s.pcs[r := pc]
    ensures forall c: Closer ::
      InHands(s', c) == (Own(pc) == Some(c) || (InHands(s, c) && !(r in s.pcs && Own(s.pcs[r]) == Some(c))))
  {
    forall c: Closer
      ensures InHands(s', c) == (Own(pc) == Some(c) || (InHands(s, c) && !(r in s.pcs && Own(s.pcs[r]) == Some(c))))
    {
      assert Own(pc) == Some(c) ==> r in s'.pcs && Own(s'.pcs[r]) == Some(c);
      forall q | q in s.pcs && Own(s.pcs[q]) == Some(c) && q != r
        ensures q in s'.pcs && Own(s'.pcs[q]) == Some(c)
      {
      }
      forall q | q in s'.pcs && Own(s'.pcs[q]) == Some(c) && q != r
        ensures q in s.pcs && Own(s.pcs[q]) == Some(c)
      {
      }
    }
  }

  lemma CacheAfterRetire(s: State, s': State, id: string)
    requires CachedOnce(s.cache.fleets) && s'.cache.fleets == Retired(s.cache, id).fleets
    ensures CachedOnce(s'.cache.fleets)
    ensures forall c: Closer ::
      InCache(s', c) == (InCache(s, c) && !(id in s.cache.fleets && s.cache.fleets[id].closer == c))
  {
    forall c: Closer
      ensures InCache(s', c) == (InCache(s, c) && !(id in s.cache.fleets && s.cache.fleets[id].closer == c))
    {
      forall i | i in s.cache.fleets && s.cache.fleets[i].closer == c && i != id
        ensures i in s'.cache.fleets && s'.cache.fleets[i].closer == c
      {
      }
    }
  }

  /** Counts still match the holders when one request moves and the counts of what it held and what
      it holds now change by one. */
  lemma CountsAfter(s: State, s': State, r: nat, pc: Pc)
    requires Counted(s) && s'.pcs == s.pcs[r := pc]
    requires forall c: Closer ::
      Count(s'.cache.busy, c)
      == Count(s.cache.busy, c) + One(Holds(pc) == Some(c)) - One(r in s.pcs && Holds(s.pcs[r]) == Some(c))
    ensures Counted(s')
  {
    forall c: Closer
      ensures Count(s'.cache.busy, c) == |Holders(s'.pcs, c)|
    {
      HoldersAfter(s.pcs, r, pc, c);
      assert |Holders(s.pcs, c)| == Count(s.cache.busy, c);
    }
  }

  /** A step that only moves one request. */
  lemma QuietMove(s: State, s': State, r: nat, pc: Pc)
    requires Inv(s) && s' == To(s, r, pc).(issued := s'.issued) && Shape(pc) && Holds(pc) == None
    requires r in s.pcs ==> Holds(s.pcs[r]) == None
    requires
      || (s'.issued == s.issued && Own(pc) == (if r in s.pcs then Own(s.pcs[r]) else None))
      || (s'.issued == s.issued + 1 && Own(pc) == Some(s.issued) && r in s.pcs && Own(s.pcs[r]) == None)
    ensures Inv(s')
  {
    hide Holders, Count, Own, Holds;
    NothingAhead(s);
    Moves(s.pcs, r, pc);
    HandsAfter(s, s', r, pc);
    CountsAfter(s, s', r, pc);
    SamePlaces(s, s');
    forall c: Closer
      ensures OnePlace(s', c)
    {
      assert OnePlace(s, c);
    }
    forall q | q in s'.pcs
      ensures Alive(s', s'.pcs[q]) && Shape(s'.pcs[q])
    {
      assert q != r ==> Alive(s, s.pcs[q]);
    }
  }

  lemma NothingAhead(s: State)
    requires Inv(s)
    ensures forall q :: q in s.pcs ==> Own(s.pcs[q]) != Some(s.issued)
  {
    hide Own;
    assert OnePlace(s, s.issued);
  }

  lemma SamePlaces(s: State, s': State)
    requires s'.cache.fleets == s.cache.fleets
    ensures forall c: Closer :: InCache(s', c) == InCache(s, c)
  {
  }

  /** A step that takes a count on a cached fleet. */
  lemma TakeMove(s: State, s': State, r: nat, pc: Pc, c: Closer)
    requires Inv(s) && r in s.pcs && Holds(s.pcs[r]) == None && InCache(s, c)
    requires Holds(pc) == Some(c) && Own(pc) == Own(s.pcs[r]) && Shape(pc)
    requires s' == To(s, r, pc).(cache := Taken(s.cache, c))
    ensures Inv(s')
  {
    hide Holders, Own, Holds;
    assert OnePlace(s, c);
    Moves(s.pcs, r, pc);
    HandsAfter(s, s', r, pc);
    CountsAfter(s, s', r, pc);
    SamePlaces(s, s');
    forall x: Closer
      ensures OnePlace(s', x)
    {
      assert OnePlace(s, x);
    }
    forall q | q in s'.pcs
      ensures Alive(s', s'.pcs[q]) && Shape(s'.pcs[q])
    {
      assert q != r ==> Alive(s, s.pcs[q]);
    }
  }

  /** A step that retires what is cached for id. */
  lemma RetireMove(s: State, s': State, r: nat, pc: Pc, id: string)
    requires Inv(s) && r in s.pcs && Holds(s.pcs[r]) == None == Holds(pc)
    requires Own(pc) == Own(s.pcs[r]) && Shape(pc)
    requires s' == To(s, r, pc).(cache := Retired(s.cache, id))
    ensures Inv(s')
  {
    hide Holders, Own, Holds;
    Moves(s.pcs, r, pc);
    HandsAfter(s, s', r, pc);
    CountsAfter(s, s', r, pc);
    CacheAfterRetire(s, s', id);
    forall x: Closer
      ensures OnePlace(s', x)
    {
      assert OnePlace(s, x);
      assert id in s.cache.fleets ==> InCache(s, s.cache.fleets[id].closer);
    }
    forall q | q in s'.pcs
      ensures Alive(s', s'.pcs[q]) && Shape(s'.pcs[q])
    {
      assert q != r ==> Alive(s, s.pcs[q]);
    }
  }

  /** No request holds a count on a fleet that only one request knows. */
  lemma OwnIsUncounted(s: State, c: Closer)
    requires Inv(s) && InHands(s, c)
    ensures Count(s.cache.busy, c) == 0 && !InCache(s, c) && c !in s.cache.retiring && c !in s.closed && c < s.issued
  {
    assert OnePlace(s, c);
    forall r | r in s.pcs
      ensures Holds(s.pcs[r]) != Some(c)
    {
      assert Alive(s, s.pcs[r]);
    }
    assert Holders(s.pcs, c) == {};
  }

  /** The fleet just opened goes into the cache in place of what was there. */
  lemma InstallMove(s: State, s': State, r: nat, id: string, home: string)
    requires Inv(s) && r in s.pcs && s.pcs[r].Settling?
    requires var own := s.pcs[r].own; var k := Retired(s.cache, id);
      s' == To(s, r, Serving(own)).(cache := k.(fleets := k.fleets[id := Entry(home, own)], busy := k.busy[own := 1]))
    ensures Inv(s')
  {
    var own, pc := s.pcs[r].own, s.pcs[r];
    assert Own(pc) == Some(own) && Holds(pc) == None && Holds(Serving(own)) == Some(own) && Own(Serving(own)) == None;
    hide Holders, Own, Holds;
    var mid := To(s, r, Finished).(cache := Retired(s.cache, id));
    assert InHands(s, own);
    OwnIsUncounted(s, own);
    Moves(s.pcs, r, Serving(own));
    HandsAfter(s, s', r, Serving(own));
    CountsAfter(s, s', r, Serving(own));
    CacheAfterRetire(s, mid, id);
    CacheAfterInstall(mid.cache.fleets, id, Entry(home, own));
    assert forall c: Closer :: InCache(s', c) == (InCache(mid, c) || c == own) by {
      InCacheAfterInstall(mid, s', id, Entry(home, own));
    }
    forall x: Closer
      ensures OnePlace(s', x)
    {
      assert OnePlace(s, x);
      assert id in s.cache.fleets ==> InCache(s, s.cache.fleets[id].closer);
    }
    forall q | q in s'.pcs
      ensures Alive(s', s'.pcs[q]) && Shape(s'.pcs[q])
    {
      assert q != r ==> Alive(s, s.pcs[q]);
    }
  }

  lemma CacheAfterInstall(fleets: map<string, Entry>, id: string, e: Entry)
    requires CachedOnce(fleets) && id !in fleets
    requires forall i :: i in fleets ==> fleets[i].closer != e.closer
    ensures CachedOnce(fleets[id := e])
  {
  }

  lemma InCacheAfterInstall(mid: State, s': State, id: string, e: Entry)
    requires id !in mid.cache.fleets && s'.cache.fleets == mid.cache.fleets[id := e]
    ensures forall c: Closer :: InCache(s', c) == (InCache(mid, c) || c == e.closer)
  {
    forall c: Closer
      ensures InCache(s', c) == (InCache(mid, c) || c == e.closer)
    {
      assert id in s'.cache.fleets;
      forall i | i in mid.cache.fleets && mid.cache.fleets[i].closer == c
        ensures i in s'.cache.fleets && s'.cache.fleets[i].closer == c
      {
      }
    }
  }

  /** A fleet that only this request knows is closed. */
  lemma DropMove(s: State, s': State, r: nat)
    requires Inv(s) && r in s.pcs && s.pcs[r].Dropping?
    requires s' == To(s, r, s.pcs[r].next).(closed := s.closed + [s.pcs[r].own])
    ensures Inv(s') && Count(s.cache.busy, s.pcs[r].own) == 0
  {
    var pc := s.pcs[r];
    assert Shape(pc) && Alive(s, pc);
    assert Own(pc) == Some(pc.own) && Own(pc.next) == None && Holds(pc.next) == Holds(pc);
    hide Holders, Own, Holds;
    assert InHands(s, pc.own);
    OwnIsUncounted(s, pc.own);
    Moves(s.pcs, r, pc.next);
    HandsAfter(s, s', r, pc.next);
    CountsAfter(s, s', r, pc.next);
    SamePlaces(s, s');
    forall x: Closer
      ensures OnePlace(s', x)
    {
      assert OnePlace(s, x);
    }
    forall q | q in s'.pcs
      ensures Alive(s', s'.pcs[q]) && Shape(s'.pcs[q])
    {
      assert q != r ==> Alive(s, s.pcs[q]);
    }
  }

  lemma DoneMove(s: State, s': State, r: nat)
    requires Inv(s) && r in s.pcs && s.pcs[r].Serving? && Count(s.cache.busy, s.pcs[r].using) > 0
    requires s' == To(s, r, Finished).(cache := Released(s.cache, s.pcs[r].using))
    ensures Inv(s')
  {
    var c := s.pcs[r].using;
    assert Own(s.pcs[r]) == None && Holds(s.pcs[r]) == Some(c) && Own(Finished) == None && Holds(Finished) == None;
    hide Holders, Own, Holds;
    Moves(s.pcs, r, Finished);
    HandsAfter(s, s', r, Finished);
    CountsAfter(s, s', r, Finished);
    SamePlaces(s, s');
    forall x: Closer
      ensures OnePlace(s', x)
    {
      assert OnePlace(s, x);
    }
    forall q | q in s'.pcs
      ensures Alive(s', s'.pcs[q]) && Shape(s'.pcs[q])
    {
      assert q != r ==> Alive(s, s.pcs[q]);
    }
  }

  lemma CloseMove(s: State, s': State, c: Closer)
    requires Inv(s) && c in s.waited
    requires s' == s.(waited := s.waited - {c}, closed := s.closed + [c],
                      cache := s.cache.(retiring := s.cache.retiring - {c}))
    ensures Inv(s') && Count(s.cache.busy, c) == 0
  {
    assert Holders(s.pcs, c) == {};
    assert forall q :: q in s.pcs ==> q !in Holders(s.pcs, c);
    assert OnePlace(s, c);
    assert forall x: Closer :: InHands(s', x) == InHands(s, x);
    SamePlaces(s, s');
    forall x: Closer
      ensures OnePlace(s', x)
    {
      assert OnePlace(s, x);
    }
    assert Counted(s') by {
      forall x: Closer
        ensures Count(s'.cache.busy, x) == |Holders(s'.pcs, x)|
      {
        assert Count(s.cache.busy, x) == |Holders(s.pcs, x)|;
      }
    }
    forall q | q in s'.pcs
      ensures Alive(s', s'.pcs[q]) && Shape(s'.pcs[q])
    {
      assert Alive(s, s.pcs[q]);
      assert q !in Holders(s.pcs, c);
    }
  }

  /** Every step keeps the invariant, whatever the resolver and the opener answer. */
  lemma StepKeeps(s: State, e: Event)
    requires Inv(s) && Enabled(s, e)
    ensures Inv(Next(s, e))
  {
    var s' := Next(s, e);
    match e
    case Arrive(r, id) => QuietMove(s, s', r, s'.pcs[r]);
    case Resolve(r, home) => QuietMove(s, s', r, s'.pcs[r]);
    case Lookup(r) =>
      var pc := s.pcs[r];
      if Hit(s.cache, pc.id, pc.found) {
        assert InCache(s, s.cache.fleets[pc.id].closer);
        TakeMove(s, s', r, s'.pcs[r], s.cache.fleets[pc.id].closer);
      } else {
        RetireMove(s, s', r, s'.pcs[r], pc.id);
      }
    case Open(r, ok) => QuietMove(s, s', r, s'.pcs[r]);
    case Check(r, again) => QuietMove(s, s', r, s'.pcs[r]);
    case Settle(r) =>
      var pc := s.pcs[r];
      if Hit(s.cache, pc.id, Some(pc.home)) {
        assert InCache(s, s.cache.fleets[pc.id].closer);
        TakeMove(s, s', r, s'.pcs[r], s.cache.fleets[pc.id].closer);
      } else {
        InstallMove(s, s', r, pc.id, pc.home);
      }
    case Drop(r) => DropMove(s, s', r);
    case Done(r) => DoneMove(s, s', r);
    case WaitReturns(c) => WaitMove(s, s', c);
    case CloseRetired(c) => CloseMove(s, s', c);
  }

  lemma WaitMove(s: State, s': State, c: Closer)
    requires Inv(s) && c in s.cache.retiring && Count(s.cache.busy, c) == 0 && s' == s.(waited := s.waited + {c})
    ensures Inv(s')
  {
    hide Holders, Count;
    SamePlaces(s, s');
    assert forall x: Closer :: InHands(s', x) == InHands(s, x);
    forall x: Closer
      ensures OnePlace(s', x)
    {
      assert OnePlace(s, x);
    }
    assert Counted(s') by {
      forall x: Closer
        ensures Count(s'.cache.busy, x) == |Holders(s'.pcs, x)|
      {
        assert Count(s.cache.busy, x) == |Holders(s.pcs, x)|;
      }
    }
    assert forall q :: q in s.pcs && Alive(s, s.pcs[q]) ==> Alive(s', s.pcs[q]);
  }

  /** A fleet that retires or is closed gets no further count. */
  lemma RetiredNeverRises(s: State, e: Event, c: Closer)
    requires Inv(s) && Enabled(s, e) && (c in s.cache.retiring || c in s.closed)
    ensures Count(Next(s, e).cache.busy, c) <= Count(s.cache.busy, c)
    ensures c in Next(s, e).cache.retiring || c in Next(s, e).closed
  {
    assert OnePlace(s, c);
    match e
    case Lookup(r) =>
      var pc := s.pcs[r];
      if Hit(s.cache, pc.id, pc.found) {
        assert InCache(s, s.cache.fleets[pc.id].closer);
      }
    case Settle(r) =>
      var pc := s.pcs[r];
      if Hit(s.cache, pc.id, Some(pc.home)) {
        assert InCache(s, s.cache.fleets[pc.id].closer);
      } else {
        assert Own(pc) == Some(pc.own);
        assert InHands(s, pc.own);
      }
    case _ =>
  }

  /** Only a fleet that was never closed before, and that no request uses, is closed. */
  lemma ClosesWhenIdle(s: State, e: Event, c: Closer)
    requires Inv(s) && Enabled(s, e) && c in Next(s, e).closed && c !in s.closed
    ensures Next(s, e).closed == s.closed + [c]
    ensures Count(s.cache.busy, c) == 0
    ensures forall r :: r in s.pcs ==> Holds(s.pcs[r]) != Some(c)
  {
    match e {
      case Drop(r) => DropMove(s, Next(s, e), r);
      case CloseRetired(x) => CloseMove(s, Next(s, e), x);
      case _ =>
    }
    assert Holders(s.pcs, c) == {};
    assert forall r :: r in s.pcs && Holds(s.pcs[r]) == Some(c) ==> r in Holders(s.pcs, c);
  }

  ghost predicate IsRun(run: seq<State>, events: seq<Event>) {
    && |run| == |events| + 1
    && run[0] == INIT
    && forall i :: 0 <= i < |events| ==> Enabled(run[i], events[i]) && run[i + 1] == Next(run[i], events[i])
  }

  lemma {:induction false} RunKeeps(run: seq<State>, events: seq<Event>, k: nat)
    requires IsRun(run, events) && k < |run|
    ensures Inv(run[k])
  {
    if k == 0 {
      assert forall c: Closer {:trigger Holders(run[0].pcs, c)} :: Holders(run[0].pcs, c) == {};
    } else {
      RunKeeps(run, events, k - 1);
      StepKeeps(run[k - 1], events[k - 1]);
    }
  }

  /** Over every run and every interleaving: each opened closer is in exactly one place, nothing is
      closed twice, a fleet in use is not closed, and a retired fleet is on its way to closed. */
  lemma RunsAreSafe(run: seq<State>, events: seq<Event>, k: nat, c: Closer)
    requires IsRun(run, events) && k < |run|
    ensures OnePlace(run[k], c) && ClosedOnce(run[k].closed)
    ensures forall r :: r in run[k].pcs && Holds(run[k].pcs[r]) == Some(c) ==> c !in run[k].closed
    ensures Count(run[k].cache.busy, c) == |Holders(run[k].pcs, c)|
  {
    RunKeeps(run, events, k);
    assert OnePlace(run[k], c);
    forall r | r in run[k].pcs && Holds(run[k].pcs[r]) == Some(c)
      ensures c !in run[k].closed
    {
      assert Alive(run[k], run[k].pcs[r]);
    }
  }

  lemma {:induction false} NoCountRisesAfterRetirement(run: seq<State>, events: seq<Event>, i: nat, k: nat, c: Closer)
    requires IsRun(run, events) && i <= k < |run|
    requires c in run[i].cache.retiring || c in run[i].closed
    ensures Count(run[k].cache.busy, c) <= Count(run[i].cache.busy, c)
    ensures c in run[k].cache.retiring || c in run[k].closed
    decreases k
  {
    if i < k {
      NoCountRisesAfterRetirement(run, events, i, k - 1, c);
      RunKeeps(run, events, k - 1);
      RetiredNeverRises(run[k - 1], events[k - 1], c);
    }
  }

  /** When every request has ended and every retiring goroutine has too, what was opened is cached
      or closed: nothing leaks. */
  lemma NothingLeaks(run: seq<State>, events: seq<Event>, k: nat, c: Closer)
    requires IsRun(run, events) && k < |run| && c < run[k].issued
    requires forall r :: r in run[k].pcs ==> run[k].pcs[r].Finished? || run[k].pcs[r].Failed?
    requires run[k].cache.retiring == {}
    ensures InCache(run[k], c) != (c in run[k].closed)
    ensures Count(run[k].cache.busy, c) == 0
  {
    RunsAreSafe(run, events, k, c);
    assert !InHands(run[k], c);
    assert Holders(run[k].pcs, c) == {};
  }

  /** A request that is served can always give its count back. */
  lemma DoneNeverPanics(s: State, r: nat)
    requires Inv(s) && r in s.pcs && s.pcs[r].Serving?
    ensures Enabled(s, Event.Done(r))
  {
    assert r in Holders(s.pcs, s.pcs[r].using);
  }

  // ----- a request is served -----

  /** The request that an event is a step of. */
  function Actor(e: Event): Option<nat> {
    match e
    case Arrive(r, _) => Some(r)
    case Resolve(r, _) => Some(r)
    case Lookup(r) => Some(r)
    case Open(r, _) => Some(r)
    case Check(r, _) => Some(r)
    case Settle(r) => Some(r)
    case Drop(r) => Some(r)
    case Done(r) => Some(r)
    case _ => None
  }

  /** The home of the request's fleet is this one at every look, it can be opened, and the request is
      not over yet. */
  predicate Steady(e: Event, r: nat, home: string) {
    match e
    case Resolve(q, found) => q == r ==> found == Some(home)
    case Open(q, ok) => q == r ==> ok
    case Check(q, again) => q == r ==> again == Some(home)
    case Done(q) => q != r
    case _ => true
  }

  /** On its way: no look that it made found another home. */
  predicate OnItsWay(pc: Pc, home: string) {
    match pc
    case Begin(_, round) => round < 3
    case Look(_, _, found) => found == Some(home)
    case Opening(_, _, h) => h == home
    case Checking(_, _, h, _) => h == home
    case Settling(_, _, h, _) => h == home
    case Dropping(_, next) => next.Serving?
    case Serving(_) => true
    case _ => false
  }

  /** How many steps of its own it takes at most until it is served. */
  function StepsLeft(pc: Pc): nat {
    match pc
    case Begin(_, _) => 6
    case Look(_, _, _) => 5
    case Opening(_, _, _) => 4
    case Checking(_, _, _, _) => 3
    case Settling(_, _, _, _) => 2
    case Dropping(_, _) => 1
    case _ => 0
  }

  /** Every step of the request brings it nearer, no step of another one takes it back, and it has a
      step to make until it is served. */
  lemma SteadyStep(s: State, e: Event, r: nat, home: string)
    requires Enabled(s, e) && r in s.pcs && OnItsWay(s.pcs[r], home) && Steady(e, r, home)
    ensures r in Next(s, e).pcs && OnItsWay(Next(s, e).pcs[r], home)
    ensures Actor(e) == Some(r) ==> StepsLeft(Next(s, e).pcs[r]) < StepsLeft(s.pcs[r])
    ensures Actor(e) != Some(r) ==> Next(s, e).pcs[r] == s.pcs[r]
    ensures !s.pcs[r].Serving? ==> exists own :: Actor(own) == Some(r) && Steady(own, r, home) && Enabled(s, own)
  {
    if !s.pcs[r].Serving? {
      var own := match s.pcs[r]
        case Begin(_, _) => Resolve(r, Some(home))
        case Look(_, _, _) => Lookup(r)
        case Opening(_, _, _) => Open(r, true)
        case Checking(_, _, _, _) => Check(r, Some(home))
        case Settling(_, _, _, _) => Settle(r)
        case _ => Drop(r);
      assert Actor(own) == Some(r) && Steady(own, r, home) && Enabled(s, own);
    }
  }

  /** How many of the events from i to k are steps of the request. */
  function StepsOf(events: seq<Event>, i: nat, k: nat, r: nat): nat
    requires i <= k <= |events|
    decreases k
  {
    if i == k then 0 else StepsOf(events, i, k - 1, r) + if Actor(events[k - 1]) == Some(r) then 1 else 0
  }

  /** Over every run: a request whose home does not move is served after six steps of its own, whatever
      the other requests do. */
  lemma {:induction false} SteadyIsServed(run: seq<State>, events: seq<Event>, i: nat, k: nat, r: nat, home: string)
    requires IsRun(run, events) && i <= k < |run| && r in run[i].pcs && OnItsWay(run[i].pcs[r], home)
    requires forall j :: i <= j < k ==> Steady(events[j], r, home)
    ensures r in run[k].pcs && OnItsWay(run[k].pcs[r], home)
    ensures StepsOf(events, i, k, r) + StepsLeft(run[k].pcs[r]) <= StepsLeft(run[i].pcs[r]) <= 6
    ensures StepsOf(events, i, k, r) >= 6 ==> run[k].pcs[r].Serving?
    decreases k
  {
    if i < k {
      SteadyIsServed(run, events, i, k - 1, r, home);
      SteadyStep(run[k - 1], events[k - 1], r, home);
    }
  }
}

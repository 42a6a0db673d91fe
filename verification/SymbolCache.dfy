/**
The symbol cache of the profiler (gdb_client.py, symbolize_pc): an ordered dictionary of at most
4096 names, least recently used first, cleared by everything that changes the symbol table.
*/
module SymbolCache {
  import opened Bits

  const CAPACITY: nat := 4096

  // The ordered dictionary: its keys, oldest use first, and its values.
  datatype Cache = Cache(order: seq<int>, names: map<int, string>)

  const EMPTY := Cache([], map[])

  predicate Distinct(s: seq<int>) {
    forall i, j :: 0 <= i < j < |s| ==> s[i] != s[j]
  }

  ghost predicate Valid(c: Cache) {
    Distinct(c.order) && |c.order| <= CAPACITY && (forall k :: k in c.order <==> k in c.names)
  }

  function Without(s: seq<int>, k: int): seq<int> {
    if s == [] then []
    else if s[0] == k then Without(s[1..], k)
    else [s[0]] + Without(s[1..], k)
  }

  // `pc & 0xFFFFFFFF`
  function KeyOf(pc: int): (k: int)
    ensures 0 <= k < 0x1_0000_0000
  {
    pc % 0x1_0000_0000
  }

  /** A name is kept under the low 32 bits of the address: an address of the target under itself. */
  lemma KeyIsTheLowWord(pc: int)
    ensures KeyOf(pc) == And(pc, 0xFFFF_FFFF)
    ensures 0 <= pc < 0x1_0000_0000 ==> KeyOf(pc) == pc
  {
    LowBits(pc, 32);
    SmallPowers();
  }

  // One call of symbolize_pc. `fetched`: what the uncached lookup returns if it is made.
  function AnswerOf(c: Cache, key: int, fetched: string): string {
    if key in c.names then c.names[key] else fetched
  }

  function After(c: Cache, key: int, fetched: string): Cache {
    if key in c.names then c.(order := Without(c.order, key) + [key])
    else
      var order := c.order + [key];
      var names := c.names[key := fetched];
      if |order| > CAPACITY then Cache(order[1..], names - {order[0]}) else Cache(order, names)
  }

  // ---------------------------------------------------------------- runs

  // `Clear` is load_symbols, load_coredump, start_gdb and stop_gdb: the table may be another one
  // afterwards. A lookup that GDB does not answer fetches the empty string.
  datatype Event = Lookup(pc: int, works: bool) | Clear(table: int -> string)

  datatype State = State(cache: Cache, table: int -> string, used: seq<int>, failed: set<int>)

  function Fetched(s: State, e: Event): string
    requires e.Lookup?
  {
    if e.works then s.table(KeyOf(e.pc)) else ""
  }

  function Answer(s: State, e: Event): string
    requires e.Lookup?
  {
    AnswerOf(s.cache, KeyOf(e.pc), Fetched(s, e))
  }

  // `used`: the keys looked up since the last clear, in order. `failed`: those whose cached name
  // was fetched by a lookup that failed, although they have one.
  function Step(s: State, e: Event): State {
    match e
    case Clear(table) => State(EMPTY, table, [], {})
    case Lookup(pc, works) =>
      var key := KeyOf(pc);
      State(After(s.cache, key, Fetched(s, e)), s.table, s.used + [key],
            if key in s.cache.names then s.failed
            else if !works && s.table(key) != "" then s.failed + {key} else s.failed - {key})
  }

  function Play(table: int -> string, es: seq<Event>): State {
    if es == [] then State(EMPTY, table, [], {}) else Step(Play(table, es[..|es| - 1]), es[|es| - 1])
  }

  // The distinct keys of a history, least recently used first.
  function Recency(used: seq<int>): seq<int> {
    if used == [] then []
    else
      var k := used[|used| - 1];
      Without(Recency(used[..|used| - 1]), k) + [k]
  }

  function Last(s: seq<int>, n: nat): seq<int> {
    if |s| <= n then s else s[|s| - n..]
  }

  ghost predicate Inv(s: State) {
    && Valid(s.cache)
    && Distinct(Recency(s.used))
    && s.cache.order == Last(Recency(s.used), CAPACITY)
    && (forall k :: k in s.cache.names ==> s.cache.names[k] == (if k in s.failed then "" else s.table(k)))
    && (forall k :: k in s.failed ==> s.table(k) != "")
  }

  lemma {:induction false} WithoutMembers(s: seq<int>, k: int)
    ensures forall x :: x in Without(s, k) <==> x in s && x != k
    ensures |Without(s, k)| <= |s|
    ensures Distinct(s) ==> Distinct(Without(s, k)) && |Without(s, k)| == |s| - if k in s then 1 else 0
  {
    if s != [] {
      WithoutMembers(s[1..], k);
      assert s == [s[0]] + s[1..];
      if Distinct(s) {
        assert Distinct(s[1..]) && s[0] !in s[1..];
      }
    }
  }

  lemma {:induction false} WithoutAbsent(s: seq<int>, k: int)
    requires k !in s
    ensures Without(s, k) == s
  {
    if s != [] {
      assert k !in s[1..];
      WithoutAbsent(s[1..], k);
      assert s == [s[0]] + s[1..];
    }
  }

  lemma {:induction false} WithoutConcat(a: seq<int>, b: seq<int>, k: int)
    ensures Without(a + b, k) == Without(a, k) + Without(b, k)
  {
    if a == [] {
      assert a + b == b;
    } else {
      WithoutConcat(a[1..], b, k);
      assert (a + b)[0] == a[0] && (a + b)[1..] == a[1..] + b;
      if a[0] != k {
        assert [a[0]] + (Without(a[1..], k) + Without(b, k)) == Without(a, k) + Without(b, k);
      }
    }
  }

  lemma DistinctParts(a: seq<int>, b: seq<int>)
    requires Distinct(a + b)
    ensures Distinct(a) && Distinct(b) && forall x :: x in a ==> x !in b
  {
    assert forall i :: 0 <= i < |a| ==> (a + b)[i] == a[i];
    assert forall j :: 0 <= j < |b| ==> (a + b)[|a| + j] == b[j];
  }

  lemma DistinctAppended(s: seq<int>, k: int)
    requires Distinct(s)
    ensures Distinct(Without(s, k) + [k])
  {
    WithoutMembers(s, k);
  }

  lemma LastOfParts(a: seq<int>, b: seq<int>, n: nat)
    requires |b| == n || (|b| < n && a == [])
    ensures Last(a + b, n) == b
  {
    assert (a + b)[|a|..] == b;
  }

  lemma UseOfARecentKey(p: seq<int>, c: seq<int>, k: int)
    requires Distinct(p + c) && k in c
    ensures Without(p + c, k) + [k] == p + (Without(c, k) + [k]) && |Without(c, k) + [k]| == |c|
  {
    DistinctParts(p, c);
    WithoutConcat(p, c, k);
    WithoutAbsent(p, k);
    WithoutMembers(c, k);
  }

  lemma UseOfAnotherKey(p: seq<int>, c: seq<int>, k: int)
    requires k !in c
    ensures Without(p + c, k) + [k] == Without(p, k) + (c + [k])
  {
    WithoutConcat(p, c, k);
    WithoutAbsent(c, k);
  }

  lemma UseOfAnotherMoves(p: seq<int>, c: seq<int>, k: int)
    requires k !in c && (|c| == CAPACITY || (|c| < CAPACITY && p == []))
    ensures Last(Without(p + c, k) + [k], CAPACITY) == Last(c + [k], CAPACITY)
  {
    UseOfAnotherKey(p, c, k);
    if |c| < CAPACITY {
      assert Without(p, k) + (c + [k]) == c + [k];
    } else {
      var head, tail := [c[0]], c[1..] + [k];
      assert c + [k] == head + tail;
      LastOfParts(head, tail, CAPACITY);
      assert Without(p, k) + (c + [k]) == (Without(p, k) + head) + tail;
      LastOfParts(Without(p, k) + head, tail, CAPACITY);
    }
  }

  // What using k does to the least recently used order, and to its last CAPACITY keys.
  lemma UseMovesToTheEnd(r: seq<int>, k: int)
    requires Distinct(r)
    ensures var r' := Without(r, k) + [k]; var c := Last(r, CAPACITY);
            Last(r', CAPACITY) == if k in c then Without(c, k) + [k] else Last(c + [k], CAPACITY)
  {
    var c := Last(r, CAPACITY);
    var p := r[..|r| - |c|];
    assert r == p + c;
    if k in c {
      UseOfARecentKey(p, c, k);
      LastOfParts(p, Without(c, k) + [k], CAPACITY);
    } else {
      UseOfAnotherMoves(p, c, k);
    }
  }

  lemma StepKeepsInv(s: State, e: Event)
    requires Inv(s)
    ensures Inv(Step(s, e))
  {
    if e.Lookup? {
      var key := KeyOf(e.pc);
      var s' := Step(s, e);
      var c := s.cache;
      UseMovesToTheEnd(Recency(s.used), key);
      assert s'.used[..|s'.used| - 1] == s.used;
      assert Recency(s'.used) == Without(Recency(s.used), key) + [key];
      DistinctAppended(Recency(s.used), key);
      LookupIsLru(c, key, Fetched(s, e));
    }
  }

  lemma TailMembers(s: seq<int>)
    requires s != [] && Distinct(s)
    ensures Distinct(s[1..]) && forall x :: x in s[1..] <==> x in s && x != s[0]
  {
    assert s == [s[0]] + s[1..];
    DistinctParts([s[0]], s[1..]);
  }

  lemma MissKeepsValid(c: Cache, key: int, fetched: string)
    requires Valid(c) && key !in c.names
    ensures Valid(After(c, key, fetched))
  {
    var order := c.order + [key];
    assert Distinct(order);
    if |order| > CAPACITY { TailMembers(order); }
  }

  lemma HitKeepsValid(c: Cache, key: int)
    requires Valid(c) && key in c.names
    ensures Valid(c.(order := Without(c.order, key) + [key]))
  {
    WithoutMembers(c.order, key);
    DistinctAppended(c.order, key);
  }

  // The dictionary operations amount to moving the key to the end and keeping the last ones.
  lemma LookupIsLru(c: Cache, key: int, fetched: string)
    requires Valid(c)
    ensures var c' := After(c, key, fetched);
            && Valid(c')
            && c'.order == (if key in c.order then Without(c.order, key) + [key] else Last(c.order + [key], CAPACITY))
            && (forall k :: k in c'.names ==> c'.names[k] == (if k in c.names then c.names[k] else fetched))
            && (forall k :: k in c'.names ==> k == key || k in c.names)
  {
    if key in c.names { HitKeepsValid(c, key); } else { MissKeepsValid(c, key, fetched); }
  }

  lemma {:induction false} EveryRunKeepsInv(table: int -> string, es: seq<Event>)
    ensures Inv(Play(table, es))
  {
    if es != [] {
      EveryRunKeepsInv(table, es[..|es| - 1]);
      StepKeepsInv(Play(table, es[..|es| - 1]), es[|es| - 1]);
    }
  }

  /** The cache holds exactly the last 4096 distinct keys used since the table last changed, in the
      order of their last use: what is evicted is always the least recently used. */
  lemma {:induction false} HoldsTheMostRecent(table: int -> string, es: seq<Event>)
    ensures var s := Play(table, es);
            && s.cache.order == Last(Recency(s.used), 4096) && |s.cache.order| <= 4096
            && Distinct(s.cache.order) && forall k :: k in s.cache.names <==> k in s.cache.order
  {
    EveryRunKeepsInv(table, es);
  }

  /** A lookup GDB would answer is answered for the current table, cached or not, exactly when its
      key's cached name was not fetched by a lookup that failed. */
  lemma {:induction false} AnswersAreCurrentIff(table: int -> string, es: seq<Event>, pc: int)
    ensures var s := Play(table, es);
            Answer(s, Lookup(pc, true)) == s.table(KeyOf(pc)) <==>
            !(KeyOf(pc) in s.cache.names && KeyOf(pc) in s.failed)
  {
    EveryRunKeepsInv(table, es);
  }

  predicate AllWork(es: seq<Event>) {
    forall k :: 0 <= k < |es| && es[k].Lookup? ==> es[k].works
  }

  lemma {:induction false} NothingFailed(table: int -> string, es: seq<Event>)
    requires AllWork(es)
    ensures Play(table, es).failed == {}
  {
    if es != [] {
      NothingFailed(table, es[..|es| - 1]);
    }
  }

  /** With no failed lookup the cache refines the uncached function, over any run of lookups, symbol
      loads and core loads. */
  lemma {:induction false} CacheRefinesTheLookup(table: int -> string, es: seq<Event>, pc: int)
    requires AllWork(es)
    ensures var s := Play(table, es); Answer(s, Lookup(pc, true)) == s.table(KeyOf(pc))
  {
    NothingFailed(table, es);
    AnswersAreCurrentIff(table, es, pc);
  }

  /** One failed lookup is enough to be answered with no name from then on. */
  lemma FailureIsRemembered(pc: int, name: string)
    requires name != ""
    ensures var s := Play(_ => name, [Lookup(pc, false)]);
            s.table(KeyOf(pc)) == name && Answer(s, Lookup(pc, true)) == ""
  {
    var es := [Lookup(pc, false)];
    assert es[..0] == [];
    assert Play(_ => name, es) == Step(Play(_ => name, []), es[0]);
  }

  class SymbolCache {
    var order: seq<int>
    var names: map<int, string>

    ghost function Contents(): Cache
      reads this
    {
      Cache(order, names)
    }

    constructor ()
      ensures Contents() == EMPTY
    {
      order, names := [], map[];
    }

    method Clear()
      modifies this
      ensures Contents() == EMPTY
    {
      order, names := [], map[];
    }

    method SymbolizePc(pc: int, uncached: int -> string) returns (name: string)
      requires Valid(Contents())
      modifies this
      ensures Valid(Contents())
      ensures Contents() == After(old(Contents()), KeyOf(pc), uncached(KeyOf(pc)))
      ensures name == AnswerOf(old(Contents()), KeyOf(pc), uncached(KeyOf(pc)))
      ensures 0 <= pc < 0x1_0000_0000 ==> name == (if pc in old(names) then old(names)[pc] else uncached(pc))
    {
      KeyIsTheLowWord(pc);
      var key := KeyOf(pc);
      LookupIsLru(Contents(), key, uncached(key));
      if key in names {
        order := Without(order, key) + [key];
        return names[key];
      }
      name := uncached(key);
      order, names := order + [key], names[key := name];
      if |order| > CAPACITY {
        names := names - {order[0]};
        order := order[1..];
      }
    }
  }
}

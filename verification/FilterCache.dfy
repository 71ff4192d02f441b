// The cache of compiled regular-expression filters.

module FilterCache {
  import opened LogLevels

  datatype Options = Options(caseInsensitive: bool, invert: bool, trackStats: bool)

  datatype Filter = Filter(pattern: string, field: string, caseInsensitive: bool, invert: bool, trackStats: bool)

  datatype Request = Request(field: string, pattern: string, options: Options)

  /** What constructing a filter directly yields. */
  function Direct(r: Request): Filter {
    Filter(r.pattern, r.field, r.options.caseInsensitive, r.options.invert, r.options.trackStats)
  }

  function Flags(options: Options): string {
    (if options.caseInsensitive then "i" else "") + (if options.invert then "v" else "")
  }

  function MakeCacheKey(pattern: string, field: string, options: Options): string {
    pattern + "|" + field + "|" + Flags(options)
  }

  function KeyOf(r: Request): string {
    MakeCacheKey(r.pattern, r.field, r.options)
  }

  /** Whether the regular-expression engine accepts the pattern; if not, construction throws. */
  type Engine = (string, bool) -> bool

  function Compiles(engine: Engine, r: Request): bool {
    engine(r.pattern, r.options.caseInsensitive)
  }

  datatype State = State(cache: map<string, Filter>, hits: nat, misses: nat)

  function Get(s: State, r: Request, engine: Engine): (State, Option<Filter>) {
    var key := KeyOf(r);
    if key in s.cache then (s.(hits := s.hits + 1), Some(s.cache[key]))
    else if Compiles(engine, r) then (State(s.cache[key := Direct(r)], s.hits, s.misses + 1), Some(Direct(r)))
    else (s.(misses := s.misses + 1), None)
  }

  class RegexFilterCache {
    var cache: map<string, Filter>
    var cache_hits: nat
    var cache_misses: nat

    function View(): State
      reads this
    {
      State(cache, cache_hits, cache_misses)
    }

    constructor ()
      ensures View() == State(map[], 0, 0)
    {
      cache, cache_hits, cache_misses := map[], 0, 0;
    }

    method GetOrCreate(field_name: string, pattern: string, options: Options, engine: Engine)
      returns (filter: Option<Filter>)
      modifies this
      ensures (View(), filter) == Get(old(View()), Request(field_name, pattern, options), engine)
    {
      var key := MakeCacheKey(pattern, field_name, options);
      if key in cache {
        cache_hits := cache_hits + 1;
        return Some(cache[key]);
      }
      cache_misses := cache_misses + 1;
      if !engine(pattern, options.caseInsensitive) {
        return None;
      }
      var made;
      if field_name == "" {
        made := Filter(pattern, "", options.caseInsensitive, options.invert, options.trackStats);
      } else {
        made := Filter(pattern, field_name, options.caseInsensitive, options.invert, options.trackStats);
      }
      cache := cache[key := made];
      return Some(made);
    }

    method Clear()
      modifies this
      ensures View() == old(View()).(cache := map[])
    {
      cache := map[];
    }
  }

  // ---------- The key ----------

  /** The settings a caller asked for and must get; statistics tracking is not among them. */
  ghost predicate SameSettings(a: Filter, b: Filter) {
    a.pattern == b.pattern && a.field == b.field && a.caseInsensitive == b.caseInsensitive && a.invert == b.invert
  }

  /** The flags can be read off the end of the key. */
  lemma KeySplits(r: Request, q: Request)
    requires KeyOf(r) == KeyOf(q)
    ensures r.options.caseInsensitive == q.options.caseInsensitive && r.options.invert == q.options.invert
    ensures r.pattern + "|" + r.field == q.pattern + "|" + q.field
  {
    var k, rest, other := KeyOf(r), r.pattern + "|" + r.field, q.pattern + "|" + q.field;
    var f, g := Flags(r.options), Flags(q.options);
    assert k == rest + ("|" + f) == other + ("|" + g);
    FlagTail(rest, r.options);
    FlagTail(other, q.options);
    assert |f| == |g|;
    assert rest == k[..|k| - 1 - |f|] == other;
  }

  lemma FlagTail(rest: string, options: Options)
    ensures var k := rest + ("|" + Flags(options));
            && (options.invert <==> k[|k| - 1] == 'v')
            && (options.invert ==> |k| >= 2 && (options.caseInsensitive <==> k[|k| - 2] == 'i'))
            && (!options.invert ==> (options.caseInsensitive <==> k[|k| - 1] == 'i'))
  {
  }

  /** No field name is another one with something and a '|' put in front. */
  ghost predicate Unambiguous(fields: set<string>) {
    forall f, g, x :: f in fields && g in fields ==> g != x + "|" + f
  }

  ghost predicate KeyDetermines(fields: set<string>) {
    forall r: Request, q: Request :: r.field in fields && q.field in fields && KeyOf(r) == KeyOf(q) ==>
      SameSettings(Direct(r), Direct(q))
  }

  lemma EqualSplit(p: string, f: string, q: string, g: string)
    requires p + "|" + f == q + "|" + g && |f| <= |g|
    ensures |f| == |g| ==> p == q && f == g
    ensures |f| < |g| ==> exists x :: g == x + "|" + f
  {
    var whole := p + "|" + f;
    assert f == whole[|whole| - |f|..] && g == whole[|whole| - |g|..];
    assert p == whole[..|whole| - |f| - 1] && q == whole[..|whole| - |g| - 1];
    if |f| < |g| {
      var x := whole[|whole| - |g|..|whole| - |f| - 1];
      assert whole[|whole| - |f| - 1] == '|';
      assert g == x + "|" + f;
    }
  }

  /** Over a set of field names the key determines the filter exactly when the names are unambiguous. */
  lemma KeyDeterminesIffUnambiguous(fields: set<string>)
    ensures KeyDetermines(fields) <==> Unambiguous(fields)
  {
    if Unambiguous(fields) {
      forall r: Request, q: Request | r.field in fields && q.field in fields && KeyOf(r) == KeyOf(q)
        ensures SameSettings(Direct(r), Direct(q))
      {
        KeySplits(r, q);
        if |r.field| <= |q.field| {
          EqualSplit(r.pattern, r.field, q.pattern, q.field);
        } else {
          EqualSplit(q.pattern, q.field, r.pattern, r.field);
        }
      }
    } else {
      var f, g, x :| f in fields && g in fields && g == x + "|" + f;
      var r, q := Colliding(f, g, x);
    }
  }

  lemma Colliding(f: string, g: string, x: string) returns (r: Request, q: Request)
    requires g == x + "|" + f
    ensures r.field == f && q.field == g && KeyOf(r) == KeyOf(q)
    ensures q.pattern == "a" && !q.options.caseInsensitive
    ensures !SameSettings(Direct(r), Direct(q))
  {
    var options := Options(false, false, true);
    r, q := Request(f, "a|" + x, options), Request(g, "a", options);
    assert "a|" + x + "|" + f + "|" == "a" + "|" + (x + "|" + f) + "|";
    assert KeyOf(r) == "a|" + x + "|" + f + "|" && KeyOf(q) == "a" + "|" + g + "|";
  }

  lemma BarFreeIsUnambiguous(fields: set<string>)
    requires forall f :: f in fields ==> '|' !in f
    ensures Unambiguous(fields)
  {
    forall f, g, x | f in fields && g in fields
      ensures g != x + "|" + f
    {
      assert (x + "|" + f)[|x|] == '|';
    }
  }

  // ---------- Runs ----------

  datatype Op = Lookup(request: Request) | Clear

  function Apply(s: State, op: Op, engine: Engine): State {
    match op
    case Lookup(r) => Get(s, r, engine).0
    case Clear => s.(cache := map[])
  }

  function Run(ops: seq<Op>, engine: Engine): State {
    if ops == [] then State(map[], 0, 0)
    else Apply(Run(ops[..|ops| - 1], engine), ops[|ops| - 1], engine)
  }

  function Lookups(ops: seq<Op>): nat {
    if ops == [] then 0 else Lookups(ops[..|ops| - 1]) + if ops[|ops| - 1].Lookup? then 1 else 0
  }

  ghost predicate FieldsWithin(ops: seq<Op>, fields: set<string>) {
    forall i :: 0 <= i < |ops| && ops[i].Lookup? ==> ops[i].request.field in fields
  }

  /** Every entry was made for a request that compiles and has this key. */
  ghost predicate Inv(s: State, fields: set<string>, engine: Engine) {
    forall k :: k in s.cache ==>
      exists r: Request :: r.field in fields && KeyOf(r) == k && Compiles(engine, r) && s.cache[k] == Direct(r)
  }

  lemma {:induction false} RunInv(ops: seq<Op>, fields: set<string>, engine: Engine)
    requires FieldsWithin(ops, fields)
    ensures Inv(Run(ops, engine), fields, engine)
    ensures Run(ops, engine).hits + Run(ops, engine).misses == Lookups(ops)
  {
    if ops == [] {
    } else {
      RunInv(ops[..|ops| - 1], fields, engine);
      var s, t := Run(ops[..|ops| - 1], engine), Run(ops, engine);
      forall k | k in t.cache
        ensures exists r: Request :: r.field in fields && KeyOf(r) == k && Compiles(engine, r) && t.cache[k] == Direct(r)
      {
        if !(k in s.cache && t.cache[k] == s.cache[k]) {
          var r := ops[|ops| - 1].request;
          assert KeyOf(r) == k && t.cache[k] == Direct(r);
        }
      }
    }
  }

  /** After any run over unambiguous field names, a lookup returns a filter exactly if direct
      construction would succeed, and with the settings asked for; hits and misses count the lookups. */
  lemma CacheAgreesWithDirect(ops: seq<Op>, r: Request, fields: set<string>, engine: Engine)
    requires Unambiguous(fields) && FieldsWithin(ops, fields) && r.field in fields
    ensures var (s, found) := Get(Run(ops, engine), r, engine);
            && (found.Some? <==> Compiles(engine, r))
            && (found.Some? ==> SameSettings(found.value, Direct(r)))
            && (found.Some? ==>
                && found.value.pattern == r.pattern && found.value.field == r.field
                && found.value.caseInsensitive == r.options.caseInsensitive && found.value.invert == r.options.invert)
            && s.hits + s.misses == Lookups(ops) + 1
  {
    RunInv(ops, fields, engine);
    KeyDeterminesIffUnambiguous(fields);
    var s := Run(ops, engine);
    if KeyOf(r) in s.cache {
      var q: Request :| q.field in fields && KeyOf(q) == KeyOf(r) && Compiles(engine, q) && s.cache[KeyOf(r)] == Direct(q);
      assert SameSettings(Direct(q), Direct(r));
    }
  }

  /** With ambiguous names a second lookup can return the filter of the first. The engine need only
      accept the pattern "a". */
  lemma AmbiguousFieldsMixFilters(fields: set<string>, engine: Engine)
    returns (first: Request, second: Request)
    requires !Unambiguous(fields) && engine("a", false)
    ensures first.field in fields && second.field in fields
    ensures Get(Run([Lookup(first)], engine), second, engine).1 == Some(Direct(first))
    ensures !SameSettings(Direct(first), Direct(second))
  {
    var f, g, x :| f in fields && g in fields && g == x + "|" + f;
    second, first := Colliding(f, g, x);
    var ops := [Lookup(first)];
    assert ops[..0] == [];
    assert Run(ops, engine) == Get(State(map[], 0, 0), first, engine).0;
  }

  /** How many lookups did not find their key. */
  function Unfound(ops: seq<Op>, engine: Engine): nat {
    if ops == [] then 0
    else
      var front, op := ops[..|ops| - 1], ops[|ops| - 1];
      Unfound(front, engine) + if op.Lookup? && KeyOf(op.request) !in Run(front, engine).cache then 1 else 0
  }

  /** The misses are the lookups that did not find their key. */
  lemma {:induction false} MissesAreUnfound(ops: seq<Op>, engine: Engine)
    ensures Run(ops, engine).misses == Unfound(ops, engine)
  {
    if ops == [] {
    } else {
      MissesAreUnfound(ops[..|ops| - 1], engine);
    }
  }

  function RunFrom(s: State, ops: seq<Op>, engine: Engine): State {
    if ops == [] then s else Apply(RunFrom(s, ops[..|ops| - 1], engine), ops[|ops| - 1], engine)
  }

  /** A key stays in the cache until it is cleared. */
  lemma {:induction false} StaysCached(s: State, ops: seq<Op>, engine: Engine, key: string)
    requires key in s.cache && Clear !in ops
    ensures key in RunFrom(s, ops, engine).cache && RunFrom(s, ops, engine).cache[key] == s.cache[key]
  {
    if ops == [] {
    } else {
      assert ops[|ops| - 1] in ops;
      StaysCached(s, ops[..|ops| - 1], engine, key);
    }
  }

  /** A request that compiled is served from the cache until the next clear: it counts a hit, and gets
      the same filter again. */
  lemma RepeatedLookupHits(s: State, ops: seq<Op>, r: Request, engine: Engine)
    requires Compiles(engine, r) && Clear !in ops
    ensures var (first, made) := Get(s, r, engine);
            var u := RunFrom(first, ops, engine);
            var (last, found) := Get(u, r, engine);
            made.Some? && found == made && last == u.(hits := u.hits + 1)
  {
    var (first, made) := Get(s, r, engine);
    StaysCached(first, ops, engine, KeyOf(r));
  }

  /** A clear makes the next lookup a miss that constructs its own filter. */
  lemma ClearedLookupMisses(s: State, r: Request, engine: Engine)
    requires Compiles(engine, r)
    ensures var u := Apply(s, Clear, engine);
            var (t, made) := Get(u, r, engine);
            made == Some(Filter(r.pattern, r.field, r.options.caseInsensitive, r.options.invert, r.options.trackStats))
            && t.misses == s.misses + 1 && t.hits == s.hits
  {
  }

  /** No request that compiles shares its key with another one. */
  ghost predicate KeysApart(requests: set<Request>, engine: Engine) {
    forall r, q :: r in requests && q in requests && Compiles(engine, r) && KeyOf(r) == KeyOf(q) ==> r == q
  }

  ghost predicate LookupsWithin(ops: seq<Op>, requests: set<Request>) {
    forall i :: 0 <= i < |ops| && ops[i].Lookup? ==> ops[i].request in requests
  }

  /** A lookup gives what direct construction gives, statistics tracking included. */
  ghost predicate LikeDirect(s: State, r: Request, engine: Engine) {
    Get(s, r, engine).1 == if Compiles(engine, r) then Some(Direct(r)) else None
  }

  ghost predicate AlwaysLikeDirect(requests: set<Request>, engine: Engine) {
    forall ops, r :: LookupsWithin(ops, requests) && r in requests ==> LikeDirect(Run(ops, engine), r, engine)
  }

  lemma {:induction false} EntriesAreRequests(ops: seq<Op>, requests: set<Request>, engine: Engine, k: string)
    requires LookupsWithin(ops, requests) && k in Run(ops, engine).cache
    ensures exists r :: r in requests && KeyOf(r) == k && Compiles(engine, r) && Run(ops, engine).cache[k] == Direct(r)
    decreases |ops|
  {
    var front, last := ops[..|ops| - 1], ops[|ops| - 1];
    var s := Run(front, engine);
    if last.Lookup? && KeyOf(last.request) !in s.cache && KeyOf(last.request) == k {
      assert last.request in requests;
    } else {
      EntriesAreRequests(front, requests, engine, k);
    }
  }

  lemma SharedKeyDiffers(r: Request, q: Request, engine: Engine)
    requires Compiles(engine, r) && KeyOf(r) == KeyOf(q) && r != q
    ensures !LikeDirect(Run([Lookup(r)], engine), q, engine)
  {
    var ops := [Lookup(r)];
    assert ops[..0] == [];
    assert Run(ops, engine) == Get(State(map[], 0, 0), r, engine).0;
    assert Get(Run(ops, engine), q, engine).1 == Some(Direct(r)) && Direct(r) != Direct(q);
  }

  /** Over a set of requests every lookup, after any run of lookups and clears, gives exactly what
      direct construction gives if and only if no request that compiles shares its key with another. */
  lemma AlwaysLikeDirectIff(requests: set<Request>, engine: Engine)
    ensures AlwaysLikeDirect(requests, engine) <==> KeysApart(requests, engine)
  {
    if KeysApart(requests, engine) {
      forall ops, r | LookupsWithin(ops, requests) && r in requests
        ensures LikeDirect(Run(ops, engine), r, engine)
      {
        if KeyOf(r) in Run(ops, engine).cache {
          EntriesAreRequests(ops, requests, engine, KeyOf(r));
        }
      }
    } else {
      var r, q :| r in requests && q in requests && Compiles(engine, r) && KeyOf(r) == KeyOf(q) && r != q;
      SharedKeyDiffers(r, q, engine);
      assert LookupsWithin([Lookup(r)], requests);
    }
  }

  /** Statistics tracking is not part of the key: the first request decides it. */
  lemma FirstRequestDecidesTracking(r: Request, engine: Engine)
    requires Compiles(engine, r)
    ensures var other := r.(options := r.options.(trackStats := !r.options.trackStats));
            Get(Run([Lookup(r)], engine), other, engine).1 == Some(Direct(r)) && Direct(r) != Direct(other)
  {
    var ops := [Lookup(r)];
    assert ops[..0] == [];
    assert Run(ops, engine) == Get(State(map[], 0, 0), r, engine).0;
    assert KeyOf(r) == KeyOf(r.(options := r.options.(trackStats := !r.options.trackStats)));
  }
}

/**
 * The response cache (backend/cache_utils.py): key construction from the
 * request, the Redis key/value store as a map from key to stored JSON text,
 * glob-pattern deletion, and the `cached` decorator's decision whether to
 * answer from the store, call the handler, and store its result.
 */
module CacheUtils {
  import opened Common
  import opened Json

  // ---------------------------------------------------------------------
  // Keys
  // ---------------------------------------------------------------------

  /** Query arguments in the order they appear in the URL. */
  type Args = seq<(string, string)>

  function ArgName(p: (string, string)): string { p.0 }

  function KeysOf(args: Args): set<string> {
    set p | p in args :: p.0
  }

  predicate DistinctKeys(args: Args) {
    forall i, j :: 0 <= i < j < |args| ==> args[i].0 != args[j].0
  }

  lemma KeysOfAppend(args: Args, p: (string, string))
    ensures KeysOf(args + [p]) == KeysOf(args) + {p.0}
  {
    assert forall x :: x in args + [p] <==> x in args || x == p;
  }

  /** `request.args.items()`: each name once, with the first value given for it. */
  function FirstPerKey(args: Args): (r: Args)
    ensures DistinctKeys(r)
    ensures KeysOf(r) == KeysOf(args)
    ensures forall p :: p in r ==> p in args
    ensures DistinctKeys(args) ==> r == args
    ensures forall p :: p in r ==> FirstGiven(args, p)
  {
    if args == [] then []
    else
      var init := args[..|args| - 1];
      var last := args[|args| - 1];
      var r := FirstPerKey(init);
      assert args == init + [last];
      FirstPerKeyStep(init, last, r);
      if last.0 in KeysOf(r) then r else r + [last]
  }

  /** One more argument: kept exactly when its name is new. */
  lemma FirstPerKeyStep(init: Args, last: (string, string), r: Args)
    requires DistinctKeys(r) && KeysOf(r) == KeysOf(init) && (forall p :: p in r ==> p in init)
    requires DistinctKeys(init) ==> r == init
    requires forall p :: p in r ==> FirstGiven(init, p)
    ensures var r' := if last.0 in KeysOf(r) then r else r + [last];
            DistinctKeys(r') && KeysOf(r') == KeysOf(init + [last]) &&
            (forall p :: p in r' ==> p in init + [last]) &&
            (DistinctKeys(init + [last]) ==> r' == init + [last]) &&
            (forall p :: p in r' ==> FirstGiven(init + [last], p))
  {
    var args := init + [last];
    KeysOfAppend(init, last);
    KeysOfAppend(r, last);
    forall p | p in r ensures FirstGiven(args, p) { FirstGivenAppend(init, last, p); }
    if DistinctKeys(args) {
      assert DistinctKeys(init) by {
        forall i, j | 0 <= i < j < |init| ensures init[i].0 != init[j].0 { assert args[i] == init[i] && args[j] == init[j]; }
      }
      assert last.0 !in KeysOf(init) by {
        forall p | p in init ensures p.0 != last.0 {
          var i :| 0 <= i < |init| && init[i] == p;
          assert args[i] == p && args[|init|] == last;
        }
      }
    }
    if last.0 !in KeysOf(r) {
      assert DistinctKeys(r + [last]) by {
        forall i | 0 <= i < |r| ensures r[i].0 != last.0 {
          assert r[i] in r;
        }
      }
      FirstGivenLast(init, last);
    }
  }

  /** `p` is the first argument given for its name. */
  predicate FirstGiven(args: Args, p: (string, string)) {
    exists i :: 0 <= i < |args| && args[i] == p && forall j :: 0 <= j < i ==> args[j].0 != p.0
  }

  lemma FirstGivenAppend(args: Args, q: (string, string), p: (string, string))
    requires FirstGiven(args, p)
    ensures FirstGiven(args + [q], p)
  {
    var i :| 0 <= i < |args| && args[i] == p && forall j :: 0 <= j < i ==> args[j].0 != p.0;
    assert (args + [q])[i] == p;
    forall j | 0 <= j < i ensures (args + [q])[j].0 != p.0 { assert (args + [q])[j] == args[j]; }
  }

  lemma FirstGivenLast(args: Args, q: (string, string))
    requires q.0 !in KeysOf(args)
    ensures FirstGiven(args + [q], q)
  {
    var i := |args|;
    assert (args + [q])[i] == q;
    forall j | 0 <= j < i ensures (args + [q])[j].0 != q.0 {
      assert (args + [q])[j] == args[j];
      assert args[j] in args;
    }
  }

  /** Permuting arguments with distinct names keeps the names distinct. */
  lemma DistinctKeysPermutation(a: Args, b: Args)
    requires DistinctKeys(a) && multiset(a) == multiset(b)
    ensures DistinctKeys(b)
  {
    forall i, j | 0 <= i < j < |b| ensures b[i].0 != b[j].0 {
      assert b[i] in multiset(a) && b[j] in multiset(a);
      var i' :| 0 <= i' < |a| && a[i'] == b[i];
      var j' :| 0 <= j' < |a| && a[j'] == b[j];
      assert b[i].0 == b[j].0 ==> i' == j';
      DistinctCount(a, i');
      assert b[i] == b[j] ==> multiset(b)[b[i]] >= 2 by {
        if b[i] == b[j] { CountTwice(b, i, j); }
      }
    }
  }

  function PairText(p: (string, string)): (s: string)
    ensures '=' in s
  {
    assert (p.0 + "=" + p.1)[|p.0|] == '=';
    p.0 + "=" + p.1
  }

  function PairTexts(args: Args): (r: seq<string>)
    ensures |r| == |args|
    ensures forall i :: 0 <= i < |args| ==> r[i] == PairText(args[i])
  {
    if args == [] then [] else [PairText(args[0])] + PairTexts(args[1..])
  }

  /** The `k=v&k=v` text, ordered by argument name; empty exactly when there are no arguments. */
  function ArgsText(args: Args): (s: string)
    ensures s == [] <==> args == []
  {
    var sorted := SortBy(FirstPerKey(args), ArgName);
    var parts := PairTexts(sorted);
    assert parts != [] ==> Join(parts, "&") != [] by {
      if parts != [] { JoinNonEmpty(parts, "&"); }
    }
    assert args != [] ==> sorted != [] by {
      if args != [] { assert args[0].0 in KeysOf(args); }
    }
    Join(parts, "&")
  }

  lemma {:induction false} JoinNonEmpty(parts: seq<string>, sep: string)
    requires parts != [] && parts[0] != []
    ensures Join(parts, sep) != []
  {
    if |parts| > 1 {
      assert Join(parts, sep) == parts[0] + sep + Join(parts[1..], sep);
    }
  }

  function PrefixPart(prefix: string): string {
    if prefix != [] then prefix + ":" else []
  }

  /**
   * `_make_cache_key`: "API:", then "prefix:" when a prefix is given, then the
   * path, then "?" and the sorted arguments only when there are arguments.
   */
  function MakeCacheKey(prefix: string, path: string, args: Args): (key: string)
    ensures key == "API:" + PrefixPart(prefix) + (if args == [] then path else path + "?" + ArgsText(args))
  {
    var a := ArgsText(args);
    var base := if a != [] then path + "?" + a else path;
    if prefix != [] then "API:" + prefix + ":" + base else "API:" + base
  }

  /** Reordering distinct query arguments does not change the key. */
  lemma CacheKeyArgOrder(prefix: string, path: string, a: Args, b: Args)
    requires DistinctKeys(a) && multiset(a) == multiset(b)
    ensures MakeCacheKey(prefix, path, a) == MakeCacheKey(prefix, path, b)
  {
    DistinctKeysPermutation(a, b);
    var sa := SortBy(a, ArgName);
    var sb := SortBy(b, ArgName);
    DistinctKeysPermutation(a, sa);
    SortedByUnique(sa, sb, ArgName);
  }

  lemma DistinctCount(a: Args, i: nat)
    requires DistinctKeys(a) && i < |a|
    ensures multiset(a)[a[i]] == 1
  {
    assert a == a[..i] + [a[i]] + a[i + 1..];
    assert forall k :: 0 <= k < i ==> a[..i][k] != a[i];
    assert forall k :: i + 1 <= k < |a| ==> a[k] != a[i];
    assert a[i] !in a[..i] && a[i] !in a[i + 1..];
  }

  // ---------------------------------------------------------------------
  // Glob patterns (the subset the invalidation calls use)
  // ---------------------------------------------------------------------

  /** Redis glob matching with `*` (any run) and `?` (any one character). */
  predicate GlobMatch(p: string, s: string)
    decreases |p| + |s|
  {
    if p == [] then s == []
    else if p[0] == '*' then GlobMatch(p[1..], s) || (s != [] && GlobMatch(p, s[1..]))
    else s != [] && (p[0] == '?' || p[0] == s[0]) && GlobMatch(p[1..], s[1..])
  }

  /** A pattern part with no glob meta-characters. */
  predicate Literal(p: string) {
    '*' !in p && '?' !in p && '[' !in p && '\\' !in p
  }

  lemma {:induction false} StarMatchesAll(s: string)
    ensures GlobMatch("*", s)
    decreases |s|
  {
    if s != [] { StarMatchesAll(s[1..]); }
  }

  /** A literal followed by `*` matches exactly the texts beginning with that literal. */
  lemma {:induction false} GlobPrefixStar(p: string, s: string)
    requires Literal(p)
    ensures GlobMatch(p + "*", s) <==> StartsWith(s, p)
    decreases |p|
  {
    if p == [] {
      assert p + "*" == "*";
      StarMatchesAll(s);
    } else {
      assert (p + "*")[0] == p[0] && (p + "*")[1..] == p[1..] + "*";
      if s != [] {
        GlobPrefixStar(p[1..], s[1..]);
        assert StartsWith(s, p) <==> s[0] == p[0] && StartsWith(s[1..], p[1..]) by {
          if |p| <= |s| { assert s[..|p|] == [s[0]] + s[1..][..|p| - 1]; }
        }
      }
    }
  }

  /** The pattern an invalidation call passes for one prefix. */
  function Pattern(prefix: string): string {
    "API:" + prefix + ":*"
  }

  /** The patterns of one invalidation set, in call order. */
  function Patterns(prefixes: seq<string>): (r: seq<string>)
    ensures |r| == |prefixes|
    ensures forall i :: 0 <= i < |r| ==> r[i] == Pattern(prefixes[i])
  {
    if prefixes == [] then [] else [Pattern(prefixes[0])] + Patterns(prefixes[1..])
  }

  /** Two colon-free prefixes: one key head starts with the other only when they are equal. */
  lemma HeadSelectsPrefix(p: string, q: string, base: string)
    requires ':' !in p && ':' !in q
    ensures StartsWith("API:" + q + ":" + base, "API:" + p + ":") <==> p == q
  {
    var key := "API:" + q + ":" + base;
    var lit := "API:" + p + ":";
    assert |p| < |q| ==> !StartsWith(key, lit) by {
      if |p| < |q| {
        assert key[4 + |p|] == q[|p|] && q[|p|] in q;
        assert lit[4 + |p|] == ':';
      }
    }
    assert |p| > |q| ==> !StartsWith(key, lit) by {
      if |p| > |q| {
        assert key[4 + |q|] == ':';
        assert lit[4 + |q|] == p[|q|] && p[|q|] in p;
      }
    }
    assert |p| == |q| && p != q ==> !StartsWith(key, lit) by {
      if |p| == |q| && p != q {
        var i :| 0 <= i < |p| && p[i] != q[i];
        assert key[4 + i] == q[i] && lit[4 + i] == p[i];
      }
    }
    assert p == q ==> StartsWith(key, lit) by {
      if p == q { assert key == lit + base; }
    }
  }

  lemma LiteralHead(p: string)
    requires Literal(p)
    ensures Literal("API:" + p + ":")
  {
    var lit := "API:" + p + ":";
    forall c | c in lit ensures c in "API:" || c in p || c == ':' {
      var i :| 0 <= i < |lit| && lit[i] == c;
      if 4 <= i < 4 + |p| { assert p[i - 4] == c; }
    }
  }

  /** A key built with prefix `q` falls under the invalidation pattern of prefix `p` exactly when `p == q`. */
  lemma PatternSelectsPrefix(p: string, q: string, path: string, args: Args)
    requires Literal(p) && p != [] && q != [] && ':' !in p && ':' !in q
    ensures GlobMatch(Pattern(p), MakeCacheKey(q, path, args)) <==> p == q
  {
    var base := if args == [] then path else path + "?" + ArgsText(args);
    var lit := "API:" + p + ":";
    assert MakeCacheKey(q, path, args) == "API:" + q + ":" + base;
    assert Pattern(p) == lit + "*";
    LiteralHead(p);
    GlobPrefixStar(lit, MakeCacheKey(q, path, args));
    HeadSelectsPrefix(p, q, base);
  }

  /** Every key of a prefixed handler falls under that prefix's invalidation pattern. */
  lemma KeyMatchesOwnPattern(p: string, path: string, args: Args)
    requires Literal(p) && p != [] && ':' !in p
    ensures GlobMatch(Pattern(p), MakeCacheKey(p, path, args))
  {
    PatternSelectsPrefix(p, p, path, args);
  }

  // ---------------------------------------------------------------------
  // The store
  // ---------------------------------------------------------------------

  /** The entries left after deleting every key the pattern matches. */
  function DeleteMatching(m: map<string, string>, pattern: string): (r: map<string, string>)
    ensures forall k :: k in r ==> !GlobMatch(pattern, k)
    ensures forall k :: k in m && !GlobMatch(pattern, k) ==> k in r && r[k] == m[k]
    ensures forall k :: k in r ==> k in m
  {
    map k | k in m && !GlobMatch(pattern, k) :: m[k]
  }

  function DeleteAll(m: map<string, string>, patterns: seq<string>): (r: map<string, string>)
    ensures forall k :: k in r <==> k in m && forall i :: 0 <= i < |patterns| ==> !GlobMatch(patterns[i], k)
    ensures forall k :: k in r ==> r[k] == m[k]
    decreases |patterns|
  {
    if patterns == [] then m
    else DeleteAll(DeleteMatching(m, patterns[0]), patterns[1..])
  }

  /** Decoding of stored text; None stands for a JSON decode error. */
  type Decoder = string -> Option<Json>

  /**
   * `cache_get`: nothing for a missing or empty entry, for text that is not
   * JSON, and for stored JSON `null` (which Python cannot tell from a miss).
   */
  function CacheGet(m: map<string, string>, key: string, decode: Decoder): (r: Option<Json>)
    ensures key !in m || m[key] == [] ==> r.None?
    ensures key in m && decode(m[key]).None? ==> r.None?
    ensures r.Some? ==> key in m && decode(m[key]) == r && r.value != JNull
  {
    if key !in m || m[key] == [] then None
    else match decode(m[key])
      case None => None
      case Some(v) => if v == JNull then None else Some(v)
  }

  class CacheStore {
    var entries: map<string, string>

    constructor()
      ensures entries == map[]
    {
      entries := map[];
    }

    /** `cache_set`: the key now holds the encoded value (expiry is not modelled). */
    method Set(key: string, text: string)
      modifies this
      ensures entries == old(entries)[key := text]
    {
      entries := entries[key := text];
    }

    method Get(key: string, decode: Decoder) returns (r: Option<Json>)
      ensures r == CacheGet(entries, key, decode)
    {
      if key !in entries || entries[key] == [] {
        r := None;
      } else {
        var v := decode(entries[key]);
        if v.Some? && v.value == JNull { r := None; } else { r := v; }
      }
    }

    /**
     * `cache_delete_pattern`: the SCAN walk visits every key present when it
     * starts; the matching ones are deleted a batch at a time.
     */
    method DeletePattern(pattern: string)
      modifies this
      ensures entries == DeleteMatching(old(entries), pattern)
    {
      var pending := set k | k in entries && GlobMatch(pattern, k);
      ghost var start := entries;
      while pending != {}
        invariant pending <= (set k | k in start && GlobMatch(pattern, k))
        invariant forall k :: k in entries <==> k in start && (k in pending || !GlobMatch(pattern, k))
        invariant forall k :: k in entries ==> entries[k] == start[k]
        decreases |pending|
      {
        var k :| k in pending;
        entries := map x | x in entries && x != k :: entries[x];
        pending := pending - {k};
      }
    }

    /** Several `cache_delete_pattern` calls in order. */
    method DeletePatterns(patterns: seq<string>)
      modifies this
      ensures entries == DeleteAll(old(entries), patterns)
    {
      var i := 0;
      while i < |patterns|
        invariant 0 <= i <= |patterns|
        invariant DeleteAll(old(entries), patterns) == DeleteAll(entries, patterns[i..])
      {
        assert patterns[i..][1..] == patterns[i + 1..];
        DeletePattern(patterns[i]);
        i := i + 1;
      }
    }
  }

  // ---------------------------------------------------------------------
  // The `cached` decorator
  // ---------------------------------------------------------------------

  datatype Request = Request(verb: string, path: string, args: Args)

  /** What the wrapped handler returns. */
  datatype HandlerResult =
    | PlainValue(value: Json)                       // a bare dict or other value
    | Tuple(payload: Json, status: Option<int>)    // (payload,) or (payload, status, ...)
    | ResponseObject(code: int, body: Json)      // a flask Response, e.g. jsonify(...)

  datatype Reply =
    | FromJson(value: Json)                        // jsonify(value), status 200
    | AsReturned(result: HandlerResult)            // the handler's own return value

  /**
   * The decorator's decision: the reply, whether the handler is called, and
   * the value stored under the request's key, if any.
   */
  datatype Outcome = Outcome(reply: Reply, called: bool, stored: Option<Json>)

  function TupleStatus(status: Option<int>): int {
    match status case None => 200 case Some(s) => s
  }

  function CachedOutcome(m: map<string, string>, prefix: string, req: Request,
                         result: HandlerResult, decode: Decoder): (o: Outcome)
    ensures req.verb != "GET" ==> o == Outcome(AsReturned(result), true, None)
    ensures req.verb == "GET" && CacheGet(m, MakeCacheKey(prefix, req.path, req.args), decode).Some? ==>
              !o.called && o.stored.None? &&
              o.reply == FromJson(CacheGet(m, MakeCacheKey(prefix, req.path, req.args), decode).value)
    ensures !o.called ==> o.stored.None? && o.reply.FromJson?
    ensures o.stored.Some? ==>
              o.stored.value.JObj? &&
              (result == PlainValue(o.stored.value) ||
               (result.Tuple? && result.payload == o.stored.value && TupleStatus(result.status) == 200))
    ensures result.ResponseObject? ==> o.stored.None?
    ensures (req.verb == "GET" && CacheGet(m, MakeCacheKey(prefix, req.path, req.args), decode).None?) ==>
              o.called &&
              (o.stored.Some? <==>
                 (result.PlainValue? && result.value.JObj?) ||
                 (result.Tuple? && result.payload.JObj? && TupleStatus(result.status) == 200)) &&
              (result.PlainValue? && result.value.JObj? ==> o.reply == FromJson(result.value)) &&
              (!(result.PlainValue? && result.value.JObj?) ==> o.reply == AsReturned(result))
  {
    if req.verb != "GET" then Outcome(AsReturned(result), true, None)
    else
      var key := MakeCacheKey(prefix, req.path, req.args);
      match CacheGet(m, key, decode)
      case Some(v) => Outcome(FromJson(v), false, None)
      case None =>
        match result
        case Tuple(payload, status) =>
          Outcome(AsReturned(result), true,
                  if payload.JObj? && TupleStatus(status) == 200 then Some(payload) else None)
        case PlainValue(v) =>
          if v.JObj? then Outcome(FromJson(v), true, Some(v)) else Outcome(AsReturned(result), true, None)
        case ResponseObject(_, _) => Outcome(AsReturned(result), true, None)
  }

  /** The entries after the decorator has run. */
  function StoreAfter(m: map<string, string>, prefix: string, req: Request, o: Outcome,
                      encode: Json -> string): map<string, string> {
    match o.stored
    case None => m
    case Some(v) => m[MakeCacheKey(prefix, req.path, req.args) := encode(v)]
  }

  /**
   * The decorator around one call. `result` is what the handler returns if
   * it is called; `called` says whether it was.
   */
  method Cached(store: CacheStore, prefix: string, req: Request, result: HandlerResult,
                encode: Json -> string, decode: Decoder) returns (reply: Reply, called: bool)
    modifies store
    ensures var o := CachedOutcome(old(store.entries), prefix, req, result, decode);
            reply == o.reply && called == o.called &&
            store.entries == StoreAfter(old(store.entries), prefix, req, o, encode)
  {
    if req.verb != "GET" {
      return AsReturned(result), true;
    }
    var key := MakeCacheKey(prefix, req.path, req.args);
    var hit := store.Get(key, decode);
    if hit.Some? {
      return FromJson(hit.value), false;
    }
    called := true;
    match result {
      case Tuple(payload, status) =>
        if payload.JObj? && TupleStatus(status) == 200 {
          store.Set(key, encode(payload));
        }
        reply := AsReturned(result);
      case PlainValue(v) =>
        if v.JObj? {
          store.Set(key, encode(v));
          reply := FromJson(v);
        } else {
          reply := AsReturned(result);
        }
      case ResponseObject(_, _) =>
        reply := AsReturned(result);
    }
  }

  /**
   * The key has no caller in it: once one caller's dict result is stored,
   * any other caller's GET of the same path and arguments is answered with
   * that stored value and the handler is not called for them.
   */
  lemma CachedResultShared(m: map<string, string>, prefix: string, reqA: Request, reqB: Request,
                           resultA: HandlerResult, resultB: HandlerResult,
                           encode: Json -> string, decode: Decoder)
    requires reqA.verb == "GET" && reqB.verb == "GET"
    requires reqA.path == reqB.path && reqA.args == reqB.args
    requires forall v :: decode(encode(v)) == Some(v) && encode(v) != []
    requires CachedOutcome(m, prefix, reqA, resultA, decode).stored.Some?
    ensures var oA := CachedOutcome(m, prefix, reqA, resultA, decode);
            var oB := CachedOutcome(StoreAfter(m, prefix, reqA, oA, encode), prefix, reqB, resultB, decode);
            !oB.called && oB.reply == FromJson(oA.stored.value)
  {
    var oA := CachedOutcome(m, prefix, reqA, resultA, decode);
    var key := MakeCacheKey(prefix, reqA.path, reqA.args);
    var m' := StoreAfter(m, prefix, reqA, oA, encode);
    assert m'[key] == encode(oA.stored.value);
    assert decode(m'[key]) == Some(oA.stored.value);
  }
}

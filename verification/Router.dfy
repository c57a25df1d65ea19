/** Choosing a provider for a model: lowest priority first, within a priority credentialed
    providers before credentialless ones, otherwise in catalog order. */
module Router {
  import opened Text
  import opened Credentials

  const NO_PRIORITY: nat := 0xFFFF_FFFF

  datatype Status = Missing | Present | NotRequired

  datatype Resolved = Resolved(provider: string, model: string, apiKey: Option<string>, baseUrl: string, status: Status)

  datatype Resolution =
    | Ok(model: Resolved)
    | NoProviders
    | MissingCredentials
    | InvalidBaseUrl
    | EmptyBaseUrl

  // ---- sorting the catalog entries ----

  // A provider with its position in the catalog.
  datatype Entry = Entry(index: nat, provider: Provider)

  predicate IsEntry(ps: seq<Provider>, e: Entry) {
    e.index < |ps| && ps[e.index] == e.provider
  }

  // Stable insertion by priority: behind everything that is not of a later priority.
  function InsertByPriority(order: seq<Entry>, e: Entry): seq<Entry> {
    if order == [] then [e]
    else
      var n := |order| - 1;
      if order[n].provider.priority > e.provider.priority
      then InsertByPriority(order[..n], e) + [order[n]]
      else order + [e]
  }

  // The first `n` catalog entries, sorted by priority.
  function Order(ps: seq<Provider>, n: nat): seq<Entry>
    requires n <= |ps|
  {
    if n == 0 then [] else InsertByPriority(Order(ps, n - 1), Entry(n - 1, ps[n - 1]))
  }

  // Lower priority number first; equal priorities in catalog order.
  predicate ComesFirst(a: Entry, b: Entry) {
    a.provider.priority < b.provider.priority
    || (a.provider.priority == b.provider.priority && a.index < b.index)
  }

  ghost predicate Ordered(order: seq<Entry>) {
    forall a, b | 0 <= a < b < |order| :: ComesFirst(order[a], order[b])
  }

  lemma {:induction false} InsertMembers(order: seq<Entry>, e: Entry)
    ensures forall f :: f in InsertByPriority(order, e) <==> f in order || f == e
  {
    if order != [] {
      var n := |order| - 1;
      assert order == order[..n] + [order[n]];
      InsertMembers(order[..n], e);
    }
  }

  lemma {:induction false} InsertKeepsOrdered(order: seq<Entry>, e: Entry)
    requires Ordered(order) && forall f | f in order :: f.index < e.index
    ensures Ordered(InsertByPriority(order, e))
  {
    if order != [] {
      var n := |order| - 1;
      var rest, last := order[..n], order[n];
      assert forall f | f in rest :: f in order;
      if last.provider.priority > e.provider.priority {
        InsertKeepsOrdered(rest, e);
        InsertMembers(rest, e);
        var inserted := InsertByPriority(rest, e);
        forall a | 0 <= a < |inserted|
          ensures ComesFirst(inserted[a], last)
        {
          assert inserted[a] in inserted;
          if inserted[a] != e {
            var b :| 0 <= b < n && rest[b] == inserted[a];
            assert ComesFirst(order[b], order[n]);
          }
        }
      } else {
        forall a | 0 <= a < |order|
          ensures ComesFirst(order[a], e)
        {
          assert order[a] in order;
          if a < n { assert ComesFirst(order[a], order[n]); }
        }
      }
    }
  }

  lemma NothingIsOrdered()
    ensures Ordered([])
  {
  }

  /** The sorted list holds every catalog entry once, by priority, stably. */
  lemma {:induction false} OrderIsStable(ps: seq<Provider>, n: nat)
    requires n <= |ps|
    ensures Ordered(Order(ps, n))
    ensures forall e :: e in Order(ps, n) <==> IsEntry(ps, e) && e.index < n
  {
    hide Ordered, InsertByPriority;
    if n == 0 {
      NothingIsOrdered();
    } else {
      OrderIsStable(ps, n - 1);
      InsertMembers(Order(ps, n - 1), Entry(n - 1, ps[n - 1]));
      InsertKeepsOrdered(Order(ps, n - 1), Entry(n - 1, ps[n - 1]));
    }
  }

  // ---- what should be chosen ----

  predicate Usable(env: Environment, p: Provider) {
    IsCredentialless(env, p) || Fresh(env, p).Some?
  }

  // Priority, then credentialed before credentialless, then catalog order.
  predicate Preferred(env: Environment, a: Entry, b: Entry) {
    a.provider.priority < b.provider.priority
    || (a.provider.priority == b.provider.priority
        && ((!IsCredentialless(env, a.provider) && IsCredentialless(env, b.provider))
            || ((IsCredentialless(env, a.provider) <==> IsCredentialless(env, b.provider)) && a.index <= b.index)))
  }

  // The best of the providers that are good enough.
  ghost predicate IsBest(env: Environment, ok: Provider -> bool, ps: seq<Provider>, a: Entry) {
    IsEntry(ps, a) && ok(a.provider)
    && forall b | IsEntry(ps, b) && ok(b.provider) :: Preferred(env, a, b)
  }

  // The choice, or nothing when no provider is good enough.
  ghost predicate IsChoice(env: Environment, ok: Provider -> bool, ps: seq<Provider>, choice: Option<Entry>) {
    if choice.Some? then IsBest(env, ok, ps, choice.value) else forall p | p in ps :: !ok(p)
  }

  /** A lower priority number wins; among equals a provider with credentials wins over one that
      needs none, and otherwise the catalog's order decides. */
  lemma PreferenceMeans(env: Environment, a: Entry, b: Entry)
    ensures a.provider.priority < b.provider.priority ==> Preferred(env, a, b) && !Preferred(env, b, a)
    ensures a.provider.priority == b.provider.priority && IsCredentialless(env, b.provider) && !IsCredentialless(env, a.provider)
            ==> Preferred(env, a, b) && !Preferred(env, b, a)
    ensures a.provider.priority == b.provider.priority && IsCredentialless(env, a.provider) == IsCredentialless(env, b.provider)
            ==> (Preferred(env, a, b) <==> a.index <= b.index)
    ensures IsCredentialless(env, a.provider) <==>
              a.provider.keys == [] && a.provider.id in env.table && env.table[a.provider.id] == []
  {
  }

  /** There is only one choice. */
  lemma ChoiceIsUnique(env: Environment, ok: Provider -> bool, ps: seq<Provider>, a: Option<Entry>, b: Option<Entry>)
    requires IsChoice(env, ok, ps, a) && IsChoice(env, ok, ps, b)
    ensures a == b
  {
    forall e | IsEntry(ps, e)
      ensures e.provider in ps
    {
    }
    if a.Some? && b.Some? {
      assert Preferred(env, a.value, b.value) && Preferred(env, b.value, a.value);
    }
  }

  // ---- what the cache answers along the way ----

  // The cache after looking up, in order, the first `n` providers that need a credential.
  function LookedUp(env: Environment, cache: Cache, order: seq<Entry>, n: nat): Cache
    requires n <= |order|
  {
    if n == 0 then cache
    else
      var before, p := LookedUp(env, cache, order, n - 1), order[n - 1].provider;
      if IsCredentialless(env, p) then before else before[KeyOf(p) := Cached(env, before, p)]
  }

  lemma {:induction false} LookedUpGrows(env: Environment, cache: Cache, order: seq<Entry>, m: nat, n: nat)
    requires m <= n <= |order|
    ensures var early, late := LookedUp(env, cache, order, m), LookedUp(env, cache, order, n);
            forall k | k in early :: k in late && late[k] == early[k]
  {
    hide KeyOf, IsCredentialless, Fresh;
    if m < n {
      LookedUpGrows(env, cache, order, m, n - 1);
    }
  }

  // Looking up again what has been looked up changes nothing.
  lemma {:induction false} LookedUpAgain(env: Environment, cache: Cache, order: seq<Entry>, m: nat, n: nat)
    requires m <= |order| && n <= |order|
    ensures LookedUp(env, LookedUp(env, cache, order, m), order, n) == LookedUp(env, cache, order, if m < n then n else m)
    decreases n
  {
    hide KeyOf, IsCredentialless, Fresh;
    if n > 0 {
      LookedUpAgain(env, cache, order, m, n - 1);
      var p := order[n - 1].provider;
      if n <= m && !IsCredentialless(env, p) {
        LookedUpGrows(env, cache, order, n, m);
        var whole := LookedUp(env, cache, order, m);
        assert KeyOf(p) in whole;
        assert whole[KeyOf(p) := whole[KeyOf(p)]] == whole;
      }
    }
  }

  // All of a catalog entry looked up.
  function Whole(env: Environment, cache: Cache, ps: seq<Provider>): (c: Cache) {
    OrderHasAll(ps, |ps|);
    LookedUp(env, cache, Order(ps, |ps|), |ps|)
  }

  lemma {:induction false} InsertLength(order: seq<Entry>, e: Entry)
    ensures |InsertByPriority(order, e)| == |order| + 1
  {
    if order != [] {
      InsertLength(order[..|order| - 1], e);
    }
  }

  lemma {:induction false} OrderHasAll(ps: seq<Provider>, n: nat)
    requires n <= |ps|
    ensures |Order(ps, n)| == n
  {
    if n > 0 {
      OrderHasAll(ps, n - 1);
      InsertLength(Order(ps, n - 1), Entry(n - 1, ps[n - 1]));
    }
  }

  // The credential a cache holds for a provider that needs one.
  function HeldKey(env: Environment, cache: Cache, p: Provider): Option<string> {
    if IsCredentialless(env, p) || KeyOf(p) !in cache then None else cache[KeyOf(p)]
  }

  function Accepts(env: Environment, cache: Cache): Provider -> bool {
    p => IsCredentialless(env, p) || HeldKey(env, cache, p).Some?
  }

  function Usables(env: Environment): Provider -> bool {
    p => Usable(env, p)
  }

  // For plain names and a sound cache, what is accepted along the way is what is usable.
  lemma {:induction false} LookedUpIsRight(env: Environment, cache: Cache, order: seq<Entry>, n: nat)
    requires n <= |order| && CacheSound(env, cache) && forall e | e in order :: PlainNames(e.provider)
    ensures CacheSound(env, LookedUp(env, cache, order, n))
    ensures forall l | 0 <= l < n ::
              Accepts(env, LookedUp(env, cache, order, n))(order[l].provider) == Usable(env, order[l].provider)
  {
    hide KeyOf, IsCredentialless, Fresh, CacheSound, PlainNames, Cached;
    if n > 0 {
      LookedUpIsRight(env, cache, order, n - 1);
      LookedUpGrows(env, cache, order, n - 1, n);
      var before, e := LookedUp(env, cache, order, n - 1), order[n - 1];
      assert e in order;
      CachedIsRight(env, before, e.provider);
      forall l | 0 <= l < n - 1
        ensures Accepts(env, LookedUp(env, cache, order, n))(order[l].provider) == Usable(env, order[l].provider)
      {
        if !IsCredentialless(env, order[l].provider) {
          LookedUpHas(env, cache, order, n - 1, l);
        }
      }
    }
  }

  lemma LookedUpHas(env: Environment, cache: Cache, order: seq<Entry>, n: nat, l: nat)
    requires l < n <= |order| && !IsCredentialless(env, order[l].provider)
    ensures KeyOf(order[l].provider) in LookedUp(env, cache, order, n)
  {
    LookedUpGrows(env, cache, order, l + 1, n);
  }

  ghost predicate AllPlain(ps: seq<Provider>) {
    forall p | p in ps :: PlainNames(p)
  }

  // What was accepted along the way is then the choice among the usable providers.
  lemma ChoiceIsRight(env: Environment, cache: Cache, ps: seq<Provider>, looked: nat, choice: Option<Entry>)
    requires CacheSound(env, cache) && AllPlain(ps)
    requires looked <= |ps| && IsChoice(env, Accepts(env, Whole(env, cache, ps)), ps, choice)
    ensures |Order(ps, |ps|)| == |ps| && CacheSound(env, LookedUp(env, cache, Order(ps, |ps|), looked))
    ensures IsChoice(env, Usables(env), ps, choice)
  {
    var order, accepts := Order(ps, |ps|), Accepts(env, Whole(env, cache, ps));
    OrderHasAll(ps, |ps|);
    OrderIsStable(ps, |ps|);
    forall e | e in order
      ensures PlainNames(e.provider)
    {
      assert e.provider in ps;
    }
    LookedUpIsRight(env, cache, order, looked);
    LookedUpIsRight(env, cache, order, |ps|);
    forall p | p in ps
      ensures accepts(p) == Usables(env)(p)
    {
      var i :| 0 <= i < |ps| && ps[i] == p;
      assert Entry(i, p) in order;
      var l :| 0 <= l < |order| && order[l] == Entry(i, p);
      assert order[l].provider == p;
    }
    SameChoice(env, accepts, Usables(env), ps, choice);
  }

  // ---- which credential is held ----

  // The credential of a provider, looked up for itself.
  function OwnKey(env: Environment, p: Provider): Option<string> {
    if IsCredentialless(env, p) then None else Fresh(env, p)
  }

  // Among the entries of `all` the cache can be trusted with the credentials themselves.
  ghost predicate Trusted(env: Environment, cache: Cache, all: set<Provider>, ps: seq<Provider>) {
    Agreeing(all) && CacheExact(env, cache, all) && forall p | p in ps :: p in all
  }

  // For entries that agree and an exact cache, what is held is each provider's own credential.
  lemma {:induction false} LookedUpIsExact(env: Environment, cache: Cache, all: set<Provider>, order: seq<Entry>,
                                           n: nat)
    requires n <= |order| && Agreeing(all) && CacheExact(env, cache, all)
    requires forall e | e in order :: e.provider in all
    ensures CacheExact(env, LookedUp(env, cache, order, n), all)
  {
    hide KeyOf, IsCredentialless, Fresh, CacheExact, Agreeing, Cached;
    if n > 0 {
      LookedUpIsExact(env, cache, all, order, n - 1);
      assert order[n - 1] in order;
      CachedIsExact(env, LookedUp(env, cache, order, n - 1), all, order[n - 1].provider);
    }
  }

  /** Then the choice is made among the usable providers, and each holds its own credential. */
  lemma ChoiceIsExact(env: Environment, cache: Cache, all: set<Provider>, ps: seq<Provider>, looked: nat,
                      choice: Option<Entry>)
    requires Trusted(env, cache, all, ps)
    requires looked <= |ps| && IsChoice(env, Accepts(env, Whole(env, cache, ps)), ps, choice)
    ensures |Order(ps, |ps|)| == |ps| && CacheExact(env, LookedUp(env, cache, Order(ps, |ps|), looked), all)
    ensures IsChoice(env, Usables(env), ps, choice)
    ensures choice.Some? ==>
              HeldKey(env, Whole(env, cache, ps), choice.value.provider) == OwnKey(env, choice.value.provider)
  {
    hide KeyOf, IsCredentialless, Fresh, Cached, LookedUp, Order;
    var order, whole := Order(ps, |ps|), Whole(env, cache, ps);
    OrderHasAll(ps, |ps|);
    OrderIsStable(ps, |ps|);
    forall e | e in order
      ensures e.provider in all
    {
      assert e.provider in ps;
    }
    LookedUpIsExact(env, cache, all, order, looked);
    LookedUpIsExact(env, cache, all, order, |ps|);
    forall p | p in ps
      ensures HeldKey(env, whole, p) == OwnKey(env, p)
    {
      var i :| 0 <= i < |ps| && ps[i] == p;
      assert Entry(i, p) in order;
      var l :| 0 <= l < |order| && order[l] == Entry(i, p);
      if !IsCredentialless(env, p) {
        LookedUpHas(env, cache, order, |order|, l);
      }
    }
    SameChoice(env, Accepts(env, whole), Usables(env), ps, choice);
  }

  // Only the providers of the entry matter for the choice.
  lemma SameChoice(env: Environment, ok: Provider -> bool, ok1: Provider -> bool, ps: seq<Provider>,
                   choice: Option<Entry>)
    requires IsChoice(env, ok, ps, choice) && forall p | p in ps :: ok(p) == ok1(p)
    ensures IsChoice(env, ok1, ps, choice)
  {
    hide IsCredentialless;
    if choice.Some? {
      assert choice.value.provider in ps;
      forall b | IsEntry(ps, b) && ok1(b.provider)
        ensures Preferred(env, choice.value, b)
      {
        assert b.provider in ps;
      }
    }
  }

  // Looking up all after having looked up some comes to the same.
  lemma WholeAgain(env: Environment, cache: Cache, ps: seq<Provider>, m: nat)
    requires m <= |ps| && |Order(ps, |ps|)| == |ps|
    ensures Whole(env, LookedUp(env, cache, Order(ps, |ps|), m), ps) == Whole(env, cache, ps)
  {
    LookedUpAgain(env, cache, Order(ps, |ps|), m, |ps|);
  }

  lemma NoneLookedUp(env: Environment, cache: Cache, order: seq<Entry>)
    ensures LookedUp(env, cache, order, 0) == cache
  {
  }

  // One more provider: the answer to its lookup is the one that stays.
  lemma LookedUpStep(env: Environment, cache: Cache, order: seq<Entry>, n: nat)
    requires n < |order|
    ensures var p, before := order[n].provider, LookedUp(env, cache, order, n);
            if IsCredentialless(env, p) then LookedUp(env, cache, order, n + 1) == before
            else LookedUp(env, cache, order, n + 1) == before[KeyOf(p) := Cached(env, before, p)]
                 && HeldKey(env, LookedUp(env, cache, order, |order|), p) == Cached(env, before, p)
  {
    hide KeyOf, Fresh, Cached;
    LookedUpGrows(env, cache, order, n + 1, |order|);
    if !IsCredentialless(env, order[n].provider) {
      assert KeyOf(order[n].provider) in LookedUp(env, cache, order, n + 1);
    }
  }

  // ---- the router object ----

  class ModelRouter {
    const env: Environment
    const validUrl: string -> bool
    var cache: Cache

    constructor (env: Environment, validUrl: string -> bool)
      ensures this.env == env && this.validUrl == validUrl && cache == map[] && CacheSound(env, cache)
      ensures forall all :: CacheExact(env, cache, all)
    {
      this.env, this.validUrl, cache := env, validUrl, map[];
    }

    /** The selection loop over the sorted providers. It commits to the best of those that are
        credentialless or for which the cache, or the lookup behind it, has a credential. */
    method SelectProvider(ps: seq<Provider>) returns (choice: Option<Entry>, key: Option<string>, ghost looked: nat)
      modifies this
      ensures looked <= |ps| == |Order(ps, |ps|)| && cache == LookedUp(env, old(cache), Order(ps, |ps|), looked)
      ensures var whole := Whole(env, old(cache), ps);
              IsChoice(env, Accepts(env, whole), ps, choice)
              && key == if choice.Some? then HeldKey(env, whole, choice.value.provider) else None
    {
      hide Order, LookedUp, KeyOf, IsCredentialless, Cached, CacheSound, PlainNames, Fresh;
      var order := Order(ps, |ps|);
      OrderHasAll(ps, |ps|);
      OrderIsStable(ps, |ps|);
      ghost var before, ok := cache, Accepts(env, Whole(env, cache, ps));
      var bestCredentialless: Option<Entry> := None;
      ghost var at: nat := 0;
      var currentPriority := NO_PRIORITY;
      NoneLookedUp(env, cache, order);
      for n := 0 to |order|
        invariant cache == LookedUp(env, before, order, n)
        invariant n > 0 ==> currentPriority == order[n - 1].provider.priority
        invariant NoneCredentialed(env, ok, order, n)
        invariant if bestCredentialless == None then NoneGood(ok, order, n)
                  else at < n && FirstGood(env, ok, order, at) && order[at] == bestCredentialless.value
                       && order[at].provider.priority == currentPriority
      {
        var pe := order[n].provider;
        assert order[n] in order;
        LookedUpStep(env, before, order, n);
        if pe.priority != currentPriority {
          if bestCredentialless.Some? {
            FirstCredentiallessIsBest(env, ok, ps, order, n, at);
            return bestCredentialless, None, n;
          }
          currentPriority := pe.priority;
        }
        if IsCredentialless(env, pe) {
          if bestCredentialless == None {
            bestCredentialless, at := Some(order[n]), n;
          }
          continue;
        }
        var apiKey;
        apiKey, cache := ResolveCredentials(env, cache, pe);
        if apiKey.Some? {
          FirstCredentialedIsBest(env, ok, ps, order, n, if bestCredentialless == None then n else at);
          return Some(order[n]), apiKey, n + 1;
        }
      }
      if bestCredentialless.Some? {
        FirstCredentiallessIsBest(env, ok, ps, order, |order|, at);
        return bestCredentialless, None, |order|;
      }
      forall p | p in ps
        ensures !ok(p)
      {
        var i :| 0 <= i < |ps| && ps[i] == p;
        assert Entry(i, p) in order;
        var l :| 0 <= l < |order| && order[l] == Entry(i, p);
        assert order[l].provider == p;
      }
      return None, None, |order|;
    }

    // Builds the resolved model of the chosen provider.
    function Build(p: Provider, key: Option<string>): Resolved {
      Resolved(p.id, p.model, key, p.baseUrl,
               if key.Some? then Present else if IsCredentialless(env, p) then NotRequired else Missing)
    }

    // `resolve` refuses an invalid URL, and an empty one where a credential is required.
    function Checked(m: Resolved): Resolution {
      if !validUrl(m.baseUrl) then InvalidBaseUrl
      else if m.baseUrl == "" && m.status != NotRequired then EmptyBaseUrl
      else Ok(m)
    }

    /** Resolves a model's catalog entry. With plain variable names and a sound cache the choice
        is the best usable provider, and credentials are missing exactly when none is usable. If
        the entries agree and the cache is exact, the model carries the credential that the chosen
        provider's own variables give. */
    method Resolve(ps: seq<Provider>) returns (r: Resolution, ghost choice: Option<Entry>, ghost looked: nat)
      modifies this
      ensures looked <= |ps| == |Order(ps, |ps|)| && cache == LookedUp(env, old(cache), Order(ps, |ps|), looked)
      ensures var whole := Whole(env, old(cache), ps);
              IsChoice(env, Accepts(env, whole), ps, choice)
              && r == if choice.Some? then Checked(Build(choice.value.provider, HeldKey(env, whole, choice.value.provider)))
                      else if ps == [] then NoProviders
                      else MissingCredentials
      ensures CacheSound(env, old(cache)) && AllPlain(ps) ==>
                CacheSound(env, cache) && IsChoice(env, Usables(env), ps, choice)
      ensures forall all | Trusted(env, old(cache), all, ps) ::
                CacheExact(env, cache, all) && IsChoice(env, Usables(env), ps, choice)
                && r == if choice.Some? then Checked(Build(choice.value.provider, OwnKey(env, choice.value.provider)))
                        else if ps == [] then NoProviders
                        else MissingCredentials
    {
      hide IsChoice, Order, LookedUp, Whole, HeldKey, OwnKey, Trusted, CacheExact, CacheSound, AllPlain, Fresh, Preferred;
      ghost var before := cache;
      var selected, key;
      selected, key, looked := SelectProvider(ps);
      choice := selected;
      if CacheSound(env, before) && AllPlain(ps) {
        ChoiceIsRight(env, before, ps, looked, choice);
      }
      forall all | Trusted(env, before, all, ps)
        ensures CacheExact(env, cache, all) && IsChoice(env, Usables(env), ps, choice)
        ensures choice.Some? ==> key == OwnKey(env, choice.value.provider)
      {
        ChoiceIsExact(env, before, all, ps, looked, choice);
      }
      if selected == None {
        r := if ps == [] then NoProviders else MissingCredentials;
        return;
      }
      r := Checked(Build(selected.value.provider, key));
    }

    // Inspecting only refuses an invalid URL.
    function Inspected(m: Resolved): Resolution {
      if validUrl(m.baseUrl) then Ok(m) else InvalidBaseUrl
    }

    /** The same choice without the rejections; with no usable provider the first by priority. */
    method InspectModel(ps: seq<Provider>) returns (r: Resolution, ghost choice: Option<Entry>, ghost looked: nat)
      modifies this
      ensures looked <= |ps| == |Order(ps, |ps|)| && cache == LookedUp(env, old(cache), Order(ps, |ps|), looked)
      ensures ps == [] ==> r == NoProviders
      ensures IsChoice(env, Accepts(env, Whole(env, old(cache), ps)), ps, choice)
      ensures choice.Some? ==>
                r == Inspected(Build(choice.value.provider, HeldKey(env, Whole(env, old(cache), ps), choice.value.provider)))
      ensures ps != [] && choice == None ==>
                exists e :: IsEntry(ps, e) && (forall f | IsEntry(ps, f) && f != e :: ComesFirst(e, f))
                            && r == Inspected(Build(e.provider, None))
      ensures CacheSound(env, old(cache)) && AllPlain(ps) ==>
                CacheSound(env, cache) && IsChoice(env, Usables(env), ps, choice)
    {
      ghost var before := cache;
      choice, looked := None, 0;
      OrderHasAll(ps, |ps|);
      if ps == [] {
        return NoProviders, None, 0;
      }
      var selected, key;
      selected, key, looked := SelectProvider(ps);
      choice := selected;
      if CacheSound(env, before) && AllPlain(ps) {
        ChoiceIsRight(env, before, ps, looked, choice);
      }
      if selected.Some? {
        r := Inspected(Build(selected.value.provider, key));
        return;
      }
      var order := Order(ps, |ps|);
      r := Inspected(Build(order[0].provider, None));
      FirstOfOrder(ps);
    }

    /** Whenever `resolve` succeeds, inspecting the same entry afterwards gives the same model,
        credential included, whatever was cached before. */
    method ResolveThenInspect(ps: seq<Provider>) returns (resolved: Resolution, inspected: Resolution)
      modifies this
      ensures resolved.Ok? ==> inspected == resolved
    {
      ghost var c1, c2, m, n;
      ghost var before := cache;
      resolved, c1, m := Resolve(ps);
      inspected, c2, n := InspectModel(ps);
      WholeAgain(env, before, ps, m);
      ChoiceIsUnique(env, Accepts(env, Whole(env, before, ps)), ps, c1, c2);
    }
  }

  /** The model a provider resolves to has the provider's own names and URL. A credential makes it
      present; without one it is not required exactly for a provider that needs none. Resolving
      refuses a URL that is not valid, and an empty one unless no credential is required;
      inspecting only the first. */
  lemma ResolvedMeans(r: ModelRouter, p: Provider, key: Option<string>)
    ensures var m := r.Build(p, key);
            m.provider == p.id && m.model == p.model && m.baseUrl == p.baseUrl && m.apiKey == key
            && (m.status == Present <==> key.Some?)
            && (m.status == NotRequired <==> key == None && IsCredentialless(r.env, p))
            && (r.Checked(m) == InvalidBaseUrl <==> !r.validUrl(p.baseUrl))
            && (r.Checked(m) == EmptyBaseUrl <==> r.validUrl(p.baseUrl) && p.baseUrl == "" && m.status != NotRequired)
            && (r.Checked(m) in [InvalidBaseUrl, EmptyBaseUrl, Ok(m)])
            && r.Inspected(m) == if r.validUrl(p.baseUrl) then Ok(m) else InvalidBaseUrl
  {
  }

  lemma FirstOfOrder(ps: seq<Provider>)
    requires ps != []
    ensures Order(ps, |ps|) != []
    ensures var e := Order(ps, |ps|)[0]; IsEntry(ps, e) && forall f | IsEntry(ps, f) && f != e :: ComesFirst(e, f)
  {
    var order := Order(ps, |ps|);
    OrderHasAll(ps, |ps|);
    OrderIsStable(ps, |ps|);
    assert order[0] in order;
    forall f | IsEntry(ps, f) && f != order[0]
      ensures ComesFirst(order[0], f)
    {
      assert f in order;
    }
  }

  ghost predicate NoneGood(ok: Provider -> bool, order: seq<Entry>, n: nat)
    requires n <= |order|
  {
    forall l | 0 <= l < n :: !ok(order[l].provider)
  }

  ghost predicate NoneCredentialed(env: Environment, ok: Provider -> bool, order: seq<Entry>, n: nat)
    requires n <= |order|
  {
    forall l | 0 <= l < n :: ok(order[l].provider) ==> IsCredentialless(env, order[l].provider)
  }

  // Position `m` holds a credentialless provider and nothing before it is good enough.
  ghost predicate FirstGood(env: Environment, ok: Provider -> bool, order: seq<Entry>, m: nat)
    requires m < |order|
  {
    ok(order[m].provider) && IsCredentialless(env, order[m].provider) && NoneGood(ok, order, m)
  }

  // All entries of a catalog, sorted.
  ghost predicate Sorts(ps: seq<Provider>, order: seq<Entry>) {
    Ordered(order) && forall e :: e in order <==> IsEntry(ps, e)
  }

  // The first credentialless provider is the best once its priority is exhausted.
  lemma FirstCredentiallessIsBest(env: Environment, ok: Provider -> bool, ps: seq<Provider>, order: seq<Entry>,
                                  n: nat, m: nat)
    requires Sorts(ps, order) && m < n <= |order|
    requires NoneCredentialed(env, ok, order, n) && FirstGood(env, ok, order, m)
    requires n < |order| ==> order[m].provider.priority != order[n].provider.priority
    ensures IsBest(env, ok, ps, order[m])
  {
    var best := order[m];
    assert best in order;
    forall e | IsEntry(ps, e) && ok(e.provider)
      ensures Preferred(env, best, e)
    {
      assert e in order;
      var k :| 0 <= k < |order| && order[k] == e;
      if k > m {
        assert ComesFirst(order[m], order[k]);
        if k >= n {
          assert ComesFirst(order[m], order[n]);
          if k > n { assert ComesFirst(order[n], order[k]); }
        }
      }
    }
  }

  // A credentialed provider with a credential is the best when everything usable before it,
  // from position `m` on, is credentialless and of the same priority.
  lemma FirstCredentialedIsBest(env: Environment, ok: Provider -> bool, ps: seq<Provider>, order: seq<Entry>, n: nat,
                                m: nat)
    requires Sorts(ps, order) && m <= n < |order|
    requires !IsCredentialless(env, order[n].provider) && ok(order[n].provider)
    requires NoneCredentialed(env, ok, order, n) && NoneGood(ok, order, m)
    requires order[m].provider.priority == order[n].provider.priority
    ensures IsBest(env, ok, ps, order[n])
  {
    assert order[n] in order;
    forall e | IsEntry(ps, e) && ok(e.provider)
      ensures Preferred(env, order[n], e)
    {
      assert e in order;
      var k :| 0 <= k < |order| && order[k] == e;
      if k > n {
        assert ComesFirst(order[n], order[k]);
      } else if m < k < n {
        assert ComesFirst(order[m], order[k]) && ComesFirst(order[k], order[n]);
      }
    }
  }
}

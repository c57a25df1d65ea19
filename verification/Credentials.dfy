/** Finding a provider's credential in a fixed environment, and the cache in front of it. The
    cache key prints the variable names, sorted and joined by commas, so entries that list their
    names in different orders share an answer, and names with commas can confuse it. */
module Credentials {
  import opened Text

  // A catalog entry of a provider. `keys` are the environment variables of its credentials, in
  // the order the hash map yields them.
  datatype Provider = Provider(id: string, model: string, priority: nat, keys: seq<string>, baseUrl: string)

  // `table` lists known providers' variables; `external` values come before `vars`.
  datatype Environment = Environment(table: map<string, seq<string>>, external: map<string, string>, vars: map<string, string>)

  function TableKeys(env: Environment, p: Provider): seq<string> {
    if p.id in env.table then env.table[p.id] else []
  }

  predicate IsCredentialless(env: Environment, p: Provider) {
    p.keys == [] && p.id in env.table && env.table[p.id] == []
  }

  function NonBlank(m: map<string, string>, name: string): Option<string> {
    if name in m && Trim(m[name]) != "" then Some(Trim(m[name])) else None
  }

  function ValueOf(env: Environment, name: string): Option<string> {
    var external := NonBlank(env.external, name);
    if external.Some? then external else NonBlank(env.vars, name)
  }

  function FirstValue(env: Environment, names: seq<string>): Option<string> {
    if names == [] then None
    else
      var v := ValueOf(env, names[0]);
      if v.Some? then v else FirstValue(env, names[1..])
  }

  // The lookup without the cache: the entry's own variables, then the table's.
  function Fresh(env: Environment, p: Provider): Option<string> {
    FirstValue(env, p.keys + TableKeys(env, p))
  }

  lemma {:induction false} FirstValueExists(env: Environment, names: seq<string>)
    ensures FirstValue(env, names).Some? <==> exists n | n in names :: ValueOf(env, n).Some?
  {
    if names != [] {
      FirstValueExists(env, names[1..]);
      assert names == [names[0]] + names[1..];
    }
  }

  // ---- the cache key ----

  // `str` order: by code points.
  predicate Less(a: string, b: string) {
    if b == "" then false
    else if a == "" then true
    else a[0] < b[0] || (a[0] == b[0] && Less(a[1..], b[1..]))
  }

  function InsertName(sorted: seq<string>, name: string): seq<string> {
    if sorted == [] || !Less(sorted[0], name) then [name] + sorted
    else [sorted[0]] + InsertName(sorted[1..], name)
  }

  function SortNames(names: seq<string>): seq<string> {
    if names == [] then [] else InsertName(SortNames(names[1..]), names[0])
  }

  datatype CacheKey = CacheKey(provider: string, fingerprint: string)

  function KeyOf(p: Provider): CacheKey {
    CacheKey(p.id, Join(SortNames(p.keys), ','))
  }

  // Variable names a shell would accept: not empty, no comma.
  predicate PlainNames(p: Provider) {
    forall n | n in p.keys :: n != "" && ',' !in n
  }

  lemma {:induction false} InsertNameMembers(sorted: seq<string>, name: string)
    ensures forall n :: n in InsertName(sorted, name) <==> n == name || n in sorted
    ensures |InsertName(sorted, name)| == |sorted| + 1
  {
    if sorted != [] && Less(sorted[0], name) {
      InsertNameMembers(sorted[1..], name);
      assert sorted == [sorted[0]] + sorted[1..];
    }
  }

  lemma {:induction false} SortNamesMembers(names: seq<string>)
    ensures forall n :: n in SortNames(names) <==> n in names
    ensures |SortNames(names)| == |names|
  {
    if names != [] {
      SortNamesMembers(names[1..]);
      InsertNameMembers(SortNames(names[1..]), names[0]);
      assert names == [names[0]] + names[1..];
    }
  }

  lemma {:induction false} JoinOfNonEmpty(names: seq<string>)
    requires names != [] && forall n | n in names :: n != ""
    ensures Join(names, ',') != ""
  {
    assert names[0] in names;
  }

  /** For plain variable names the cache key determines the provider and the set of variables. */
  lemma KeyDeterminesNames(p: Provider, q: Provider)
    requires KeyOf(p) == KeyOf(q) && PlainNames(p) && PlainNames(q)
    ensures p.id == q.id && forall n :: n in p.keys <==> n in q.keys
  {
    var a, b := SortNames(p.keys), SortNames(q.keys);
    SortNamesMembers(p.keys);
    SortNamesMembers(q.keys);
    if a != [] { JoinOfNonEmpty(a); }
    if b != [] { JoinOfNonEmpty(b); }
    if a != [] && b != [] {
      SplitJoin(a, ',');
      SplitJoin(b, ',');
    }
    assert a == b;
  }

  predicate SameNames(p: Provider, q: Provider) {
    (forall n | n in p.keys :: n in q.keys) && forall n | n in q.keys :: n in p.keys
  }

  /** Among providers that share a key with one of plain names, exactly those of plain names have
      the same variables. */
  lemma SharedKeyWithPlain(p: Provider, q: Provider)
    requires KeyOf(p) == KeyOf(q) && PlainNames(q)
    ensures SameNames(p, q) <==> PlainNames(p)
  {
    if PlainNames(p) {
      KeyDeterminesNames(p, q);
    }
  }

  lemma SameNamesSameUse(env: Environment, p: Provider, q: Provider)
    requires p.id == q.id && SameNames(p, q)
    ensures Fresh(env, p).Some? <==> Fresh(env, q).Some?
  {
    FirstValueExists(env, p.keys + TableKeys(env, p));
    FirstValueExists(env, q.keys + TableKeys(env, q));
  }

  lemma KeyDeterminesUsability(env: Environment, p: Provider, q: Provider)
    requires KeyOf(p) == KeyOf(q) && PlainNames(p) && PlainNames(q)
    ensures Fresh(env, p).Some? <==> Fresh(env, q).Some?
  {
    KeyDeterminesNames(p, q);
    SameNamesSameUse(env, p, q);
  }

  // Only the variable `name` has a value.
  function OnlyVariable(name: string): Environment {
    Environment(map[], map[name := "x"], map[])
  }

  lemma OneVariableTells(name: string, p: Provider)
    ensures Fresh(OnlyVariable(name), p).Some? <==> name in p.keys
  {
    var env := OnlyVariable(name);
    assert Trim("x") == "x" by { TrimmedIsFixed("x"); }
    assert ValueOf(env, name) == Some("x");
    FirstValueExists(env, p.keys + TableKeys(env, p));
  }

  /** Two providers that share a cache entry agree in every environment on whether there is a
      credential exactly when they have the same variables... */
  lemma SharingTellsPresence(p: Provider, q: Provider)
    requires KeyOf(p) == KeyOf(q)
    ensures (forall env :: Fresh(env, p).Some? <==> Fresh(env, q).Some?) <==> SameNames(p, q)
  {
    if SameNames(p, q) {
      forall env
        ensures Fresh(env, p).Some? <==> Fresh(env, q).Some?
      {
        SameNamesSameUse(env, p, q);
      }
    } else {
      var name :| (name in p.keys && name !in q.keys) || (name in q.keys && name !in p.keys);
      OneVariableTells(name, p);
      OneVariableTells(name, q);
      assert Fresh(OnlyVariable(name), p).Some? != Fresh(OnlyVariable(name), q).Some?;
    }
  }

  // ---- the order of the variables ----

  // Every name where it is mentioned first.
  function Firsts(names: seq<string>): seq<string> {
    if names == [] then []
    else
      var before, last := Firsts(names[..|names| - 1]), names[|names| - 1];
      if last in before then before else before + [last]
  }

  lemma {:induction false} FirstsAreNames(names: seq<string>)
    ensures Distinct(Firsts(names)) && forall n :: n in Firsts(names) <==> n in names
  {
    if names != [] {
      FirstsAreNames(names[..|names| - 1]);
      assert names == names[..|names| - 1] + [names[|names| - 1]];
    }
  }

  // Later mentions of a name do not count.
  lemma {:induction false} FirstsDecide(env: Environment, names: seq<string>)
    ensures FirstValue(env, Firsts(names)) == FirstValue(env, names)
  {
    if names != [] {
      var n := |names| - 1;
      var before, last := Firsts(names[..n]), [names[n]];
      FirstsDecide(env, names[..n]);
      FirstValueExists(env, before);
      FirstValueAppend(env, before, last);
      FirstValueAppend(env, names[..n], last);
      assert names == names[..n] + last && last[1..] == [];
    }
  }

  // The value of the first name counts where no earlier one has a value.
  lemma {:induction false} FirstWithValue(env: Environment, names: seq<string>, k: nat)
    requires k < |names| && ValueOf(env, names[k]).Some?
    requires forall i | 0 <= i < k :: ValueOf(env, names[i]) == None
    ensures FirstValue(env, names) == ValueOf(env, names[k])
  {
    if k > 0 {
      FirstWithValue(env, names[1..], k - 1);
    }
  }

  // Only these two variables have a value.
  function TwoVariables(a: string, b: string): Environment {
    Environment(map[], map[b := "y"][a := "x"], map[])
  }

  lemma ValuesOfTwo(a: string, b: string, n: string)
    ensures ValueOf(TwoVariables(a, b), n) == if n == a then Some("x") else if n == b then Some("y") else None
  {
    assert Trim("x") == "x" by { TrimmedIsFixed("x"); }
    assert Trim("y") == "y" by { TrimmedIsFixed("y"); }
  }

  // Where only two variables have values, the one mentioned first decides.
  lemma EarlierDecides(a: string, b: string, p: Provider, k: nat)
    requires var firsts := Firsts(p.keys);
             k < |firsts| && firsts[k] in [a, b] && forall i | 0 <= i < k :: firsts[i] !in [a, b]
    ensures Fresh(TwoVariables(a, b), p) == ValueOf(TwoVariables(a, b), Firsts(p.keys)[k])
  {
    var env, firsts := TwoVariables(a, b), Firsts(p.keys);
    forall n: string
      ensures ValueOf(env, n).Some? <==> n in [a, b]
    {
      ValuesOfTwo(a, b, n);
    }
    FirstWithValue(env, firsts, k);
    FirstsDecide(env, p.keys);
    FirstValueAppend(env, p.keys, TableKeys(env, p));
  }

  // Different orders, or different names, can be told apart.
  lemma OrderShows(p: Provider, q: Provider)
    requires Firsts(p.keys) != Firsts(q.keys)
    ensures exists env :: Fresh(env, p) != Fresh(env, q)
  {
    var a, b := Firsts(p.keys), Firsts(q.keys);
    FirstsAreNames(p.keys);
    FirstsAreNames(q.keys);
    if SameNames(p, q) {
      var k := FirstDifference(a, b);
      ValuesOfTwo(a[k], b[k], a[k]);
      ValuesOfTwo(a[k], b[k], b[k]);
      EarlierDecides(a[k], b[k], p, k);
      EarlierDecides(a[k], b[k], q, k);
    } else {
      var name :| (name in p.keys && name !in q.keys) || (name in q.keys && name !in p.keys);
      OneVariableTells(name, p);
      OneVariableTells(name, q);
      assert Fresh(OnlyVariable(name), p) != Fresh(OnlyVariable(name), q);
    }
  }

  // Where two orders of the same names come apart.
  lemma FirstDifference(a: seq<string>, b: seq<string>) returns (k: nat)
    requires a != b && Distinct(a) && Distinct(b) && forall n :: n in a <==> n in b
    ensures k < |a| && k < |b| && a[k] != b[k]
    ensures forall i | 0 <= i < k :: a[i] !in [a[k], b[k]] && b[i] !in [a[k], b[k]]
  {
    k := 0;
    while k < |a| && k < |b| && a[k] == b[k]
      invariant k <= |a| && k <= |b| && a[..k] == b[..k]
    {
      k := k + 1;
    }
    forall i | 0 <= i < k
      ensures a[i] == b[i]
    {
      assert a[..k][i] == b[..k][i];
    }
    assert k < |b| ==> b[k] in b;
    assert k < |a| ==> a[k] in a;
  }

  /** ... but they have the same credential in every environment exactly when, besides, they
      mention their variables in the same order. */
  lemma SharingIsSafe(p: Provider, q: Provider)
    requires KeyOf(p) == KeyOf(q)
    ensures (forall env :: Fresh(env, p) == Fresh(env, q)) <==> Firsts(p.keys) == Firsts(q.keys)
  {
    if Firsts(p.keys) == Firsts(q.keys) {
      forall env
        ensures Fresh(env, p) == Fresh(env, q)
      {
        SameFirstsSameValue(env, p, q);
      }
    } else {
      OrderShows(p, q);
    }
  }

  lemma SameFirstsSameValue(env: Environment, p: Provider, q: Provider)
    requires p.id == q.id && Firsts(p.keys) == Firsts(q.keys)
    ensures Fresh(env, p) == Fresh(env, q)
  {
    FirstsDecide(env, p.keys);
    FirstsDecide(env, q.keys);
    FirstValueAppend(env, p.keys, TableKeys(env, p));
    FirstValueAppend(env, q.keys, TableKeys(env, q));
  }

  lemma SortTwo(a: string, b: string)
    requires Less(a, b) && !Less(b, a)
    ensures SortNames([a, b]) == [a, b] && SortNames([b, a]) == [a, b]
  {
    assert [a, b][1..] == [b] && [b, a][1..] == [a];
    assert SortNames([a]) == [a] && SortNames([b]) == [b] by {
      assert [a][1..] == [] && [b][1..] == [];
    }
    assert InsertName([a], b) == [a] + InsertName([], b) by { assert [a][1..] == []; }
  }

  /** The same two plain names in two orders: one entry is answered with the other's credential. */
  lemma OrdersCollide(id: string)
    ensures var p, q := Provider(id, "", 1, ["A", "B"], ""), Provider(id, "", 1, ["B", "A"], "");
            var env := TwoVariables("A", "B");
            KeyOf(p) == KeyOf(q) && PlainNames(p) && PlainNames(q)
            && Cached(env, map[KeyOf(p) := Fresh(env, p)], q) == Some("x") && Fresh(env, q) == Some("y")
  {
    var p, q := Provider(id, "", 1, ["A", "B"], ""), Provider(id, "", 1, ["B", "A"], "");
    SortTwo("A", "B");
    ValuesOfTwo("A", "B", "A");
    ValuesOfTwo("A", "B", "B");
    FirstWithValue(TwoVariables("A", "B"), p.keys, 0);
    FirstWithValue(TwoVariables("A", "B"), q.keys, 0);
    FirstValueAppend(TwoVariables("A", "B"), p.keys, TableKeys(TwoVariables("A", "B"), p));
    FirstValueAppend(TwoVariables("A", "B"), q.keys, TableKeys(TwoVariables("A", "B"), q));
  }

  /** With a comma in a name two different needs share one cache entry... */
  lemma CommasCollide(id: string)
    ensures var p, q := Provider(id, "", 1, ["A", "B"], ""), Provider(id, "", 1, ["A,B"], "");
            KeyOf(p) == KeyOf(q) && !SameNames(p, q)
  {
    var two, one := ["A", "B"], ["A,B"];
    assert two[1..] == ["B"] && ["B"][1..] == [] && one[1..] == [];
    assert InsertName([], "B") == ["B"] && InsertName(["B"], "A") == ["A", "B"];
    assert SortNames(["B"]) == ["B"];
    assert SortNames(two) == ["A", "B"];
    assert InsertName([], "A,B") == ["A,B"];
    assert SortNames(one) == ["A,B"];
    assert Join(["B"], ',') == "B";
    assert Join(two, ',') == "A" + [','] + "B" == "A,B";
    assert Join(one, ',') == "A,B";
    var q := Provider(id, "", 1, one, "");
    assert "A" !in q.keys && "A" in two;
  }

  /** ... and so they do with an empty name. */
  lemma EmptyNamesCollide(id: string)
    ensures var p, q := Provider(id, "", 1, [], ""), Provider(id, "", 1, [""], "");
            KeyOf(p) == KeyOf(q) && !SameNames(p, q)
  {
    assert [""][1..] == [] && InsertName([], "") == [""];
    assert SortNames([""]) == [""];
    var q := Provider(id, "", 1, [""], "");
    assert "" in q.keys;
  }

  // ---- the cache ----

  type Cache = map<CacheKey, Option<string>>

  // Every cached answer agrees, on whether there is a credential, with the lookup of every
  // provider that shares the key.
  ghost predicate CacheSound(env: Environment, cache: Cache) {
    forall p: Provider | PlainNames(p) && KeyOf(p) in cache :: cache[KeyOf(p)].Some? <==> Fresh(env, p).Some?
  }

  // What a lookup through the cache answers.
  function Cached(env: Environment, cache: Cache, p: Provider): Option<string> {
    if KeyOf(p) in cache then cache[KeyOf(p)] else Fresh(env, p)
  }

  // For plain names a sound cache answers right, and stays sound.
  lemma CachedIsRight(env: Environment, cache: Cache, p: Provider)
    requires CacheSound(env, cache) && PlainNames(p)
    ensures Cached(env, cache, p).Some? <==> Fresh(env, p).Some?
    ensures CacheSound(env, cache[KeyOf(p) := Cached(env, cache, p)])
  {
    var cache1 := cache[KeyOf(p) := Cached(env, cache, p)];
    forall q: Provider | PlainNames(q) && KeyOf(q) in cache1
      ensures cache1[KeyOf(q)].Some? <==> Fresh(env, q).Some?
    {
      if KeyOf(q) == KeyOf(p) {
        KeyDeterminesUsability(env, p, q);
      }
    }
  }

  // Entries that mention the same variables in the same order whenever they share a key.
  ghost predicate Agreeing(all: set<Provider>) {
    forall p, q | p in all && q in all && KeyOf(p) == KeyOf(q) :: Firsts(p.keys) == Firsts(q.keys)
  }

  // Every cached answer is the credential itself of each of these entries that has the key.
  ghost predicate CacheExact(env: Environment, cache: Cache, all: set<Provider>) {
    forall p | p in all && KeyOf(p) in cache :: cache[KeyOf(p)] == Fresh(env, p)
  }

  // For entries that agree an exact cache answers with the credential itself, and stays exact.
  lemma CachedIsExact(env: Environment, cache: Cache, all: set<Provider>, p: Provider)
    requires Agreeing(all) && CacheExact(env, cache, all) && p in all
    ensures Cached(env, cache, p) == Fresh(env, p)
    ensures CacheExact(env, cache[KeyOf(p) := Cached(env, cache, p)], all)
  {
    forall q | q in all && KeyOf(q) == KeyOf(p)
      ensures Fresh(env, q) == Fresh(env, p)
    {
      SameFirstsSameValue(env, p, q);
    }
  }

  /** And for no others: in every environment one remembered answer is exact for all entries
      exactly when they agree. */
  lemma ExactIfAgreeing(all: set<Provider>)
    ensures Agreeing(all) <==> forall env, p | p in all :: CacheExact(env, map[KeyOf(p) := Fresh(env, p)], all)
  {
    if Agreeing(all) {
      forall env, p | p in all
        ensures CacheExact(env, map[KeyOf(p) := Fresh(env, p)], all)
      {
        CachedIsExact(env, map[], all, p);
      }
    }
    if forall env, p | p in all :: CacheExact(env, map[KeyOf(p) := Fresh(env, p)], all) {
      forall p, q | p in all && q in all && KeyOf(p) == KeyOf(q)
        ensures Firsts(p.keys) == Firsts(q.keys)
      {
        forall env
          ensures Fresh(env, p) == Fresh(env, q)
        {
          assert CacheExact(env, map[KeyOf(p) := Fresh(env, p)], all);
        }
        SharingIsSafe(p, q);
      }
    }
  }

  /** Answers from the cache or looks the credential up and remembers the answer. For plain names
      and a sound cache there is a credential exactly when the lookup itself finds one; for
      entries that agree and an exact cache it is the one the lookup finds. */
  method ResolveCredentials(env: Environment, cache: Cache, p: Provider) returns (key: Option<string>, cache1: Cache)
    ensures key == Cached(env, cache, p) && cache1 == cache[KeyOf(p) := key]
    ensures CacheSound(env, cache) && PlainNames(p) ==> CacheSound(env, cache1) && (key.Some? <==> Fresh(env, p).Some?)
    ensures forall all | Agreeing(all) && CacheExact(env, cache, all) && p in all ::
              CacheExact(env, cache1, all) && key == Fresh(env, p)
  {
    forall all | Agreeing(all) && CacheExact(env, cache, all) && p in all
      ensures CacheExact(env, cache[KeyOf(p) := Cached(env, cache, p)], all) && Cached(env, cache, p) == Fresh(env, p)
    {
      CachedIsExact(env, cache, all, p);
    }
    if CacheSound(env, cache) && PlainNames(p) {
      CachedIsRight(env, cache, p);
    }
    var cacheKey := KeyOf(p);
    if cacheKey in cache {
      return cache[cacheKey], cache;
    }
    key := LookUp(env, p.keys);
    if key == None {
      key := LookUp(env, TableKeys(env, p));
    }
    FirstValueAppend(env, p.keys, TableKeys(env, p));
    cache1 := cache[cacheKey := key];
  }

  method LookUp(env: Environment, names: seq<string>) returns (key: Option<string>)
    ensures key == FirstValue(env, names)
  {
    for i := 0 to |names|
      invariant FirstValue(env, names) == FirstValue(env, names[i..])
    {
      assert names[i..][1..] == names[i + 1..];
      if names[i] in env.external {
        var trimmed := Trim(env.external[names[i]]);
        if trimmed != "" {
          return Some(trimmed);
        }
      }
      if names[i] in env.vars {
        var trimmed := Trim(env.vars[names[i]]);
        if trimmed != "" {
          return Some(trimmed);
        }
      }
    }
    return None;
  }

  lemma {:induction false} FirstValueAppend(env: Environment, first: seq<string>, second: seq<string>)
    ensures FirstValue(env, first + second)
         == if FirstValue(env, first).Some? then FirstValue(env, first) else FirstValue(env, second)
  {
    if first == [] {
      assert first + second == second;
    } else {
      assert (first + second)[1..] == first[1..] + second;
      FirstValueAppend(env, first[1..], second);
    }
  }

  // ---- where a credential comes from ----

  // The value a variable has for the router: an external one that is not blank, or else that of
  // the environment if it is not blank, both without white space around them.
  ghost predicate HasValue(env: Environment, name: string, v: string) {
    v != "" && Trimmed(v)
    && if name in env.external && Trim(env.external[name]) != "" then v == Trim(env.external[name])
       else name in env.vars && v == Trim(env.vars[name])
  }

  lemma ValueIs(env: Environment, name: string, v: string)
    ensures ValueOf(env, name) == Some(v) <==> HasValue(env, name, v)
  {
    if name in env.external { TrimShape(env.external[name]); }
    if name in env.vars { TrimShape(env.vars[name]); }
  }

  /** The credential of an entry is the value of the first variable that has one, of those the entry
      lists and after them those known for its provider; external values come before the
      environment's. */
  lemma CredentialIs(env: Environment, p: Provider, v: string)
    ensures var names := p.keys + if p.id in env.table then env.table[p.id] else [];
            Fresh(env, p) == Some(v) <==>
              exists k | 0 <= k < |names| :: HasValue(env, names[k], v) && forall i, w | 0 <= i < k :: !HasValue(env, names[i], w)
  {
    var names := p.keys + TableKeys(env, p);
    FirstValueAt(env, names, v);
    forall i: nat, w: string | i < |names|
      ensures HasValue(env, names[i], w) <==> ValueOf(env, names[i]) == Some(w)
    {
      ValueIs(env, names[i], w);
    }
    if k :| 0 <= k < |names| && ValueOf(env, names[k]) == Some(v) && forall i | 0 <= i < k :: ValueOf(env, names[i]) == None {
      assert HasValue(env, names[k], v);
    }
    forall i: nat | i < |names|
      ensures ValueOf(env, names[i]) == None <==> forall w :: !HasValue(env, names[i], w)
    {
      NoValue(env, names[i]);
    }
  }

  lemma NoValue(env: Environment, name: string)
    ensures ValueOf(env, name) == None <==> forall w :: !HasValue(env, name, w)
  {
    if ValueOf(env, name).Some? {
      ValueIs(env, name, ValueOf(env, name).value);
    }
    forall w
      ensures HasValue(env, name, w) <==> ValueOf(env, name) == Some(w)
    {
      ValueIs(env, name, w);
    }
  }

  lemma {:induction false} FirstValueAt(env: Environment, names: seq<string>, v: string)
    ensures FirstValue(env, names) == Some(v) <==>
              exists k | 0 <= k < |names| :: ValueOf(env, names[k]) == Some(v) && forall i | 0 <= i < k :: ValueOf(env, names[i]) == None
  {
    if names != [] {
      var rest := names[1..];
      FirstValueAt(env, rest, v);
      if k :| 0 <= k < |rest| && ValueOf(env, rest[k]) == Some(v) && forall i | 0 <= i < k :: ValueOf(env, rest[i]) == None {
        if ValueOf(env, names[0]) == None {
          assert names[k + 1] == rest[k];
          assert forall i | 0 < i < k + 1 :: names[i] == rest[i - 1];
        }
      }
      if k :| 0 <= k < |names| && ValueOf(env, names[k]) == Some(v) && forall i | 0 <= i < k :: ValueOf(env, names[i]) == None {
        if k > 0 {
          assert ValueOf(env, names[0]) == None;
          assert rest[k - 1] == names[k];
          assert forall i | 0 <= i < k - 1 :: rest[i] == names[i + 1];
        }
      }
    }
  }

  // ---- the key does not depend on the order of the names ----

  lemma {:induction false} LessIsStrict(a: string, b: string)
    ensures !(Less(a, b) && Less(b, a))
    ensures !Less(a, b) && !Less(b, a) ==> a == b
  {
    if a != "" && b != "" && a[0] == b[0] {
      LessIsStrict(a[1..], b[1..]);
      assert a == [a[0]] + a[1..] && b == [b[0]] + b[1..];
    }
  }

  lemma {:induction false} LessIsTransitive(a: string, b: string, c: string)
    requires Less(a, b) && Less(b, c)
    ensures Less(a, c)
  {
    if a != "" && a[0] == b[0] && b[0] == c[0] {
      LessIsTransitive(a[1..], b[1..], c[1..]);
    }
  }

  // Two names can be inserted in either order.
  lemma {:induction false} InsertionsCommute(sorted: seq<string>, a: string, b: string)
    ensures InsertName(InsertName(sorted, a), b) == InsertName(InsertName(sorted, b), a)
  {
    LessIsStrict(a, b);
    if sorted == [] {
      InsertIntoOne(a, b);
      InsertIntoOne(b, a);
    } else {
      var s, rest := sorted[0], sorted[1..];
      LessIsStrict(s, a);
      LessIsStrict(s, b);
      InsertionsCommute(rest, a, b);
      InsertBoth(sorted, a, b);
      InsertBoth(sorted, b, a);
      if Less(s, a) && Less(a, b) { LessIsTransitive(s, a, b); }
      if Less(s, b) && Less(b, a) { LessIsTransitive(s, b, a); }
    }
  }

  lemma InsertIntoOne(a: string, b: string)
    ensures InsertName([a], b) == if Less(a, b) then [a, b] else [b, a]
  {
    assert [a][1..] == [] && [a] + InsertName([], b) == [a, b];
  }

  // Where two insertions into a list that is not empty lead.
  lemma InsertBoth(sorted: seq<string>, a: string, b: string)
    requires sorted != []
    ensures var s, rest := sorted[0], sorted[1..];
            InsertName(InsertName(sorted, a), b)
            == if !Less(s, a) then (if !Less(a, b) then [b, a] + sorted else [a] + InsertName(sorted, b))
               else if !Less(s, b) then [b, s] + InsertName(rest, a)
               else [s] + InsertName(InsertName(rest, a), b)
  {
    var s, rest := sorted[0], sorted[1..];
    if !Less(s, a) {
      assert ([a] + sorted)[1..] == sorted;
      assert [b] + ([a] + sorted) == [b, a] + sorted;
    } else {
      var one := [s] + InsertName(rest, a);
      assert one[1..] == InsertName(rest, a);
      assert [b] + one == [b, s] + InsertName(rest, a);
    }
  }

  // A name may as well be inserted last.
  lemma {:induction false} SortWithout(names: seq<string>, i: nat)
    requires i < |names|
    ensures SortNames(names) == InsertName(SortNames(names[..i] + names[i + 1..]), names[i])
  {
    if i == 0 {
      assert names[..0] + names[1..] == names[1..];
    } else {
      var rest := names[1..];
      SortWithout(rest, i - 1);
      var others := names[..i] + names[i + 1..];
      assert others[1..] == rest[..i - 1] + rest[i..];
      InsertionsCommute(SortNames(others[1..]), names[i], names[0]);
    }
  }

  lemma WithoutOne(names: seq<string>, i: nat)
    requires i < |names|
    ensures multiset(names[..i] + names[i + 1..]) == multiset(names) - multiset{names[i]}
  {
    var before, behind := names[..i], names[i + 1..];
    assert names == before + ([names[i]] + behind);
    assert multiset(names) == multiset(before) + (multiset{names[i]} + multiset(behind));
  }

  // One of the names taken out of both lists.
  lemma TakeOut(a: seq<string>, b: seq<string>) returns (i: nat)
    requires multiset(a) == multiset(b) && a != []
    ensures i < |b| && b[i] == a[0] && multiset(a[1..]) == multiset(b[..i] + b[i + 1..])
  {
    i := PositionIn(a, b);
    WithoutFirst(a);
    WithoutOne(b, i);
  }

  lemma WithoutFirst(names: seq<string>)
    requires names != []
    ensures multiset(names[1..]) == multiset(names) - multiset{names[0]}
  {
    assert names == [names[0]] + names[1..];
  }

  lemma PositionIn(a: seq<string>, b: seq<string>) returns (i: nat)
    requires multiset(a) == multiset(b) && a != []
    ensures i < |b| && b[i] == a[0]
  {
    var x := a[0];
    assert x in multiset(a);
    assert x in b;
    i :| i < |b| && b[i] == x;
  }

  lemma {:induction false} SortOfPermutation(a: seq<string>, b: seq<string>)
    requires multiset(a) == multiset(b)
    ensures SortNames(a) == SortNames(b)
    decreases |a|
  {
    hide InsertName;
    assert |a| == |multiset(a)| == |multiset(b)| == |b|;
    if a != [] {
      var i := TakeOut(a, b);
      SortOfPermutation(a[1..], b[..i] + b[i + 1..]);
      SortWithout(b, i);
    }
  }

  /** Entries of one provider with the same variables, each as often, in whatever order, share a
      cache entry. */
  lemma OrderDoesNotMatterForKeys(p: Provider, q: Provider)
    requires p.id == q.id && multiset(p.keys) == multiset(q.keys)
    ensures KeyOf(p) == KeyOf(q)
  {
    SortOfPermutation(p.keys, q.keys);
  }
}

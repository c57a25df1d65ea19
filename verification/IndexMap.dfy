/** `IndexMap`: a map that remembers the order in which its keys were first inserted. */
module IndexMap {
  import opened Text
  import opened StreamEvents

  datatype Entry = Entry(key: nat, value: string)

  type Entries = seq<Entry>

  function Lookup(m: Entries, key: nat): Option<string> {
    if m == [] then None
    else if m[0].key == key then Some(m[0].value)
    else Lookup(m[1..], key)
  }

  // A known key keeps its place and gets the new value; a new key goes to the end.
  function Insert(m: Entries, key: nat, value: string): Entries {
    if m == [] then [Entry(key, value)]
    else if m[0].key == key then [Entry(key, value)] + m[1..]
    else [m[0]] + Insert(m[1..], key, value)
  }

  function Values(m: Entries): seq<string> {
    if m == [] then [] else [m[0].value] + Values(m[1..])
  }

  lemma {:induction false} InsertLookup(m: Entries, key: nat, value: string, other: nat)
    ensures Lookup(Insert(m, key, value), other) == if other == key then Some(value) else Lookup(m, other)
  {
    if m != [] && m[0].key != key {
      InsertLookup(m[1..], key, value, other);
    }
  }

  // The values, counted.
  function Held(m: Entries): multiset<string> {
    if m == [] then multiset{} else multiset{m[0].value} + Held(m[1..])
  }

  lemma {:induction false} HeldIsCounted(m: Entries)
    ensures Held(m) == Counted(Values(m))
  {
    if m != [] {
      HeldIsCounted(m[1..]);
      assert Values(m)[1..] == Values(m[1..]);
    }
  }

  lemma WithOneMore(e: string, a: multiset<string>, x: string, b: multiset<string>, y: string)
    requires a + multiset{x} == b + multiset{y}
    ensures multiset{e} + a + multiset{x} == multiset{e} + b + multiset{y}
  {
    assert multiset{e} + a + multiset{x} == multiset{e} + (a + multiset{x});
  }

  /** An insertion adds the new value; a known key loses its old one. */
  lemma {:induction false} InsertHeld(m: Entries, key: nat, value: string)
    ensures Lookup(m, key) == None ==> Held(Insert(m, key, value)) == Held(m) + multiset{value}
    ensures Lookup(m, key).Some? ==>
              Held(Insert(m, key, value)) + multiset{Lookup(m, key).value} == Held(m) + multiset{value}
  {
    if m != [] {
      var e, rest := m[0], m[1..];
      if e.key == key {
        var m1 := [Entry(key, value)] + rest;
        assert m1[1..] == rest;
        assert Held(m1) == multiset{value} + Held(rest);
      } else {
        InsertHeld(rest, key, value);
        var m1 := [e] + Insert(rest, key, value);
        assert m1[1..] == Insert(rest, key, value);
        assert Held(m1) == multiset{e.value} + Held(Insert(rest, key, value));
        if Lookup(rest, key).Some? {
          WithOneMore(e.value, Held(Insert(rest, key, value)), Lookup(rest, key).value, Held(rest), value);
        }
      }
    }
  }

  lemma {:induction false} LookupIsHeld(m: Entries, key: nat)
    requires Lookup(m, key).Some?
    ensures Lookup(m, key).value in Held(m)
  {
    if m[0].key != key {
      LookupIsHeld(m[1..], key);
    }
  }

  // ---- removal ----

  function Remove(m: Entries, key: nat): Entries {
    if m == [] then []
    else if m[0].key == key then m[1..]
    else [m[0]] + Remove(m[1..], key)
  }

  ghost predicate DistinctKeys(m: Entries) {
    forall i, j | 0 <= i < j < |m| :: m[i].key != m[j].key
  }

  lemma {:induction false} RemoveHeld(m: Entries, key: nat)
    ensures Lookup(m, key).Some? ==> Held(m) == Held(Remove(m, key)) + multiset{Lookup(m, key).value}
    ensures Lookup(m, key) == None ==> Remove(m, key) == m
  {
    if m != [] && m[0].key != key {
      RemoveHeld(m[1..], key);
      assert m == [m[0]] + m[1..];
      assert Remove(m, key)[1..] == Remove(m[1..], key);
    }
  }

  lemma {:induction false} LookupSome(m: Entries, key: nat)
    ensures Lookup(m, key).Some? <==> exists e | e in m :: e.key == key
  {
    if m != [] {
      LookupSome(m[1..], key);
      assert m == [m[0]] + m[1..];
    }
  }

  lemma {:induction false} RemoveLookup(m: Entries, key: nat, other: nat)
    requires DistinctKeys(m)
    ensures Lookup(Remove(m, key), other) == if other == key then None else Lookup(m, other)
  {
    if m != [] {
      if m[0].key == key {
        LookupSome(m[1..], key);
      } else {
        RemoveLookup(m[1..], key, other);
      }
    }
  }

  /** Insertion and removal keep the keys distinct. */
  lemma {:induction false} KeysStayDistinct(m: Entries, key: nat, value: string)
    requires DistinctKeys(m)
    ensures DistinctKeys(Insert(m, key, value)) && DistinctKeys(Remove(m, key))
    ensures forall e | e in Insert(m, key, value) :: e.key == key || e in m
    ensures forall e | e in Remove(m, key) :: e in m
  {
    if m != [] && m[0].key != key {
      KeysStayDistinct(m[1..], key, value);
      forall e | e in Insert(m[1..], key, value) || e in Remove(m[1..], key)
        ensures e.key != m[0].key
      {
        if e.key != key { assert e in m[1..]; }
      }
    }
  }
}

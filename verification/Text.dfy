/** What the other modules share: facts about sequences, and the string operations the runtime
    borrows from Rust's standard library: trimming, byte lengths, splitting and joining on one
    character, and decimal numbers. */
module Text {

  datatype Option<+T> = None | Some(value: T)

  lemma AppendAssociates<T>(a: seq<T>, b: seq<T>, c: seq<T>)
    ensures a + (b + c) == a + b + c
  {
  }

  // ---- sequences ----

  predicate Distinct<T(==)>(s: seq<T>) {
    forall i, j | 0 <= i < j < |s| :: s[i] != s[j]
  }

  predicate Subsequence<T(==)>(a: seq<T>, b: seq<T>) {
    if a == [] then true
    else if b == [] then false
    else if a[|a| - 1] == b[|b| - 1] && Subsequence(a[..|a| - 1], b[..|b| - 1]) then true
    else Subsequence(a, b[..|b| - 1])
  }

  lemma SubsequenceSnoc<T>(a: seq<T>, b: seq<T>, x: T)
    requires Subsequence(a, b)
    ensures Subsequence(a + [x], b + [x]) && Subsequence(a, b + [x])
  {
    assert (a + [x])[..|a|] == a && (b + [x])[..|b|] == b;
  }

  lemma {:induction false} SubsequenceCons<T>(x: T, a: seq<T>, b: seq<T>)
    requires Subsequence(a, b)
    ensures Subsequence([x] + a, [x] + b) && Subsequence(a, [x] + b)
    decreases |b|
  {
    if b == [] {
      assert [x] + b == [] + [x];
      SubsequenceSnoc<T>([], [], x);
    } else {
      var n := |b| - 1;
      assert b == b[..n] + [b[n]] && [x] + b == ([x] + b[..n]) + [b[n]];
      if a != [] && a[|a| - 1] == b[n] && Subsequence(a[..|a| - 1], b[..n]) {
        var m := |a| - 1;
        assert a == a[..m] + [a[m]] && [x] + a == ([x] + a[..m]) + [a[m]];
        SubsequenceCons(x, a[..m], b[..n]);
        SubsequenceSnoc([x] + a[..m], [x] + b[..n], b[n]);
        SubsequenceSnoc(a[..m], [x] + b[..n], b[n]);
      } else {
        SubsequenceCons(x, a, b[..n]);
        SubsequenceSnoc([x] + a, [x] + b[..n], b[n]);
        SubsequenceSnoc(a, [x] + b[..n], b[n]);
      }
    }
  }

  lemma {:induction false} SubsequenceMembers<T>(a: seq<T>, b: seq<T>)
    requires Subsequence(a, b)
    ensures forall x | x in a :: x in b
    ensures Distinct(b) ==> Distinct(a)
    decreases |b|
  {
    if a != [] && b != [] {
      var n, m := |b| - 1, |a| - 1;
      if a[m] == b[n] && Subsequence(a[..m], b[..n]) {
        SubsequenceMembers(a[..m], b[..n]);
        assert a == a[..m] + [a[m]];
        if Distinct(b) {
          assert forall x | x in a[..m] :: x != b[n];
          assert forall i | 0 <= i < m :: a[i] in a[..m];
        }
      } else {
        SubsequenceMembers(a, b[..n]);
      }
    }
  }

  // ---- characters and strings ----

  // Characters of Unicode's White_Space property, the ones `str::trim` strips.
  predicate IsWhitespace(c: char) {
    var n := c as int;
    9 <= n <= 13 || n == 32 || n == 0x85 || n == 0xA0 || n == 0x1680 || 0x2000 <= n <= 0x200A
    || n == 0x2028 || n == 0x2029 || n == 0x202F || n == 0x205F || n == 0x3000
  }

  function TrimStart(s: string): string {
    if s != [] && IsWhitespace(s[0]) then TrimStart(s[1..]) else s
  }

  function TrimEnd(s: string): string {
    if s != [] && IsWhitespace(s[|s| - 1]) then TrimEnd(s[..|s| - 1]) else s
  }

  function Trim(s: string): string {
    TrimEnd(TrimStart(s))
  }

  // Nothing left for `Trim` to remove.
  predicate Trimmed(s: string) {
    s == [] || (!IsWhitespace(s[0]) && !IsWhitespace(s[|s| - 1]))
  }

  lemma {:induction false} TrimStartShape(s: string)
    ensures exists k | 0 <= k <= |s| :: TrimStart(s) == s[k..] && forall i | 0 <= i < k :: IsWhitespace(s[i])
    ensures TrimStart(s) == [] || !IsWhitespace(TrimStart(s)[0])
  {
    if s != [] && IsWhitespace(s[0]) {
      TrimStartShape(s[1..]);
      var k :| 0 <= k <= |s[1..]| && TrimStart(s[1..]) == s[1..][k..]
        && forall i | 0 <= i < k :: IsWhitespace(s[1..][i]);
      assert s[1..][k..] == s[k + 1..];
      forall i | 0 <= i < k + 1
        ensures IsWhitespace(s[i])
      {
        if i > 0 { assert s[1..][i - 1] == s[i]; }
      }
    } else {
      assert s[0..] == s;
    }
  }

  lemma {:induction false} TrimEndShape(s: string)
    ensures TrimEnd(s) <= s
    ensures TrimEnd(s) == [] || !IsWhitespace(TrimEnd(s)[|TrimEnd(s)| - 1])
    ensures forall i | |TrimEnd(s)| <= i < |s| :: IsWhitespace(s[i])
  {
    if s != [] && IsWhitespace(s[|s| - 1]) {
      TrimEndShape(s[..|s| - 1]);
    }
  }

  /** `Trim(s)` is a contiguous piece of `s` with whitespace around it and none at its own ends. */
  lemma TrimShape(s: string)
    ensures Trimmed(Trim(s))
    ensures forall c | c in Trim(s) :: c in s
  {
    TrimStartShape(s);
    TrimEndShape(TrimStart(s));
  }

  lemma TrimmedIsFixed(s: string)
    requires Trimmed(s)
    ensures Trim(s) == s
  {
  }

  lemma {:induction false} TrimStartSnoc(s: string, w: char)
    requires IsWhitespace(w)
    ensures TrimStart(s + [w]) == if TrimStart(s) == [] then [] else TrimStart(s) + [w]
  {
    if s == [] {
      assert (s + [w])[1..] == [];
    } else if IsWhitespace(s[0]) {
      assert (s + [w])[1..] == s[1..] + [w];
      TrimStartSnoc(s[1..], w);
    }
  }

  /** One more whitespace character at the end changes nothing. */
  lemma TrimSnoc(s: string, w: char)
    requires IsWhitespace(w)
    ensures Trim(s + [w]) == Trim(s)
  {
    TrimStartSnoc(s, w);
    var t := TrimStart(s);
    assert (t + [w])[..|t|] == t;
  }

  function Utf8Width(c: char): nat {
    var n := c as int;
    if n < 0x80 then 1 else if n < 0x800 then 2 else if n < 0x10000 then 3 else 4
  }

  // `str::len`: the number of UTF-8 bytes.
  function Utf8Len(s: string): nat {
    if s == [] then 0 else Utf8Width(s[0]) + Utf8Len(s[1..])
  }

  // `str::contains`
  predicate Contains(s: string, sub: string) {
    sub <= s || (s != [] && Contains(s[1..], sub))
  }

  // Index of the first `c`, or the length when there is none.
  function IndexOf(s: string, c: char): (k: nat)
    ensures k <= |s|
  {
    if s == [] || s[0] == c then 0 else 1 + IndexOf(s[1..], c)
  }

  lemma {:induction false} IndexOfFinds(s: string, c: char)
    ensures var k := IndexOf(s, c); c !in s[..k] && (k < |s| ==> s[k] == c)
  {
    if s != [] && s[0] != c {
      IndexOfFinds(s[1..], c);
      var k := IndexOf(s[1..], c);
      assert s[..k + 1] == [s[0]] + s[1..][..k];
    }
  }

  // `str::split` on one character: always at least one part.
  function SplitOn(s: string, c: char): (parts: seq<string>)
    ensures |parts| >= 1
    decreases |s|
  {
    var k := IndexOf(s, c);
    if k == |s| then [s] else [s[..k]] + SplitOn(s[k + 1..], c)
  }

  function Join(parts: seq<string>, c: char): string {
    if parts == [] then ""
    else if |parts| == 1 then parts[0]
    else parts[0] + [c] + Join(parts[1..], c)
  }

  lemma {:induction false} SplitParts(s: string, c: char)
    ensures forall p | p in SplitOn(s, c) :: c !in p
    decreases |s|
  {
    var k := IndexOf(s, c);
    IndexOfFinds(s, c);
    if k == |s| {
      assert s[..k] == s;
    } else {
      SplitParts(s[k + 1..], c);
    }
  }

  // Joining after a first part.
  lemma JoinCons(head: string, parts: seq<string>, c: char)
    requires parts != []
    ensures Join([head] + parts, c) == head + [c] + Join(parts, c)
  {
    assert ([head] + parts)[1..] == parts;
  }

  // Splitting off a first part.
  lemma SplitCons(head: string, tail: string, c: char)
    requires c !in head
    ensures SplitOn(head + [c] + tail, c) == [head] + SplitOn(tail, c)
  {
    var s := head + [c] + tail;
    IndexOfIs(head, [c] + tail, c);
    assert head + ([c] + tail) == s;
    assert s[..|head|] == head && s[|head| + 1..] == tail;
  }

  // Without the separator there is one part, the string itself.
  lemma SplitAlone(s: string, c: char)
    ensures |SplitOn(s, c)| == 1 <==> c !in s
    ensures |SplitOn(s, c)| == 1 ==> SplitOn(s, c) == [s]
  {
    var k := IndexOf(s, c);
    IndexOfFinds(s, c);
    if k < |s| {
      assert s[k] in s;
    } else {
      assert s[..k] == s;
    }
  }

  lemma {:induction false} JoinSnoc(parts: seq<string>, last: string, c: char)
    requires parts != []
    ensures Join(parts + [last], c) == Join(parts, c) + [c] + last
  {
    if |parts| == 1 {
      assert (parts + [last])[1..] == [last];
    } else {
      assert (parts + [last])[1..] == parts[1..] + [last];
      JoinSnoc(parts[1..], last, c);
      var rest := Join(parts[1..], c);
      assert parts[0] + [c] + (rest + [c] + last) == parts[0] + [c] + rest + [c] + last;
    }
  }

  // Appending a last part.
  lemma SplitSnoc(s: string, last: string, c: char)
    requires c !in last
    ensures SplitOn(s + [c] + last, c) == SplitOn(s, c) + [last]
  {
    var parts := SplitOn(s, c);
    JoinSplit(s, c);
    SplitParts(s, c);
    JoinSnoc(parts, last, c);
    SplitJoin(parts + [last], c);
  }

  lemma {:induction false} JoinSplit(s: string, c: char)
    ensures Join(SplitOn(s, c), c) == s
    decreases |s|
  {
    var k := IndexOf(s, c);
    IndexOfFinds(s, c);
    if k < |s| {
      var tail := s[k + 1..];
      assert s == s[..k] + [c] + tail;
      assert SplitOn(s, c) == [s[..k]] + SplitOn(tail, c);
      JoinCons(s[..k], SplitOn(tail, c), c);
      JoinSplit(tail, c);
    } else {
      assert SplitOn(s, c) == [s];
    }
  }

  // The index of a separator behind a head without one.
  lemma {:induction false} IndexOfIs(head: string, rest: string, c: char)
    requires c !in head
    requires rest == [] || rest[0] == c
    ensures IndexOf(head + rest, c) == |head|
  {
    if head == [] {
      assert head + rest == rest;
    } else {
      assert (head + rest)[1..] == head[1..] + rest;
      IndexOfIs(head[1..], rest, c);
    }
  }

  lemma {:induction false} SplitJoin(parts: seq<string>, c: char)
    requires |parts| >= 1
    requires forall p | p in parts :: c !in p
    ensures SplitOn(Join(parts, c), c) == parts
  {
    var head := parts[0];
    if |parts| == 1 {
      IndexOfIs(head, [], c);
      assert head + [] == head;
    } else {
      var rest := parts[1..];
      assert parts == [head] + rest;
      JoinCons(head, rest, c);
      SplitCons(head, Join(rest, c), c);
      SplitJoin(rest, c);
    }
  }

  // ---- decimal numbers ----

  predicate IsDigit(c: char) {
    '0' <= c <= '9'
  }

  function DigitChar(d: nat): (c: char)
    requires d < 10
    ensures IsDigit(c) && c as int - '0' as int == d
  {
    ('0' as int + d) as char
  }

  function ToDecimal(n: nat): (s: string)
    ensures |s| >= 1 && forall c | c in s :: IsDigit(c)
  {
    if n < 10 then [DigitChar(n)] else ToDecimal(n / 10) + [DigitChar(n % 10)]
  }

  function DecimalValue(s: string): nat
    requires forall c | c in s :: IsDigit(c)
  {
    if s == [] then 0
    else
      var last := s[|s| - 1];
      assert IsDigit(last);
      10 * DecimalValue(s[..|s| - 1]) + (last as int - '0' as int)
  }

  lemma {:induction false} DecimalRoundTrip(n: nat)
    ensures DecimalValue(ToDecimal(n)) == n
  {
    if n < 10 {
      assert [DigitChar(n)][..0] == [];
    } else {
      DecimalRoundTrip(n / 10);
      var s := ToDecimal(n);
      assert s[..|s| - 1] == ToDecimal(n / 10);
    }
  }

  const USIZE_BOUND: nat := 0x1_0000_0000_0000_0000

  // `str::parse::<usize>`: an optional '+', then one or more ASCII digits, within 64 bits.
  function ParseUsize(s: string): Option<nat> {
    var digits := if s != [] && s[0] == '+' then s[1..] else s;
    if digits == [] || exists c :: c in digits && !IsDigit(c) then None
    else if DecimalValue(digits) >= USIZE_BOUND then None
    else Some(DecimalValue(digits))
  }
}

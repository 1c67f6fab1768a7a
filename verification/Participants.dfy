/** Recipients: how an address is normalised for storage, and why comparing two sorted lists of
    (name, email) pairs decides whether two unordered sets of table rows are equal. */
module Participants {
  import opened Leases

  /** As the provider spells an address. */
  datatype Address = Address(name: Option<string>, email: string)

  /** As a row of the participants table stores it. */
  datatype Participant = Participant(name: Option<string>, email: string)

  type Key = (string, string)

  // --- normalisation --------------------------------------------------------------------

  predicate Space(c: char) {
    c == ' ' || '\t' <= c <= '\r' || 28 as char <= c <= 31 as char
  }

  function LowerChar(c: char): char {
    if 'A' <= c <= 'Z' then (c as int + 32) as char else c
  }

  function Lower(s: string): (r: string)
    ensures |r| == |s|
    ensures forall i :: 0 <= i < |s| ==> r[i] == LowerChar(s[i])
  {
    if s == "" then "" else [LowerChar(s[0])] + Lower(s[1..])
  }

  function StripLeft(s: string): string {
    if s != "" && Space(s[0]) then StripLeft(s[1..]) else s
  }

  function StripRight(s: string): string {
    if s != "" && Space(s[|s| - 1]) then StripRight(s[..|s| - 1]) else s
  }

  function Normalize(email: string): string {
    Lower(StripRight(StripLeft(email)))
  }

  predicate Trimmed(s: string) {
    s == "" || (!Space(s[0]) && !Space(s[|s| - 1]))
  }

  lemma {:induction false} StripRightKeepsHead(s: string)
    requires s == "" || !Space(s[0])
    ensures Trimmed(StripRight(s))
  {
    if s != "" && Space(s[|s| - 1]) {
      StripRightKeepsHead(s[..|s| - 1]);
    }
  }

  lemma {:induction false} StripLeftDropsSpace(s: string)
    ensures StripLeft(s) == "" || !Space(StripLeft(s)[0])
  {
    if s != "" && Space(s[0]) {
      StripLeftDropsSpace(s[1..]);
    }
  }

  lemma LowerKeepsTrimmed(s: string)
    requires Trimmed(s)
    ensures Trimmed(Lower(s)) && Lower(Lower(s)) == Lower(s)
  {
    if s != "" {
      assert Lower(s)[0] == LowerChar(s[0]) && Lower(s)[|s| - 1] == LowerChar(s[|s| - 1]);
    }
  }

  lemma TrimmedIsNotStripped(s: string)
    requires Trimmed(s)
    ensures StripRight(StripLeft(s)) == s
  {
  }

  /** A stored email survives being normalised again. */
  lemma NormalizeIsIdempotent(email: string)
    ensures Normalize(Normalize(email)) == Normalize(email)
  {
    hide StripLeft, StripRight, Lower, Trimmed;
    StripLeftDropsSpace(email);
    StripRightKeepsHead(StripLeft(email));
    LowerKeepsTrimmed(StripRight(StripLeft(email)));
    TrimmedIsNotStripped(Normalize(email));
  }

  // --- the list order -------------------------------------------------------------------

  predicate StringLeq(a: string, b: string) {
    a == "" || (b != "" && (a[0] < b[0] || (a[0] == b[0] && StringLeq(a[1..], b[1..]))))
  }

  predicate KeyLeq(a: Key, b: Key) {
    if a.0 == b.0 then StringLeq(a.1, b.1) else StringLeq(a.0, b.0)
  }

  lemma {:induction false} StringLeqIsTotal(a: string, b: string)
    ensures StringLeq(a, b) || StringLeq(b, a)
  {
    if a != "" && b != "" && a[0] == b[0] {
      StringLeqIsTotal(a[1..], b[1..]);
    }
  }

  lemma {:induction false} StringLeqIsAntisymmetric(a: string, b: string)
    requires StringLeq(a, b) && StringLeq(b, a)
    ensures a == b
  {
    if a != "" {
      StringLeqIsAntisymmetric(a[1..], b[1..]);
      assert a == [a[0]] + a[1..] && b == [b[0]] + b[1..];
    }
  }

  lemma {:induction false} StringLeqIsTransitive(a: string, b: string, c: string)
    requires StringLeq(a, b) && StringLeq(b, c)
    ensures StringLeq(a, c)
  {
    if a != "" && a[0] == b[0] == c[0] {
      StringLeqIsTransitive(a[1..], b[1..], c[1..]);
    }
  }

  lemma KeyLeqIsTotal(a: Key, b: Key)
    ensures KeyLeq(a, b) || KeyLeq(b, a)
  {
    StringLeqIsTotal(a.0, b.0);
    StringLeqIsTotal(a.1, b.1);
  }

  lemma KeyLeqIsAntisymmetric(a: Key, b: Key)
    requires KeyLeq(a, b) && KeyLeq(b, a)
    ensures a == b
  {
    if a.0 == b.0 {
      StringLeqIsAntisymmetric(a.1, b.1);
    } else {
      StringLeqIsAntisymmetric(a.0, b.0);
    }
  }

  lemma KeyLeqIsTransitive(a: Key, b: Key, c: Key)
    requires KeyLeq(a, b) && KeyLeq(b, c)
    ensures KeyLeq(a, c)
  {
    if a.0 == b.0 == c.0 {
      StringLeqIsTransitive(a.1, b.1, c.1);
    } else if a.0 == c.0 {
      StringLeqIsAntisymmetric(a.0, b.0);
    } else {
      StringLeqIsTotal(b.0, b.0);
      StringLeqIsTransitive(a.0, b.0, c.0);
    }
  }

  // --- sorting --------------------------------------------------------------------------

  predicate Ascending(s: seq<Key>) {
    forall i, j :: 0 <= i < j < |s| ==> KeyLeq(s[i], s[j])
  }

  function Insert(k: Key, s: seq<Key>): (r: seq<Key>)
    ensures multiset(r) == multiset(s) + multiset{k}
  {
    if s == [] || KeyLeq(k, s[0]) then
      assert [k] + s == [k] + s[..];
      [k] + s
    else
      assert s == [s[0]] + s[1..];
      [s[0]] + Insert(k, s[1..])
  }

  function Sort(s: seq<Key>): (r: seq<Key>)
    ensures multiset(r) == multiset(s)
  {
    if s == [] then []
    else
      assert s == [s[0]] + s[1..];
      Insert(s[0], Sort(s[1..]))
  }

  lemma {:induction false} InsertAscends(k: Key, s: seq<Key>)
    requires Ascending(s)
    ensures Ascending(Insert(k, s))
  {
    if s == [] {
    } else if KeyLeq(k, s[0]) {
      forall j | 0 <= j < |s| ensures KeyLeq(k, s[j]) {
        if j > 0 {
          KeyLeqIsTransitive(k, s[0], s[j]);
        }
      }
    } else {
      KeyLeqIsTotal(k, s[0]);
      InsertAscends(k, s[1..]);
      var rest := Insert(k, s[1..]);
      forall j | 0 <= j < |rest| ensures KeyLeq(s[0], rest[j]) {
        assert rest[j] in multiset(rest);
        assert rest[j] == k || rest[j] in s[1..];
      }
    }
  }

  lemma {:induction false} SortAscends(s: seq<Key>)
    ensures Ascending(Sort(s))
  {
    if s != [] {
      SortAscends(s[1..]);
      InsertAscends(s[0], Sort(s[1..]));
    }
  }

  lemma {:induction false} AscendingIsCanonical(s: seq<Key>, t: seq<Key>)
    requires Ascending(s) && Ascending(t) && multiset(s) == multiset(t)
    ensures s == t
  {
    assert |multiset(s)| == |s| && |multiset(t)| == |t|;
    if s != [] {
      assert s[0] in multiset(t) && t[0] in multiset(s);
      KeyLeqIsTotal(s[0], s[0]);
      KeyLeqIsTotal(t[0], t[0]);
      KeyLeqIsAntisymmetric(s[0], t[0]);
      assert s == [s[0]] + s[1..] && t == [t[0]] + t[1..];
      assert multiset(s[1..]) == multiset(s) - multiset{s[0]} == multiset(t[1..]);
      AscendingIsCanonical(s[1..], t[1..]);
    }
  }

  /** Comparing sorted lists compares the bags. */
  lemma SortedEqualIffSameBag(s: seq<Key>, t: seq<Key>)
    ensures Sort(s) == Sort(t) <==> multiset(s) == multiset(t)
  {
    if multiset(s) == multiset(t) {
      SortAscends(s);
      SortAscends(t);
      AscendingIsCanonical(Sort(s), Sort(t));
    }
  }

  // --- mapping over a list --------------------------------------------------------------

  function MapSeq<A, B>(f: A -> B, s: seq<A>): (r: seq<B>)
    ensures |r| == |s|
    ensures forall i :: 0 <= i < |s| ==> r[i] == f(s[i])
  {
    seq(|s|, i requires 0 <= i < |s| => f(s[i]))
  }

  ghost predicate InjectiveOn<A(!new), B>(f: A -> B, p: A -> bool) {
    forall x, y :: p(x) && p(y) && f(x) == f(y) ==> x == y
  }

  lemma {:induction false} MapCounts<A(!new), B>(f: A -> B, p: A -> bool, s: seq<A>, x: A)
    requires InjectiveOn(f, p) && p(x) && forall y :: y in s ==> p(y)
    ensures multiset(MapSeq(f, s))[f(x)] == multiset(s)[x]
  {
    hide MapSeq;
    if s != [] {
      var head, tail := s[0], s[1..];
      MapCounts(f, p, tail, x);
      assert s == [head] + tail;
      assert multiset(s) == multiset{head} + multiset(tail);
      assert MapSeq(f, s) == [f(head)] + MapSeq(f, tail);
      assert multiset(MapSeq(f, s)) == multiset{f(head)} + multiset(MapSeq(f, tail));
    }
  }

  function Without<A>(s: seq<A>, j: nat): seq<A>
    requires j < |s|
  {
    s[..j] + s[j + 1..]
  }

  lemma WithoutTakesOne<A>(s: seq<A>, j: nat)
    requires j < |s|
    ensures multiset(Without(s, j)) == multiset(s) - multiset{s[j]}
    ensures multiset(s) == multiset(Without(s, j)) + multiset{s[j]}
  {
    assert s == s[..j] + [s[j]] + s[j + 1..];
  }

  lemma MapWithout<A, B>(f: A -> B, s: seq<A>, j: nat)
    requires j < |s|
    ensures MapSeq(f, Without(s, j)) == Without(MapSeq(f, s), j)
  {
    var mapped := MapSeq(f, s);
    assert |Without(mapped, j)| == |s| - 1;
    forall i | 0 <= i < |s| - 1
      ensures Without(mapped, j)[i] == f(Without(s, j)[i])
    {
      assert Without(s, j)[i] == if i < j then s[i] else s[i + 1];
    }
  }

  lemma {:induction false} MapKeepsBags<A, B>(f: A -> B, s: seq<A>, t: seq<A>)
    requires multiset(s) == multiset(t)
    ensures multiset(MapSeq(f, s)) == multiset(MapSeq(f, t))
  {
    assert |multiset(s)| == |s| && |multiset(t)| == |t|;
    if s != [] {
      assert s[0] in multiset(t);
      var j :| 0 <= j < |t| && t[j] == s[0];
      WithoutTakesOne(s, 0);
      WithoutTakesOne(t, j);
      MapKeepsBags(f, Without(s, 0), Without(t, j));
      MapWithout(f, s, 0);
      MapWithout(f, t, j);
      WithoutTakesOne(MapSeq(f, s), 0);
      WithoutTakesOne(MapSeq(f, t), j);
    }
  }

  lemma MapReflectsBags<A(!new), B>(f: A -> B, p: A -> bool, s: seq<A>, t: seq<A>)
    requires InjectiveOn(f, p) && forall y :: y in s || y in t ==> p(y)
    ensures multiset(MapSeq(f, s)) == multiset(MapSeq(f, t)) <==> multiset(s) == multiset(t)
  {
    if multiset(s) == multiset(t) {
      MapKeepsBags(f, s, t);
    }
    if multiset(MapSeq(f, s)) == multiset(MapSeq(f, t)) {
      forall x ensures multiset(s)[x] == multiset(t)[x] {
        if x in s || x in t {
          MapCounts(f, p, s, x);
          MapCounts(f, p, t, x);
        }
      }
    }
  }

  // --- rows and addresses ---------------------------------------------------------------

  function OrEmpty(name: Option<string>): string {
    if name.Some? then name.value else ""
  }

  /** `name or None` */
  function OrNone(name: Option<string>): Option<string> {
    if name == Some("") then None else name
  }

  function Stored(a: Address): Participant {
    Participant(OrNone(a.name), Normalize(a.email))
  }

  /** A row as this program writes it. */
  predicate Canonical(p: Participant) {
    p.name != Some("") && Normalize(p.email) == p.email
  }

  function Bag(addresses: seq<Address>): multiset<Participant> {
    multiset(MapSeq(Stored, addresses))
  }

  function RowKey(p: Participant): Key {
    (OrEmpty(p.name), Normalize(p.email))
  }

  function AddressKey(a: Address): Key {
    (OrEmpty(a.name), Normalize(a.email))
  }

  lemma StoredIsCanonical(a: Address)
    ensures Canonical(Stored(a)) && RowKey(Stored(a)) == AddressKey(a)
  {
    NormalizeIsIdempotent(a.email);
  }

  lemma BagIsCanonical(addresses: seq<Address>)
    ensures forall p :: p in Bag(addresses) ==> Canonical(p)
  {
    forall p | p in Bag(addresses) ensures Canonical(p) {
      assert p in MapSeq(Stored, addresses);
      var i :| 0 <= i < |addresses| && p == Stored(addresses[i]);
      StoredIsCanonical(addresses[i]);
    }
  }

  lemma RowKeyIsInjective()
    ensures InjectiveOn(RowKey, Canonical)
  {
  }

  /** The reconciliation test: whatever order the table returns its rows in, the sorted comparison
      says whether the stored bag is the bag the incoming list would store. */
  method SameParticipants(existing: seq<Participant>, incoming: seq<Address>) returns (same: bool)
    requires forall p :: p in existing ==> Canonical(p)
    ensures same <==> multiset(existing) == Bag(incoming)
  {
    same := Sort(MapSeq(RowKey, existing)) == Sort(MapSeq(AddressKey, incoming));
    SortedEqualIffSameBag(MapSeq(RowKey, existing), MapSeq(AddressKey, incoming));
    var stored := MapSeq(Stored, incoming);
    BagIsCanonical(incoming);
    forall q | q in stored ensures Canonical(q) {
      assert q in Bag(incoming);
    }
    forall i | 0 <= i < |incoming| ensures RowKey(stored[i]) == AddressKey(incoming[i]) {
      StoredIsCanonical(incoming[i]);
    }
    assert MapSeq(RowKey, stored) == MapSeq(AddressKey, incoming);
    RowKeyIsInjective();
    MapReflectsBags(RowKey, Canonical, existing, stored);
  }
}

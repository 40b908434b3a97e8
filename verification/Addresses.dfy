/** The addresses a Gateway reports: collected from the sessions, listener by listener, and
    compared with those already reported to decide whether the status is written. */
module Addresses {
  import opened Text
  import opened Sessions
  import opened Listeners
  import opened Registry

  const HOSTNAME_TYPE := "Hostname"
  const NAMED_TYPE := "NamedAddress"

  /** A status address; a missing type is read as Hostname. */
  datatype Address = Address(addressType: Option<string>, value: string)

  function TypeOf(a: Address): string {
    if a.addressType.Some? then a.addressType.value else HOSTNAME_TYPE
  }

  function Meaning(a: Address): (string, string) {
    (TypeOf(a), a.value)
  }

  function Meanings(addresses: seq<Address>): (m: seq<(string, string)>)
    ensures |m| == |addresses| && forall i | 0 <= i < |m| :: m[i] == Meaning(addresses[i])
  {
    seq(|addresses|, i requires 0 <= i < |addresses| => Meaning(addresses[i]))
  }

  /** The address entry for an extracted host. */
  function Entry(host: string): Address {
    Address(Some(if ':' in host then NAMED_TYPE else HOSTNAME_TYPE), host)
  }

  ghost predicate DistinctValues(addresses: seq<Address>) {
    forall i, j | 0 <= i < j < |addresses| :: addresses[i].value != addresses[j].value
  }

  /** The same addresses, in any order. */
  ghost predicate SameAddresses(a: seq<Address>, b: seq<Address>) {
    multiset(Meanings(a)) == multiset(Meanings(b))
  }

  // --------------------------------------------------------------- comparison

  /** The type of the last entry with this value: what the comparison's map ends up with. */
  function LastType(addresses: seq<Address>, value: string): Option<string> {
    if addresses == [] then None
    else
      var last := addresses[|addresses| - 1];
      if last.value == value then Some(TypeOf(last)) else LastType(addresses[..|addresses| - 1], value)
  }

  /** What the comparison decides: as many entries, and for each new one the old list ends up
      with the same type for its value. */
  ghost predicate Compares(a: seq<Address>, b: seq<Address>) {
    |a| == |b| && forall i | 0 <= i < |b| :: LastType(a, b[i].value) == Some(TypeOf(b[i]))
  }

  method GatewayAddressesEqual(a: seq<Address>, b: seq<Address>) returns (equal: bool)
    ensures equal <==> Compares(a, b)
  {
    if |a| != |b| {
      return false;
    }
    var aMap: map<string, string> := map[];
    for i := 0 to |a|
      invariant forall value :: LastType(a[..i], value) == if value in aMap then Some(aMap[value]) else None
    {
      assert a[..i + 1][..i] == a[..i];
      aMap := aMap[a[i].value := TypeOf(a[i])];
    }
    assert a[..|a|] == a;
    for i := 0 to |b|
      invariant forall j | 0 <= j < i :: LastType(a, b[j].value) == Some(TypeOf(b[j]))
    {
      if b[i].value !in aMap || aMap[b[i].value] != TypeOf(b[i]) {
        return false;
      }
    }
    return true;
  }

  lemma {:induction false} LastTypeFound(addresses: seq<Address>, value: string)
    ensures LastType(addresses, value).Some? ==>
              exists i :: 0 <= i < |addresses| && Meaning(addresses[i]) == (LastType(addresses, value).value, value)
    ensures LastType(addresses, value).None? ==> forall i | 0 <= i < |addresses| :: addresses[i].value != value
  {
    if addresses != [] {
      var n := |addresses| - 1;
      LastTypeFound(addresses[..n], value);
      if addresses[n].value != value {
        if LastType(addresses[..n], value).Some? {
          var i :| 0 <= i < n && Meaning(addresses[..n][i]) == (LastType(addresses[..n], value).value, value);
          assert Meaning(addresses[i]) == (LastType(addresses, value).value, value);
        } else {
          assert forall i | 0 <= i < n :: addresses[..n][i] == addresses[i];
        }
      } else {
        assert Meaning(addresses[n]) == (LastType(addresses, value).value, value);
      }
    }
  }

  lemma SubMultiset<T>(a: multiset<T>, b: multiset<T>)
    requires b <= a && |a| == |b|
    ensures a == b
  {
    assert a == b + (a - b);
  }

  lemma {:induction false} DistinctCounts(m: seq<(string, string)>)
    requires forall i, j | 0 <= i < j < |m| :: m[i] != m[j]
    ensures forall x :: multiset(m)[x] <= 1
  {
    if m != [] {
      var n := |m| - 1;
      DistinctCounts(m[..n]);
      assert m == m[..n] + [m[n]];
      assert m[n] !in m[..n];
    }
  }

  /** Against a list without repeated values the comparison is exact: it holds for the
      permutations of that list and nothing else (a pigeonhole argument: the first list can
      neither repeat a value nor bring one of its own). */
  lemma EqualIffPermutation(a: seq<Address>, b: seq<Address>)
    requires DistinctValues(b)
    ensures Compares(a, b) <==> SameAddresses(a, b)
  {
    var ma, mb := Meanings(a), Meanings(b);
    DistinctCounts(mb);
    if Compares(a, b) {
      forall x | x in multiset(mb) ensures multiset(mb)[x] <= multiset(ma)[x] {
        var i :| 0 <= i < |mb| && mb[i] == x;
        LastTypeFound(a, b[i].value);
        var k :| 0 <= k < |a| && Meaning(a[k]) == (TypeOf(b[i]), b[i].value);
        assert ma[k] == x && x in multiset(ma);
      }
      SubMultiset(multiset(ma), multiset(mb));
    }
    if SameAddresses(a, b) {
      assert |multiset(ma)| == |ma| && |multiset(mb)| == |mb|;
      forall i | 0 <= i < |b| ensures LastType(a, b[i].value) == Some(TypeOf(b[i])) {
        assert mb[i] in multiset(ma);
        var k :| 0 <= k < |ma| && ma[k] == mb[i];
        LastTypeFound(a, b[i].value);
        var t := LastType(a, b[i].value);
        var j :| 0 <= j < |a| && Meaning(a[j]) == (t.value, b[i].value);
        assert ma[j] in multiset(mb);
        var l :| 0 <= l < |mb| && mb[l] == ma[j];
        assert b[l].value == b[i].value;
        assert l == i;
      }
    }
  }

  /** An address without a type is one of type Hostname, and of no other. */
  lemma MissingTypeIsHostname(value: string, addressType: string)
    ensures Compares([Address(None, value)], [Address(Some(addressType), value)]) <==> addressType == "Hostname"
    ensures Compares([Address(Some(addressType), value)], [Address(None, value)]) <==> addressType == "Hostname"
  {
    assert LastType([Address(None, value)], value) == Some("Hostname");
    assert LastType([Address(Some(addressType), value)], value) == Some(addressType);
    assert [Address(None, value)][0].value == value;
  }

  /** A value no entry has: longer than all of them. */
  function FreshValue(addresses: seq<Address>): (v: string)
    ensures forall i | 0 <= i < |addresses| :: |addresses[i].value| < |v|
  {
    if addresses == [] then "+"
    else FreshValue(addresses[..|addresses| - 1]) + addresses[|addresses| - 1].value
  }

  /** With one of two entries of the same value replaced by a fresh one, all entries of the
      list that repeats the value are still found. */
  lemma {:induction false} ReplacedRepeatCompares(b: seq<Address>, i: nat, j: nat)
    requires i < |b| && j < |b| && i != j && b[i].value == b[j].value
    requires Compares(b, b)
    ensures Compares(b[i := Entry(FreshValue(b))], b)
    ensures !SameAddresses(b[i := Entry(FreshValue(b))], b)
  {
    var fresh_v := FreshValue(b);
    var a := b[i := Entry(fresh_v)];
    forall k | 0 <= k < |b| ensures LastType(a, b[k].value) == Some(TypeOf(b[k])) {
      LastTypeFound(a, b[k].value);
      assert a[if k == i then j else k].value == b[k].value;
      var l :| 0 <= l < |a| && Meaning(a[l]) == (LastType(a, b[k].value).value, b[k].value);
      assert l != i && a[l] == b[l];
      assert LastType(b, b[l].value) == Some(TypeOf(b[l]));
    }
    assert Meanings(a)[i] in multiset(Meanings(a));
    assert Meanings(a)[i] !in multiset(Meanings(b));
  }

  /** The comparison with b is exact, whatever it is compared with, if and only if b repeats
      no value. */
  lemma ExactIffDistinct(b: seq<Address>)
    ensures (forall a :: Compares(a, b) <==> SameAddresses(a, b)) <==> DistinctValues(b)
  {
    if DistinctValues(b) {
      forall a ensures Compares(a, b) <==> SameAddresses(a, b) {
        EqualIffPermutation(a, b);
      }
    } else {
      var i, j :| 0 <= i < j < |b| && b[i].value == b[j].value;
      assert SameAddresses(b, b);
      if Compares(b, b) {
        ReplacedRepeatCompares(b, i, j);
      }
    }
  }

  // --------------------------------------------------------------- collection

  /** The hosts of all addresses assigned to listeners that are not rejected. */
  function ReportedHosts(p: Pool, listeners: ListenerMap, extract: string -> string): set<string> {
    set name, uri |
      name in listeners && !listeners[name].rejected && uri in UrisOf(p, listeners[name]) :: extract(uri)
  }

  function UrisOf(p: Pool, l: Listener): seq<string> {
    GetAssignedAddresses(p, l.kind, l.Key())
  }

  function HostSet(addresses: seq<Address>): set<string> {
    set i | 0 <= i < |addresses| :: addresses[i].value
  }

  ghost predicate Entries(addresses: seq<Address>) {
    forall i | 0 <= i < |addresses| :: addresses[i] == Entry(addresses[i].value)
  }

  /** Collects the addresses with the listeners visited in the runtime's order: each reported
      host once, and nothing else. */
  method UpdateGatewayAddresses(p: Pool, listeners: ListenerMap, order: seq<string>, extract: string -> string)
    returns (addresses: seq<Address>)
    requires Enumerates(order, listeners)
    ensures DistinctValues(addresses)
    ensures HostSet(addresses) == ReportedHosts(p, listeners, extract)
    ensures forall i | 0 <= i < |addresses| :: addresses[i] == Entry(addresses[i].value)
    ensures forall i | 0 <= i < |addresses| ::
              addresses[i].addressType == Some(if ':' in addresses[i].value then "NamedAddress" else "Hostname")
  {
    hide UrisOf;
    addresses := [];
    ghost var visited: set<string> := {};
    assert HostSet(addresses) == HostsOf(p, listeners, visited, extract) && DistinctValues(addresses);
    AllHosts(p, listeners, extract);
    AllVisited(order, listeners);
    hide HostSet, HostsOf, ReportedHosts, DistinctValues, Enumerates, Visited;
    for i := 0 to |order|
      invariant visited == Visited(order, i) && DistinctValues(addresses) && Entries(addresses)
      invariant HostSet(addresses) == HostsOf(p, listeners, visited, extract)
    {
      addresses := AddListener(addresses, p, listeners, visited, order[i], extract);
      VisitedNext(order, i);
      visited := visited + {order[i]};
    }
  }

  ghost function Visited(order: seq<string>, i: nat): set<string>
    requires i <= |order|
  {
    set j | 0 <= j < i :: order[j]
  }

  lemma VisitedNext(order: seq<string>, i: nat)
    requires i < |order|
    ensures Visited(order, i + 1) == Visited(order, i) + {order[i]}
  {
  }

  lemma AllVisited(order: seq<string>, listeners: ListenerMap)
    requires Enumerates(order, listeners)
    ensures Visited(order, 0) == {} && Visited(order, |order|) == listeners.Keys
    ensures forall i | 0 <= i < |order| :: order[i] in listeners
  {
    forall i | 0 <= i < |order| ensures order[i] in listeners {
      assert order[i] in order;
    }
    forall name | name in listeners ensures name in Visited(order, |order|) {
      assert name in order;
    }
  }

  /** One turn of the outer loop: a rejected listener is passed over. */
  method AddListener(
    before: seq<Address>, p: Pool, listeners: ListenerMap, ghost visited: set<string>, name: string,
    extract: string -> string)
    returns (addresses: seq<Address>)
    requires name in listeners && DistinctValues(before) && Entries(before)
    requires HostSet(before) == HostsOf(p, listeners, visited, extract)
    ensures DistinctValues(addresses) && Entries(addresses)
    ensures HostSet(addresses) == HostsOf(p, listeners, visited + {name}, extract)
  {
    hide UrisOf, HostSet, HostsOf, DistinctValues;
    var l := listeners[name];
    addresses := before;
    if !l.rejected {
      addresses := AddHosts(before, UrisOf(p, l), extract);
    }
    HostsOfMore(p, listeners, visited, name, extract);
  }

  ghost function HostsOf(p: Pool, listeners: ListenerMap, names: set<string>, extract: string -> string): set<string> {
    set name, uri |
      name in names && name in listeners && !listeners[name].rejected && uri in UrisOf(p, listeners[name]) ::
        extract(uri)
  }

  lemma AllHosts(p: Pool, listeners: ListenerMap, extract: string -> string)
    ensures HostsOf(p, listeners, listeners.Keys, extract) == ReportedHosts(p, listeners, extract)
  {
    hide UrisOf;
  }

  lemma HostsOfMore(p: Pool, listeners: ListenerMap, names: set<string>, name: string, extract: string -> string)
    requires name in listeners
    ensures HostsOf(p, listeners, names + {name}, extract)
            == HostsOf(p, listeners, names, extract)
               + if listeners[name].rejected then {} else (set uri | uri in UrisOf(p, listeners[name]) :: extract(uri))
  {
    hide UrisOf;
  }

  /** The inner loop: the URIs of one listener. */
  method AddHosts(before: seq<Address>, uris: seq<string>, extract: string -> string) returns (addresses: seq<Address>)
    requires DistinctValues(before)
    requires forall k | 0 <= k < |before| :: before[k] == Entry(before[k].value)
    ensures DistinctValues(addresses)
    ensures HostSet(addresses) == HostSet(before) + (set uri | uri in uris :: extract(uri))
    ensures forall k | 0 <= k < |addresses| :: addresses[k] == Entry(addresses[k].value)
  {
    addresses := before;
    var seen := HostSet(before);
    for i := 0 to |uris|
      invariant DistinctValues(addresses)
      invariant seen == HostSet(addresses) == HostSet(before) + (set uri | uri in uris[..i] :: extract(uri))
      invariant forall k | 0 <= k < |addresses| :: addresses[k] == Entry(addresses[k].value)
    {
      var host := extract(uris[i]);
      assert uris[..i + 1] == uris[..i] + [uris[i]];
      if host !in seen {
        HostSetAppend(addresses, Entry(host));
        addresses := addresses + [Entry(host)];
        seen := seen + {host};
      }
    }
    assert uris[..|uris|] == uris;
  }

  lemma HostSetAppend(addresses: seq<Address>, a: Address)
    ensures HostSet(addresses + [a]) == HostSet(addresses) + {a.value}
  {
    var more := addresses + [a];
    forall v | v in HostSet(addresses) ensures v in HostSet(more) {
      var i :| 0 <= i < |addresses| && addresses[i].value == v;
      assert more[i].value == v;
    }
    assert more[|addresses|].value == a.value;
  }

  // ---------------------------------------------------------- change detection

  /** Two lists of entries without repeated values are the same addresses exactly when they
      name the same hosts. */
  lemma SameHostsSameAddresses(a: seq<Address>, b: seq<Address>)
    requires DistinctValues(a) && DistinctValues(b)
    requires forall i | 0 <= i < |a| :: a[i] == Entry(a[i].value)
    requires forall i | 0 <= i < |b| :: b[i] == Entry(b[i].value)
    ensures SameAddresses(a, b) <==> HostSet(a) == HostSet(b)
  {
    var ma, mb := Meanings(a), Meanings(b);
    DistinctCounts(ma);
    DistinctCounts(mb);
    if SameAddresses(a, b) {
      SameImpliesIncluded(a, b);
      SameImpliesIncluded(b, a);
    }
    if HostSet(a) == HostSet(b) {
      forall x ensures multiset(ma)[x] == multiset(mb)[x] {
        IncludedImpliesIn(a, b, x);
        IncludedImpliesIn(b, a, x);
        assert x in multiset(ma) <==> x in multiset(mb);
      }
    }
  }

  lemma SameImpliesIncluded(a: seq<Address>, b: seq<Address>)
    requires SameAddresses(a, b)
    ensures HostSet(a) <= HostSet(b)
  {
    forall v | v in HostSet(a) ensures v in HostSet(b) {
      var i :| 0 <= i < |a| && a[i].value == v;
      assert Meanings(a)[i] in multiset(Meanings(b));
      var j :| 0 <= j < |b| && Meanings(b)[j] == Meanings(a)[i];
      assert b[j].value == v;
    }
  }

  lemma IncludedImpliesIn(a: seq<Address>, b: seq<Address>, x: (string, string))
    requires HostSet(a) <= HostSet(b)
    requires forall i | 0 <= i < |a| :: a[i] == Entry(a[i].value)
    requires forall i | 0 <= i < |b| :: b[i] == Entry(b[i].value)
    ensures x in multiset(Meanings(a)) ==> x in multiset(Meanings(b))
  {
    if x in multiset(Meanings(a)) {
      var i :| 0 <= i < |a| && Meanings(a)[i] == x;
      assert a[i].value in HostSet(b);
      var j :| 0 <= j < |b| && b[j].value == a[i].value;
      assert Meanings(b)[j] == x;
    }
  }

  /** The address half of updateGatewayStatusIfChanged: a change is detected exactly when the
      reported list is not a permutation of what any visiting order would collect now. */
  method AddressesChanged(
    reported: seq<Address>, p: Pool, listeners: ListenerMap, order: seq<string>, extract: string -> string)
    returns (changed: bool, addresses: seq<Address>)
    requires Enumerates(order, listeners)
    ensures HostSet(addresses) == ReportedHosts(p, listeners, extract)
    ensures changed <==> !SameAddresses(reported, addresses)
    ensures DistinctValues(reported) && (forall i | 0 <= i < |reported| :: reported[i] == Entry(reported[i].value)) ==>
              (changed <==> HostSet(reported) != ReportedHosts(p, listeners, extract))
  {
    addresses := UpdateGatewayAddresses(p, listeners, order, extract);
    var equal := GatewayAddressesEqual(reported, addresses);
    EqualIffPermutation(reported, addresses);
    if DistinctValues(reported) && forall i | 0 <= i < |reported| :: reported[i] == Entry(reported[i].value) {
      SameHostsSameAddresses(reported, addresses);
    }
    changed := !equal;
  }
}

/**
 DNS record reconciliation, internal/dns/providers.go. The zone at the provider is state; a
 Cloudflare zone holds records with identifiers, a PowerDNS zone one record set per name and type.
 */
module Dns {
  import opened Wrappers
  import opened Text

  datatype RecordType = A | AAAA | Other(name: string)

  /** netip.Addr: is it valid, is it IPv6, and its text. */
  datatype Addr = Invalid | V4(text: string) | V6(text: string)

  type Pair = (RecordType, string)

  function PairOf(a: Addr): Pair
    requires a != Invalid
  {
    if a.V6? then (AAAA, a.text) else (A, a.text)
  }

  /** The (type, content) pairs of the valid addresses. */
  function Desired(addrs: seq<Addr>): (r: set<Pair>)
    ensures forall a :: a in addrs && a != Invalid ==> PairOf(a) in r
    ensures forall p :: p in r ==> exists a :: a in addrs && a != Invalid && PairOf(a) == p
    ensures forall p :: p in r ==> p.0 == A || p.0 == AAAA
    ensures forall c :: ((A, c) in r <==> V4(c) in addrs) && ((AAAA, c) in r <==> V6(c) in addrs)
  {
    DesiredByFamily(addrs);
    set a | a in addrs && a != Invalid :: PairOf(a)
  }

  lemma DesiredByFamily(addrs: seq<Addr>)
    ensures var r := set a | a in addrs && a != Invalid :: PairOf(a);
            forall c :: ((A, c) in r <==> V4(c) in addrs) && ((AAAA, c) in r <==> V6(c) in addrs)
  {
    forall c
      ensures V4(c) in addrs ==> exists a :: a in addrs && a != Invalid && PairOf(a) == (A, c)
      ensures V6(c) in addrs ==> exists a :: a in addrs && a != Invalid && PairOf(a) == (AAAA, c)
    {
      assert PairOf(V4(c)) == (A, c) && PairOf(V6(c)) == (AAAA, c);
    }
  }

  datatype Failure = NoValidAddress

  // ---------------------------------------------------------------- Cloudflare

  datatype Record = Record(rtype: RecordType, name: string, content: string, ttl: int)

  /** An address record of the host. */
  predicate Ours(r: Record, host: string) { r.name == host && (r.rtype == A || r.rtype == AAAA) }

  function Served(records: map<nat, Record>, host: string): set<Pair> {
    set id | id in records && Ours(records[id], host) :: PairIn(records[id])
  }

  /** Nothing but address records of the host differs. */
  ghost predicate OthersUntouched(before: map<nat, Record>, after: map<nat, Record>, host: string) {
    && (forall id :: id in before && !Ours(before[id], host) ==> id in after && after[id] == before[id])
    && (forall id :: id in after && !Ours(after[id], host) ==> id in before && before[id] == after[id])
  }

  function PairIn(r: Record): Pair { (r.rtype, r.content) }

  /** An address record of the host whose content is no longer wanted. */
  predicate Stale(r: Record, host: string, want: set<Pair>) { Ours(r, host) && PairIn(r) !in want }

  function WithoutStale(records: map<nat, Record>, host: string, want: set<Pair>): map<nat, Record> {
    map id | id in records && !Stale(records[id], host, want) :: records[id]
  }

  /** after is before with exactly one new record for each pair of missing. */
  ghost predicate Added(before: map<nat, Record>, after: map<nat, Record>, host: string, missing: set<Pair>, ttl: int) {
    && (forall id :: id in before ==> id in after && after[id] == before[id])
    && (forall id :: id in after && id !in before ==>
          after[id].name == host && PairIn(after[id]) in missing && after[id].ttl == ttl)
    && (forall i, j :: i in after && i !in before && j in after && j !in before && PairIn(after[i]) == PairIn(after[j])
          ==> i == j)
    && (forall p :: p in missing ==> exists id :: id in after && id !in before && PairIn(after[id]) == p)
  }

  /** What one successful EnsureRecords does: stale records go, the rest stay as they are, missing pairs appear once. */
  ghost predicate Reconciled(before: map<nat, Record>, after: map<nat, Record>, host: string, want: set<Pair>,
                             ttl: int) {
    Added(WithoutStale(before, host, want), after, host, want - Served(before, host), ttl)
  }

  /** Reconciling serves exactly the wanted pairs and touches nothing else. */
  lemma ReconciledServes(before: map<nat, Record>, after: map<nat, Record>, host: string, want: set<Pair>, ttl: int)
    requires Reconciled(before, after, host, want, ttl)
    requires forall p :: p in want ==> p.0 == A || p.0 == AAAA
    ensures Served(after, host) == want
    ensures OthersUntouched(before, after, host)
  {
    var kept := WithoutStale(before, host, want);
    forall p | p in want ensures p in Served(after, host) {
      if p in Served(before, host) {
        var id :| id in before && Ours(before[id], host) && p == PairIn(before[id]);
        assert id in kept && after[id] == before[id];
      } else {
        assert p in want - Served(before, host);
        var id :| id in after && id !in kept && PairIn(after[id]) == p;
        assert Ours(after[id], host);
      }
    }
    forall id | id in after && Ours(after[id], host) ensures PairIn(after[id]) in want {
      assert id in kept ==> !Stale(before[id], host, want);
    }
    OnlyOursChange(before, after, host, want, ttl);
  }

  lemma OnlyOursChange(before: map<nat, Record>, after: map<nat, Record>, host: string, want: set<Pair>, ttl: int)
    requires Reconciled(before, after, host, want, ttl)
    requires forall p :: p in want ==> p.0 == A || p.0 == AAAA
    ensures OthersUntouched(before, after, host)
  {
    var kept := WithoutStale(before, host, want);
    forall id | id in before && !Ours(before[id], host) ensures id in after && after[id] == before[id] {
      assert id in kept;
    }
    forall id | id in after && id !in kept ensures Ours(after[id], host) {
      assert PairIn(after[id]) in want;
    }
  }

  /** A zone already in sync is left as it is. */
  lemma InSyncIsFixed(before: map<nat, Record>, after: map<nat, Record>, host: string, want: set<Pair>, ttl: int)
    requires Reconciled(before, after, host, want, ttl) && Served(before, host) == want
    ensures after == before
  {
    var kept := WithoutStale(before, host, want);
    forall id | id in before ensures id in kept {
      assert Ours(before[id], host) ==> PairIn(before[id]) in Served(before, host);
    }
    assert kept == before;
    assert want - Served(before, host) == {};
  }

  /** A second run after a successful one makes no change, whatever TTLs the two runs ask for. */
  lemma SecondRunChangesNothing(first: map<nat, Record>, second: map<nat, Record>, third: map<nat, Record>,
                                host: string, addrs: seq<Addr>, ttl: int, ttl': int)
    requires Reconciled(first, second, host, Desired(addrs), ttl)
    requires Reconciled(second, third, host, Desired(addrs), ttl')
    ensures third == second
  {
    ReconciledServes(first, second, host, Desired(addrs), ttl);
    InSyncIsFixed(second, third, host, Desired(addrs), ttl');
  }

  predicate HasRecord(records: seq<(nat, Record)>, host: string, p: Pair) {
    exists i :: 0 <= i < |records| && records[i].1.name == host && records[i].1.rtype == p.0 &&
      records[i].1.content == p.1
  }

  function Missing(listing: seq<(nat, Record)>, host: string, want: set<Pair>): set<Pair> {
    set p | p in want && !HasRecord(listing, host, p)
  }

  class CloudflareZone {
    var records: map<nat, Record>
    var next: nat

    constructor ()
      ensures records == map[] && Valid()
    {
      records, next := map[], 0;
    }

    ghost predicate Valid()
      reads this
    {
      forall id :: id in records ==> id < next
    }

    /** The provider's answer to a list request for a name: those records, each once. */
    ghost predicate Lists(listing: seq<(nat, Record)>, host: string)
      reads this
    {
      && (forall i :: 0 <= i < |listing| ==> listing[i].0 in records && records[listing[i].0] == listing[i].1)
      && (forall id :: id in records && records[id].name == host ==> (id, records[id]) in listing)
    }

    method ListRecords(host: string) returns (listing: seq<(nat, Record)>)
      ensures Lists(listing, host)
    {
      listing := [];
      var todo := records.Keys;
      while todo != {}
        invariant todo <= records.Keys
        invariant forall i :: 0 <= i < |listing| ==> listing[i].0 in records && records[listing[i].0] == listing[i].1
        invariant forall id :: id in records && id !in todo && records[id].name == host ==> (id, records[id]) in listing
        decreases todo
      {
        var id :| id in todo;
        todo := todo - {id};
        if records[id].name == host {
          listing := listing + [(id, records[id])];
        }
      }
    }

    method CreateRecord(host: string, p: Pair, ttl: int)
      requires Valid()
      modifies this
      ensures records == old(records)[old(next) := Record(p.0, host, p.1, ttl)] && next == old(next) + 1
      ensures Valid()
    {
      records := records[next := Record(p.0, host, p.1, ttl)];
      next := next + 1;
    }

    /** Remove the host's address records that are not wanted. */
    method DeleteStale(listing: seq<(nat, Record)>, host: string, want: set<Pair>)
      requires Valid() && Lists(listing, host)
      modifies this`records
      ensures records == WithoutStale(old(records), host, want)
      ensures Valid()
    {
      for i := 0 to |listing|
        invariant forall id :: id in records ==> id in old(records) && records[id] == old(records)[id]
        invariant forall id :: id in old(records) && !Stale(old(records)[id], host, want) ==> id in records
        invariant forall j :: 0 <= j < i && Stale(listing[j].1, host, want) ==> listing[j].0 !in records
        invariant Valid()
      {
        var rec := listing[i].1;
        if rec.name != host {
          continue;
        }
        if rec.rtype != A && rec.rtype != AAAA {
          continue;
        }
        if PairIn(rec) !in want {
          records := records - {listing[i].0};
        }
      }
      forall id | id in records ensures !Stale(records[id], host, want) {
        if Ours(records[id], host) {
          assert (id, old(records)[id]) in listing;
        }
      }
    }

    /** Create what is wanted and was not listed. */
    method CreateMissing(listing: seq<(nat, Record)>, host: string, want: set<Pair>, ttl: int)
      requires Valid()
      modifies this
      ensures Valid()
      ensures Added(old(records), records, host, Missing(listing, host, want), ttl)
    {
      var todo := want;
      ghost var done: set<Pair> := {};
      while todo != {}
        invariant Valid() && todo <= want
        invariant done == Missing(listing, host, want - todo)
        invariant Added(old(records), records, host, done, ttl)
        decreases todo
      {
        var p :| p in todo;
        todo := todo - {p};
        if HasRecord(listing, host, p) {
          continue;
        }
        ghost var before := records;
        var id := next;
        CreateRecord(host, p, ttl);
        AddOne(old(records), before, host, done, ttl, id, p);
        done := done + {p};
      }
      assert want - todo == want;
    }

    method EnsureRecords(host: string, addrs: seq<Addr>, ttl: int) returns (r: Result<(), Failure>)
      requires Valid()
      modifies this
      ensures Valid()
      ensures r.Err? <==> host != "" && addrs != [] && Desired(addrs) == {}
      ensures r.Err? || host == "" || addrs == [] ==> records == old(records)
      ensures r.Ok? && host != "" && addrs != [] ==>
                Reconciled(old(records), records, host, Desired(addrs), EffectiveTtl(ttl))
      ensures r.Ok? && host != "" && addrs != [] ==> Served(records, host) == Desired(addrs)
      ensures OthersUntouched(old(records), records, host)
      ensures forall id :: id in records && id !in old(records) ==> records[id].ttl == if ttl <= 0 then 300 else ttl
    {
      if host == "" || addrs == [] {
        return Ok(());
      }
      var t := ttl;
      if t <= 0 {
        t := 300;
      }
      var desired := CollectDesired(addrs);
      if desired == {} {
        return Err(NoValidAddress);
      }
      var existing := ListRecords(host);
      ghost var before := records;
      DeleteStale(existing, host, desired);
      CreateMissing(existing, host, desired, t);
      HasRecordMeansServed(before, existing, host, desired);
      assert desired - Served(before, host) == Missing(existing, host, desired);
      ReconciledServes(before, records, host, desired, t);
      return Ok(());
    }

    method DeleteRecords(host: string)
      requires Valid()
      modifies this`records
      ensures Valid()
      ensures host == "" ==> records == old(records)
      ensures host != "" ==> Served(records, host) == {}
      ensures OthersUntouched(old(records), records, host)
    {
      if host == "" {
        return;
      }
      var existing := ListRecords(host);
      DeleteStale(existing, host, {});
    }
  }

  function EffectiveTtl(ttl: int): int { if ttl <= 0 then 300 else ttl }

  lemma AddOne(start: map<nat, Record>, before: map<nat, Record>, host: string, done: set<Pair>, ttl: int, id: nat,
               p: Pair)
    requires Added(start, before, host, done, ttl) && id !in before && p !in done
    ensures Added(start, before[id := Record(p.0, host, p.1, ttl)], host, done + {p}, ttl)
  {
    var after := before[id := Record(p.0, host, p.1, ttl)];
    forall q | q in done + {p} ensures exists k :: k in after && k !in start && PairIn(after[k]) == q {
      if q in done {
        var k :| k in before && k !in start && PairIn(before[k]) == q;
        assert k in after && PairIn(after[k]) == q;
      } else {
        assert id in after && id !in start && PairIn(after[id]) == q;
      }
    }
  }

  /** The loop over the addresses that fills the desired pairs. */
  method CollectDesired(addrs: seq<Addr>) returns (desired: set<Pair>)
    ensures desired == Desired(addrs)
  {
    desired := {};
    for i := 0 to |addrs|
      invariant desired == Desired(addrs[..i])
    {
      assert addrs[..i + 1] == addrs[..i] + [addrs[i]];
      if addrs[i] == Invalid {
        assert Desired(addrs[..i + 1]) == Desired(addrs[..i]);
        continue;
      }
      desired := desired + {PairOf(addrs[i])};
      assert Desired(addrs[..i + 1]) == Desired(addrs[..i]) + {PairOf(addrs[i])};
    }
    assert addrs[..|addrs|] == addrs;
  }

  lemma HasRecordMeansServed(before: map<nat, Record>, listing: seq<(nat, Record)>, host: string, desired: set<Pair>)
    requires forall i :: 0 <= i < |listing| ==> listing[i].0 in before && before[listing[i].0] == listing[i].1
    requires forall id :: id in before && before[id].name == host ==> (id, before[id]) in listing
    requires forall p :: p in desired ==> p.0 == A || p.0 == AAAA
    ensures forall p :: p in desired ==> (HasRecord(listing, host, p) <==> p in Served(before, host))
  {
    forall p | p in desired ensures HasRecord(listing, host, p) <==> p in Served(before, host) {
      if p in Served(before, host) {
        var id :| id in before && Ours(before[id], host) && p == (before[id].rtype, before[id].content);
        var i :| 0 <= i < |listing| && listing[i] == (id, before[id]);
        assert listing[i].1.name == host;
      }
    }
  }

  // ---------------------------------------------------------------- PowerDNS

  /** A record set: the time to live and the contents in the order they were sent. */
  datatype RRSet = RRSet(ttl: int, contents: seq<string>)

  type RRSets = map<(string, RecordType), RRSet>

  function EnsureTrailingDot(value: string): string {
    var v := TrimSpace(value);
    if v == "" || v[|v| - 1] == '.' then v else v + "."
  }

  /** The name is the trimmed host with exactly one dot added when it has none at its end; nothing stays nothing. */
  lemma TrailingDot(value: string)
    ensures var t, r := TrimSpace(value), EnsureTrailingDot(value);
            && (r == "" <==> t == "")
            && (r != "" ==> r[|r| - 1] == '.')
            && (r == t || (r == t + "." && t != "" && t[|t| - 1] != '.'))
    ensures EnsureTrailingDot(EnsureTrailingDot(value)) == EnsureTrailingDot(value)
  {
    var r := EnsureTrailingDot(value);
    TrimShape(value, IsSpace);
    assert Bare(r, IsSpace);
    TrimShape(r, IsSpace);
  }

  /** The texts of the valid addresses of one family, in order. */
  function Texts(addrs: seq<Addr>, t: RecordType): seq<string> {
    if addrs == [] then []
    else
      var a := addrs[|addrs| - 1];
      Texts(addrs[..|addrs| - 1], t) + if a != Invalid && PairOf(a).0 == t then [a.text] else []
  }

  lemma {:induction false} TextsAre(addrs: seq<Addr>, t: RecordType, c: string)
    requires t == A || t == AAAA
    ensures c in Texts(addrs, t) <==> (t, c) in Desired(addrs)
  {
    if addrs != [] {
      var init, a := addrs[..|addrs| - 1], addrs[|addrs| - 1];
      TextsAre(init, t, c);
      assert addrs == init + [a];
      if b :| b in addrs && b != Invalid && PairOf(b) == (t, c) {
        assert b in init || b == a;
      }
    }
  }

  function ReplaceFamily(z: RRSets, name: string, t: RecordType, addrs: seq<Addr>, ttl: int): RRSets {
    if Texts(addrs, t) == [] then z else z[(name, t) := RRSet(ttl, Texts(addrs, t))]
  }

  /** The zone after one REPLACE per family that has a valid address. */
  function Replaced(z: RRSets, name: string, addrs: seq<Addr>, ttl: int): RRSets {
    ReplaceFamily(ReplaceFamily(z, name, A, addrs, ttl), name, AAAA, addrs, ttl)
  }

  predicate InRRSet(z: RRSets, name: string, t: RecordType, c: string) {
    (name, t) in z && c in z[(name, t)].contents
  }

  /** The name has records of this family. */
  ghost predicate Present(z: RRSets, name: string, t: RecordType) { exists c :: InRRSet(z, name, t, c) }

  /** The address pairs served for the name are exactly the wanted ones. */
  ghost predicate Serves(z: RRSets, name: string, want: set<Pair>) {
    forall t, c :: t == A || t == AAAA ==> (InRRSet(z, name, t, c) <==> (t, c) in want)
  }

  class PowerDnsZone {
    var rrsets: RRSets

    constructor ()
      ensures rrsets == map[]
    {
      rrsets := map[];
    }

    method EnsureRecords(host: string, addrs: seq<Addr>, ttl: int) returns (r: Result<(), Failure>)
      modifies this
      ensures r.Err? <==> host != "" && addrs != [] && Desired(addrs) == {}
      ensures rrsets == if r.Err? || host == "" || addrs == [] then old(rrsets)
                        else Replaced(old(rrsets), EnsureTrailingDot(host), addrs, EffectiveTtl(ttl))
      ensures r.Ok? && host != "" && Texts(addrs, A) != [] ==>
                && (EnsureTrailingDot(host), A) in rrsets
                && rrsets[(EnsureTrailingDot(host), A)] == RRSet(if ttl <= 0 then 300 else ttl, Texts(addrs, A))
      ensures r.Ok? && host != "" && Texts(addrs, AAAA) != [] ==>
                && (EnsureTrailingDot(host), AAAA) in rrsets
                && rrsets[(EnsureTrailingDot(host), AAAA)] == RRSet(if ttl <= 0 then 300 else ttl, Texts(addrs, AAAA))
    {
      if host == "" || addrs == [] {
        return Ok(());
      }
      var t := ttl;
      if t <= 0 {
        t := 300;
      }
      var name := EnsureTrailingDot(host);
      var v4, v6 := SplitFamilies(addrs);
      NoTextsMeansNoneDesired(addrs);
      if v4 == [] && v6 == [] {
        return Err(NoValidAddress);
      }
      if v4 != [] {
        rrsets := rrsets[(name, A) := RRSet(t, v4)];
      }
      if v6 != [] {
        rrsets := rrsets[(name, AAAA) := RRSet(t, v6)];
      }
      return Ok(());
    }

    method DeleteRecords(host: string)
      modifies this
      ensures host == "" ==> rrsets == old(rrsets)
      ensures host != "" ==> Serves(rrsets, EnsureTrailingDot(host), {})
      ensures forall k :: k !in {(EnsureTrailingDot(host), A), (EnsureTrailingDot(host), AAAA)} ==>
                (k in rrsets <==> k in old(rrsets)) && (k in rrsets ==> rrsets[k] == old(rrsets)[k])
    {
      if host == "" {
        return;
      }
      var name := EnsureTrailingDot(host);
      rrsets := rrsets - {(name, A), (name, AAAA)};
    }
  }

  method SplitFamilies(addrs: seq<Addr>) returns (v4: seq<string>, v6: seq<string>)
    ensures v4 == Texts(addrs, A) && v6 == Texts(addrs, AAAA)
  {
    v4, v6 := [], [];
    for i := 0 to |addrs|
      invariant v4 == Texts(addrs[..i], A) && v6 == Texts(addrs[..i], AAAA)
    {
      assert addrs[..i + 1][..i] == addrs[..i];
      match addrs[i]
      case Invalid => {}
      case V6(text) => v6 := v6 + [text];
      case V4(text) => v4 := v4 + [text];
    }
    assert addrs[..|addrs|] == addrs;
  }

  lemma NoTextsMeansNoneDesired(addrs: seq<Addr>)
    ensures Desired(addrs) == {} <==> Texts(addrs, A) == [] && Texts(addrs, AAAA) == []
  {
    if Texts(addrs, A) != [] {
      TextsAre(addrs, A, Texts(addrs, A)[0]);
    }
    if Texts(addrs, AAAA) != [] {
      TextsAre(addrs, AAAA, Texts(addrs, AAAA)[0]);
    }
    if p :| p in Desired(addrs) {
      TextsAre(addrs, p.0, p.1);
    }
  }

  /**
   PowerDNS serves the desired pairs afterwards if and only if every family the name had records
   of is among the valid addresses: a family that dropped out keeps its old records.
   */
  lemma PowerReachesDesiredIff(z: RRSets, name: string, addrs: seq<Addr>, ttl: int)
    ensures Serves(Replaced(z, name, addrs, ttl), name, Desired(addrs)) <==>
            forall t :: (t == A || t == AAAA) && Present(z, name, t) ==> Texts(addrs, t) != []
  {
    FamilyReachesIff(z, name, addrs, ttl, A);
    FamilyReachesIff(z, name, addrs, ttl, AAAA);
  }

  ghost predicate FamilyServed(z: RRSets, name: string, t: RecordType, want: set<Pair>) {
    forall c :: InRRSet(z, name, t, c) <==> (t, c) in want
  }

  lemma FamilyReachesIff(z: RRSets, name: string, addrs: seq<Addr>, ttl: int, t: RecordType)
    requires t == A || t == AAAA
    ensures FamilyServed(Replaced(z, name, addrs, ttl), name, t, Desired(addrs)) <==>
            (Present(z, name, t) ==> Texts(addrs, t) != [])
  {
    var after := Replaced(z, name, addrs, ttl);
    forall c ensures (t, c) in Desired(addrs) <==> c in Texts(addrs, t) {
      TextsAre(addrs, t, c);
    }
    if Texts(addrs, t) == [] {
      assert forall c :: InRRSet(after, name, t, c) <==> InRRSet(z, name, t, c);
      if c :| InRRSet(z, name, t, c) {
        assert InRRSet(after, name, t, c);
      }
    } else {
      assert after[(name, t)].contents == Texts(addrs, t);
    }
  }

  /** A host that moves from IPv4 to IPv6 keeps its old A records. */
  lemma DroppedFamilyLingers(name: string, old4: string, new6: string, ttl: int)
    ensures !Serves(Replaced(map[(name, A) := RRSet(ttl, [old4])], name, [V6(new6)], ttl), name, Desired([V6(new6)]))
  {
    var z: RRSets := map[(name, A) := RRSet(ttl, [old4])];
    assert InRRSet(z, name, A, old4);
    assert [V6(new6)][..0] == [];
    assert Texts([V6(new6)], A) == [];
    PowerReachesDesiredIff(z, name, [V6(new6)], ttl);
  }

  /** REPLACE touches no other name and no other type, and repeating it changes nothing. */
  lemma PowerFrame(z: RRSets, name: string, addrs: seq<Addr>, ttl: int)
    ensures Replaced(Replaced(z, name, addrs, ttl), name, addrs, ttl) == Replaced(z, name, addrs, ttl)
    ensures forall k :: k !in {(name, A), (name, AAAA)} ==>
              (k in Replaced(z, name, addrs, ttl) <==> k in z) && (k in z ==> Replaced(z, name, addrs, ttl)[k] == z[k])
  {
    var once := Replaced(z, name, addrs, ttl);
    assert Replaced(once, name, addrs, ttl) == once;
  }
}

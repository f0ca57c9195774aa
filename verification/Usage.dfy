/** Usage records, and sums of one meter over selected items. */
module UsageSums {
  import opened Enumerations

  datatype Usage = Usage(cpu: int, memory: int, storage: int, egress: int, lbHours: int)

  datatype Meter = Cpu | Memory | Storage | Egress | LbHours

  const ZERO := Usage(0, 0, 0, 0, 0)

  function Read(u: Usage, meter: Meter): int {
    match meter
    case Cpu => u.cpu
    case Memory => u.memory
    case Storage => u.storage
    case Egress => u.egress
    case LbHours => u.lbHours
  }

  function Plus(a: Usage, b: Usage): Usage {
    Usage(a.cpu + b.cpu, a.memory + b.memory, a.storage + b.storage, a.egress + b.egress, a.lbHours + b.lbHours)
  }

  lemma PlusLaws(a: Usage, b: Usage, c: Usage)
    ensures Plus(Plus(a, b), c) == Plus(a, Plus(b, c))
    ensures Plus(a, ZERO) == a
  {
  }

  /** What the items that `p` selects read on the meter. */
  function SumIf<T>(items: seq<T>, p: T -> bool, amount: T -> Usage, meter: Meter): int {
    if items == [] then 0
    else
      var last := items[|items| - 1];
      SumIf(items[..|items| - 1], p, amount, meter) + if p(last) then Read(amount(last), meter) else 0
  }

  lemma SumIfAppend<T>(items: seq<T>, x: T, p: T -> bool, amount: T -> Usage, meter: Meter)
    ensures SumIf(items + [x], p, amount, meter) == SumIf(items, p, amount, meter) +
      if p(x) then Read(amount(x), meter) else 0
  {
    assert (items + [x])[..|items|] == items;
  }

  lemma {:induction false} SumIfCongruent<T>(items: seq<T>, p: T -> bool, q: T -> bool, amount: T -> Usage,
                                             meter: Meter)
    requires forall i :: 0 <= i < |items| ==> p(items[i]) == q(items[i])
    ensures SumIf(items, p, amount, meter) == SumIf(items, q, amount, meter)
  {
    if items != [] {
      SumIfCongruent(items[..|items| - 1], p, q, amount, meter);
    }
  }

  lemma {:induction false} SumIfNone<T>(items: seq<T>, p: T -> bool, amount: T -> Usage, meter: Meter)
    requires forall i :: 0 <= i < |items| ==> !p(items[i])
    ensures SumIf(items, p, amount, meter) == 0
  {
    if items != [] {
      SumIfNone(items[..|items| - 1], p, amount, meter);
    }
  }

  /** Disjoint selections add up. */
  lemma {:induction false} SumIfSplit<T>(items: seq<T>, p: T -> bool, q: T -> bool, either: T -> bool,
                                         amount: T -> Usage, meter: Meter)
    requires forall i :: 0 <= i < |items| ==>
               !(p(items[i]) && q(items[i])) && either(items[i]) == (p(items[i]) || q(items[i]))
    ensures SumIf(items, either, amount, meter) == SumIf(items, p, amount, meter) + SumIf(items, q, amount, meter)
  {
    if items != [] {
      SumIfSplit(items[..|items| - 1], p, q, either, amount, meter);
    }
  }

  /** The sum of a table over some of its keys. */
  function Total(m: map<string, Usage>, order: seq<string>, meter: Meter): int
    requires forall k :: k in order ==> k in m
  {
    if order == [] then 0
    else Total(m, order[..|order| - 1], meter) + Read(m[order[|order| - 1]], meter)
  }

  // ---------------------------------------------------------------- grouping

  function Get(m: map<string, Usage>, k: string): Usage { if k in m then m[k] else ZERO }

  /** Items that `p` selects and that have the key `k`. */
  function InGroup<T>(p: T -> bool, key: T -> string, k: string): T -> bool { x => p(x) && key(x) == k }

  function InGroups<T>(p: T -> bool, key: T -> string, ks: seq<string>): T -> bool { x => p(x) && key(x) in ks }

  ghost predicate HasGroup<T>(items: seq<T>, p: T -> bool, key: T -> string, k: string) {
    exists i :: 0 <= i < |items| && InGroup(p, key, k)(items[i])
  }

  /** `m` has exactly the groups of the selected items, and each reads what its items read. */
  ghost predicate Groups<T>(m: map<string, Usage>, items: seq<T>, p: T -> bool, key: T -> string, amount: T -> Usage) {
    && (forall k :: k in m <==> HasGroup(items, p, key, k))
    && (forall k, meter :: k in m ==> Read(m[k], meter) == SumIf(items, InGroup(p, key, k), amount, meter))
  }

  /** The items determine their table. */
  lemma GroupsUnique<T>(m: map<string, Usage>, n: map<string, Usage>, items: seq<T>, p: T -> bool, key: T -> string,
                        amount: T -> Usage)
    requires Groups(m, items, p, key, amount) && Groups(n, items, p, key, amount)
    ensures m == n
  {
    forall k | k in m ensures k in n && m[k] == n[k] {
      assert HasGroup(items, p, key, k);
      SameReadings(m[k], n[k]);
    }
    forall k | k in n ensures k in m {
      assert HasGroup(items, p, key, k);
    }
  }

  lemma SameReadings(a: Usage, b: Usage)
    requires forall meter :: Read(a, meter) == Read(b, meter)
    ensures a == b
  {
    assert Read(a, Cpu) == Read(b, Cpu) && Read(a, Memory) == Read(b, Memory) && Read(a, Storage) == Read(b, Storage);
    assert Read(a, Egress) == Read(b, Egress) && Read(a, LbHours) == Read(b, LbHours);
  }

  lemma HasGroupAppend<T>(items: seq<T>, x: T, p: T -> bool, key: T -> string, k: string)
    ensures HasGroup(items + [x], p, key, k) <==> HasGroup(items, p, key, k) || InGroup(p, key, k)(x)
  {
    var more := items + [x];
    assert more[|items|] == x;
    if i :| 0 <= i < |items| && InGroup(p, key, k)(items[i]) {
      assert InGroup(p, key, k)(more[i]);
    }
  }

  /** Adding one item to its group keeps the table exact. */
  lemma GroupsStep<T>(m: map<string, Usage>, items: seq<T>, x: T, p: T -> bool, key: T -> string, amount: T -> Usage)
    requires Groups(m, items, p, key, amount)
    ensures Groups(if p(x) then m[key(x) := Plus(Get(m, key(x)), amount(x))] else m, items + [x], p, key, amount)
  {
    var v := if p(x) then m[key(x) := Plus(Get(m, key(x)), amount(x))] else m;
    forall k ensures k in v <==> HasGroup(items + [x], p, key, k) {
      HasGroupAppend(items, x, p, key, k);
    }
    forall k, meter | k in v ensures Read(v[k], meter) == SumIf(items + [x], InGroup(p, key, k), amount, meter) {
      SumIfAppend(items, x, InGroup(p, key, k), amount, meter);
      if k !in m {
        SumIfNone(items, InGroup(p, key, k), amount, meter);
      }
    }
  }

  /** The groups whose keys are listed add up to the items that have one of those keys. */
  lemma {:induction false} GroupsAddUp<T>(m: map<string, Usage>, items: seq<T>, p: T -> bool, key: T -> string,
                                          amount: T -> Usage, order: seq<string>, meter: Meter)
    requires Groups(m, items, p, key, amount)
    requires forall i, j :: 0 <= i < j < |order| ==> order[i] != order[j]
    requires forall k :: k in order ==> k in m
    ensures Total(m, order, meter) == SumIf(items, InGroups(p, key, order), amount, meter)
    decreases |order|
  {
    if order == [] {
      SumIfNone(items, InGroups(p, key, order), amount, meter);
    } else {
      var rest, k := order[..|order| - 1], order[|order| - 1];
      GroupsAddUp(m, items, p, key, amount, rest, meter);
      SumIfSplit(items, InGroups(p, key, rest), InGroup(p, key, k), InGroups(p, key, order), amount, meter);
    }
  }

  /** Conservation: however the keys are enumerated, the groups add up to the selected items. */
  lemma GroupsConserve<T>(m: map<string, Usage>, items: seq<T>, p: T -> bool, key: T -> string, amount: T -> Usage,
                          order: seq<string>, meter: Meter)
    requires Groups(m, items, p, key, amount) && Enumerates(order, m.Keys)
    ensures Total(m, order, meter) == SumIf(items, p, amount, meter)
  {
    GroupsAddUp(m, items, p, key, amount, order, meter);
    forall i | 0 <= i < |items| ensures InGroups(p, key, order)(items[i]) == p(items[i]) {
      if p(items[i]) {
        assert InGroup(p, key, key(items[i]))(items[i]);
        assert HasGroup(items, p, key, key(items[i]));
      }
    }
    SumIfCongruent(items, InGroups(p, key, order), p, amount, meter);
  }
}

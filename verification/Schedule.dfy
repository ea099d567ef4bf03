/**
 The frozen benchmark schedule and execution order (bench/harness.py) and the reducer's independent checker
 (bench/scorer/evaluation.py). Digests are uninterpreted functions; the shuffle is any permutation.
 */
module Schedule {
  import opened Wrappers
  import opened Sequences
  import opened Sorting

  /** A cell of the context factorial. */
  datatype Cell = Cell(context: string, state: string)

  datatype Host = Host(name: string, model: string)
  datatype Case = Case(id: string, category: string, repository: string, source: string)

  /** The parts of the frozen protocol that the schedule depends on, after scope selection. */
  datatype Protocol = Protocol(experiment: string, hosts: seq<Host>, limitProfile: string, cells: seq<Option<Cell>>,
                               arms: seq<string>, blocks: seq<string>)

  datatype Slot = Slot(experiment: string, host: Host, scheduled: Case, repetition: int, limitProfile: string,
                       cell: Option<Cell>, arms: seq<string>, blocks: seq<string>)

  /** One arm and stage block of a slot. */
  datatype Entry = Entry(slot: Slot, arm: string, block: string)

  datatype Identity = Identity(ordinal: int, slotDigest: string, arm: string, block: string, cell: Option<Cell>)

  datatype OrderSlot = OrderSlot(entry: Entry, slotDigest: string, ordinal: int, orderDigest: string)

  datatype Digests = Digests(slot: Slot -> string, order: Identity -> string)

  // ---- Products, in the order of nested loops ----

  function Row<A, B>(x: A, ys: seq<B>): seq<(A, B)> {
    seq(|ys|, i requires 0 <= i < |ys| => (x, ys[i]))
  }

  function Pairs<A, B>(xs: seq<A>, ys: seq<B>): seq<(A, B)> {
    if xs == [] then [] else Pairs(xs[..|xs| - 1], ys) + Row(xs[|xs| - 1], ys)
  }

  method AllPairs<A(!new), B(!new)>(xs: seq<A>, ys: seq<B>) returns (pairs: seq<(A, B)>)
    ensures pairs == Pairs(xs, ys)
  {
    pairs := [];
    for i := 0 to |xs|
      invariant pairs == Pairs(xs[..i], ys)
    {
      assert xs[..i + 1][..i] == xs[..i] && xs[..i + 1][i] == xs[i];
      ghost var before := pairs;
      for j := 0 to |ys|
        invariant pairs == before + Row(xs[i], ys)[..j]
      {
        pairs := pairs + [(xs[i], ys[j])];
      }
      assert Row(xs[i], ys)[..|ys|] == Row(xs[i], ys);
    }
    assert xs[..|xs|] == xs;
  }

  lemma {:induction false} PairsMembers<A(!new), B(!new)>(xs: seq<A>, ys: seq<B>)
    ensures forall x, y :: (x, y) in Pairs(xs, ys) <==> x in xs && y in ys
  {
    if xs != [] {
      var n := |xs| - 1;
      PairsMembers(xs[..n], ys);
      assert xs == xs[..n] + [xs[n]];
      forall x, y ensures (x, y) in Row(xs[n], ys) <==> x == xs[n] && y in ys {
        if y in ys {
          var j :| 0 <= j < |ys| && ys[j] == y;
          assert Row(xs[n], ys)[j] == (xs[n], y);
        }
      }
    }
  }

  lemma {:induction false} PairsDistinct<A(!new), B(!new)>(xs: seq<A>, ys: seq<B>)
    requires Distinct(xs) && Distinct(ys)
    ensures Distinct(Pairs(xs, ys))
  {
    if xs != [] {
      var n := |xs| - 1;
      PairsDistinct(xs[..n], ys);
      PairsMembers(xs[..n], ys);
      var front, row := Pairs(xs[..n], ys), Row(xs[n], ys);
      assert xs[n] !in xs[..n];
      forall i, j | 0 <= i < |front| && 0 <= j < |row| ensures front[i] != row[j] {
        assert front[i] in front;
        assert (front[i].0, front[i].1) in front;
      }
      DistinctApart(front, row);
    }
  }

  // ---- The schedule ----

  type Coordinates = (((Host, Case), int), Option<Cell>)

  function MakeSlot(p: Protocol, c: Coordinates): Slot {
    Slot(p.experiment, c.0.0.0, c.0.0.1, c.0.1, p.limitProfile, c.1, p.arms, p.blocks)
  }

  /** 1, ..., n. */
  function Upto(n: nat): seq<int> {
    seq(n, i => i + 1)
  }

  function AllCoordinates(p: Protocol, cases: seq<Case>, repetitions: nat): seq<Coordinates> {
    Pairs(Pairs(Pairs(p.hosts, cases), Upto(repetitions)), p.cells)
  }

  function MakeSlots(p: Protocol, cs: seq<Coordinates>): seq<Slot> {
    seq(|cs|, i requires 0 <= i < |cs| => MakeSlot(p, cs[i]))
  }

  /** The sort key: host, case id, repetition; equal keys keep their order. */
  predicate SlotLeq(a: Slot, b: Slot) {
    if a.host.name != b.host.name then LexLeq(a.host.name, b.host.name)
    else if a.scheduled.id != b.scheduled.id then LexLeq(a.scheduled.id, b.scheduled.id)
    else a.repetition <= b.repetition
  }

  /** `build_schedule`. */
  method BuildSchedule(p: Protocol, cases: seq<Case>, repetitions: int) returns (r: Result<seq<Slot>>)
    ensures r.Success? <==>
              repetitions >= 3 && (p.hosts == [] || forall i :: 0 <= i < |cases| ==> |cases[i].source| == 64)
    ensures r.Success? ==> r.value == Sort(MakeSlots(p, AllCoordinates(p, cases, repetitions)), SlotLeq)
  {
    if repetitions < 3 {
      return Failure("repetitions must be at least three");
    }
    if p.hosts != [] && exists i :: 0 <= i < |cases| && |cases[i].source| != 64 {
      return Failure("each redacted case requires source_manifest_sha256");
    }
    var hostCases := AllPairs(p.hosts, cases);
    var repeated := AllPairs(hostCases, Upto(repetitions));
    var coordinates := AllPairs(repeated, p.cells);
    var slots := [];
    for i := 0 to |coordinates|
      invariant slots == MakeSlots(p, coordinates)[..i]
    {
      slots := slots + [MakeSlot(p, coordinates[i])];
    }
    assert MakeSlots(p, coordinates)[..|coordinates|] == MakeSlots(p, coordinates);
    r := Success(Sort(slots, SlotLeq));
  }

  // ---- The execution order ----

  function SlotEntries(s: Slot): seq<Entry> {
    var pairs := Pairs(s.arms, s.blocks);
    seq(|pairs|, i requires 0 <= i < |pairs| => Entry(s, pairs[i].0, pairs[i].1))
  }

  function Entries(schedule: seq<Slot>): seq<Entry> {
    if schedule == [] then [] else Entries(schedule[..|schedule| - 1]) + SlotEntries(schedule[|schedule| - 1])
  }

  ghost predicate Shuffles(shuffle: seq<Entry> -> seq<Entry>) {
    forall xs :: multiset(shuffle(xs)) == multiset(xs)
  }

  function Numbered(es: seq<Entry>, d: Digests): seq<OrderSlot> {
    seq(|es|, i requires 0 <= i < |es| => OrderSlotOf(es[i], i + 1, d))
  }

  function IdentityOf(e: Entry, slotDigest: string, ordinal: int): Identity {
    Identity(ordinal, slotDigest, e.arm, e.block, e.slot.cell)
  }

  function OrderSlotOf(e: Entry, ordinal: int, d: Digests): OrderSlot {
    OrderSlot(e, d.slot(e.slot), ordinal, d.order(IdentityOf(e, d.slot(e.slot), ordinal)))
  }

  /** `execution_order`. */
  method ExecutionOrder(schedule: seq<Slot>, shuffle: seq<Entry> -> seq<Entry>, d: Digests)
      returns (order: seq<OrderSlot>)
    ensures order == Numbered(shuffle(Entries(schedule)), d)
  {
    var entries := [];
    for i := 0 to |schedule|
      invariant entries == Entries(schedule[..i])
    {
      assert schedule[..i + 1][..i] == schedule[..i] && schedule[..i + 1][i] == schedule[i];
      entries := entries + SlotEntries(schedule[i]);
    }
    assert schedule[..|schedule|] == schedule;
    var shuffled := shuffle(entries);
    order := [];
    for i := 0 to |shuffled|
      invariant order == Numbered(shuffled, d)[..i]
    {
      order := order + [OrderSlotOf(shuffled[i], i + 1, d)];
    }
  }

  // ---- The reducer's checker ----

  /** `_slot`: the fields that identify an invocation, with their defaults. */
  datatype Key = Key(experiment: string, host: string, model: string, caseId: string, repetition: int,
                     limitProfile: string, arm: string, block: string, context: string, state: string)

  function KeyOf(e: Entry): Key {
    var s := e.slot;
    var cell := if s.cell.Some? then s.cell.value else Cell("off", "none");
    Key(s.experiment, s.host.name, s.host.model, s.scheduled.id, s.repetition, s.limitProfile, e.arm, e.block,
        cell.context, cell.state)
  }

  /** `schedule_by_key`: a later entry with the same key replaces an earlier one. */
  function ByKey(es: seq<Entry>): map<Key, Entry> {
    if es == [] then map[] else ByKey(es[..|es| - 1])[KeyOf(es[|es| - 1]) := es[|es| - 1]]
  }

  /** An order slot repeats its scheduled slot and binds its digests. */
  predicate Binds(o: OrderSlot, expected: Entry, d: Digests) {
    && o.entry == expected && o.slotDigest == d.slot(expected.slot) && o.ordinal >= 1
    && o.orderDigest == d.order(IdentityOf(o.entry, o.slotDigest, o.ordinal))
  }

  function OrderKeys(order: seq<OrderSlot>): seq<Key> {
    seq(|order|, i requires 0 <= i < |order| => KeyOf(order[i].entry))
  }

  function Ordinals(order: seq<OrderSlot>): set<int> {
    set i | 0 <= i < |order| :: order[i].ordinal
  }

  ghost predicate Acceptable(schedule: seq<Slot>, order: seq<OrderSlot>, d: Digests) {
    var expected := ByKey(Entries(schedule));
    && (forall i :: 0 <= i < |order| ==>
          KeyOf(order[i].entry) in expected && Binds(order[i], expected[KeyOf(order[i].entry)], d))
    && Distinct(OrderKeys(order)) && Elements(OrderKeys(order)) == expected.Keys
    && Ordinals(order) == Elements(Upto(|order|))
  }

  /** `_validate_execution_order`, for an order whose document digest matched. */
  method ValidateExecutionOrder(schedule: seq<Slot>, order: seq<OrderSlot>, d: Digests) returns (ok: bool)
    ensures ok <==> Acceptable(schedule, order, d)
  {
    hide Entries, ByKey, KeyOf;
    var expected := ByKey(Entries(schedule));
    var keys := OrderKeys(order);
    var seen: set<Key> := {};
    for i := 0 to |order|
      invariant seen == Elements(keys[..i]) && Distinct(keys[..i])
      invariant forall k :: 0 <= k < i ==>
                  KeyOf(order[k].entry) in expected && Binds(order[k], expected[KeyOf(order[k].entry)], d)
    {
      var key := KeyOf(order[i].entry);
      assert keys[i] == key;
      if key !in expected || !Binds(order[i], expected[key], d) {
        return false;
      }
      if key in seen {
        assert key in keys[..i];
        return false;
      }
      assert keys[..i + 1] == keys[..i] + [key];
      seen := seen + {key};
    }
    assert keys[..|order|] == keys;
    DistinctCount(keys);
    ok := seen == expected.Keys && Ordinals(order) == Elements(Upto(|seen|));
  }

  // ---- The producer passes the checker ----

  /** The defaults do not make two cells look the same. */
  ghost predicate CellsDiffer(cells: seq<Option<Cell>>) {
    forall i, j :: 0 <= i < j < |cells| ==>
      (if cells[i].Some? then cells[i].value else Cell("off", "none")) != (if cells[j].Some? then cells[j].value
          else Cell("off", "none"))
  }

  function HostNames(hosts: seq<Host>): seq<string> {
    seq(|hosts|, i requires 0 <= i < |hosts| => hosts[i].name)
  }

  function CaseIds(cases: seq<Case>): seq<string> {
    seq(|cases|, i requires 0 <= i < |cases| => cases[i].id)
  }

  ghost predicate WellFormed(p: Protocol, cases: seq<Case>) {
    Distinct(HostNames(p.hosts)) && Distinct(CaseIds(cases)) && Distinct(p.arms) && Distinct(p.blocks)
        && CellsDiffer(p.cells)
  }

  /** Slots with the same base key are the same slot. */
  ghost predicate SeparatedBy(slots: seq<Slot>) {
    forall i, j :: 0 <= i < j < |slots| ==> !SameBase(slots[i], slots[j])
  }

  predicate SameBase(a: Slot, b: Slot) {
    KeyOf(Entry(a, "", "")) == KeyOf(Entry(b, "", ""))
  }

  lemma HostsByName(hosts: seq<Host>, a: Host, b: Host)
    requires Distinct(HostNames(hosts)) && a in hosts && b in hosts && a.name == b.name
    ensures a == b
  {
    var i :| 0 <= i < |hosts| && hosts[i] == a;
    var j :| 0 <= j < |hosts| && hosts[j] == b;
    assert HostNames(hosts)[i] == HostNames(hosts)[j];
  }

  lemma CasesById(cases: seq<Case>, a: Case, b: Case)
    requires Distinct(CaseIds(cases)) && a in cases && b in cases && a.id == b.id
    ensures a == b
  {
    var i :| 0 <= i < |cases| && cases[i] == a;
    var j :| 0 <= j < |cases| && cases[j] == b;
    assert CaseIds(cases)[i] == CaseIds(cases)[j];
  }

  lemma CellsByValue(cells: seq<Option<Cell>>, a: Option<Cell>, b: Option<Cell>)
    requires CellsDiffer(cells) && a in cells && b in cells
    requires (if a.Some? then a.value else Cell("off", "none")) == (if b.Some? then b.value else Cell("off", "none"))
    ensures a == b
  {
    var i :| 0 <= i < |cells| && cells[i] == a;
    var j :| 0 <= j < |cells| && cells[j] == b;
    if i < j {
    } else if j < i {
    }
  }

  lemma DistinctFromProjection(p: Protocol, cases: seq<Case>)
    requires WellFormed(p, cases)
    ensures Distinct(p.hosts) && Distinct(cases) && Distinct(p.cells)
  {
    forall i, j | 0 <= i < j < |p.hosts|
      ensures p.hosts[i] != p.hosts[j]
    {
      assert HostNames(p.hosts)[i] != HostNames(p.hosts)[j];
    }
    forall i, j | 0 <= i < j < |cases| ensures cases[i] != cases[j] { assert CaseIds(cases)[i] != CaseIds(cases)[j]; }
  }

  lemma CoordinatesAre(p: Protocol, cases: seq<Case>, repetitions: nat)
    requires WellFormed(p, cases)
    ensures Distinct(AllCoordinates(p, cases, repetitions))
    ensures forall c :: c in AllCoordinates(p, cases, repetitions) ==>
              c.0.0.0 in p.hosts && c.0.0.1 in cases && c.1 in p.cells
  {
    hide Pairs;
    DistinctFromProjection(p, cases);
    var a := Pairs(p.hosts, cases);
    var b := Pairs(a, Upto(repetitions));
    PairsDistinct(p.hosts, cases);
    PairsDistinct(a, Upto(repetitions));
    PairsDistinct(b, p.cells);
    PairsMembers(p.hosts, cases);
    PairsMembers(a, Upto(repetitions));
    PairsMembers(b, p.cells);
    forall c | c in AllCoordinates(p, cases, repetitions)
      ensures c.0.0.0 in p.hosts && c.0.0.1 in cases && c.1 in p.cells
    {
      assert (c.0, c.1) in Pairs(b, p.cells);
      assert (c.0.0, c.0.1) in b;
      assert (c.0.0.0, c.0.0.1) in a;
    }
  }

  lemma SlotsSeparated(p: Protocol, cases: seq<Case>, repetitions: nat)
    requires WellFormed(p, cases)
    ensures SeparatedBy(MakeSlots(p, AllCoordinates(p, cases, repetitions)))
  {
    CoordinatesAre(p, cases, repetitions);
    hide AllCoordinates, WellFormed;
    var cs := AllCoordinates(p, cases, repetitions);
    var slots := MakeSlots(p, cs);
    forall i, j | 0 <= i < j < |slots| ensures !SameBase(slots[i], slots[j]) {
      if SameBase(slots[i], slots[j]) {
        SameCoordinates(p, cases, cs[i], cs[j]);
      }
    }
  }

  lemma SameCoordinates(p: Protocol, cases: seq<Case>, a: Coordinates, b: Coordinates)
    requires WellFormed(p, cases) && SameBase(MakeSlot(p, a), MakeSlot(p, b))
    requires a.0.0.0 in p.hosts && b.0.0.0 in p.hosts && a.0.0.1 in cases && b.0.0.1 in cases && a.1 in p.cells
             && b.1 in p.cells
    ensures a == b
  {
    HostsByName(p.hosts, a.0.0.0, b.0.0.0);
    CasesById(cases, a.0.0.1, b.0.0.1);
    CellsByValue(p.cells, a.1, b.1);
  }

  /** Sorting keeps the slots apart. */
  lemma SlotPreorder()
    ensures TotalPreorder(SlotLeq)
  {
    LexIsTotalOrder();
    hide LexLeq;
  }

  /** The schedule goes host by host, case by case and repetition by repetition. */
  lemma {:induction false} ScheduleGoesInOrder(p: Protocol, cases: seq<Case>, repetitions: nat, i: nat, j: nat)
    requires i < j < |Sort(MakeSlots(p, AllCoordinates(p, cases, repetitions)), SlotLeq)|
    ensures var schedule := Sort(MakeSlots(p, AllCoordinates(p, cases, repetitions)), SlotLeq);
            var a, b := schedule[i], schedule[j];
            && LexLeq(a.host.name, b.host.name)
            && (a.host.name == b.host.name ==> LexLeq(a.scheduled.id, b.scheduled.id))
            && (a.host.name == b.host.name && a.scheduled.id == b.scheduled.id ==> a.repetition <= b.repetition)
  {
    SlotPreorder();
    LexIsTotalOrder();
    var slots := MakeSlots(p, AllCoordinates(p, cases, repetitions));
    SortCorrect(slots, SlotLeq);
    hide MakeSlots, AllCoordinates, LexLeq, Sort;
    var schedule := Sort(slots, SlotLeq);
    assert SlotLeq(schedule[i], schedule[j]);
  }

  lemma {:induction false} SortSeparated(slots: seq<Slot>)
    requires SeparatedBy(slots)
    ensures SeparatedBy(Sort(slots, SlotLeq)) && multiset(Sort(slots, SlotLeq)) == multiset(slots)
  {
    SortMultiset(slots);
    hide Sort, KeyOf;
    var sorted := Sort(slots, SlotLeq);
    SeparatedDistinct(slots);
    DistinctMultiset(slots);
    forall x | x in multiset(sorted) ensures multiset(sorted)[x] == 1 { assert x in multiset(slots); }
    MultisetDistinct(sorted);
    forall i, j | 0 <= i < j < |sorted| ensures !SameBase(sorted[i], sorted[j]) {
      assert sorted[i] in multiset(sorted) && sorted[j] in multiset(sorted);
      var a :| 0 <= a < |slots| && slots[a] == sorted[i];
      var b :| 0 <= b < |slots| && slots[b] == sorted[j];
      assert a != b;
      if a < b { assert !SameBase(slots[a], slots[b]); } else { assert !SameBase(slots[b], slots[a]); }
    }
  }

  lemma SortMultiset(xs: seq<Slot>)
    ensures multiset(Sort(xs, SlotLeq)) == multiset(xs)
  {
    hide SlotLeq;
    if xs != [] {
      SortMultiset(xs[1..]);
      InsertMultiset(xs[0], Sort(xs[1..], SlotLeq), SlotLeq);
      assert xs == [xs[0]] + xs[1..];
    }
  }

  lemma SeparatedDistinct(slots: seq<Slot>)
    requires SeparatedBy(slots)
    ensures Distinct(slots)
  {
  }

  function EntryKeys(es: seq<Entry>): seq<Key> {
    seq(|es|, i requires 0 <= i < |es| => KeyOf(es[i]))
  }

  lemma SlotKeysDistinct(s: Slot)
    requires Distinct(s.arms) && Distinct(s.blocks)
    ensures Distinct(EntryKeys(SlotEntries(s)))
    ensures forall i :: 0 <= i < |SlotEntries(s)| ==> SlotEntries(s)[i].slot == s
  {
    PairsDistinct(s.arms, s.blocks);
    hide Pairs;
  }

  lemma EntryBase(a: Entry, b: Entry)
    requires KeyOf(a) == KeyOf(b)
    ensures SameBase(a.slot, b.slot)
  {
  }

  lemma LastSlotApart(schedule: seq<Slot>, front: seq<Entry>, last: seq<Entry>)
    requires SeparatedBy(schedule) && schedule != []
    requires forall i :: 0 <= i < |front| ==> front[i].slot in schedule[..|schedule| - 1]
    requires forall j :: 0 <= j < |last| ==> last[j].slot == schedule[|schedule| - 1]
    ensures forall i, j :: 0 <= i < |front| && 0 <= j < |last| ==> EntryKeys(front)[i] != EntryKeys(last)[j]
  {
    hide KeyOf, SameBase;
    forall i, j | 0 <= i < |front| && 0 <= j < |last| ensures EntryKeys(front)[i] != EntryKeys(last)[j] {
      assert front[i].slot in schedule[..|schedule| - 1];
      var k :| 0 <= k < |schedule| - 1 && schedule[..|schedule| - 1][k] == front[i].slot;
      assert schedule[k] == front[i].slot;
      if KeyOf(front[i]) == KeyOf(last[j]) { EntryBase(front[i], last[j]); }
    }
  }

  lemma {:induction false} KeysDistinct(schedule: seq<Slot>)
    requires SeparatedBy(schedule) && forall i :: 0 <= i < |schedule| ==>
               Distinct(schedule[i].arms) && Distinct(schedule[i].blocks)
    ensures Distinct(EntryKeys(Entries(schedule)))
    ensures forall i :: 0 <= i < |Entries(schedule)| ==> Entries(schedule)[i].slot in schedule
  {
    hide SlotEntries, KeyOf, SameBase;
    if schedule != [] {
      var n := |schedule| - 1;
      KeysDistinct(schedule[..n]);
      SlotKeysDistinct(schedule[n]);
      var front, last := Entries(schedule[..n]), SlotEntries(schedule[n]);
      LastSlotApart(schedule, front, last);
      DistinctApart(EntryKeys(front), EntryKeys(last));
      assert EntryKeys(front + last) == EntryKeys(front) + EntryKeys(last);
      assert schedule == schedule[..n] + [schedule[n]];
    }
  }

  lemma {:induction false} ByKeyIs(es: seq<Entry>)
    requires Distinct(EntryKeys(es))
    ensures forall i :: 0 <= i < |es| ==> KeyOf(es[i]) in ByKey(es) && ByKey(es)[KeyOf(es[i])] == es[i]
    ensures forall k :: k in ByKey(es) ==> exists i :: 0 <= i < |es| && KeyOf(es[i]) == k
  {
    hide KeyOf;
    if es != [] {
      var n := |es| - 1;
      assert EntryKeys(es[..n]) == EntryKeys(es)[..n];
      ByKeyIs(es[..n]);
      forall i | 0 <= i < n ensures KeyOf(es[i]) in ByKey(es) && ByKey(es)[KeyOf(es[i])] == es[i] {
        assert es[..n][i] == es[i] && EntryKeys(es)[i] != EntryKeys(es)[n];
      }
    }
  }

  /** Any permutation of entries with distinct keys, numbered, is acceptable. */
  lemma {:induction false} NumberedIsAcceptable(schedule: seq<Slot>, shuffled: seq<Entry>, d: Digests)
    requires Distinct(EntryKeys(Entries(schedule))) && multiset(shuffled) == multiset(Entries(schedule))
    ensures Acceptable(schedule, Numbered(shuffled, d), d)
  {
    hide KeyOf, Entries, ByKey;
    var es := Entries(schedule);
    var order, expected := Numbered(shuffled, d), ByKey(es);
    ByKeyIs(es);
    forall i | 0 <= i < |order|
      ensures KeyOf(order[i].entry) in expected && Binds(order[i], expected[KeyOf(order[i].entry)], d)
    {
      assert shuffled[i] in multiset(shuffled);
      var k :| 0 <= k < |es| && es[k] == shuffled[i];
    }
    PermutedKeys(es, shuffled);
    assert OrderKeys(order) == EntryKeys(shuffled);
    assert Elements(OrderKeys(order)) == expected.Keys by { SameKeys(es, shuffled, expected); }
    OrdinalsAre(shuffled, d);
  }

  lemma OrdinalsAre(es: seq<Entry>, d: Digests)
    ensures Ordinals(Numbered(es, d)) == Elements(Upto(|es|))
  {
    hide KeyOf;
    var order := Numbered(es, d);
    forall k | k in Upto(|es|) ensures k in Ordinals(order) { assert order[k - 1].ordinal == k; }
    forall k | k in Ordinals(order) ensures k in Upto(|es|) { assert Upto(|es|)[k - 1] == k; }
  }

  lemma PermutedKeys(es: seq<Entry>, shuffled: seq<Entry>)
    requires Distinct(EntryKeys(es)) && multiset(shuffled) == multiset(es)
    ensures Distinct(EntryKeys(shuffled))
  {
    hide KeyOf;
    EntriesDistinct(es);
    DistinctMultiset(es);
    forall x | x in multiset(shuffled) ensures multiset(shuffled)[x] == 1 { assert x in multiset(es); }
    MultisetDistinct(shuffled);
    forall i, j | 0 <= i < j < |shuffled| ensures EntryKeys(shuffled)[i] != EntryKeys(shuffled)[j] {
      assert shuffled[i] in multiset(shuffled) && shuffled[j] in multiset(shuffled);
      var a :| 0 <= a < |es| && es[a] == shuffled[i];
      var b :| 0 <= b < |es| && es[b] == shuffled[j];
      assert EntryKeys(es)[a] != EntryKeys(es)[b];
    }
  }

  lemma SameKeys(es: seq<Entry>, shuffled: seq<Entry>, expected: map<Key, Entry>)
    requires multiset(shuffled) == multiset(es)
    requires forall i :: 0 <= i < |es| ==> KeyOf(es[i]) in expected
    requires forall k :: k in expected ==> exists i :: 0 <= i < |es| && KeyOf(es[i]) == k
    ensures Elements(EntryKeys(shuffled)) == expected.Keys
  {
    hide KeyOf;
    forall k | k in expected ensures k in Elements(EntryKeys(shuffled)) {
      var i :| 0 <= i < |es| && KeyOf(es[i]) == k;
      assert es[i] in multiset(es);
      var j :| 0 <= j < |shuffled| && shuffled[j] == es[i];
      assert EntryKeys(shuffled)[j] == k;
    }
    forall k | k in Elements(EntryKeys(shuffled)) ensures k in expected {
      var j :| 0 <= j < |shuffled| && EntryKeys(shuffled)[j] == k;
      assert shuffled[j] in multiset(shuffled);
      var i :| 0 <= i < |es| && es[i] == shuffled[j];
    }
  }

  lemma {:induction false} BuiltKeysDistinct(p: Protocol, cases: seq<Case>, repetitions: nat)
    requires WellFormed(p, cases)
    ensures Distinct(EntryKeys(Entries(Sort(MakeSlots(p, AllCoordinates(p, cases, repetitions)), SlotLeq))))
  {
    var slots := MakeSlots(p, AllCoordinates(p, cases, repetitions));
    var schedule := Sort(slots, SlotLeq);
    SlotsSeparated(p, cases, repetitions);
    SortSeparated(slots);
    forall i | 0 <= i < |schedule| ensures Distinct(schedule[i].arms) && Distinct(schedule[i].blocks) {
      assert schedule[i] in multiset(schedule);
      var k :| 0 <= k < |slots| && slots[k] == schedule[i];
    }
    hide Sort, AllCoordinates, Entries, KeyOf;
    KeysDistinct(schedule);
  }

  /** For distinct hosts, cases, arms, blocks and cells, and any shuffle, the frozen order passes the checker. */
  lemma {:induction false} FrozenOrderIsAccepted(p: Protocol, cases: seq<Case>, repetitions: nat,
                                                 shuffle: seq<Entry> -> seq<Entry>, d: Digests)
    requires WellFormed(p, cases) && Shuffles(shuffle)
    ensures var schedule := Sort(MakeSlots(p, AllCoordinates(p, cases, repetitions)), SlotLeq);
            Acceptable(schedule, Numbered(shuffle(Entries(schedule)), d), d)
  {
    BuiltKeysDistinct(p, cases, repetitions);
    hide Sort, AllCoordinates, Entries, KeyOf, WellFormed;
    var schedule := Sort(MakeSlots(p, AllCoordinates(p, cases, repetitions)), SlotLeq);
    NumberedIsAcceptable(schedule, shuffle(Entries(schedule)), d);
  }

  // ---- What the checker's acceptance means ----

  predicate HasOrdinal(order: seq<OrderSlot>, n: int) {
    exists i :: 0 <= i < |order| && order[i].ordinal == n
  }

  function OrdinalList(order: seq<OrderSlot>): seq<int> {
    seq(|order|, i requires 0 <= i < |order| => order[i].ordinal)
  }

  function EntriesOf(order: seq<OrderSlot>): seq<Entry> {
    seq(|order|, i requires 0 <= i < |order| => order[i].entry)
  }

  /** Each slot, arm and block of the schedule is run as often as it is scheduled, and nothing else is run. */
  ghost predicate RunsExactly(schedule: seq<Slot>, order: seq<OrderSlot>) {
    multiset(EntriesOf(order)) == multiset(Entries(schedule))
  }

  /** The ordinals are 1..n, each once. */
  ghost predicate OrdinalsCount(order: seq<OrderSlot>) {
    Distinct(OrdinalList(order)) && forall n :: n in Upto(|order|) <==> HasOrdinal(order, n)
  }

  /**
   An accepted order is a bijection onto slot x arm x block, with ordinals 1..n, if and only if no two entries of
   the schedule share a key; the checker alone does not see a duplicate, because the later entry replaces the
   earlier one in its table.
   */
  lemma {:induction false} AcceptedOrderIsABijection(schedule: seq<Slot>, order: seq<OrderSlot>, d: Digests)
    requires Acceptable(schedule, order, d)
    ensures RunsExactly(schedule, order) <==> Distinct(EntryKeys(Entries(schedule)))
    ensures OrdinalsCount(order)
  {
    OrdinalsMeet(order);
    hide KeyOf, Entries, Binds, HasOrdinal, Upto, OrdinalList, Ordinals;
    var es := Entries(schedule);
    if Distinct(EntryKeys(es)) {
      assert EntryKeys(EntriesOf(order)) == OrderKeys(order);
      AcceptedRunsAll(es, EntriesOf(order));
    } else if RunsExactly(schedule, order) {
      assert |order| == |multiset(EntriesOf(order))| == |es|;
      ByKeyKeys(es);
      CountDistinct(OrderKeys(order));
      CountDistinct(EntryKeys(es));
    }
  }

  /** Every slot of an accepted order is what `execution_order` writes for its entry at its ordinal, of 1..n. */
  lemma AcceptedSlotsAreSealed(schedule: seq<Slot>, order: seq<OrderSlot>, d: Digests, i: nat)
    requires Acceptable(schedule, order, d) && i < |order|
    ensures order[i] == OrderSlotOf(order[i].entry, order[i].ordinal, d) && 1 <= order[i].ordinal <= |order|
  {
    hide KeyOf, Entries, ByKey;
    assert order[i].ordinal in Ordinals(order);
    assert order[i].ordinal in Elements(Upto(|order|));
  }

  lemma {:induction false} ByKeyKeys(es: seq<Entry>)
    ensures ByKey(es).Keys == Elements(EntryKeys(es))
  {
    hide KeyOf;
    if es == [] {
      assert Elements(EntryKeys(es)) == {};
    } else {
      var n := |es| - 1;
      ByKeyKeys(es[..n]);
      assert EntryKeys(es) == EntryKeys(es[..n]) + [KeyOf(es[n])];
      ElementsAppend(EntryKeys(es[..n]), [KeyOf(es[n])]);
      assert Elements([KeyOf(es[n])]) == {KeyOf(es[n])};
    }
  }

  lemma EntriesDistinct(es: seq<Entry>)
    requires Distinct(EntryKeys(es))
    ensures Distinct(es)
  {
    hide KeyOf;
    forall i, j | 0 <= i < j < |es| ensures es[i] != es[j] { assert EntryKeys(es)[i] != EntryKeys(es)[j]; }
  }

  /** Each run entry is the scheduled entry of its key, and each scheduled key is run. */
  ghost predicate RunsKeysOf(es: seq<Entry>, run: seq<Entry>) {
    && (forall i :: 0 <= i < |run| ==> KeyOf(run[i]) in ByKey(es) && ByKey(es)[KeyOf(run[i])] == run[i])
    && Distinct(EntryKeys(run)) && Elements(EntryKeys(run)) == ByKey(es).Keys
  }

  lemma SameEntries(es: seq<Entry>, run: seq<Entry>, e: Entry)
    requires Distinct(EntryKeys(es)) && RunsKeysOf(es, run)
    ensures e in es <==> e in run
  {
    ByKeyIs(es);
    hide KeyOf, ByKey;
    if e in es {
      assert KeyOf(e) in Elements(EntryKeys(run));
      var j :| 0 <= j < |run| && EntryKeys(run)[j] == KeyOf(e);
      assert run[j] == e;
    }
    if e in run {
      var i :| 0 <= i < |es| && KeyOf(es[i]) == KeyOf(e);
      assert es[i] == e;
    }
  }

  /** With distinct keys, an order over exactly those keys that repeats the scheduled entries runs each once. */
  lemma {:induction false} AcceptedRunsAll(es: seq<Entry>, run: seq<Entry>)
    requires Distinct(EntryKeys(es)) && RunsKeysOf(es, run)
    ensures multiset(run) == multiset(es)
  {
    EntriesDistinct(es);
    EntriesDistinct(run);
    forall e ensures e in es <==> e in run { SameEntries(es, run, e); }
    hide RunsKeysOf, EntryKeys;
    assert Elements(es) == Elements(run);
    SameElementsSameMultiset(run, es);
  }

  /** `reduce_evaluation`'s own pass over the schedule: it refuses a duplicate key. */
  method NoDuplicateSlot(schedule: seq<Slot>) returns (ok: bool)
    ensures ok <==> Distinct(EntryKeys(Entries(schedule)))
  {
    hide Entries, KeyOf;
    var es := Entries(schedule);
    var keys := EntryKeys(es);
    var expected: map<Key, Entry> := map[];
    for i := 0 to |es|
      invariant expected.Keys == Elements(keys[..i]) && Distinct(keys[..i])
    {
      var key := KeyOf(es[i]);
      assert keys[i] == key;
      if key in expected {
        assert key in keys[..i];
        return false;
      }
      assert keys[..i + 1] == keys[..i] + [key];
      expected := expected[key := es[i]];
    }
    assert keys[..|es|] == keys;
    ok := true;
  }

  /** For a schedule built from distinct parts, every accepted order is a bijection onto slot x arm x block. */
  lemma {:induction false} BuiltScheduleRunsExactly(p: Protocol, cases: seq<Case>, repetitions: nat,
                                                    order: seq<OrderSlot>, d: Digests)
    requires WellFormed(p, cases)
    requires Acceptable(Sort(MakeSlots(p, AllCoordinates(p, cases, repetitions)), SlotLeq), order, d)
    ensures RunsExactly(Sort(MakeSlots(p, AllCoordinates(p, cases, repetitions)), SlotLeq), order)
    ensures OrdinalsCount(order)
  {
    BuiltKeysDistinct(p, cases, repetitions);
    AcceptedOrderIsABijection(Sort(MakeSlots(p, AllCoordinates(p, cases, repetitions)), SlotLeq), order, d);
  }

  lemma EntriesTwice(s: Slot)
    requires s.arms == ["a"] && s.blocks == ["b"]
    ensures Entries([s, s]) == [Entry(s, "a", "b"), Entry(s, "a", "b")]
  {
    assert ["a"][..0] == [];
    assert Pairs(["a"], ["b"]) == [("a", "b")];
    hide Pairs;
    assert SlotEntries(s) == [Entry(s, "a", "b")];
    assert [s, s][..1] == [s] && [s][..0] == [];
    assert Entries([s]) == [Entry(s, "a", "b")];
  }

  lemma ByKeyTwice(e: Entry)
    ensures ByKey([e, e]) == map[KeyOf(e) := e]
  {
    hide KeyOf;
    assert [e, e][..1] == [e] && [e][..0] == [];
    assert ByKey([e]) == map[KeyOf(e) := e];
  }

  /** At an input: a slot scheduled twice passes the checker with an order that runs it once. */
  lemma DuplicateSlotRunsOnce(s: Slot, d: Digests)
    requires s.arms == ["a"] && s.blocks == ["b"]
    ensures var order := [OrderSlotOf(Entry(s, "a", "b"), 1, d)];
            Acceptable([s, s], order, d) && |Entries([s, s])| == 2 && !RunsExactly([s, s], order)
  {
    var e := Entry(s, "a", "b");
    var order := [OrderSlotOf(e, 1, d)];
    EntriesTwice(s);
    ByKeyTwice(e);
    hide KeyOf, ByKey, Entries;
    assert OrderKeys(order) == [KeyOf(e)];
    assert Elements(OrderKeys(order)) == {KeyOf(e)};
    assert order[0].ordinal == 1 && Upto(1) == [1];
    assert Ordinals(order) == {1} == Elements(Upto(1));
    assert |multiset(EntriesOf(order))| == 1;
  }

  lemma OrdinalsMeet(order: seq<OrderSlot>)
    requires Ordinals(order) == Elements(Upto(|order|))
    ensures Distinct(OrdinalList(order))
    ensures forall n :: n in Upto(|order|) <==> HasOrdinal(order, n)
  {
    var ordinals := OrdinalList(order);
    DistinctCount(Upto(|order|));
    assert |Upto(|order|)| == |order|;
    hide Upto;
    forall n ensures n in Elements(ordinals) <==> n in Ordinals(order) {
      if n in Ordinals(order) {
        var i :| 0 <= i < |order| && order[i].ordinal == n;
        assert ordinals[i] == n;
      }
    }
    assert Elements(ordinals) == Ordinals(order);
    CountDistinct(ordinals);
    forall n ensures n in Upto(|order|) <==> HasOrdinal(order, n) {
      assert n in Upto(|order|) <==> n in Elements(Upto(|order|));
    }
  }
}

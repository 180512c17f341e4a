/** The kernel module's list of animals: sorted insertion with counting, and the filtered listings. */
module AnimalList {

  const UINT: nat := 0x1_0000_0000

  /** strcmp: the sign of the first difference; a string that ends first comes first. */
  function Strcmp(a: string, b: string): int {
    if a == [] && b == [] then 0
    else if a == [] then -1
    else if b == [] then 1
    else if a[0] != b[0] then (if a[0] < b[0] then -1 else 1)
    else Strcmp(a[1..], b[1..])
  }

  lemma StrcmpEqual(a: string, b: string)
    ensures Strcmp(a, b) == 0 <==> a == b
  {
    if a != [] && b != [] && a[0] == b[0] {
      StrcmpEqual(a[1..], b[1..]);
      assert a == [a[0]] + a[1..] && b == [b[0]] + b[1..];
    }
  }

  lemma StrcmpFlips(a: string, b: string)
    ensures Strcmp(a, b) > 0 <==> Strcmp(b, a) < 0
  {
  }

  lemma StrcmpChains(a: string, b: string, c: string)
    requires Strcmp(a, b) < 0 && Strcmp(b, c) < 0
    ensures Strcmp(a, c) < 0
  {
  }

  /** The order of strings: at the first difference the smaller character comes first, or the end. */
  ghost predicate Precedes(a: string, b: string) {
    exists k: nat :: k <= |a| && k < |b| && a[..k] == b[..k] && (k == |a| || a[k] < b[k])
  }

  /** The first difference decides: a common beginning does not matter. */
  lemma {:induction false} FirstDifference(p: string, a: string, b: string)
    requires a == [] || b == [] || a[0] != b[0]
    ensures Strcmp(p + a, p + b) < 0 <==> b != [] && (a == [] || a[0] < b[0])
    ensures Strcmp(p + a, p + b) == 0 <==> a == [] && b == []
  {
    if p == [] {
      assert p + a == a && p + b == b;
    } else {
      FirstDifference(p[1..], a, b);
      assert (p + a)[1..] == p[1..] + a && (p + b)[1..] == p[1..] + b;
    }
  }

  lemma {:induction false} CommonBeginning(a: string, b: string) returns (k: nat)
    ensures k <= |a| && k <= |b| && a[..k] == b[..k] && (k == |a| || k == |b| || a[k] != b[k])
  {
    if a == [] || b == [] || a[0] != b[0] {
      k := 0;
    } else {
      var j := CommonBeginning(a[1..], b[1..]);
      k := j + 1;
      assert a[..k] == [a[0]] + a[1..][..j] && b[..k] == [b[0]] + b[1..][..j];
    }
  }

  /** So strcmp decides that order. */
  lemma StrcmpIsOrder(a: string, b: string)
    ensures Strcmp(a, b) < 0 <==> Precedes(a, b)
  {
    var k := CommonBeginning(a, b);
    assert a == a[..k] + a[k..] && b == a[..k] + b[k..];
    FirstDifference(a[..k], a[k..], b[k..]);
    if Precedes(a, b) {
      var j: nat :| j <= |a| && j < |b| && a[..j] == b[..j] && (j == |a| || a[j] < b[j]);
      assert a == a[..j] + a[j..] && b == a[..j] + b[j..];
      FirstDifference(a[..j], a[j..], b[j..]);
    }
  }

  // ----- the table of species -----

  datatype Entry = Entry(species: string, count: nat)

  function Occurrences(seeds: seq<string>, species: string): nat {
    if seeds == [] then 0
    else Occurrences(seeds[..|seeds| - 1], species) + if seeds[|seeds| - 1] == species then 1 else 0
  }

  ghost predicate Ascending(list: seq<Entry>) {
    forall i, j :: 0 <= i < j < |list| ==> Strcmp(list[i].species, list[j].species) < 0
  }

  /** What one round of listInitialize does to the list: the first entry not before `species` decides. */
  function Inserted(list: seq<Entry>, species: string): seq<Entry> {
    if list == [] then [Entry(species, 1)]
    else
      var c := Strcmp(list[0].species, species);
      if c == 0 then [Entry(species, (list[0].count + 1) % UINT)] + list[1..]
      else if c > 0 then [Entry(species, 1)] + list
      else [list[0]] + Inserted(list[1..], species)
  }

  function Built(seeds: seq<string>): seq<Entry> {
    if seeds == [] then [] else Inserted(Built(seeds[..|seeds| - 1]), seeds[|seeds| - 1])
  }

  /** The count the list holds for a species: 0 if it has no entry. */
  function Held(list: seq<Entry>, species: string): nat {
    if list == [] then 0
    else if list[0].species == species then list[0].count
    else Held(list[1..], species)
  }

  predicate Has(list: seq<Entry>, species: string) {
    list != [] && (list[0].species == species || Has(list[1..], species))
  }

  lemma HasAt(list: seq<Entry>, species: string)
    ensures Has(list, species) <==> exists i :: 0 <= i < |list| && list[i].species == species
  {
    if list != [] {
      HasAt(list[1..], species);
      if Has(list, species) && list[0].species != species {
        var i :| 0 <= i < |list| - 1 && list[1..][i].species == species;
        assert list[i + 1].species == species;
      }
      if i :| 0 <= i < |list| && list[i].species == species && i > 0 {
        assert list[1..][i - 1].species == species;
      }
    }
  }

  /** After the first entry of an ascending list come only greater species. */
  lemma HeadIsLeast(list: seq<Entry>, species: string)
    requires Ascending(list) && list != [] && Has(list[1..], species)
    ensures Strcmp(list[0].species, species) < 0
  {
    HasAt(list[1..], species);
    var i :| 0 <= i < |list| - 1 && list[1..][i].species == species;
    assert list[i + 1].species == species;
  }

  lemma PrependAscending(e: Entry, list: seq<Entry>)
    requires Ascending(list)
    requires list != [] ==> Strcmp(e.species, list[0].species) < 0
    ensures Ascending([e] + list)
  {
    var r := [e] + list;
    forall i, j | 0 <= i < j < |r| ensures Strcmp(r[i].species, r[j].species) < 0 {
      if i == 0 && j > 1 { StrcmpChains(e.species, list[0].species, list[j - 1].species); }
    }
  }

  lemma {:induction false} InsertedAscending(list: seq<Entry>, species: string)
    requires Ascending(list)
    ensures Ascending(Inserted(list, species)) && Inserted(list, species) != []
    ensures var first := Inserted(list, species)[0].species;
            first == species || (list != [] && first == list[0].species)
  {
    if list != [] {
      var c := Strcmp(list[0].species, species);
      StrcmpEqual(list[0].species, species);
      StrcmpFlips(list[0].species, species);
      if c > 0 {
        PrependAscending(Entry(species, 1), list);
      } else if c < 0 {
        InsertedAscending(list[1..], species);
        PrependAscending(list[0], Inserted(list[1..], species));
      }
    }
  }

  /** Inserting counts the species once more and leaves every other one as it was. */
  lemma {:induction false} InsertedHolds(list: seq<Entry>, species: string, other: string)
    requires Ascending(list)
    ensures Has(Inserted(list, species), other) <==> Has(list, other) || other == species
    ensures Held(Inserted(list, species), other)
         == if other != species then Held(list, other)
            else if Has(list, species) then (Held(list, species) + 1) % UINT
            else 1
  {
    if list != [] {
      var c := Strcmp(list[0].species, species);
      StrcmpEqual(list[0].species, species);
      if c > 0 {
        assert ([Entry(species, 1)] + list)[1..] == list;
        if Has(list[1..], species) {
          HeadIsLeast(list, species);
        }
      } else if c < 0 {
        InsertedHolds(list[1..], species, other);
        assert ([list[0]] + Inserted(list[1..], species))[1..] == Inserted(list[1..], species);
      } else {
        assert ([Entry(species, (list[0].count + 1) % UINT)] + list[1..])[1..] == list[1..];
      }
    }
  }

  /**
   For any seeds: the species of the list are in strictly ascending order, they are the seeds,
   and each counts its occurrences (in an unsigned int).
   */
  lemma {:induction false} BuiltExactly(seeds: seq<string>, species: string)
    ensures Ascending(Built(seeds))
    ensures Has(Built(seeds), species) <==> Occurrences(seeds, species) > 0
    ensures Held(Built(seeds), species) == Occurrences(seeds, species) % UINT
  {
    if seeds != [] {
      hide Ascending, Inserted, Has, Held;
      var front, last := seeds[..|seeds| - 1], seeds[|seeds| - 1];
      BuiltExactly(front, species);
      WrapsLate(Occurrences(front, species), 1);
      InsertedAscending(Built(front), last);
      InsertedHolds(Built(front), last, species);
    }
  }

  /** Wrapping an unsigned int at each addition is wrapping the sum. */
  lemma WrapsLate(x: nat, y: nat)
    requires y < UINT
    ensures (x % UINT + y) % UINT == (x + y) % UINT
  {
    var q, r := x / UINT, x % UINT;
    assert x + y == q * UINT + (r + y);
  }

  lemma OccurrencesIsMultiplicity(seeds: seq<string>, species: string)
    ensures Occurrences(seeds, species) == multiset(seeds)[species]
  {
    if seeds != [] {
      var front, last := seeds[..|seeds| - 1], seeds[|seeds| - 1];
      OccurrencesIsMultiplicity(front, species);
      assert seeds == front + [last];
    }
  }

  lemma HeldAt(list: seq<Entry>, i: nat)
    requires Ascending(list) && i < |list|
    ensures Held(list, list[i].species) == list[i].count
  {
    if i > 0 {
      assert Strcmp(list[0].species, list[i].species) < 0;
      StrcmpEqual(list[0].species, list[i].species);
      HeldAt(list[1..], i - 1);
    }
  }

  /** The table of some seeds: in order, each species of the seeds once, with its multiplicity. */
  ghost predicate TableOf(list: seq<Entry>, seeds: seq<string>) {
    && (forall i, j :: 0 <= i < j < |list| ==> Precedes(list[i].species, list[j].species))
    && (forall i :: 0 <= i < |list| ==>
          list[i].species in seeds && list[i].count == multiset(seeds)[list[i].species] % UINT)
    && (forall s <- seeds :: exists i :: 0 <= i < |list| && list[i].species == s)
  }

  lemma BuiltIsTable(seeds: seq<string>)
    ensures TableOf(Built(seeds), seeds)
  {
    var list := Built(seeds);
    BuiltExactly(seeds, "");
    forall i, j | 0 <= i < j < |list| ensures Precedes(list[i].species, list[j].species) {
      StrcmpIsOrder(list[i].species, list[j].species);
    }
    forall i | 0 <= i < |list|
      ensures list[i].species in seeds && list[i].count == multiset(seeds)[list[i].species] % UINT
    {
      var s := list[i].species;
      BuiltExactly(seeds, s);
      HasAt(list, s);
      HeldAt(list, i);
      OccurrencesMember(seeds, s);
      OccurrencesIsMultiplicity(seeds, s);
    }
    forall s | s in seeds ensures exists i :: 0 <= i < |list| && list[i].species == s {
      BuiltExactly(seeds, s);
      OccurrencesMember(seeds, s);
      HasAt(list, s);
    }
  }

  lemma OccurrencesMember(seeds: seq<string>, species: string)
    ensures Occurrences(seeds, species) > 0 <==> species in seeds
    ensures Occurrences(seeds, species) <= |seeds|
  {
    if seeds != [] {
      OccurrencesMember(seeds[..|seeds| - 1], species);
      assert seeds == seeds[..|seeds| - 1] + [seeds[|seeds| - 1]];
    }
  }

  /** An ascending list is determined by which species it has and the counts it holds. */
  lemma {:induction false} AscendingUnique(a: seq<Entry>, b: seq<Entry>)
    requires Ascending(a) && Ascending(b)
    requires forall s :: (Has(a, s) <==> Has(b, s)) && Held(a, s) == Held(b, s)
    ensures a == b
  {
    if a == [] {
      if b != [] { assert Has(b, b[0].species); }
    } else if b == [] {
      assert Has(a, a[0].species);
    } else {
      var x, y := a[0].species, b[0].species;
      assert Has(a, x) && Has(b, y);
      if x != y {
        HeadIsLeast(a, y);
        HeadIsLeast(b, x);
        StrcmpFlips(x, y);
      }
      assert Held(a, x) == Held(b, x);
      forall s ensures (Has(a[1..], s) <==> Has(b[1..], s)) && Held(a[1..], s) == Held(b[1..], s) {
        TailHolds(a, s);
        TailHolds(b, s);
      }
      AscendingUnique(a[1..], b[1..]);
      assert a == [a[0]] + a[1..] && b == [b[0]] + b[1..];
    }
  }

  lemma TailHolds(list: seq<Entry>, s: string)
    requires Ascending(list) && list != []
    ensures Has(list[1..], s) <==> Has(list, s) && s != list[0].species
    ensures Held(list[1..], s) == if s == list[0].species then 0 else Held(list, s)
  {
    if Has(list[1..], list[0].species) {
      HeadIsLeast(list, list[0].species);
      StrcmpEqual(list[0].species, list[0].species);
    }
    AbsentHoldsNone(list[1..], list[0].species);
  }

  lemma AbsentHoldsNone(list: seq<Entry>, s: string)
    ensures !Has(list, s) ==> Held(list, s) == 0
  {
  }

  /** The order of the seeds does not matter. */
  lemma SeedOrderIrrelevant(a: seq<string>, b: seq<string>)
    requires forall s :: Occurrences(a, s) == Occurrences(b, s)
    ensures Built(a) == Built(b)
  {
    BuiltExactly(a, "");
    BuiltExactly(b, "");
    forall s ensures (Has(Built(a), s) <==> Has(Built(b), s)) && Held(Built(a), s) == Held(Built(b), s) {
      BuiltExactly(a, s);
      BuiltExactly(b, s);
    }
    AscendingUnique(Built(a), Built(b));
  }

  // ----- the listings -----

  /** sizeof(struct animal) with 64-bit addresses. */
  const SIZEOF_ANIMAL: nat := 32

  /** What a listing prints, and its two totals (unsigned ints). */
  datatype Report = Report(printed: seq<Entry>, nodes: nat, memSize: nat)
  {
    function With(e: Entry): Report {
      Report(printed + [e], (nodes + 1) % UINT, (memSize + SIZEOF_ANIMAL) % UINT)
    }
  }

  function OfSpecies(kind: string): Entry -> bool {
    (e: Entry) => e.species == kind
  }

  function AtLeast(count: nat): Entry -> bool {
    (e: Entry) => e.count >= count
  }

  function Both(kind: string, count: nat): Entry -> bool {
    (e: Entry) => e.species == kind && e.count >= count
  }

  function Select(list: seq<Entry>, p: Entry -> bool): seq<Entry> {
    if list == [] then []
    else
      var last := list[|list| - 1];
      Select(list[..|list| - 1], p) + if p(last) then [last] else []
  }

  /** A scan of the whole list that reports the entries satisfying p. */
  function FullScan(list: seq<Entry>, p: Entry -> bool): Report {
    var r := Select(list, p);
    Report(r, |r| % UINT, |r| * SIZEOF_ANIMAL % UINT)
  }

  lemma {:induction false} SelectExactly(list: seq<Entry>, p: Entry -> bool, e: Entry)
    ensures e in Select(list, p) <==> e in list && p(e)
    ensures multiset(Select(list, p))[e] == if p(e) then multiset(list)[e] else 0
  {
    if list != [] {
      var front, last := list[..|list| - 1], list[|list| - 1];
      SelectExactly(front, p, e);
      assert list == front + [last];
    }
  }

  lemma {:induction false} SelectAscending(list: seq<Entry>, p: Entry -> bool)
    requires Ascending(list)
    ensures Ascending(Select(list, p))
  {
    if list != [] {
      var front, last := list[..|list| - 1], list[|list| - 1];
      SelectAscending(front, p);
      forall i | 0 <= i < |Select(front, p)| ensures Strcmp(Select(front, p)[i].species, last.species) < 0 {
        SelectExactly(front, p, Select(front, p)[i]);
      }
    }
  }

  /** What each listing prints, of an entry of a list in order; and it prints in the same order. */
  lemma ListingsExactly(list: seq<Entry>, kind: string, count: nat, e: Entry)
    requires Ascending(list)
    ensures e in FullScan(list, OfSpecies(kind)).printed <==> e in list && e.species == kind
    ensures e in FullScan(list, AtLeast(count)).printed <==> e in list && e.count >= count
    ensures e in FullScan(list, Both(kind, count)).printed <==> e in list && e.species == kind && e.count >= count
    ensures Ascending(FullScan(list, OfSpecies(kind)).printed) && Ascending(FullScan(list, AtLeast(count)).printed)
    ensures Ascending(FullScan(list, Both(kind, count)).printed)
  {
    SelectExactly(list, OfSpecies(kind), e);
    SelectExactly(list, AtLeast(count), e);
    SelectExactly(list, Both(kind, count), e);
    SelectAscending(list, OfSpecies(kind));
    SelectAscending(list, AtLeast(count));
    SelectAscending(list, Both(kind, count));
  }

  /** The totals are those of what is printed, as unsigned ints. */
  lemma TotalsExactly(list: seq<Entry>, p: Entry -> bool)
    ensures var r := FullScan(list, p);
            r.nodes == |r.printed| % 0x1_0000_0000 && r.memSize == 32 * |r.printed| % 0x1_0000_0000
  {
  }

  /** Once the species is found, nothing that comes after can satisfy a filter on that species. */
  lemma {:induction false} NothingAfterMatch(list: seq<Entry>, i: nat, p: Entry -> bool)
    requires Ascending(list) && i < |list|
    requires forall e :: p(e) ==> e.species == list[i].species
    ensures Select(list, p) == Select(list[..i + 1], p)
    decreases |list|
  {
    if i + 1 < |list| {
      var front := list[..|list| - 1];
      StrcmpEqual(list[i].species, list[|list| - 1].species);
      assert forall e :: p(e) ==> e.species == front[i].species;
      NothingAfterMatch(front, i, p);
      assert front[..i + 1] == list[..i + 1];
    } else {
      assert list[..i + 1] == list;
    }
  }

  lemma ScanNone(list: seq<Entry>, p: Entry -> bool)
    ensures FullScan(list[..0], p) == Report([], 0, 0)
  {
  }

  lemma ScanOne(list: seq<Entry>, i: nat, p: Entry -> bool)
    requires i < |list|
    ensures FullScan(list[..i + 1], p)
         == if p(list[i]) then FullScan(list[..i], p).With(list[i]) else FullScan(list[..i], p)
  {
    assert list[..i + 1][..i] == list[..i];
    TotalsAdd(|Select(list[..i], p)|);
  }

  lemma TotalsAdd(n: nat)
    ensures (n % UINT + 1) % UINT == (n + 1) % UINT
    ensures (n * SIZEOF_ANIMAL % UINT + SIZEOF_ANIMAL) % UINT == (n + 1) * SIZEOF_ANIMAL % UINT
  {
    WrapsLate(n, 1);
    WrapsLate(n * SIZEOF_ANIMAL, SIZEOF_ANIMAL);
  }

  lemma ScanEnds(list: seq<Entry>, i: nat, p: Entry -> bool)
    requires Ascending(list) && i < |list|
    requires forall e :: p(e) ==> e.species == list[i].species
    ensures FullScan(list, p) == FullScan(list[..i + 1], p)
  {
    NothingAfterMatch(list, i, p);
  }

  /** The first i entries come before the species. */
  ghost predicate Passed(list: seq<Entry>, i: nat, species: string)
    requires i <= |list|
  {
    forall j :: 0 <= j < i ==> Strcmp(list[j].species, species) < 0
  }

  /** Inserting happens where the first species not before the new one is. */
  lemma {:induction false} InsertedAt(list: seq<Entry>, i: nat, species: string)
    requires i <= |list| && Passed(list, i, species)
    ensures i == |list| ==> Inserted(list, species) == list + [Entry(species, 1)]
    ensures i < |list| && Strcmp(list[i].species, species) == 0 ==>
              Inserted(list, species) == list[i := Entry(species, (list[i].count + 1) % UINT)]
    ensures i < |list| && Strcmp(list[i].species, species) > 0 ==>
              Inserted(list, species) == list[..i] + [Entry(species, 1)] + list[i..]
  {
    if i > 0 {
      var e := Entry(species, if i < |list| then (list[i].count + 1) % UINT else 1);
      assert Inserted(list, species) == [list[0]] + Inserted(list[1..], species);
      assert Passed(list[1..], i - 1, species);
      hide Inserted, Strcmp, Passed;
      InsertedAt(list[1..], i - 1, species);
      assert list == [list[0]] + list[1..];
      assert i < |list| ==> list[i := e] == [list[0]] + list[1..][i - 1 := e];
      assert list[..i] == [list[0]] + list[1..][..i - 1];
    } else {
      assert list[..0] == [];
    }
  }

  // ----- the module -----

  class Animal {
    var species: string
    var count: nat
    var next: Animal
    var prev: Animal

    constructor (species: string, count: nat)
      ensures this.species == species && this.count == count && next == this && prev == this
    {
      this.species, this.count := species, count;
      next, prev := this, this;
    }
  }

  ghost predicate Distinct(nodes: seq<Animal>) {
    forall i, j :: 0 <= i < j < |nodes| ==> nodes[i] != nodes[j]
  }

  lemma DistinctWith(nodes: seq<Animal>, node: Animal, k: nat)
    requires Distinct(nodes) && node !in nodes && k <= |nodes|
    ensures Distinct(nodes[..k] + [node] + nodes[k..])
  {
  }

  ghost function EntriesOf(nodes: seq<Animal>): (r: seq<Entry>)
    reads nodes
    ensures |r| == |nodes|
    ensures forall i :: 0 <= i < |nodes| ==> r[i] == Entry(nodes[i].species, nodes[i].count)
  {
    seq(|nodes|, i requires 0 <= i < |nodes| reads nodes => Entry(nodes[i].species, nodes[i].count))
  }

  lemma EntriesWith(nodes: seq<Animal>, node: Animal, k: nat)
    requires k <= |nodes|
    ensures EntriesOf(nodes[..k] + [node] + nodes[k..])
         == EntriesOf(nodes)[..k] + [Entry(node.species, node.count)] + EntriesOf(nodes)[k..]
  {
  }

  class AnimalRing {
    /** animal_list: only its links are used. */
    const head: Animal
    ghost var nodes: seq<Animal>

    /** The members of the ring in order: the sentinel, the nodes, and the sentinel again. */
    ghost function At(k: nat): (r: Animal)
      requires k <= |nodes| + 1
      reads this
      ensures r == head || r in nodes
    {
      if k == 0 || k == |nodes| + 1 then head else nodes[k - 1]
    }

    /** Member k and the one after it point at each other. */
    ghost predicate Joined(k: nat)
      requires k <= |nodes|
      reads this, head`next, head`prev, nodes`next, nodes`prev
    {
      At(k).next == At(k + 1) && At(k + 1).prev == At(k)
    }

    /** A circular list with a sentinel, the two directions agreeing. */
    ghost predicate Valid()
      reads this, head`next, head`prev, nodes`next, nodes`prev
    {
      head !in nodes && Distinct(nodes) && forall k :: 0 <= k <= |nodes| ==> Joined(k)
    }

    ghost predicate Apart(k: nat, i: nat)
      requires k <= |nodes| && i <= |nodes|
      reads this
    {
      At(i) != At(k) && At(i + 1) != At(k + 1)
    }

    /** The links of the other members are none of member k's. */
    lemma Elsewhere(k: nat)
      requires Valid() && k <= |nodes|
      ensures forall i :: 0 <= i <= |nodes| && i != k ==> Apart(k, i)
    {
    }

    /** Going on from member k, and when that comes back to the sentinel. */
    lemma Next(k: nat)
      requires Valid() && k <= |nodes|
      ensures At(k).next == At(k + 1) && At(k + 1).prev == At(k)
      ensures At(k + 1) == head <==> k == |nodes|
      ensures k < |nodes| ==> At(k + 1) == nodes[k]
    {
      assert Joined(k);
    }

    ghost function Entries(): seq<Entry>
      reads this, nodes
    {
      EntriesOf(nodes)
    }

    /** LIST_HEAD */
    constructor ()
      ensures Valid() && nodes == [] && fresh(head)
    {
      head := new Animal("", 0);
      nodes := [];
    }

    /** list_add_tail: links `node` in before `at`, which is entry k, or the sentinel after the last one. */
    method ListAddTail(node: Animal, at: Animal, ghost k: nat)
      requires Valid() && node != head && node !in nodes
      requires k <= |nodes| && at == At(k + 1)
      modifies `nodes, node`next, node`prev, at`prev, at.prev`next
      ensures Valid()
      ensures nodes == old(nodes)[..k] + [node] + old(nodes)[k..]
    {
      Next(k);
      var before := at.prev;
      ghost var n := |nodes|;
      Elsewhere(k);
      at.prev := node;
      node.next := at;
      node.prev := before;
      before.next := node;
      nodes := nodes[..k] + [node] + nodes[k..];
      hide Distinct;
      assert Distinct(nodes) && head !in nodes by { DistinctWith(old(nodes), node, k); }
      forall i | 0 <= i <= n + 1 ensures Joined(i) {
        if i < k {
          assert old(Joined(i) && Apart(k, i));
        } else if i > k + 1 {
          assert old(Joined(i - 1) && Apart(k, i - 1));
        }
      }
    }

    /** A new animal counted once, linked in before `at`: the first one after it in the order, or the sentinel. */
    method AddBefore(seed: string, at: Animal, ghost k: nat)
      requires Valid() && k <= |nodes| && at == At(k + 1)
      requires Passed(Entries(), k, seed) && (k < |nodes| ==> Strcmp(at.species, seed) > 0)
      modifies this, head, nodes
      ensures Valid() && Entries() == Inserted(old(Entries()), seed)
      ensures forall i :: 0 <= i < |nodes| ==> nodes[i] in old(nodes) || fresh(nodes[i])
    {
      Next(k);
      assert at.prev == At(k);
      InsertedAt(Entries(), k, seed);
      hide Joined, Distinct, Inserted, Strcmp, Passed;
      var currentAnimal := new Animal(seed, 1);
      ListAddTail(currentAnimal, at, k);
      assert EntriesOf(old(nodes)) == old(Entries());
      EntriesWith(old(nodes), currentAnimal, k);
      forall i | 0 <= i < |nodes| ensures nodes[i] in old(nodes) || nodes[i] == currentAnimal {
        assert i < k ==> nodes[i] == old(nodes)[i];
        assert i > k ==> nodes[i] == old(nodes)[i - 1];
      }
    }

    /** One more animal of a species that is in the list already. */
    method CountOnceMore(seed: string, ptr: Animal, ghost k: nat)
      requires Valid() && k < |nodes| && ptr == nodes[k]
      requires Passed(Entries(), k, seed) && Strcmp(ptr.species, seed) == 0
      modifies ptr`count
      ensures Valid() && Entries() == Inserted(old(Entries()), seed)
    {
      InsertedAt(Entries(), k, seed);
      StrcmpEqual(ptr.species, seed);
      assert forall i :: 0 <= i < |nodes| && i != k ==> nodes[i] != ptr;
      hide Inserted, Strcmp, Passed, Joined, Distinct;
      ptr.count := (ptr.count + 1) % UINT;
      assert Entries() == old(Entries())[k := Entry(seed, (old(ptr.count) + 1) % UINT)];
    }

    lemma PassOne(k: nat, seed: string)
      requires k < |nodes| && Passed(Entries(), k, seed)
      ensures Strcmp(nodes[k].species, seed) < 0 ==> Passed(Entries(), k + 1, seed)
    {
    }

    /** One round of listInitialize. */
    method InsertSeed(seed: string)
      requires Valid()
      modifies this, head, nodes
      ensures Valid() && Entries() == Inserted(old(Entries()), seed)
      ensures forall k :: 0 <= k < |nodes| ==> nodes[k] in old(nodes) || fresh(nodes[k])
    {
      var flag := false;
      var ptr := head.next;
      Next(0);
      assert Passed(Entries(), 0, seed);
      hide Joined, Distinct, Inserted, Strcmp, Passed;
      ghost var i := 0;
      ghost var list := Entries();
      while ptr != head
        invariant Valid() && nodes == old(nodes) && Entries() == list
        invariant i <= |nodes| && ptr == At(i + 1) && Passed(list, i, seed)
        decreases |nodes| - i
      {
        Next(i);
        Next(i + 1);
        PassOne(i, seed);
        if Strcmp(ptr.species, seed) == 0 {
          CountOnceMore(seed, ptr, i);
          flag := true;
          break;
        } else if Strcmp(ptr.species, seed) > 0 {
          assert ptr != head; // so the branch that would replace the sentinel is never taken
          AddBefore(seed, ptr, i);
          flag := true;
          break;
        }
        ptr := ptr.next;
        i := i + 1;
      }
      if !flag {
        AddBefore(seed, head, i);
      }
    }

    /** The loop of listInitialize over the seeds. */
    method ListInitialize(seeds: seq<string>)
      requires Valid() && nodes == []
      modifies this, head
      ensures Valid() && Entries() == Built(seeds) && Ascending(Entries())
      ensures TableOf(Entries(), seeds)
    {
      hide Joined, Distinct, Inserted, Ascending, TableOf;
      var i := 0;
      while i < |seeds|
        invariant i <= |seeds| && Valid()
        invariant forall k :: 0 <= k < |nodes| ==> fresh(nodes[k])
        invariant Entries() == Built(seeds[..i])
      {
        InsertSeed(seeds[i]);
        i := i + 1;
        assert seeds[..i][..i - 1] == seeds[..i - 1];
      }
      assert seeds[..i] == seeds;
      BuiltExactly(seeds, "");
      BuiltIsTable(seeds);
    }

    /** The listing by species, which stops at the first match. */
    method WithSpecies(kind: string) returns (r: Report)
      requires Valid() && Ascending(Entries())
      ensures r == FullScan(Entries(), OfSpecies(kind))
    {
      hide Joined, Distinct, FullScan, Select, Strcmp, Ascending;
      ghost var list, p := Entries(), OfSpecies(kind);
      ScanNone(list, p);
      r := Report([], 0, 0);
      var ptr := head.next;
      Next(0);
      ghost var i := 0;
      while ptr != head
        invariant i <= |nodes| && ptr == At(i + 1)
        invariant r == FullScan(list[..i], p)
        decreases |nodes| - i
      {
        Next(i + 1);
        StrcmpEqual(ptr.species, kind);
        ScanOne(list, i, p);
        if Strcmp(ptr.species, kind) == 0 {
          r := r.With(Entry(ptr.species, ptr.count));
          ScanEnds(list, i, p);
          return;
        }
        ptr := ptr.next;
        i := i + 1;
      }
      assert list[..i] == list;
    }

    /** The listing by count, which goes through the whole list. */
    method WithCount(count: nat) returns (r: Report)
      requires Valid()
      ensures r == FullScan(Entries(), AtLeast(count))
    {
      hide Joined, Distinct, FullScan, Select;
      ghost var list, p := Entries(), AtLeast(count);
      ScanNone(list, p);
      r := Report([], 0, 0);
      var ptr := head.next;
      Next(0);
      ghost var i := 0;
      while ptr != head
        invariant i <= |nodes| && ptr == At(i + 1)
        invariant r == FullScan(list[..i], p)
        decreases |nodes| - i
      {
        Next(i + 1);
        ScanOne(list, i, p);
        if ptr.count >= count {
          r := r.With(Entry(ptr.species, ptr.count));
        }
        ptr := ptr.next;
        i := i + 1;
      }
      assert list[..i] == list;
    }

    /** The listing with both filters, which stops at the first entry that passes both. */
    method WithBoth(kind: string, count: nat) returns (r: Report)
      requires Valid() && Ascending(Entries())
      ensures r == FullScan(Entries(), Both(kind, count))
    {
      hide Joined, Distinct, FullScan, Select, Strcmp, Ascending;
      ghost var list, p := Entries(), Both(kind, count);
      ScanNone(list, p);
      r := Report([], 0, 0);
      var ptr := head.next;
      Next(0);
      ghost var i := 0;
      while ptr != head
        invariant i <= |nodes| && ptr == At(i + 1)
        invariant r == FullScan(list[..i], p)
        decreases |nodes| - i
      {
        Next(i + 1);
        StrcmpEqual(ptr.species, kind);
        ScanOne(list, i, p);
        if Strcmp(ptr.species, kind) == 0 && ptr.count >= count {
          r := r.With(Entry(ptr.species, ptr.count));
          ScanEnds(list, i, p);
          return;
        }
        ptr := ptr.next;
        i := i + 1;
      }
      assert list[..i] == list;
    }
  }
}

/** The grouped parts of a comparison: added and removed entities by type, and facts by subject. Both
    groupings read the group off the label, as decorating does. */
module GroupedDelta {
  import opened Sorting
  import opened CompareDelta
  import opened Tally

  type Grouping = string -> string

  function ByType(): Grouping {
    name => DecorateEntity(Count(name, 0)).entityType
  }

  function BySubject(): Grouping {
    name => DecorateFact(Count(name, 0)).subject
  }

  /** The counts of the entries in one group. */
  function GroupTotal(entries: seq<Count>, group: Grouping, g: string): nat {
    if entries == [] then 0
    else (if group(entries[0].name) == g then entries[0].count else 0) + GroupTotal(entries[1..], group, g)
  }

  function Groups(entries: seq<Count>, group: Grouping, names: seq<string>): seq<Count> {
    if names == [] then []
    else [Count(names[0], GroupTotal(entries, group, names[0]))] + Groups(entries, group, names[1..])
  }

  /** One entry per group, sorted like the entries; `names` is the order in which the groups' map is walked. */
  function GroupEntries(entries: seq<Count>, group: Grouping, names: seq<string>): seq<Count> {
    Sort(Groups(entries, group, names), ByCountThenName())
  }

  /** `names` lists the groups of the entries, each once. */
  ghost predicate ListsGroups(names: seq<string>, entries: seq<Count>, group: Grouping) {
    (forall i, j :: 0 <= i < j < |names| ==> names[i] != names[j]) &&
    (forall i :: 0 <= i < |entries| ==> group(entries[i].name) in names) &&
    (forall g :: g in names ==> exists i :: 0 <= i < |entries| && group(entries[i].name) == g)
  }

  // ----- grouping loses nothing

  function OneIn(names: seq<string>, g: string, amount: nat): nat {
    if names == [] then 0 else (if names[0] == g then amount else 0) + OneIn(names[1..], g, amount)
  }

  lemma {:induction false} OneInOnce(names: seq<string>, g: string, amount: nat)
    requires forall i, j :: 0 <= i < j < |names| ==> names[i] != names[j]
    ensures OneIn(names, g, amount) == if g in names then amount else 0
  {
    if names != [] {
      OneInOnce(names[1..], g, amount);
      assert g in names <==> g == names[0] || g in names[1..];
    }
  }

  lemma {:induction false} GroupsPeel(entries: seq<Count>, group: Grouping, names: seq<string>)
    requires entries != []
    ensures Total(Groups(entries, group, names))
         == OneIn(names, group(entries[0].name), entries[0].count) + Total(Groups(entries[1..], group, names))
  {
    if names != [] {
      GroupsPeel(entries, group, names[1..]);
    }
  }

  lemma {:induction false} NoGroups(group: Grouping, names: seq<string>)
    ensures Total(Groups([], group, names)) == 0
  {
    if names != [] {
      NoGroups(group, names[1..]);
    }
  }

  lemma {:induction false} GroupsAddUp(entries: seq<Count>, group: Grouping, names: seq<string>)
    requires forall i, j :: 0 <= i < j < |names| ==> names[i] != names[j]
    requires forall i :: 0 <= i < |entries| ==> group(entries[i].name) in names
    ensures Total(Groups(entries, group, names)) == Total(entries)
  {
    if entries == [] {
      NoGroups(group, names);
    } else {
      assert group(entries[0].name) in names;
      GroupsPeel(entries, group, names);
      OneInOnce(names, group(entries[0].name), entries[0].count);
      GroupsAddUp(entries[1..], group, names);
    }
  }

  lemma {:induction false} GroupListed(entries: seq<Count>, group: Grouping, names: seq<string>, g: string)
    requires forall i, j :: 0 <= i < j < |names| ==> names[i] != names[j]
    ensures Listed(Groups(entries, group, names), g) == if g in names then GroupTotal(entries, group, g) else 0
  {
    if names != [] {
      GroupListed(entries, group, names[1..], g);
      assert g in names <==> g == names[0] || g in names[1..];
    }
  }

  lemma {:induction false} NoneInGroup(entries: seq<Count>, group: Grouping, g: string)
    requires forall i :: 0 <= i < |entries| ==> group(entries[i].name) != g
    ensures GroupTotal(entries, group, g) == 0
  {
    if entries != [] {
      NoneInGroup(entries[1..], group, g);
    }
  }

  /** Main result: grouping loses nothing. Each group's count is what its entries add up to, and the groups
      together add up to all entries. */
  lemma {:induction false} GroupingConserves(entries: seq<Count>, group: Grouping, names: seq<string>, g: string)
    requires ListsGroups(names, entries, group)
    ensures Total(GroupEntries(entries, group, names)) == Total(entries)
    ensures Listed(GroupEntries(entries, group, names), g) == GroupTotal(entries, group, g)
  {
    SortKeepsSums(Groups(entries, group, names), g);
    GroupsAddUp(entries, group, names);
    GroupListed(entries, group, names, g);
    if g !in names {
      NoneInGroup(entries, group, g);
    }
  }

  // ----- conservation, group by group

  function InGroup(group: Grouping, g: string): string -> bool {
    (name: string) => group(name) == g
  }

  /** The labels of one group. */
  function OfGroup(labels: seq<string>, group: Grouping, g: string): seq<string> {
    Filter(labels, InGroup(group, g))
  }

  lemma {:induction false} FilterMultiset(s: seq<string>, keep: string -> bool, x: string)
    ensures multiset(Filter(s, keep))[x] == if keep(x) then multiset(s)[x] else 0
  {
    if s != [] {
      FilterMultiset(s[1..], keep, x);
      assert s == [s[0]] + s[1..];
    }
  }

  lemma {:induction false} InsertKeepsGroups(x: Count, s: seq<Count>, group: Grouping, g: string)
    ensures GroupTotal(Insert(x, s, ByCountThenName()), group, g)
         == (if group(x.name) == g then x.count else 0) + GroupTotal(s, group, g)
  {
    if s != [] && !ByCountThenName()(x, s[0]) {
      InsertKeepsGroups(x, s[1..], group, g);
    }
  }

  lemma {:induction false} SortKeepsGroups(s: seq<Count>, group: Grouping, g: string)
    ensures GroupTotal(Sort(s, ByCountThenName()), group, g) == GroupTotal(s, group, g)
  {
    if s != [] {
      SortKeepsGroups(s[1..], group, g);
      InsertKeepsGroups(s[0], Sort(s[1..], ByCountThenName()), group, g);
    }
  }

  lemma {:induction false} SurplusAt(a: seq<string>, b: seq<string>, key: string, group: Grouping, g: string)
    ensures var diff := Surplus(Frequencies(a), Frequencies(b), key);
            (multiset(OfGroup(a, group, g)) - multiset(OfGroup(b, group, g)))[key] ==
            if group(key) == g && diff > 0 then diff else 0
  {
    FrequenciesCount(a, key);
    FrequenciesCount(b, key);
    FilterMultiset(a, InGroup(group, g), key);
    FilterMultiset(b, InGroup(group, g), key);
  }

  lemma {:induction false} GroupTotalCons(x: Count, rest: seq<Count>, group: Grouping, g: string)
    ensures GroupTotal([x] + rest, group, g) == (if group(x.name) == g then x.count else 0) + GroupTotal(rest, group, g)
  {
    assert ([x] + rest)[1..] == rest;
  }

  lemma {:induction false} SurplusOfGroup(a: seq<string>, b: seq<string>, keys: seq<string>, group: Grouping, g: string)
    ensures GroupTotal(Surpluses(Frequencies(a), Frequencies(b), keys), group, g)
         == SumOver(keys, multiset(OfGroup(a, group, g)) - multiset(OfGroup(b, group, g)))
  {
    if keys != [] {
      SurplusOfGroup(a, b, keys[1..], group, g);
      SurplusAt(a, b, keys[0], group, g);
      var diff := Surplus(Frequencies(a), Frequencies(b), keys[0]);
      var rest := Surpluses(Frequencies(a), Frequencies(b), keys[1..]);
      if diff > 0 {
        GroupTotalCons(Count(keys[0], diff), rest, group, g);
      } else {
        assert [] + rest == rest;
      }
    }
  }

  /** A group's share of a delta list is the difference of the group's labels. */
  lemma {:induction false} DeltaOfGroup(a: seq<string>, b: seq<string>, keys: seq<string>, group: Grouping, g: string)
    requires Enumerates(keys, Frequencies(a))
    ensures GroupTotal(DeltaEntries(Frequencies(a), Frequencies(b), keys), group, g)
         == |multiset(OfGroup(a, group, g)) - multiset(OfGroup(b, group, g))|
  {
    var m := multiset(OfGroup(a, group, g)) - multiset(OfGroup(b, group, g));
    SortKeepsGroups(Surpluses(Frequencies(a), Frequencies(b), keys), group, g);
    SurplusOfGroup(a, b, keys, group, g);
    KeysCover(a, keys);
    forall x | x in m ensures x in keys {
      FilterMultiset(a, InGroup(group, g), x);
      assert x in multiset(a);
    }
    SumOverAll(keys, m);
  }

  /** Main result: conservation holds in every group by itself: what the baseline has of it, plus what is
      listed as added, is what the comparison has, plus what is listed as removed. */
  lemma {:induction false} GroupConserved(b: seq<string>, c: seq<string>, bKeys: seq<string>, cKeys: seq<string>,
                                          group: Grouping, addedNames: seq<string>, removedNames: seq<string>,
                                          g: string)
    requires Enumerates(bKeys, Frequencies(b)) && Enumerates(cKeys, Frequencies(c))
    requires ListsGroups(addedNames, BuildDelta(b, c, bKeys, cKeys).added, group)
    requires ListsGroups(removedNames, BuildDelta(b, c, bKeys, cKeys).removed, group)
    ensures var d := BuildDelta(b, c, bKeys, cKeys);
            |OfGroup(b, group, g)| + Listed(GroupEntries(d.added, group, addedNames), g) ==
            |OfGroup(c, group, g)| + Listed(GroupEntries(d.removed, group, removedNames), g)
  {
    var d := BuildDelta(b, c, bKeys, cKeys);
    var x, y := multiset(OfGroup(b, group, g)), multiset(OfGroup(c, group, g));
    GroupingConserves(d.added, group, addedNames, g);
    GroupingConserves(d.removed, group, removedNames, g);
    DeltaOfGroup(c, b, cKeys, group, g);
    DeltaOfGroup(b, c, bKeys, group, g);
    DifferenceAndOverlap(x, y);
    DifferenceAndOverlap(y, x);
    assert x * y == y * x;
  }

  // ----- the whole comparison, of entities and of facts

  /** The orders in which the maps of a comparison are walked: those of the two windows' counts, and those
      of the groups of what is added and of what is removed. */
  datatype Walks = Walks(baseline: seq<string>, comparison: seq<string>, added: seq<string>, removed: seq<string>)

  datatype WindowDelta = WindowDelta(delta: Delta, addedByGroup: seq<Count>, removedByGroup: seq<Count>)

  function DeltaOfLabels(baseline: seq<string>, comparison: seq<string>, group: Grouping, walks: Walks): WindowDelta {
    var d := BuildDelta(baseline, comparison, walks.baseline, walks.comparison);
    WindowDelta(d, GroupEntries(d.added, group, walks.added), GroupEntries(d.removed, group, walks.removed))
  }

  /** entity_delta, before its entries are decorated. */
  function EntityDelta(baseline: seq<Entity>, comparison: seq<Entity>, walks: Walks): WindowDelta {
    DeltaOfLabels(EntityLabels(baseline), EntityLabels(comparison), ByType(), walks)
  }

  /** fact_delta, before its entries are decorated. */
  function FactDelta(baseline: seq<Fact>, comparison: seq<Fact>, walks: Walks): WindowDelta {
    DeltaOfLabels(FactLabels(baseline), FactLabels(comparison), BySubject(), walks)
  }

  ghost predicate Walkable(baseline: seq<string>, comparison: seq<string>, group: Grouping, walks: Walks) {
    var d := BuildDelta(baseline, comparison, walks.baseline, walks.comparison);
    Enumerates(walks.baseline, Frequencies(baseline)) && Enumerates(walks.comparison, Frequencies(comparison)) &&
    ListsGroups(walks.added, d.added, group) && ListsGroups(walks.removed, d.removed, group)
  }

  /** How many items have the signature. */
  function CountWith<T>(items: seq<T>, signature: T -> string, key: string): nat {
    if items == [] then 0
    else (if signature(items[0]) == key then 1 else 0) + CountWith(items[1..], signature, key)
  }

  /** How many items have a signature, in the group. */
  function CountIn<T>(items: seq<T>, signature: T -> string, group: Grouping, g: string): nat {
    if items == [] then 0
    else
      (if signature(items[0]) != "" && group(signature(items[0])) == g then 1 else 0) +
      CountIn(items[1..], signature, group, g)
  }

  lemma {:induction false} LabelsCount<T>(items: seq<T>, signature: T -> string, key: string)
    ensures multiset(Labels(items, signature))[key] == if key == "" then 0 else CountWith(items, signature, key)
  {
    if items != [] {
      LabelsCount(items[1..], signature, key);
      assert Signatures(items, signature)[1..] == Signatures(items[1..], signature);
      var head := if signature(items[0]) != "" then [signature(items[0])] else [];
      assert Labels(items, signature) == head + Labels(items[1..], signature);
    }
  }

  lemma {:induction false} LabelsInGroup<T>(items: seq<T>, signature: T -> string, group: Grouping, g: string)
    ensures |OfGroup(Labels(items, signature), group, g)| == CountIn(items, signature, group, g)
  {
    if items != [] {
      LabelsInGroup(items[1..], signature, group, g);
      assert Signatures(items, signature)[1..] == Signatures(items[1..], signature);
      var rest := Labels(items[1..], signature);
      if signature(items[0]) != "" {
        assert Labels(items, signature) == [signature(items[0])] + rest;
        assert ([signature(items[0])] + rest)[1..] == rest;
      } else {
        assert Labels(items, signature) == rest;
      }
    }
  }

  /** For a label and for a group, what the baseline has plus what is listed as added is what the comparison
      has plus what is listed as removed. */
  predicate Conserves<T>(d: WindowDelta, baseline: seq<T>, comparison: seq<T>, signature: T -> string, group: Grouping,
                         key: string, g: string)
  {
    (key != "" ==>
       CountWith(baseline, signature, key) + Listed(d.delta.added, key) ==
       CountWith(comparison, signature, key) + Listed(d.delta.removed, key)) &&
    CountIn(baseline, signature, group, g) + Listed(d.addedByGroup, g) ==
    CountIn(comparison, signature, group, g) + Listed(d.removedByGroup, g)
  }

  lemma {:induction false} DeltaOfItems<T>(baseline: seq<T>, comparison: seq<T>, signature: T -> string,
                                           group: Grouping, walks: Walks, key: string, g: string)
    requires Walkable(Labels(baseline, signature), Labels(comparison, signature), group, walks)
    ensures Conserves(DeltaOfLabels(Labels(baseline, signature), Labels(comparison, signature), group, walks),
                      baseline, comparison, signature, group, key, g)
  {
    var b, c := Labels(baseline, signature), Labels(comparison, signature);
    LabelConserved(b, c, walks.baseline, walks.comparison, key);
    LabelsCount(baseline, signature, key);
    LabelsCount(comparison, signature, key);
    GroupConserved(b, c, walks.baseline, walks.comparison, group, walks.added, walks.removed, g);
    LabelsInGroup(baseline, signature, group, g);
    LabelsInGroup(comparison, signature, group, g);
  }

  /** Main result: comparing two windows of entities conserves every label and every type. */
  lemma {:induction false} EntitiesConserved(baseline: seq<Entity>, comparison: seq<Entity>, walks: Walks, key: string,
                                             entityType: string)
    requires Walkable(EntityLabels(baseline), EntityLabels(comparison), ByType(), walks)
    ensures Conserves(EntityDelta(baseline, comparison, walks), baseline, comparison, OfEntity(), ByType(), key,
                      entityType)
  {
    DeltaOfItems(baseline, comparison, OfEntity(), ByType(), walks, key, entityType);
  }

  /** Main result: comparing two windows of facts conserves every label and every subject. */
  lemma {:induction false} FactsConserved(baseline: seq<Fact>, comparison: seq<Fact>, walks: Walks, key: string,
                                          subject: string)
    requires Walkable(FactLabels(baseline), FactLabels(comparison), BySubject(), walks)
    ensures Conserves(FactDelta(baseline, comparison, walks), baseline, comparison, OfFact(), BySubject(), key, subject)
  {
    DeltaOfItems(baseline, comparison, OfFact(), BySubject(), walks, key, subject);
  }
}

/** What was added to, removed from and shared by two windows of extracted entities or facts. */
module CompareDelta {
  import opened Options
  import opened Sorting
  import opened Tally
  import opened Text

  // ----- signatures

  datatype Entity = Entity(entityType: Option<string>, canonicalName: Option<string>, name: Option<string>)

  datatype Fact = Fact(subject: Option<string>, verb: Option<string>, target: Option<string>)

  function Or(a: Option<string>, b: Option<string>): Option<string> {
    if a.Some? then a else b
  }

  /** Drops the missing and the empty parts and joins the rest. */
  function JoinPresent(parts: seq<Option<string>>, separator: string): string {
    if parts == [] then ""
    else
      var rest := JoinPresent(parts[1..], separator);
      if parts[0] == None || parts[0].value == "" then rest
      else if NonePresent(parts[1..]) then parts[0].value
      else parts[0].value + separator + rest
  }

  predicate NonePresent(parts: seq<Option<string>>) {
    forall i :: 0 <= i < |parts| ==> parts[i] == None || parts[i].value == ""
  }

  function EntitySignature(e: Entity): string {
    JoinPresent([e.entityType, Or(e.canonicalName, e.name)], ": ")
  }

  function FactSignature(f: Fact): string {
    JoinPresent([f.subject, f.verb, f.target], " ")
  }

  function Signatures<T>(items: seq<T>, signature: T -> string): seq<string> {
    if items == [] then [] else [signature(items[0])] + Signatures(items[1..], signature)
  }

  /** The labels that are counted: the signatures that are not empty. */
  function Labels<T>(items: seq<T>, signature: T -> string): seq<string> {
    Filter(Signatures(items, signature), IsLabel())
  }

  function OfEntity(): Entity -> string {
    (e: Entity) => EntitySignature(e)
  }

  function OfFact(): Fact -> string {
    (f: Fact) => FactSignature(f)
  }

  function EntityLabels(items: seq<Entity>): seq<string> {
    Labels(items, OfEntity())
  }

  function FactLabels(items: seq<Fact>): seq<string> {
    Labels(items, OfFact())
  }

  function IsLabel(): string -> bool {
    (s: string) => s != ""
  }

  // ----- counting; a map is walked in some order of its keys

  type Counts = map<string, nat>

  function Get(m: Counts, name: string): nat {
    if name in m then m[name] else 0
  }

  function Frequencies(labels: seq<string>): Counts {
    if labels == [] then map[]
    else
      var m := Frequencies(labels[..|labels| - 1]);
      var last := labels[|labels| - 1];
      m[last := Get(m, last) + 1]
  }

  /** `keys` lists the keys of `m`, each once. */
  ghost predicate Enumerates(keys: seq<string>, m: Counts) {
    (forall i, j :: 0 <= i < j < |keys| ==> keys[i] != keys[j]) &&
    (forall i :: 0 <= i < |keys| ==> keys[i] in m) &&
    (forall k :: k in m ==> k in keys)
  }

  function Surplus(left: Counts, right: Counts, key: string): int {
    Get(left, key) - Get(right, key)
  }

  function Surpluses(left: Counts, right: Counts, keys: seq<string>): seq<Count> {
    if keys == [] then []
    else
      var diff := Surplus(left, right, keys[0]);
      (if diff > 0 then [Count(keys[0], diff)] else []) + Surpluses(left, right, keys[1..])
  }

  /** Descending count, then ascending label. */
  function ByCountThenName(): (Count, Count) -> bool {
    (x: Count, y: Count) => x.count > y.count || (x.count == y.count && TextLeq(x.name, y.name))
  }

  function DeltaEntries(left: Counts, right: Counts, keys: seq<string>): seq<Count> {
    Sort(Surpluses(left, right, keys), ByCountThenName())
  }

  function OverlapCount(left: Counts, right: Counts, keys: seq<string>): nat {
    if keys == [] then 0
    else
      var a, b := Get(left, keys[0]), Get(right, keys[0]);
      (if a < b then a else b) + OverlapCount(left, right, keys[1..])
  }

  function SumValues(m: Counts, keys: seq<string>): nat {
    if keys == [] then 0 else Get(m, keys[0]) + SumValues(m, keys[1..])
  }

  datatype Delta = Delta(baselineCount: nat, comparisonCount: nat, added: seq<Count>, removed: seq<Count>, shared: nat)

  /** The part of entity_delta and fact_delta that works on labels alone. */
  function BuildDelta(baseline: seq<string>, comparison: seq<string>, baselineKeys: seq<string>,
                      comparisonKeys: seq<string>): Delta {
    var b, c := Frequencies(baseline), Frequencies(comparison);
    Delta(SumValues(b, baselineKeys), SumValues(c, comparisonKeys),
          DeltaEntries(c, b, comparisonKeys), DeltaEntries(b, c, baselineKeys),
          OverlapCount(b, c, baselineKeys))
  }

  // ----- the delta is a difference of multisets

  lemma {:induction false} FrequenciesCount(labels: seq<string>, key: string)
    ensures Get(Frequencies(labels), key) == multiset(labels)[key]
    ensures key in Frequencies(labels) <==> key in labels
  {
    if labels != [] {
      var rest := labels[..|labels| - 1];
      FrequenciesCount(rest, key);
      FrequenciesCount(rest, labels[|labels| - 1]);
      assert labels == rest + [labels[|labels| - 1]];
    }
  }

  /** The multiplicities of a multiset over a list of distinct keys. */
  function SumOver(keys: seq<string>, m: multiset<string>): nat {
    if keys == [] then 0 else m[keys[0]] + SumOver(keys[1..], m)
  }

  lemma {:induction false} SumOverIgnores(keys: seq<string>, m: multiset<string>, key: string)
    requires key !in keys
    ensures SumOver(keys, m[key := 0]) == SumOver(keys, m)
  {
    if keys != [] {
      SumOverIgnores(keys[1..], m, key);
    }
  }

  lemma {:induction false} SumOverAll(keys: seq<string>, m: multiset<string>)
    requires forall i, j :: 0 <= i < j < |keys| ==> keys[i] != keys[j]
    requires forall x :: x in m ==> x in keys
    ensures SumOver(keys, m) == |m|
  {
    if keys == [] {
      assert m == multiset{};
    } else {
      var rest := m[keys[0] := 0];
      forall x | x in rest ensures x in keys[1..] {
        assert x in keys && x != keys[0];
      }
      SumOverAll(keys[1..], rest);
      SumOverIgnores(keys[1..], m, keys[0]);
    }
  }

  lemma {:induction false} KeysCover(labels: seq<string>, keys: seq<string>)
    requires Enumerates(keys, Frequencies(labels))
    ensures forall x :: x in multiset(labels) ==> x in keys
  {
    forall x | x in multiset(labels) ensures x in keys {
      FrequenciesCount(labels, x);
      assert x in labels;
    }
  }

  lemma {:induction false} SumValuesIsSumOver(labels: seq<string>, keys: seq<string>)
    ensures SumValues(Frequencies(labels), keys) == SumOver(keys, multiset(labels))
  {
    if keys != [] {
      FrequenciesCount(labels, keys[0]);
      SumValuesIsSumOver(labels, keys[1..]);
    }
  }

  lemma {:induction false} OverlapIsSumOver(a: seq<string>, b: seq<string>, keys: seq<string>)
    ensures OverlapCount(Frequencies(a), Frequencies(b), keys) == SumOver(keys, multiset(a) * multiset(b))
  {
    if keys != [] {
      FrequenciesCount(a, keys[0]);
      FrequenciesCount(b, keys[0]);
      OverlapIsSumOver(a, b, keys[1..]);
    }
  }

  /** The count listed for a label, adding up repeats. */
  function Listed(entries: seq<Count>, key: string): nat {
    if entries == [] then 0
    else (if entries[0].name == key then entries[0].count else 0) + Listed(entries[1..], key)
  }

  lemma {:induction false} InsertKeepsSums(x: Count, s: seq<Count>, key: string)
    ensures Total(Insert(x, s, ByCountThenName())) == x.count + Total(s)
    ensures Listed(Insert(x, s, ByCountThenName()), key) == (if x.name == key then x.count else 0) + Listed(s, key)
  {
    if s != [] && !ByCountThenName()(x, s[0]) {
      InsertKeepsSums(x, s[1..], key);
    }
  }

  lemma {:induction false} SortKeepsSums(s: seq<Count>, key: string)
    ensures Total(Sort(s, ByCountThenName())) == Total(s)
    ensures Listed(Sort(s, ByCountThenName()), key) == Listed(s, key)
  {
    if s != [] {
      SortKeepsSums(s[1..], key);
      InsertKeepsSums(s[0], Sort(s[1..], ByCountThenName()), key);
    }
  }

  lemma {:induction false} SurplusTotal(a: seq<string>, b: seq<string>, keys: seq<string>)
    ensures Total(Surpluses(Frequencies(a), Frequencies(b), keys)) == SumOver(keys, multiset(a) - multiset(b))
  {
    if keys != [] {
      FrequenciesCount(a, keys[0]);
      FrequenciesCount(b, keys[0]);
      SurplusTotal(a, b, keys[1..]);
      var diff := Surplus(Frequencies(a), Frequencies(b), keys[0]);
      var rest := Surpluses(Frequencies(a), Frequencies(b), keys[1..]);
      assert ([Count(keys[0], if diff > 0 then diff else 0)] + rest)[1..] == rest;
      assert [] + rest == rest;
    }
  }

  lemma {:induction false} SurplusListed(a: seq<string>, b: seq<string>, keys: seq<string>, key: string)
    requires forall i, j :: 0 <= i < j < |keys| ==> keys[i] != keys[j]
    ensures Listed(Surpluses(Frequencies(a), Frequencies(b), keys), key)
         == if key in keys then (multiset(a) - multiset(b))[key] else 0
  {
    if keys != [] {
      FrequenciesCount(a, keys[0]);
      FrequenciesCount(b, keys[0]);
      SurplusListed(a, b, keys[1..], key);
      var diff := Surplus(Frequencies(a), Frequencies(b), keys[0]);
      var rest := Surpluses(Frequencies(a), Frequencies(b), keys[1..]);
      assert ([Count(keys[0], if diff > 0 then diff else 0)] + rest)[1..] == rest;
      assert [] + rest == rest;
      assert key in keys <==> key == keys[0] || key in keys[1..];
    }
  }

  lemma {:induction false} DeltaEntriesMean(a: seq<string>, b: seq<string>, keys: seq<string>, key: string)
    requires Enumerates(keys, Frequencies(a))
    ensures Total(DeltaEntries(Frequencies(a), Frequencies(b), keys)) == |multiset(a) - multiset(b)|
    ensures Listed(DeltaEntries(Frequencies(a), Frequencies(b), keys), key) == (multiset(a) - multiset(b))[key]
  {
    KeysCover(a, keys);
    SortKeepsSums(Surpluses(Frequencies(a), Frequencies(b), keys), key);
    SurplusTotal(a, b, keys);
    SumOverAll(keys, multiset(a) - multiset(b));
    SurplusListed(a, b, keys, key);
    assert key in multiset(a) - multiset(b) ==> key in multiset(a);
  }

  /** Main result: the added labels are the multiset difference of the windows, the removed ones the
      difference the other way, and the unchanged count the size of their intersection. */
  lemma {:induction false} DeltaIsMultisetDifference(b: seq<string>, c: seq<string>, bKeys: seq<string>,
                                                     cKeys: seq<string>, key: string)
    requires Enumerates(bKeys, Frequencies(b)) && Enumerates(cKeys, Frequencies(c))
    ensures var d := BuildDelta(b, c, bKeys, cKeys);
            d.baselineCount == |b| && d.comparisonCount == |c| &&
            Listed(d.added, key) == (multiset(c) - multiset(b))[key] &&
            Listed(d.removed, key) == (multiset(b) - multiset(c))[key] &&
            Total(d.added) == |multiset(c) - multiset(b)| &&
            Total(d.removed) == |multiset(b) - multiset(c)| &&
            d.shared == |multiset(b) * multiset(c)|
  {
    DeltaEntriesMean(c, b, cKeys, key);
    DeltaEntriesMean(b, c, bKeys, key);
    KeysCover(b, bKeys);
    KeysCover(c, cKeys);
    SumValuesIsSumOver(b, bKeys);
    SumValuesIsSumOver(c, cKeys);
    SumOverAll(bKeys, multiset(b));
    SumOverAll(cKeys, multiset(c));
    OverlapIsSumOver(b, c, bKeys);
    SumOverAll(bKeys, multiset(b) * multiset(c));
  }

  /** Main result: conservation, label by label. */
  lemma {:induction false} LabelConserved(b: seq<string>, c: seq<string>, bKeys: seq<string>, cKeys: seq<string>,
                                          key: string)
    requires Enumerates(bKeys, Frequencies(b)) && Enumerates(cKeys, Frequencies(c))
    ensures var d := BuildDelta(b, c, bKeys, cKeys);
            multiset(b)[key] + Listed(d.added, key) - Listed(d.removed, key) == multiset(c)[key]
  {
    DeltaIsMultisetDifference(b, c, bKeys, cKeys, key);
  }

  /** Main result: conservation in total. */
  lemma {:induction false} TotalsConserved(b: seq<string>, c: seq<string>, bKeys: seq<string>, cKeys: seq<string>)
    requires Enumerates(bKeys, Frequencies(b)) && Enumerates(cKeys, Frequencies(c))
    ensures var d := BuildDelta(b, c, bKeys, cKeys);
            Total(d.added) + d.shared == d.comparisonCount == |c| &&
            Total(d.removed) + d.shared == d.baselineCount == |b|
  {
    DeltaIsMultisetDifference(b, c, bKeys, cKeys, "");
    DifferenceAndOverlap(multiset(c), multiset(b));
    DifferenceAndOverlap(multiset(b), multiset(c));
    assert multiset(b) * multiset(c) == multiset(c) * multiset(b);
  }

  lemma {:induction false} DifferenceAndOverlap(a: multiset<string>, b: multiset<string>)
    ensures |a - b| + |a * b| == |a|
  {
    assert a == (a - b) + (a * b);
  }

  // ----- canonical order

  lemma {:induction false} OrderIsTotal()
    ensures TotalPreorder(ByCountThenName()) && Antisymmetric(ByCountThenName())
  {
    var before := ByCountThenName();
    forall x, y ensures before(x, y) || before(y, x) {
      TextLeqTotal(x.name, y.name);
    }
    forall x, y, z | before(x, y) && before(y, z) ensures before(x, z) {
      if x.count == y.count == z.count {
        TextLeqTransitive(x.name, y.name, z.name);
      }
    }
    forall x, y | before(x, y) && before(y, x) ensures x == y {
      TextLeqAntisymmetric(x.name, y.name);
    }
  }

  lemma {:induction false} SurplusMember(left: Counts, right: Counts, keys: seq<string>, x: Count)
    requires forall i, j :: 0 <= i < j < |keys| ==> keys[i] != keys[j]
    ensures multiset(Surpluses(left, right, keys))[x]
         == if x.name in keys && x.count > 0 && x.count == Surplus(left, right, x.name) then 1 else 0
  {
    if keys != [] {
      SurplusMember(left, right, keys[1..], x);
      assert x.name in keys <==> x.name == keys[0] || x.name in keys[1..];
    }
  }

  lemma {:induction false} SurplusesSameMembers(left: Counts, right: Counts, keys: seq<string>, keys': seq<string>)
    requires Enumerates(keys, left) && Enumerates(keys', left)
    ensures multiset(Surpluses(left, right, keys)) == multiset(Surpluses(left, right, keys'))
  {
    forall x: Count ensures multiset(Surpluses(left, right, keys))[x] == multiset(Surpluses(left, right, keys'))[x] {
      SurplusMember(left, right, keys, x);
      SurplusMember(left, right, keys', x);
      assert x.name in keys <==> x.name in left;
      assert x.name in keys' <==> x.name in left;
    }
  }

  lemma {:induction false} FrequenciesOfSame(a: seq<string>, a': seq<string>)
    requires multiset(a) == multiset(a')
    ensures Frequencies(a) == Frequencies(a')
  {
    forall k | k in Frequencies(a) ensures k in Frequencies(a') && Frequencies(a)[k] == Frequencies(a')[k] {
      FrequenciesCount(a, k);
      FrequenciesCount(a', k);
      assert k in multiset(a);
    }
    forall k | k in Frequencies(a') ensures k in Frequencies(a) {
      FrequenciesCount(a, k);
      FrequenciesCount(a', k);
      assert k in multiset(a');
    }
  }

  /** Main result: a delta list depends only on which items the windows hold, not on the order of the
      items or of the map's keys. */
  lemma {:induction false} DeltaIsCanonical(a: seq<string>, b: seq<string>, keys: seq<string>, a': seq<string>,
                                            b': seq<string>, keys': seq<string>)
    requires multiset(a) == multiset(a') && multiset(b) == multiset(b')
    requires Enumerates(keys, Frequencies(a)) && Enumerates(keys', Frequencies(a'))
    ensures DeltaEntries(Frequencies(a), Frequencies(b), keys) == DeltaEntries(Frequencies(a'), Frequencies(b'), keys')
  {
    FrequenciesOfSame(a, a');
    FrequenciesOfSame(b, b');
    SurplusesSameMembers(Frequencies(a), Frequencies(b), keys, keys');
    OrderIsTotal();
    SortIsCanonical(Surpluses(Frequencies(a), Frequencies(b), keys), Surpluses(Frequencies(a), Frequencies(b), keys'),
                    ByCountThenName());
  }

  /** Main result: swapping the windows swaps added with removed and keeps the unchanged count. */
  lemma {:induction false} SwapSwaps(b: seq<string>, c: seq<string>, bKeys: seq<string>, cKeys: seq<string>,
                                     bKeys': seq<string>, cKeys': seq<string>)
    requires Enumerates(bKeys, Frequencies(b)) && Enumerates(cKeys, Frequencies(c))
    requires Enumerates(bKeys', Frequencies(b)) && Enumerates(cKeys', Frequencies(c))
    ensures var d, s := BuildDelta(b, c, bKeys, cKeys), BuildDelta(c, b, cKeys', bKeys');
            s.added == d.removed && s.removed == d.added && s.shared == d.shared &&
            s.baselineCount == d.comparisonCount && s.comparisonCount == d.baselineCount
  {
    DeltaIsCanonical(c, b, cKeys, c, b, cKeys');
    DeltaIsCanonical(b, c, bKeys, b, c, bKeys');
    DeltaIsMultisetDifference(b, c, bKeys, cKeys, "");
    DeltaIsMultisetDifference(c, b, cKeys', bKeys', "");
    assert multiset(b) * multiset(c) == multiset(c) * multiset(b);
  }

  /** Main result: a delta list is strictly ordered: no label twice, highest count first, ties by label. */
  lemma {:induction false} DeltaStrictlyOrdered(a: seq<string>, b: seq<string>, keys: seq<string>, i: nat, j: nat)
    requires Enumerates(keys, Frequencies(a))
    requires i < j < |DeltaEntries(Frequencies(a), Frequencies(b), keys)|
    ensures var r := DeltaEntries(Frequencies(a), Frequencies(b), keys);
            0 < r[j].count && r[j].count <= r[i].count && (r[i].count == r[j].count ==> TextLess(r[i].name, r[j].name))
  {
    var left, right := Frequencies(a), Frequencies(b);
    var s := Surpluses(left, right, keys);
    var r := DeltaEntries(left, right, keys);
    OrderIsTotal();
    SortSorts(s, ByCountThenName());
    SortPermutes(s, ByCountThenName());
    SurplusMember(left, right, keys, r[i]);
    SurplusMember(left, right, keys, r[j]);
    assert r[j] in multiset(r);
    assert ByCountThenName()(r[i], r[j]);
    if r[i] == r[j] {
      TwiceInMultiset(r, i, j);
    }
  }

  lemma {:induction false} TwiceInMultiset(r: seq<Count>, i: nat, j: nat)
    requires i < j < |r| && r[i] == r[j]
    ensures multiset(r)[r[i]] >= 2
  {
    assert r == r[..j] + [r[j]] + r[j + 1..];
    assert r[i] in r[..j];
  }

  // ----- decorating entity entries

  /** String.split(s, ": ", parts: 2), when there is a separator. */
  function SplitType(s: string): Option<(string, string)> {
    if |s| < 2 then None
    else if s[0] == ':' && s[1] == ' ' then Some(("", s[2..]))
    else
      match SplitType(s[1..])
      case None => None
      case Some((before, after)) => Some(([s[0]] + before, after))
  }

  datatype EntityEntry = EntityEntry(entry: Count, entityType: string, entityName: string)

  function DecorateEntity(entry: Count): EntityEntry {
    match SplitType(entry.name)
    case Some((entityType, name)) => EntityEntry(entry, entityType, name)
    case None => EntityEntry(entry, "unknown", entry.name)
  }

  lemma {:induction false} SplitAfterType(t: string, n: string)
    ensures SplitType(t) == None ==> SplitType(t + ": " + n) == Some((t, n))
    ensures SplitType(t).Some? ==> SplitType(t + ": " + n).Some? && |SplitType(t + ": " + n).value.0| < |t|
  {
    var s := t + ": " + n;
    if t == [] {
      assert s[2..] == n;
    } else {
      assert s[0] == t[0] && s[1..] == t[1..] + ": " + n;
      SplitAfterType(t[1..], n);
      assert |t| == 1 ==> s[1] == ':';
      assert [t[0]] + t[1..] == t;
    }
  }

  /** A colon followed by a space somewhere in the text. */
  ghost predicate HasSeparator(s: string) {
    exists i :: 0 <= i < |s| - 1 && SeparatorAt(s, i)
  }

  ghost predicate SeparatorAt(s: string, i: nat)
    requires i + 1 < |s|
  {
    s[i] == ':' && s[i + 1] == ' '
  }

  lemma {:induction false} SplitsExactlyWhenSeparated(s: string)
    ensures SplitType(s).Some? <==> HasSeparator(s)
  {
    if |s| >= 2 {
      SplitsExactlyWhenSeparated(s[1..]);
      if SplitType(s[1..]).Some? {
        var i :| 0 <= i < |s[1..]| - 1 && SeparatorAt(s[1..], i);
        assert SeparatorAt(s, i + 1);
      }
      if s[0] == ':' && s[1] == ' ' {
        assert SeparatorAt(s, 0);
      } else if HasSeparator(s) {
        var i :| 0 <= i < |s| - 1 && SeparatorAt(s, i);
        assert SeparatorAt(s[1..], i - 1);
      }
    }
  }

  /** Main result: decorating an entity's label gives its type and name back exactly when the type does not
      itself contain the separator. */
  lemma {:induction false} DecoratingRecoversEntity(e: Entity, t: string, n: string, count: nat)
    requires e.entityType == Some(t) && Or(e.canonicalName, e.name) == Some(n) && t != "" && n != ""
    ensures EntitySignature(e) == t + ": " + n
    ensures DecorateEntity(Count(EntitySignature(e), count)) == EntityEntry(Count(EntitySignature(e), count), t, n)
       <==> !HasSeparator(t)
  {
    var parts := [Some(t), Some(n)];
    assert parts[1..] == [Some(n)] && [Some(n)][1..] == [];
    assert !NonePresent(parts[1..]) by {
      assert parts[1..][0] == Some(n);
    }
    assert JoinPresent([Some(n)], ": ") == n;
    assert JoinPresent(parts, ": ") == t + ": " + n;
    SplitAfterType(t, n);
    SplitsExactlyWhenSeparated(t);
  }

  // ----- decorating fact entries

  /** String.split(s, " ", parts: 2): what precedes the first space, and what follows it if there is one. */
  function SplitWord(s: string): (string, Option<string>) {
    if s == "" then ("", None)
    else if s[0] == ' ' then ("", Some(s[1..]))
    else
      var (word, rest) := SplitWord(s[1..]);
      ([s[0]] + word, rest)
  }

  datatype FactEntry = FactEntry(entry: Count, subject: string, verb: string, target: string)

  /** String.split(s, " ", parts: 3), with "" for the parts that are not there. */
  function DecorateFact(entry: Count): FactEntry {
    var (subject, rest) := SplitWord(entry.name);
    if rest == None then FactEntry(entry, subject, "", "")
    else
      var (verb, last) := SplitWord(rest.value);
      FactEntry(entry, subject, verb, if last.Some? then last.value else "")
  }

  lemma {:induction false} SplitAfterWord(w: string, s: string)
    ensures ' ' !in w ==> SplitWord(w + " " + s) == (w, Some(s))
    ensures ' ' in w ==> |SplitWord(w + " " + s).0| < |w|
  {
    var all := w + " " + s;
    if w == [] {
      assert all[1..] == s;
    } else {
      assert all[0] == w[0] && all[1..] == w[1..] + " " + s;
      SplitAfterWord(w[1..], s);
      assert ' ' in w <==> w[0] == ' ' || ' ' in w[1..];
      assert [w[0]] + w[1..] == w;
    }
  }

  /** Main result: decorating a fact's label gives its three parts back exactly when neither the subject nor
      the predicate contains a space. */
  lemma {:induction false} DecoratingRecoversFact(s: string, v: string, o: string, count: nat)
    requires s != "" && v != "" && o != ""
    ensures var text := FactSignature(Fact(Some(s), Some(v), Some(o)));
            text == s + " " + (v + " " + o) &&
            (DecorateFact(Count(text, count)) == FactEntry(Count(text, count), s, v, o)
             <==> ' ' !in s && ' ' !in v)
  {
    var parts := [Some(s), Some(v), Some(o)];
    assert parts[1..] == [Some(v), Some(o)] && [Some(v), Some(o)][1..] == [Some(o)] && [Some(o)][1..] == [];
    assert !NonePresent([Some(o)]) by {
      assert [Some(o)][0] == Some(o);
    }
    assert !NonePresent([Some(v), Some(o)]) by {
      assert [Some(v), Some(o)][0] == Some(v);
    }
    assert JoinPresent([Some(o)], " ") == o;
    assert JoinPresent([Some(v), Some(o)], " ") == v + " " + o;
    assert JoinPresent(parts, " ") == s + " " + (v + " " + o);
    SplitAfterWord(s, v + " " + o);
    SplitAfterWord(v, o);
  }
}

/** The supported-universe filter of the instrument master. Records whose names match a
    supported symbol seed the selection, which then grows until nothing else shares an
    instrument or underlying id with it: a derivative family is kept whole or not at all. */
module CatalogClosure {
  import opened Outcomes
  import opened Ordering

  /** `detail` stands for the columns the filter only hands to the alias match. */
  datatype Record = Record(exchange: string, segment: string, securityId: string, underlyingSecurityId: Option<string>, detail: string)

  datatype Ref = Ref(exchange: string, id: string)

  /** The ids a record answers to; a missing or empty underlying id links nothing. */
  function Refs(r: Record): set<Ref> {
    {Ref(r.exchange, r.securityId)}
    + if r.underlyingSecurityId.Some? && r.underlyingSecurityId.value != "" then {Ref(r.exchange, r.underlyingSecurityId.value)} else {}
  }

  predicate Linked(a: Record, b: Record) {
    Refs(a) * Refs(b) != {}
  }

  /** The underlying that a record names, if any. */
  ghost function Underlying(r: Record): Option<string> {
    if r.underlyingSecurityId == Some("") then None else r.underlyingSecurityId
  }

  /** Two records belong together when they are of one exchange and are the same security, or one is
      the underlying of the other, or both have the same underlying. */
  lemma LinkLaw(a: Record, b: Record)
    ensures Linked(a, b) <==>
      && a.exchange == b.exchange
      && (|| a.securityId == b.securityId
          || Underlying(a) == Some(b.securityId) || Underlying(b) == Some(a.securityId)
          || (Underlying(a).Some? && Underlying(a) == Underlying(b)))
  {
    if Linked(a, b) {
      var ref :| ref in Refs(a) * Refs(b);
    } else {
      assert Ref(a.exchange, a.securityId) in Refs(a) && Ref(b.exchange, b.securityId) in Refs(b);
      if Underlying(a).Some? { assert Ref(a.exchange, Underlying(a).value) in Refs(a); }
      if Underlying(b).Some? { assert Ref(b.exchange, Underlying(b).value) in Refs(b); }
      assert forall ref :: ref in Refs(a) ==> ref !in Refs(b) by {
        forall ref | ref in Refs(a) ensures ref !in Refs(b) { assert ref !in Refs(a) * Refs(b); }
      }
    }
  }

  // ----- the reference: records reachable from a seed -----

  ghost predicate Chain(supported: Record -> bool, records: seq<Record>, path: seq<Record>) {
    && path != [] && supported(path[0])
    && (forall k :: 0 <= k < |path| ==> path[k] in records)
    && (forall k :: 0 < k < |path| ==> Linked(path[k - 1], path[k]))
  }

  ghost predicate InFamily(supported: Record -> bool, records: seq<Record>, r: Record) {
    exists path :: Chain(supported, records, path) && path[|path| - 1] == r
  }

  /** Holds every seed, and every record linked to a record it holds. */
  ghost predicate Closed(supported: Record -> bool, records: seq<Record>, holds: set<Record>) {
    && (forall r :: r in records && supported(r) ==> r in holds)
    && (forall a, b :: a in records && b in records && a in holds && Linked(a, b) ==> b in holds)
  }

  lemma SeedInFamily(supported: Record -> bool, records: seq<Record>, r: Record)
    requires r in records && supported(r)
    ensures InFamily(supported, records, r)
  {
    assert Chain(supported, records, [r]) && [r][|[r]| - 1] == r;
  }

  lemma LinkInFamily(supported: Record -> bool, records: seq<Record>, a: Record, b: Record)
    requires InFamily(supported, records, a) && b in records && Linked(a, b)
    ensures InFamily(supported, records, b)
  {
    var path :| Chain(supported, records, path) && path[|path| - 1] == a;
    var longer := path + [b];
    assert Chain(supported, records, longer) && longer[|longer| - 1] == b;
  }

  lemma {:induction false} ChainStaysInside(supported: Record -> bool, records: seq<Record>, holds: set<Record>, path: seq<Record>, k: nat)
    requires Closed(supported, records, holds) && Chain(supported, records, path) && k < |path|
    ensures path[k] in holds
  {
    if k > 0 {
      ChainStaysInside(supported, records, holds, path, k - 1);
      assert Linked(path[k - 1], path[k]);
    }
  }

  /** The family is the least closed set: it is closed, and inside every closed set. */
  lemma FamilyIsLeast(supported: Record -> bool, records: seq<Record>)
    ensures Closed(supported, records, set r | r in records && InFamily(supported, records, r))
    ensures forall holds :: Closed(supported, records, holds) ==>
      forall r :: r in records && InFamily(supported, records, r) ==> r in holds
  {
    var family := set r | r in records && InFamily(supported, records, r);
    forall r | r in records && supported(r) ensures r in family { SeedInFamily(supported, records, r); }
    forall a, b | a in records && b in records && a in family && Linked(a, b) ensures b in family {
      LinkInFamily(supported, records, a, b);
    }
    forall holds | Closed(supported, records, holds)
      ensures forall r :: r in records && InFamily(supported, records, r) ==> r in holds
    {
      forall r | r in records && InFamily(supported, records, r) ensures r in holds {
        var path :| Chain(supported, records, path) && path[|path| - 1] == r;
        ChainStaysInside(supported, records, holds, path, |path| - 1);
      }
    }
  }

  ghost function Family(supported: Record -> bool, records: seq<Record>, from: seq<Record>): seq<Record> {
    if from == [] then []
    else (if InFamily(supported, records, from[0]) then [from[0]] else []) + Family(supported, records, from[1..])
  }

  // ----- the growing loop -----

  ghost predicate Owned(records: seq<Record>, selected: set<nat>, ref: Ref) {
    exists i :: i in selected && i < |records| && ref in Refs(records[i])
  }

  /** What the loop keeps: only family members are selected, and the related ids are exactly
      those of the selected records. */
  ghost predicate Growing(supported: Record -> bool, records: seq<Record>, selected: set<nat>, related: set<Ref>) {
    && (forall i :: i in selected ==> i < |records| && InFamily(supported, records, records[i]))
    && (forall i :: i in selected ==> Refs(records[i]) <= related)
    && (forall ref :: ref in related ==> Owned(records, selected, ref))
  }

  lemma OwnedGrows(records: seq<Record>, selected: set<nat>, k: nat, ref: Ref)
    requires Owned(records, selected, ref) || (k < |records| && ref in Refs(records[k]))
    ensures Owned(records, selected + {k}, ref)
  {
    if Owned(records, selected, ref) {
      var i :| i in selected && i < |records| && ref in Refs(records[i]);
      assert i in selected + {k};
    } else {
      assert k in selected + {k};
    }
  }

  lemma OwnedLinks(supported: Record -> bool, records: seq<Record>, selected: set<nat>, ref: Ref, k: nat)
    requires forall i :: i in selected ==> i < |records| && InFamily(supported, records, records[i])
    requires Owned(records, selected, ref) && k < |records| && ref in Refs(records[k])
    ensures InFamily(supported, records, records[k])
  {
    hide InFamily, Refs;
    var i :| i in selected && i < |records| && ref in Refs(records[i]);
    assert ref in Refs(records[i]) * Refs(records[k]);
    LinkInFamily(supported, records, records[i], records[k]);
  }

  lemma GrowKeeps(supported: Record -> bool, records: seq<Record>, selected: set<nat>, related: set<Ref>, k: nat)
    requires Growing(supported, records, selected, related)
    requires k < |records| && (supported(records[k]) || Refs(records[k]) * related != {})
    ensures Growing(supported, records, selected + {k}, related + Refs(records[k]))
  {
    hide InFamily, Refs, Owned;
    var r := records[k];
    if supported(r) {
      SeedInFamily(supported, records, r);
    } else {
      var ref :| ref in Refs(r) * related;
      OwnedLinks(supported, records, selected, ref, k);
    }
    forall ref | ref in related + Refs(r) ensures Owned(records, selected + {k}, ref) {
      OwnedGrows(records, selected, k, ref);
    }
  }

  ghost function Chosen(records: seq<Record>, selected: set<nat>): set<Record> {
    set i | 0 <= i < |records| && i in selected :: records[i]
  }

  ghost predicate Stable(records: seq<Record>, selected: set<nat>, related: set<Ref>) {
    forall i :: 0 <= i < |records| && i !in selected ==> Refs(records[i]) * related == {}
  }

  lemma StableIsClosed(supported: Record -> bool, records: seq<Record>, selected: set<nat>, related: set<Ref>)
    requires Growing(supported, records, selected, related) && Stable(records, selected, related)
    requires forall i :: 0 <= i < |records| && supported(records[i]) ==> i in selected
    ensures Closed(supported, records, Chosen(records, selected))
  {
    hide InFamily, Refs, Owned;
    var holds := Chosen(records, selected);
    forall a, b | a in records && b in records && a in holds && Linked(a, b) ensures b in holds {
      var i :| 0 <= i < |records| && i in selected && records[i] == a;
      var j :| 0 <= j < |records| && records[j] == b;
      var ref :| ref in Refs(a) * Refs(b);
      assert ref in Refs(records[j]) * related;
    }
  }

  /** A duplicate of a selected record is selected too: it shares its identity. */
  lemma StableHasCopies(supported: Record -> bool, records: seq<Record>, selected: set<nat>, related: set<Ref>, i: nat)
    requires Growing(supported, records, selected, related) && Stable(records, selected, related)
    requires i < |records| && records[i] in Chosen(records, selected)
    ensures i in selected
  {
    hide InFamily, Owned;
    var j :| 0 <= j < |records| && j in selected && records[j] == records[i];
    assert Ref(records[i].exchange, records[i].securityId) in Refs(records[i]) * related;
  }

  /** When a whole pass selects nothing, exactly the family is selected. */
  lemma StableIsComplete(supported: Record -> bool, records: seq<Record>, selected: set<nat>, related: set<Ref>)
    requires Growing(supported, records, selected, related) && Stable(records, selected, related)
    requires forall i :: 0 <= i < |records| && supported(records[i]) ==> i in selected
    ensures forall i :: 0 <= i < |records| ==> (i in selected <==> InFamily(supported, records, records[i]))
  {
    hide InFamily, Refs, Owned, Chosen, Stable, Closed;
    StableIsClosed(supported, records, selected, related);
    FamilyIsLeast(supported, records);
    forall i | 0 <= i < |records| && InFamily(supported, records, records[i]) ensures i in selected {
      assert records[i] in Chosen(records, selected);
      StableHasCopies(supported, records, selected, related, i);
    }
  }

  lemma {:induction false} SelectedBounded(selected: set<nat>, n: nat)
    requires forall i :: i in selected ==> i < n
    ensures |selected| <= n
    decreases n
  {
    if n > 0 {
      SelectedBounded(selected - {n - 1}, n - 1);
      assert |selected| <= |selected - {n - 1}| + 1;
    } else {
      assert selected == {};
    }
  }

  // ----- the sorted result -----

  predicate KeyLeq(a: Record, b: Record) {
    if a.exchange != b.exchange then StringLeq(a.exchange, b.exchange)
    else if a.segment != b.segment then StringLeq(a.segment, b.segment)
    else StringLeq(a.securityId, b.securityId)
  }

  lemma KeyLeqTotal(a: Record, b: Record)
    ensures KeyLeq(a, b) || KeyLeq(b, a)
    ensures KeyLeq(a, b) && KeyLeq(b, a) ==> SameKey(a, b)
  {
    StringLeqTotal(a.exchange, b.exchange);
    StringLeqTotal(a.segment, b.segment);
    StringLeqTotal(a.securityId, b.securityId);
  }

  lemma KeyLeqTransitive(a: Record, b: Record, c: Record)
    requires KeyLeq(a, b) && KeyLeq(b, c)
    ensures KeyLeq(a, c)
  {
    if a.exchange != b.exchange || b.exchange != c.exchange {
      StringLeqTotal(a.exchange, b.exchange);
      StringLeqTotal(b.exchange, c.exchange);
      if a.exchange != b.exchange && b.exchange != c.exchange {
        StringLeqTransitive(a.exchange, b.exchange, c.exchange);
      }
    } else if a.segment != b.segment || b.segment != c.segment {
      StringLeqTotal(a.segment, b.segment);
      StringLeqTotal(b.segment, c.segment);
      if a.segment != b.segment && b.segment != c.segment {
        StringLeqTransitive(a.segment, b.segment, c.segment);
      }
    } else {
      StringLeqTransitive(a.securityId, b.securityId, c.securityId);
    }
  }

  lemma KeyLeqOrders()
    ensures TotalPreorder(KeyLeq)
  {
    forall a, b ensures KeyLeq(a, b) || KeyLeq(b, a) { KeyLeqTotal(a, b); }
    forall a, b, c | KeyLeq(a, b) && KeyLeq(b, c) ensures KeyLeq(a, c) { KeyLeqTransitive(a, b, c); }
  }

  predicate SameKey(a: Record, b: Record) {
    a.exchange == b.exchange && a.segment == b.segment && a.securityId == b.securityId
  }

  /** What the filter promises: the family's records, each as often as in the master, in key order. */
  ghost predicate Filtered(supported: Record -> bool, records: seq<Record>, result: seq<Record>) {
    && multiset(result) == multiset(Family(supported, records, records))
    && SortedBy(KeyLeq, result)
  }

  /** Exchanges ascend; segments within one exchange, and ids within one segment. */
  ghost predicate InOrder(a: Record, b: Record) {
    && StringLeq(a.exchange, b.exchange)
    && (a.exchange == b.exchange ==> StringLeq(a.segment, b.segment))
    && (a.exchange == b.exchange && a.segment == b.segment ==> StringLeq(a.securityId, b.securityId))
  }

  ghost predicate Catalogued(result: seq<Record>) {
    forall i, k :: 0 <= i < k < |result| ==> InOrder(result[i], result[k])
  }

  /** What the filter's promise says record by record. */
  lemma FilteredLaw(supported: Record -> bool, records: seq<Record>, result: seq<Record>)
    requires Filtered(supported, records, result)
    ensures Catalogued(result)
    ensures forall r :: multiset(result)[r] == if InFamily(supported, records, r) then multiset(records)[r] else 0
  {
    hide InFamily, KeyLeq;
    forall r ensures multiset(result)[r] == if InFamily(supported, records, r) then multiset(records)[r] else 0 {
      FamilyCounts(supported, records, records, r);
    }
    forall i, k | 0 <= i < k < |result| ensures InOrder(result[i], result[k]) { KeyLaw(result[i], result[k]); }
  }

  lemma KeyLaw(a: Record, b: Record)
    ensures KeyLeq(a, b) ==> InOrder(a, b)
  {
    hide StringLeq;
    StringLeqTotal(a.exchange, a.exchange);
    StringLeqTotal(a.segment, a.segment);
  }

  /** The selected records in the order of the master. */
  method Collect(records: seq<Record>, selected: set<nat>, ghost supported: Record -> bool) returns (kept: seq<Record>)
    requires forall i :: 0 <= i < |records| ==> (i in selected <==> InFamily(supported, records, records[i]))
    ensures kept == Family(supported, records, records)
  {
    kept := [];
    var i := |records|;
    assert records[i..] == [];
    while i > 0
      invariant 0 <= i <= |records|
      invariant kept == Family(supported, records, records[i..])
    {
      i := i - 1;
      assert records[i..][0] == records[i] && records[i..][1..] == records[i + 1..];
      if i in selected { kept := [records[i]] + kept; }
    }
    assert records[0..] == records;
  }

  lemma NothingSelected(supported: Record -> bool, records: seq<Record>)
    ensures Growing(supported, records, {}, {})
  {
  }

  lemma GrowingBounded(supported: Record -> bool, records: seq<Record>, selected: set<nat>, related: set<Ref>)
    requires Growing(supported, records, selected, related)
    ensures |selected| <= |records|
  {
    hide InFamily, Refs, Owned;
    SelectedBounded(selected, |records|);
  }

  /** The seeding pass. */
  method SelectSeeds(supported: Record -> bool, records: seq<Record>) returns (selected: set<nat>, related: set<Ref>)
    ensures Growing(supported, records, selected, related)
    ensures forall i :: 0 <= i < |records| && supported(records[i]) ==> i in selected
  {
    hide Growing, Refs;
    selected, related := {}, {};
    NothingSelected(supported, records);
    for index := 0 to |records|
      invariant Growing(supported, records, selected, related)
      invariant forall i :: 0 <= i < index && supported(records[i]) ==> i in selected
    {
      if supported(records[index]) {
        GrowKeeps(supported, records, selected, related, index);
        selected, related := selected + {index}, related + Refs(records[index]);
      }
    }
  }

  /** One growing pass; when it changes nothing, nothing unselected is related. */
  method GrowOnce(ghost supported: Record -> bool, records: seq<Record>, selected0: set<nat>, related0: set<Ref>)
    returns (selected: set<nat>, related: set<Ref>, changed: bool)
    requires Growing(supported, records, selected0, related0)
    ensures Growing(supported, records, selected, related)
    ensures selected0 <= selected
    ensures changed ==> |selected0| < |selected|
    ensures !changed ==> selected == selected0 && related == related0 && Stable(records, selected, related)
  {
    hide Growing, Refs;
    selected, related, changed := selected0, related0, false;
    for index := 0 to |records|
      invariant Growing(supported, records, selected, related)
      invariant selected0 <= selected
      invariant changed ==> |selected0| < |selected|
      invariant |selected0| <= |selected|
      invariant !changed ==> selected == selected0 && related == related0
      invariant !changed ==> forall i :: 0 <= i < index && i !in selected ==> Refs(records[i]) * related == {}
    {
      if index !in selected && Refs(records[index]) * related != {} {
        GrowKeeps(supported, records, selected, related, index);
        selected, related, changed := selected + {index}, related + Refs(records[index]), true;
      }
    }
  }

  method FilterSupportedInstruments(supported: Record -> bool, records: seq<Record>) returns (result: seq<Record>)
    ensures Filtered(supported, records, result) && result == Run(supported, records)
    ensures Catalogued(result)
    ensures forall r :: multiset(result)[r] == if InFamily(supported, records, r) then multiset(records)[r] else 0
  {
    hide Growing, Stable, InFamily;
    var selected, related := SelectSeeds(supported, records);
    var changed := true;
    while changed
      invariant Growing(supported, records, selected, related)
      invariant forall i :: 0 <= i < |records| && supported(records[i]) ==> i in selected
      invariant !changed ==> Stable(records, selected, related)
      decreases |records| - |selected|, changed
    {
      selected, related, changed := GrowOnce(supported, records, selected, related);
      GrowingBounded(supported, records, selected, related);
    }
    StableIsComplete(supported, records, selected, related);
    var kept := Collect(records, selected, supported);
    KeyLeqOrders();
    SortCorrect(KeyLeq, kept);
    result := Sort(KeyLeq, kept);
    FilteredLaw(supported, records, result);
  }

  // ----- the result and the order of the master -----

  lemma {:induction false} FamilyCounts(supported: Record -> bool, records: seq<Record>, from: seq<Record>, r: Record)
    ensures multiset(Family(supported, records, from))[r] == if InFamily(supported, records, r) then multiset(from)[r] else 0
  {
    hide InFamily;
    if from != [] {
      FamilyCounts(supported, records, from[1..], r);
      assert from == [from[0]] + from[1..];
    }
  }

  lemma FamilyOfPermutation(supported: Record -> bool, records: seq<Record>, permuted: seq<Record>, r: Record)
    requires multiset(records) == multiset(permuted)
    ensures InFamily(supported, records, r) ==> InFamily(supported, permuted, r)
  {
    if InFamily(supported, records, r) {
      var path :| Chain(supported, records, path) && path[|path| - 1] == r;
      forall k | 0 <= k < |path| ensures path[k] in permuted {
        assert path[k] in multiset(records);
      }
      assert Chain(supported, permuted, path);
    }
  }

  lemma FamilyIgnoresOrder(supported: Record -> bool, records: seq<Record>, permuted: seq<Record>)
    requires multiset(records) == multiset(permuted)
    ensures multiset(Family(supported, records, records)) == multiset(Family(supported, permuted, permuted))
  {
    var a, b := multiset(Family(supported, records, records)), multiset(Family(supported, permuted, permuted));
    forall r ensures a[r] == b[r] {
      FamilyCounts(supported, records, records, r);
      FamilyCounts(supported, permuted, permuted, r);
      FamilyOfPermutation(supported, records, permuted, r);
      FamilyOfPermutation(supported, permuted, records, r);
    }
  }

  /** No two different kept records carry the same exchange, segment and security id. */
  ghost predicate UniqueKeys(supported: Record -> bool, records: seq<Record>) {
    forall a, b :: a in records && b in records && InFamily(supported, records, a) && InFamily(supported, records, b) && SameKey(a, b) ==> a == b
  }

  lemma KeptRecord(supported: Record -> bool, records: seq<Record>, result: seq<Record>, r: Record)
    requires multiset(result) == multiset(Family(supported, records, records))
    ensures r in result <==> r in records && InFamily(supported, records, r)
  {
    FamilyCounts(supported, records, records, r);
    assert r in result <==> multiset(result)[r] > 0;
    assert r in records <==> multiset(records)[r] > 0;
  }

  lemma UniqueKeysNoTies(supported: Record -> bool, records: seq<Record>, result: seq<Record>)
    requires UniqueKeys(supported, records)
    requires multiset(result) == multiset(Family(supported, records, records))
    ensures NoTies(KeyLeq, result)
  {
    hide InFamily, KeyLeq;
    forall i, j | 0 <= i < |result| && 0 <= j < |result| && KeyLeq(result[i], result[j]) && KeyLeq(result[j], result[i])
      ensures result[i] == result[j]
    {
      KeyLeqTotal(result[i], result[j]);
      KeptRecord(supported, records, result, result[i]);
      KeptRecord(supported, records, result, result[j]);
    }
  }

  /** With unique keys the filter's result does not depend on the order of the master. */
  lemma OrderIndependent(supported: Record -> bool, records: seq<Record>, permuted: seq<Record>, first: seq<Record>, second: seq<Record>)
    requires multiset(records) == multiset(permuted) && UniqueKeys(supported, records)
    requires Filtered(supported, records, first) && Filtered(supported, permuted, second)
    ensures first == second
  {
    hide UniqueKeys, KeyLeq;
    FamilyIgnoresOrder(supported, records, permuted);
    UniqueKeysNoTies(supported, records, first);
    KeyLeqOrders();
    SortedUnique(KeyLeq, first, second);
  }

  // ----- ties -----

  /** The filter as its loops run it: the family in the order of the master, stably sorted. */
  ghost function Run(supported: Record -> bool, records: seq<Record>): seq<Record> {
    Sort(KeyLeq, Family(supported, records, records))
  }

  /** Tied records go in with the later one in front of the earlier, so exchanging two different
      ones that are inserted next to each other changes the result. */
  lemma {:induction false} InsertTied(a: Record, b: Record, s: seq<Record>)
    requires a != b && SameKey(a, b)
    ensures Insert(KeyLeq, a, Insert(KeyLeq, b, s)) != Insert(KeyLeq, b, Insert(KeyLeq, a, s))
  {
    hide StringLeq;
    if s != [] { TiedAlike(a, b, s[0]); }
    if s == [] || KeyLeq(a, s[0]) {
      TiedFront(a, b, s);
      TiedFront(b, a, s);
      assert ([a, b] + s)[0] != ([b, a] + s)[0];
    } else {
      InsertTied(a, b, s[1..]);
      TiedBack(a, b, s);
      TiedBack(b, a, s);
      var x, y := Insert(KeyLeq, a, Insert(KeyLeq, b, s[1..])), Insert(KeyLeq, b, Insert(KeyLeq, a, s[1..]));
      assert ([s[0]] + x)[1..] == x && ([s[0]] + y)[1..] == y;
    }
  }

  lemma TiedAlike(a: Record, b: Record, c: Record)
    requires SameKey(a, b)
    ensures KeyLeq(a, b) && KeyLeq(b, a) && (KeyLeq(a, c) <==> KeyLeq(b, c))
  {
    KeyLeqTotal(a, a);
    KeyLeqTotal(a, b);
  }

  lemma TiedFront(a: Record, b: Record, s: seq<Record>)
    requires SameKey(a, b) && (s == [] || KeyLeq(b, s[0]))
    ensures Insert(KeyLeq, a, Insert(KeyLeq, b, s)) == [a, b] + s
  {
    TiedAlike(a, b, a);
    assert Insert(KeyLeq, b, s) == [b] + s;
    assert [a] + ([b] + s) == [a, b] + s;
  }

  lemma TiedBack(a: Record, b: Record, s: seq<Record>)
    requires s != [] && !KeyLeq(a, s[0]) && !KeyLeq(b, s[0])
    ensures Insert(KeyLeq, a, Insert(KeyLeq, b, s)) == [s[0]] + Insert(KeyLeq, a, Insert(KeyLeq, b, s[1..]))
  {
    hide KeyLeq;
  }

  /** Two tied family members at the head of a master. */
  lemma TiedHeads(supported: Record -> bool, a: Record, b: Record, rest: seq<Record>)
    requires a != b && SameKey(a, b)
    requires InFamily(supported, [a, b] + rest, a) && InFamily(supported, [a, b] + rest, b)
    ensures Run(supported, [a, b] + rest) != Run(supported, [b, a] + rest)
  {
    hide InFamily, KeyLeq;
    var one, two := [a, b] + rest, [b, a] + rest;
    SwapHeads(a, b, rest);
    FamilyHeads(supported, one, a, b, rest);
    SameFamily(supported, one, two, rest);
    FamilyOfPermutation(supported, one, two, a);
    FamilyOfPermutation(supported, one, two, b);
    FamilyHeads(supported, two, b, a, rest);
    InsertTied(a, b, Sort(KeyLeq, Family(supported, one, rest)));
  }

  lemma SwapHeads(a: Record, b: Record, rest: seq<Record>)
    ensures multiset([a, b] + rest) == multiset([b, a] + rest)
  {
  }

  lemma FamilyHeads(supported: Record -> bool, records: seq<Record>, a: Record, b: Record, rest: seq<Record>)
    requires InFamily(supported, records, a) && InFamily(supported, records, b)
    ensures Sort(KeyLeq, Family(supported, records, [a, b] + rest))
         == Insert(KeyLeq, a, Insert(KeyLeq, b, Sort(KeyLeq, Family(supported, records, rest))))
  {
    hide InFamily, KeyLeq, Insert;
    var tail := Family(supported, records, rest);
    assert ([a, b] + rest)[1..] == [b] + rest && ([b] + rest)[1..] == rest;
    assert Family(supported, records, [b] + rest) == [b] + tail;
    assert Family(supported, records, [a, b] + rest) == [a] + ([b] + tail);
    assert ([a] + ([b] + tail))[1..] == [b] + tail && ([b] + tail)[1..] == tail;
  }

  lemma {:induction false} SameFamily(supported: Record -> bool, records: seq<Record>, permuted: seq<Record>, from: seq<Record>)
    requires multiset(records) == multiset(permuted)
    ensures Family(supported, records, from) == Family(supported, permuted, from)
  {
    hide InFamily;
    if from != [] {
      FamilyOfPermutation(supported, records, permuted, from[0]);
      FamilyOfPermutation(supported, permuted, records, from[0]);
      SameFamily(supported, records, permuted, from[1..]);
    }
  }

  lemma MoveToFront(s: seq<Record>, a: Record, b: Record) returns (rest: seq<Record>)
    requires a in s && b in s && a != b
    ensures multiset(s) == multiset([a, b] + rest)
  {
    var t := Without(s, a);
    assert multiset(s)[b] > 0;
    assert multiset(t)[b] > 0;
    rest := Without(t, b);
    assert multiset([a, b] + rest) == multiset{a} + (multiset{b} + multiset(rest));
  }

  lemma Without(s: seq<Record>, x: Record) returns (rest: seq<Record>)
    requires x in s
    ensures multiset(s) == multiset{x} + multiset(rest)
  {
    var i :| 0 <= i < |s| && s[i] == x;
    rest := s[..i] + s[i + 1..];
    assert s == s[..i] + [x] + s[i + 1..];
  }

  /** The result depends on the order of the master exactly when two different kept records carry
      the same key: two permutations of the master then filter to different sequences. */
  lemma OrderMatters(supported: Record -> bool, records: seq<Record>)
    ensures UniqueKeys(supported, records) <==>
      forall one, two :: multiset(one) == multiset(records) && multiset(two) == multiset(records) ==>
        Run(supported, one) == Run(supported, two)
  {
    hide InFamily, Run, KeyLeq, SameKey;
    if UniqueKeys(supported, records) {
      forall one, two | multiset(one) == multiset(records) && multiset(two) == multiset(records)
        ensures Run(supported, one) == Run(supported, two)
      {
        RunFiltered(supported, one);
        RunFiltered(supported, two);
        UniqueEverywhere(supported, records, one);
        OrderIndependent(supported, one, two, Run(supported, one), Run(supported, two));
      }
    } else {
      var a, b :| a in records && b in records && InFamily(supported, records, a) && InFamily(supported, records, b) && SameKey(a, b) && a != b;
      var rest := MoveToFront(records, a, b);
      FamilyOfPermutation(supported, records, [a, b] + rest, a);
      FamilyOfPermutation(supported, records, [a, b] + rest, b);
      TiedHeads(supported, a, b, rest);
      SwapHeads(a, b, rest);
    }
  }

  lemma RunFiltered(supported: Record -> bool, records: seq<Record>)
    ensures Filtered(supported, records, Run(supported, records))
  {
    hide InFamily, KeyLeq, Family;
    KeyLeqOrders();
    SortCorrect(KeyLeq, Family(supported, records, records));
  }

  lemma UniqueEverywhere(supported: Record -> bool, records: seq<Record>, permuted: seq<Record>)
    requires multiset(records) == multiset(permuted) && UniqueKeys(supported, records)
    ensures UniqueKeys(supported, permuted)
  {
    hide InFamily, SameKey;
    forall a, b | a in permuted && b in permuted && InFamily(supported, permuted, a) && InFamily(supported, permuted, b) && SameKey(a, b)
      ensures a == b
    {
      assert a in multiset(records) && b in multiset(records) by { assert a in multiset(permuted) && b in multiset(permuted); }
      FamilyOfPermutation(supported, permuted, records, a);
      FamilyOfPermutation(supported, permuted, records, b);
    }
  }

  /** Two listings of one security, both matched: whichever comes first in the master comes first
      in the catalog. */
  lemma TiedMaster()
    ensures var supported := (r: Record) => true;
      var a, b := Record("NSE", "E", "1", None, "EQ"), Record("NSE", "E", "1", None, "BE");
      Run(supported, [a, b]) != Run(supported, [b, a])
  {
    var supported := (r: Record) => true;
    var a, b := Record("NSE", "E", "1", None, "EQ"), Record("NSE", "E", "1", None, "BE");
    assert [a, b] + [] == [a, b] && [b, a] + [] == [b, a];
    SeedInFamily(supported, [a, b], a);
    SeedInFamily(supported, [a, b], b);
    assert a.detail[0] != b.detail[0];
    TiedHeads(supported, a, b, []);
  }
}

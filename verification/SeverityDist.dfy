/**
 * The severity distribution chart (components/severity-dist.tsx).  It reads
 * an audit list off each section, a field the schema's section type does not
 * declare, so a section here carries an optional audit list.
 */
module SeverityDist {
  import opened Wrappers
  import opened Schemas
  import Filters
  import JsObject

  datatype ChartSection = ChartSection(
    sectionName: string,
    sectionScore: int,
    comments: string,
    lineByLineAudit: Option<seq<Issue>>)

  /** One pie slice. */
  datatype Entry = Entry(name: string, value: nat, color: string)

  datatype SeverityChartView =
    | NoIssueData
    | NoIssuesFound
    | PieChart(data: seq<Entry>, totalIssues: nat)

  /** The severities of `audits` that count: the truthy ones, in order. */
  function Severities(audits: seq<Issue>): (r: seq<string>)
    ensures "" !in r
    ensures |r| <= |audits|
  {
    if audits == [] then []
    else
      var last := audits[|audits| - 1];
      Severities(audits[..|audits| - 1]) + (if last.severity != "" then [last.severity] else [])
  }

  /** The counted severities of all sections that carry an audit list, section by section. */
  function Flat(sections: seq<ChartSection>): seq<string> {
    if sections == [] then []
    else
      var last := sections[|sections| - 1];
      Flat(sections[..|sections| - 1]) + (if last.lineByLineAudit.Some? then Severities(last.lineByLineAudit.value) else [])
  }

  predicate Distinct(xs: seq<string>) {
    forall i, j :: 0 <= i < j < |xs| ==> xs[i] != xs[j]
  }

  /** The distinct values of `xs` in order of first appearance: the key order of a record filled from `xs`. */
  function FirstOccurrences(xs: seq<string>): (r: seq<string>)
    ensures Distinct(r)
    ensures forall x :: x in r <==> x in xs
  {
    if xs == [] then []
    else
      var p := FirstOccurrences(xs[..|xs| - 1]);
      var x := xs[|xs| - 1];
      assert forall y :: y in xs <==> y in xs[..|xs| - 1] || y == x;
      if x in p then p else p + [x]
  }

  lemma FirstOccurrencesSnoc(xs: seq<string>, x: string)
    ensures FirstOccurrences(xs + [x]) == if x in xs then FirstOccurrences(xs) else FirstOccurrences(xs) + [x]
  {
    assert (xs + [x])[..|xs|] == xs;
  }

  /**
   * A value of the tally record: a count, or the string that `+ 1` makes of
   * an inherited member (a function's source text or "[object Object]"
   * followed by "1"s).
   */
  datatype Tally = Count(n: nat) | Concatenated

  /** What `acc[x]` reads on a record whose own properties are `counts`. */
  datatype Lookup = Undefined | Own(value: Tally) | InheritedMember

  function Read(counts: map<string, Tally>, x: string): Lookup {
    if x in counts then Own(counts[x])
    else if JsObject.Inherited(x) then InheritedMember
    else Undefined
  }

  /** `(acc[x] || 0) + 1`: `undefined` becomes 1, a count goes up by one, anything else is concatenated with "1". */
  function PlusOne(v: Lookup): Tally {
    match v
    case Undefined => Count(1)
    case Own(Count(n)) => Count(n + 1)
    case _ => Concatenated
  }

  /** The one name whose assignment on a plain object goes to a setter, which ignores a value that is not an object. */
  const ProtoKey := "__proto__"

  /** The record's own keys after `acc[x] = ...`: a new key is appended, an existing one keeps its place. */
  function AddKey(keys: seq<string>, counts: map<string, Tally>, x: string): seq<string> {
    if x in counts || x == ProtoKey then keys else keys + [x]
  }

  /** The record's own values after `acc[x] = (acc[x] || 0) + 1`. */
  function Assign(counts: map<string, Tally>, x: string): map<string, Tally> {
    if x !in counts && x == ProtoKey then counts else counts[x := PlusOne(Read(counts, x))]
  }

  /** The severities among `xs` that become own keys: all but `__proto__`. */
  function Stored(xs: seq<string>): seq<string> {
    if xs == [] then []
    else Stored(xs[..|xs| - 1]) + (if xs[|xs| - 1] == ProtoKey then [] else [xs[|xs| - 1]])
  }

  /** The severities among `xs` the chart can show: those that do not name an inherited member. */
  function Countable(xs: seq<string>): seq<string> {
    if xs == [] then []
    else Countable(xs[..|xs| - 1]) + (if JsObject.Inherited(xs[|xs| - 1]) then [] else [xs[|xs| - 1]])
  }

  lemma {:induction false} StoredMembers(xs: seq<string>)
    ensures forall x :: x in Stored(xs) <==> x in xs && x != ProtoKey
  {
    if xs != [] {
      var init := xs[..|xs| - 1];
      StoredMembers(init);
      assert xs == init + [xs[|xs| - 1]];
    }
  }

  lemma {:induction false} CountableMembers(xs: seq<string>)
    ensures forall x :: x in Countable(xs) <==> x in xs && !JsObject.Inherited(x)
    ensures |Countable(xs)| <= |xs|
  {
    if xs != [] {
      var init := xs[..|xs| - 1];
      CountableMembers(init);
      assert xs == init + [xs[|xs| - 1]];
    }
  }

  /** The value a tally of a severity seen `n` times holds: its count, or a string for an inherited name. */
  function Expected(k: string, n: nat): Tally {
    if JsObject.Inherited(k) then Concatenated else Count(n)
  }

  /** `keys` and `counts` are the record a tally of `xs` builds: own keys in insertion order, and their values. */
  ghost predicate Tallies(keys: seq<string>, counts: map<string, Tally>, xs: seq<string>) {
    && keys == FirstOccurrences(Stored(xs))
    && (forall k :: k in counts <==> k in Stored(xs))
    && (forall k :: k in counts ==> counts[k] == Expected(k, multiset(xs)[k]))
  }

  lemma StoredSnoc(xs: seq<string>, x: string)
    ensures Stored(xs + [x]) == Stored(xs) + (if x == ProtoKey then [] else [x])
  {
    assert (xs + [x])[..|xs|] == xs;
  }

  lemma CountableSnoc(xs: seq<string>, x: string)
    ensures Countable(xs + [x]) == Countable(xs) + (if JsObject.Inherited(x) then [] else [x])
  {
    assert (xs + [x])[..|xs|] == xs;
  }

  /** Counting one more severity extends the tally of `xs` to a tally of `xs + [x]`. */
  lemma TallySnoc(keys: seq<string>, counts: map<string, Tally>, xs: seq<string>, x: string)
    requires Tallies(keys, counts, xs)
    ensures Tallies(AddKey(keys, counts, x), Assign(counts, x), xs + [x])
  {
    StoredSnoc(xs, x);
    StoredMembers(xs);
    if x == ProtoKey {
      assert Stored(xs + [x]) == Stored(xs);
      TallyValuesKept(counts, xs, x);
    } else {
      FirstOccurrencesSnoc(Stored(xs), x);
      TallyValuesBumped(counts, xs, x);
      assert forall k :: k in Stored(xs) + [x] <==> k in Stored(xs) || k == x;
    }
  }

  /** Seeing `__proto__` changes no value of the record. */
  lemma TallyValuesKept(counts: map<string, Tally>, xs: seq<string>, x: string)
    requires x !in counts
    requires forall k :: k in counts ==> counts[k] == Expected(k, multiset(xs)[k])
    ensures forall k :: k in counts ==> counts[k] == Expected(k, multiset(xs + [x])[k])
  {
    assert multiset(xs + [x]) == multiset(xs) + multiset{x};
  }

  /** Seeing any other name sets its value to the one its new count calls for. */
  lemma TallyValuesBumped(counts: map<string, Tally>, xs: seq<string>, x: string)
    requires x != ProtoKey && (x !in counts ==> x !in xs)
    requires forall k :: k in counts ==> counts[k] == Expected(k, multiset(xs)[k])
    ensures Assign(counts, x).Keys == counts.Keys + {x}
    ensures forall k :: k in Assign(counts, x) ==> Assign(counts, x)[k] == Expected(k, multiset(xs + [x])[k])
  {
    var m, m' := multiset(xs), multiset(xs + [x]);
    assert m' == m + multiset{x};
    assert m'[x] == m[x] + 1;
    assert Assign(counts, x)[x] == Expected(x, m'[x]);
  }

  lemma SeveritiesSnoc(audits: seq<Issue>, j: nat)
    requires j < |audits|
    ensures Severities(audits[..j + 1]) == Severities(audits[..j]) + (if audits[j].severity != "" then [audits[j].severity] else [])
  {
    assert audits[..j + 1][..j] == audits[..j];
  }

  lemma FlatSnoc(sections: seq<ChartSection>, i: nat)
    requires i < |sections|
    ensures Flat(sections[..i + 1]) == Flat(sections[..i])
      + (if sections[i].lineByLineAudit.Some? then Severities(sections[i].lineByLineAudit.value) else [])
  {
    assert sections[..i + 1][..i] == sections[..i];
  }

  /** One step of the inner `forEach`: visiting audit `j` extends the tally to the prefix ending after it. */
  lemma TallyAuditStep(keys: seq<string>, counts: map<string, Tally>, before: seq<string>, audits: seq<Issue>, j: nat)
    requires j < |audits|
    requires Tallies(keys, counts, before + Severities(audits[..j]))
    ensures audits[j].severity != "" ==>
      Tallies(AddKey(keys, counts, audits[j].severity), Assign(counts, audits[j].severity), before + Severities(audits[..j + 1]))
    ensures audits[j].severity == "" ==> Tallies(keys, counts, before + Severities(audits[..j + 1]))
  {
    SeveritiesSnocAfter(before, audits, j);
    if audits[j].severity != "" {
      TallyExtend(keys, counts, before + Severities(audits[..j]), before + Severities(audits[..j + 1]), audits[j].severity);
    } else {
      TallySame(keys, counts, before + Severities(audits[..j]), before + Severities(audits[..j + 1]));
    }
  }

  lemma SeveritiesSnocAfter(before: seq<string>, audits: seq<Issue>, j: nat)
    requires j < |audits|
    ensures before + Severities(audits[..j + 1])
      == before + Severities(audits[..j]) + (if audits[j].severity != "" then [audits[j].severity] else [])
  {
    SeveritiesSnoc(audits, j);
  }

  lemma TallyExtend(keys: seq<string>, counts: map<string, Tally>, xs: seq<string>, ys: seq<string>, x: string)
    requires Tallies(keys, counts, xs)
    requires ys == xs + [x]
    ensures Tallies(AddKey(keys, counts, x), Assign(counts, x), ys)
  {
    TallySnoc(keys, counts, xs, x);
  }

  lemma TallySame(keys: seq<string>, counts: map<string, Tally>, xs: seq<string>, ys: seq<string>)
    requires Tallies(keys, counts, xs)
    requires ys == xs
    ensures Tallies(keys, counts, ys)
  {
  }

  /** The inner `forEach`: adds one section's audits to the record. */
  method CountAudits(audits: seq<Issue>, keys0: seq<string>, counts0: map<string, Tally>, ghost before: seq<string>)
    returns (keys: seq<string>, counts: map<string, Tally>)
    requires Tallies(keys0, counts0, before)
    ensures Tallies(keys, counts, before + Severities(audits))
  {
    keys, counts := keys0, counts0;
    assert before + Severities(audits[..0]) == before;
    for j := 0 to |audits|
      invariant Tallies(keys, counts, before + Severities(audits[..j]))
    {
      TallyAuditStep(keys, counts, before, audits, j);
      var severity := audits[j].severity;
      if severity != "" {
        keys, counts := AddKey(keys, counts, severity), Assign(counts, severity);
      }
    }
    assert audits[..|audits|] == audits;
  }

  /**
   * `severityCounts`: the record filled by the `reduce` over sections, given
   * as its own keys in insertion order and its values.  Every severity but
   * `__proto__` becomes a key; an inherited name holds a string, any other
   * name its number of occurrences.
   */
  method CountSeverities(sections: seq<ChartSection>) returns (keys: seq<string>, counts: map<string, Tally>)
    ensures keys == FirstOccurrences(Stored(Flat(sections)))
    ensures forall k :: k in counts <==> k in Flat(sections) && k != ProtoKey
    ensures forall k :: k in counts ==> counts[k] == Expected(k, multiset(Flat(sections))[k])
  {
    keys, counts := [], map[];
    for i := 0 to |sections|
      invariant Tallies(keys, counts, Flat(sections[..i]))
    {
      FlatSnoc(sections, i);
      var section := sections[i];
      if section.lineByLineAudit.Some? {
        keys, counts := CountAudits(section.lineByLineAudit.value, keys, counts, Flat(sections[..i]));
      } else {
        assert Flat(sections[..i + 1]) == Flat(sections[..i]);
      }
    }
    assert sections[..|sections|] == sections;
    StoredMembers(Flat(sections));
  }

  /** The record `CountSeverities` describes is the tally of the flattened severities. */
  lemma TalliesOfRecord(keys: seq<string>, counts: map<string, Tally>, xs: seq<string>)
    requires keys == FirstOccurrences(Stored(xs))
    requires forall k :: k in counts <==> k in xs && k != ProtoKey
    requires forall k :: k in counts ==> counts[k] == Expected(k, multiset(xs)[k])
    ensures Tallies(keys, counts, xs)
  {
    StoredMembers(xs);
  }

  /** The slice colour; "Low", "Good" and anything else share the green. */
  function SliceColor(severity: string): string {
    if severity == "Critical" then "#dc2626"
    else if severity == "High" then "#ea580c"
    else if severity == "Medium" then "#ca8a04"
    else "#16a34a"
  }

  /**
   * `Object.entries(severityCounts).filter(count > 0).map(...)`: a string
   * value compares as NaN and is dropped with the zero counts.
   */
  function ChartData(keys: seq<string>, counts: map<string, Tally>): (r: seq<Entry>)
    requires forall k :: k in keys ==> k in counts
    ensures |r| <= |keys|
    ensures forall e :: e in r ==> e.name in keys && e.value > 0 && counts[e.name] == Count(e.value) && e.color == SliceColor(e.name)
  {
    if keys == [] then []
    else
      var k := keys[|keys| - 1];
      var init := ChartData(keys[..|keys| - 1], counts);
      assert forall e :: e in init ==> e.name in keys;
      init + (if counts[k].Count? && counts[k].n > 0 then [Entry(k, counts[k].n, SliceColor(k))] else [])
  }

  /** `data.reduce((sum, item) => sum + item.value, 0)`. */
  function Total(data: seq<Entry>): (r: nat)
    ensures r == 0 <==> forall i :: 0 <= i < |data| ==> data[i].value == 0
  {
    if data == [] then 0 else Total(data[..|data| - 1]) + data[|data| - 1].value
  }

  /** One slice per key of `keys`, valued by its number of occurrences in `xs`. */
  function EntriesFor(keys: seq<string>, xs: seq<string>): (r: seq<Entry>)
    ensures |r| == |keys|
    ensures forall i :: 0 <= i < |keys| ==> r[i] == Entry(keys[i], multiset(xs)[keys[i]], SliceColor(keys[i]))
  {
    if keys == [] then []
    else EntriesFor(keys[..|keys| - 1], xs) + [Entry(keys[|keys| - 1], multiset(xs)[keys[|keys| - 1]], SliceColor(keys[|keys| - 1]))]
  }

  /** The slices the chart should draw for the counted severities `xs`. */
  function Entries(xs: seq<string>): seq<Entry> {
    EntriesFor(FirstOccurrences(xs), xs)
  }

  lemma ChartDataSnoc(keys: seq<string>, k: string, counts: map<string, Tally>)
    requires forall j :: j in keys + [k] ==> j in counts
    ensures ChartData(keys + [k], counts)
      == ChartData(keys, counts) + (if counts[k].Count? && counts[k].n > 0 then [Entry(k, counts[k].n, SliceColor(k))] else [])
  {
    assert (keys + [k])[..|keys|] == keys;
  }

  lemma EntriesForSnoc(keys: seq<string>, k: string, xs: seq<string>)
    ensures EntriesFor(keys + [k], xs) == EntriesFor(keys, xs) + [Entry(k, multiset(xs)[k], SliceColor(k))]
  {
    assert (keys + [k])[..|keys|] == keys;
  }

  /**
   * With values as a tally of `xs` holds them, the filter drops exactly the
   * inherited names and keeps every other key with its count in `xs`.
   */
  lemma {:induction false} ChartDataIsEntries(keys: seq<string>, counts: map<string, Tally>, xs: seq<string>)
    requires forall k :: k in keys ==> k in counts && counts[k] == Expected(k, multiset(xs)[k])
    requires forall k :: k in keys && !JsObject.Inherited(k) ==> k in xs
    ensures ChartData(keys, counts) == EntriesFor(Countable(keys), xs)
  {
    if keys != [] {
      var init, k := keys[..|keys| - 1], keys[|keys| - 1];
      assert keys == init + [k];
      ChartDataIsEntries(init, counts, xs);
      ChartDataSnoc(init, k, counts);
      CountableSnoc(init, k);
      if !JsObject.Inherited(k) {
        assert k in xs;
        EntriesForSnoc(Countable(init), k, xs);
      }
    }
  }

  lemma {:induction false} CountableOfStored(xs: seq<string>)
    ensures Countable(Stored(xs)) == Countable(xs)
  {
    if xs != [] {
      var init, x := xs[..|xs| - 1], xs[|xs| - 1];
      CountableOfStored(init);
      assert xs == init + [x];
      StoredSnoc(init, x);
      CountableSnoc(init, x);
      if x == ProtoKey {
        assert JsObject.Inherited(x);
        assert Stored(xs) == Stored(init);
        assert Countable(xs) == Countable(init);
      } else {
        CountableSnoc(Stored(init), x);
      }
    }
  }

  /** Dropping inherited names and keeping first occurrences commute. */
  lemma {:induction false} CountableOfFirstOccurrences(xs: seq<string>)
    ensures Countable(FirstOccurrences(xs)) == FirstOccurrences(Countable(xs))
  {
    if xs != [] {
      var init, x := xs[..|xs| - 1], xs[|xs| - 1];
      CountableOfFirstOccurrences(init);
      assert xs == init + [x];
      FirstOccurrencesSnoc(init, x);
      CountableSnoc(init, x);
      if JsObject.Inherited(x) {
        assert Countable(xs) == Countable(init);
        if x !in init {
          CountableSnoc(FirstOccurrences(init), x);
          assert Countable(FirstOccurrences(xs)) == Countable(FirstOccurrences(init));
        }
      } else {
        CountableMembers(init);
        FirstOccurrencesSnoc(Countable(init), x);
        if x !in init {
          CountableSnoc(FirstOccurrences(init), x);
        }
      }
    }
  }

  /** Dropping inherited names leaves the count of every other name as it was. */
  lemma {:induction false} CountableMultiplicity(xs: seq<string>, k: string)
    requires !JsObject.Inherited(k)
    ensures multiset(Countable(xs))[k] == multiset(xs)[k]
  {
    if xs != [] {
      var init, x := xs[..|xs| - 1], xs[|xs| - 1];
      CountableMultiplicity(init, k);
      assert xs == init + [x];
      CountableSnoc(init, x);
    }
  }

  lemma {:induction false} EntriesForCountable(keys: seq<string>, xs: seq<string>)
    requires forall k :: k in keys ==> !JsObject.Inherited(k)
    ensures EntriesFor(keys, xs) == EntriesFor(keys, Countable(xs))
  {
    if keys != [] {
      EntriesForCountable(keys[..|keys| - 1], xs);
      CountableMultiplicity(xs, keys[|keys| - 1]);
    }
  }

  /** The chart data of the tally of `xs`: the slices of its countable severities. */
  lemma ChartDataOfTally(keys: seq<string>, counts: map<string, Tally>, xs: seq<string>)
    requires Tallies(keys, counts, xs)
    ensures ChartData(keys, counts) == Entries(Countable(xs))
  {
    StoredMembers(xs);
    ChartDataIsEntries(keys, counts, xs);
    CountableOfFirstOccurrences(Stored(xs));
    CountableOfStored(xs);
    assert Countable(keys) == FirstOccurrences(Countable(xs));
    CountableMembers(keys);
    EntriesForCountable(Countable(keys), xs);
  }

  /** No value of `SeverityLevels` names an inherited member. */
  lemma SeverityLevelsNotInherited()
    ensures forall s :: s in SeverityLevels ==> !JsObject.Inherited(s)
  {
  }

  /** A record with no inherited names among its severities is counted in full. */
  lemma {:induction false} CountableOfOwnNames(xs: seq<string>)
    requires forall x :: x in xs ==> !JsObject.Inherited(x)
    ensures Countable(xs) == xs
  {
    if xs != [] {
      CountableOfOwnNames(xs[..|xs| - 1]);
      assert xs[|xs| - 1] in xs;
    }
  }

  /**
   * Severities named after inherited members never reach the pie: "toString"
   * is counted as a string and filtered out, "__proto__" is never stored.
   */
  lemma InheritedSeveritiesDropped()
    ensures Entries(Countable(["toString", "High", ProtoKey, "High"])) == [Entry("High", 2, "#ea580c")]
  {
    InheritedSeveritiesNotCountable();
    var ys := ["High", "High"];
    assert ys[..1] == ["High"] && ["High"][..0] == [];
    assert FirstOccurrences(ys) == ["High"];
    assert multiset(ys)["High"] == 2;
    assert EntriesFor(["High"], ys) == [Entry("High", 2, SliceColor("High"))];
  }

  lemma InheritedSeveritiesNotCountable()
    ensures Countable(["toString", "High", ProtoKey, "High"]) == ["High", "High"]
  {
    var xs := ["toString", "High", ProtoKey, "High"];
    assert JsObject.Inherited("toString") && JsObject.Inherited(ProtoKey) && !JsObject.Inherited("High");
    assert xs[..3] == ["toString", "High", ProtoKey] && xs[..3][..2] == ["toString", "High"];
    assert ["toString", "High"][..1] == ["toString"] && ["toString"][..0] == [];
    assert Countable(["toString"]) == [];
    assert Countable(["toString", "High"]) == ["High"];
    assert Countable(xs[..3]) == ["High"];
  }

  /** The sum of the occurrence counts of `keys` in `xs`. */
  function SumCounts(keys: seq<string>, xs: seq<string>): nat {
    if keys == [] then 0 else SumCounts(keys[..|keys| - 1], xs) + multiset(xs)[keys[|keys| - 1]]
  }

  lemma {:induction false} TotalIsSumCounts(keys: seq<string>, xs: seq<string>)
    ensures Total(EntriesFor(keys, xs)) == SumCounts(keys, xs)
  {
    if keys != [] {
      TotalIsSumCounts(keys[..|keys| - 1], xs);
      var e := EntriesFor(keys, xs);
      assert e[..|e| - 1] == EntriesFor(keys[..|keys| - 1], xs);
    }
  }

  lemma {:induction false} SumCountsSnoc(keys: seq<string>, xs: seq<string>, x: string)
    requires Distinct(keys)
    ensures SumCounts(keys, xs + [x]) == SumCounts(keys, xs) + (if x in keys then 1 else 0)
  {
    if keys != [] {
      var init := keys[..|keys| - 1];
      assert forall y :: y in keys <==> y in init || y == keys[|keys| - 1];
      assert keys[|keys| - 1] !in init;
      SumCountsSnoc(init, xs, x);
    }
  }

  /** Every counted audit is in exactly one slice: the slice values add up to the number of counted audits. */
  lemma {:induction false} SumCountsOfFirstOccurrences(xs: seq<string>)
    ensures SumCounts(FirstOccurrences(xs), xs) == |xs|
  {
    if xs != [] {
      var init, x := xs[..|xs| - 1], xs[|xs| - 1];
      assert xs == init + [x];
      SumCountsOfFirstOccurrences(init);
      FirstOccurrencesSnoc(init, x);
      SumCountsSnoc(FirstOccurrences(init), init, x);
      if x !in init {
        var k := FirstOccurrences(init) + [x];
        assert k[..|k| - 1] == FirstOccurrences(init);
      }
    }
  }

  /** The slices: each positive, one per counted severity, their values adding up to the number of counted audits. */
  lemma EntriesFacts(xs: seq<string>)
    ensures forall e :: e in Entries(xs) ==> e.value > 0 && e.value == multiset(xs)[e.name] && e.color == SliceColor(e.name)
    ensures forall s :: s in xs <==> exists e :: e in Entries(xs) && e.name == s
    ensures Total(Entries(xs)) == |xs|
  {
    var keys := FirstOccurrences(xs);
    forall e | e in Entries(xs)
      ensures e.value > 0 && e.value == multiset(xs)[e.name] && e.color == SliceColor(e.name)
    {
      var i :| 0 <= i < |keys| && Entries(xs)[i] == e;
      assert keys[i] in keys;
    }
    forall s | s in xs
      ensures exists e :: e in Entries(xs) && e.name == s
    {
      var i :| 0 <= i < |keys| && keys[i] == s;
      assert Entries(xs)[i] in Entries(xs);
    }
    TotalIsSumCounts(keys, xs);
    SumCountsOfFirstOccurrences(xs);
  }

  /**
   * `SeverityDistributionChart`: the three render branches and the pie's
   * data, which counts the severities that do not name an inherited member.
   */
  method SeverityDistributionChart(sectionAnalysis: Option<seq<ChartSection>>) returns (view: SeverityChartView)
    ensures view == NoIssueData <==> sectionAnalysis.None? || sectionAnalysis.value == []
    ensures sectionAnalysis.Some? && sectionAnalysis.value != [] ==>
      (view == NoIssuesFound <==> Countable(Flat(sectionAnalysis.value)) == [])
    ensures view.PieChart? ==>
      view.data == Entries(Countable(Flat(sectionAnalysis.value)))
      && view.totalIssues == |Countable(Flat(sectionAnalysis.value))|
  {
    if sectionAnalysis.None? || |sectionAnalysis.value| == 0 {
      return NoIssueData;
    }
    var keys, severityCounts := CountSeverities(sectionAnalysis.value);
    ghost var xs := Flat(sectionAnalysis.value);
    TalliesOfRecord(keys, severityCounts, xs);
    ChartDataOfTally(keys, severityCounts, xs);
    var data := ChartData(keys, severityCounts);
    EntriesFacts(Countable(xs));
    var totalIssues := Total(data);
    if totalIssues == 0 {
      view := NoIssuesFound;
    } else {
      view := PieChart(data, totalIssues);
    }
  }

  /** Clicking a slice sets the severity filter to the slice's name. */
  method ClickSlice(store: Filters.FilterStore, entry: Entry)
    modifies store
    ensures store.Snapshot() == old(store.Snapshot()).WithSeverity(Some(entry.name))
  {
    store.SetSeverity(Some(entry.name));
  }
}

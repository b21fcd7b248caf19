/** ImportQuantStatsPass: reads quantization statistics entries, files
    them by exact op name or by name regex, and attaches a statistics op to
    the float results of every op that an entry names. The function body is
    a sequence of ops; the statistics ops the pass inserts are returned as
    records (op index, result index, statistics) in insertion order. */
module QuantImport {
  import opened Wrappers
  import opened QuantParse

  // ---------------------------------------------------------------------
  // Entries and ops

  /** One min/max pair; the values are carried, never computed with. */
  datatype MinMax = MinMax(min: real, max: real)

  /** A QuantizationInfo entry: a name or a name regex (each possibly with
      ":port"), its min/max pairs and the axis they run along. */
  datatype QuantParams = QuantParams(name: string, nameRegex: string, params: seq<MinMax>, quantizeAxis: int)

  /** What a table holds per key: the result index (-1 for all float
      results) and the entry. */
  datatype Info = Info(port: int, entry: QuantParams)

  datatype ElementType = FloatElement | OtherElement
  datatype ResultType = Shaped(element: ElementType) | Unshaped

  /** An op as the pass sees it: the name its op_to_name function returns
      ("" when it has none), whether it is a terminator, and its result
      types. */
  datatype Op = Op(name: string, isTerminator: bool, results: seq<ResultType>)

  datatype AxisStats = AxisStats(shape: seq<int>, values: seq<real>)
  datatype Stats = Stats(layerStats: seq<real>, axisStats: Option<AxisStats>, axis: Option<int>)

  /** A statistics op inserted after op opIndex on its result `result`. */
  datatype StatsOp = StatsOp(opIndex: nat, result: nat, stats: Stats)

  /** IsQuantizableResult: an index inside the results whose type is a
      shaped type with float elements. */
  predicate IsQuantizableResult(op: Op, index: int)
    ensures IsQuantizableResult(op, index) ==> 0 <= index < |op.results|
  {
    0 <= index < |op.results| && op.results[index] == Shaped(FloatElement)
  }

  // ---------------------------------------------------------------------
  // Entry classification (ParseQuantStats)

  datatype Route = ToNames | ToRegexes | Ignored

  /** A named entry goes to the name table, otherwise a regex entry goes to
      the regex table, and an entry with neither is dropped. */
  function RouteOf(e: QuantParams): Route
  {
    if e.name != "" then ToNames else if e.nameRegex != "" then ToRegexes else Ignored
  }

  /** The text that is split into key and port. */
  function SourceText(e: QuantParams): string
  {
    if e.name != "" then e.name else e.nameRegex
  }

  predicate EntryParses(e: QuantParams)
  {
    PortParses(SourceText(e))
  }

  predicate AllEntriesParse(es: seq<QuantParams>)
  {
    forall i :: 0 <= i < |es| ==> EntryParses(es[i])
  }

  lemma PrefixParses(es: seq<QuantParams>, n: nat)
    requires AllEntriesParse(es) && n <= |es|
    ensures AllEntriesParse(es[..n])
  {
    assert forall j :: 0 <= j < n ==> es[..n][j] == es[j];
  }

  function InfoOf(e: QuantParams): Info
    requires EntryParses(e)
  {
    Info(PortOf(SourceText(e)), e)
  }

  datatype Tables = Tables(names: map<string, Info>, regexes: map<string, Info>)

  function TableOf(t: Tables, r: Route): map<string, Info>
  {
    match r
    case ToNames => t.names
    case ToRegexes => t.regexes
    case Ignored => map[]
  }

  /** llvm::StringMap::insert: a key already present keeps its value. */
  function InsertFirst(m: map<string, Info>, k: string, v: Info): map<string, Info>
  {
    if k in m then m else m[k := v]
  }

  function ClassifyOne(t: Tables, e: QuantParams): Tables
    requires EntryParses(e)
  {
    match RouteOf(e)
    case ToNames => t.(names := InsertFirst(t.names, KeyOf(e.name), InfoOf(e)))
    case ToRegexes => t.(regexes := InsertFirst(t.regexes, KeyOf(e.nameRegex), InfoOf(e)))
    case Ignored => t
  }

  /** The tables after filing the entries in order. */
  function Classify(t: Tables, es: seq<QuantParams>): (r: Tables)
    requires AllEntriesParse(es)
    ensures forall k :: k in t.names ==> k in r.names && r.names[k] == t.names[k]
    ensures forall k :: k in t.regexes ==> k in r.regexes && r.regexes[k] == t.regexes[k]
  {
    if |es| == 0 then t else ClassifyOne(Classify(t, es[..|es| - 1]), es[|es| - 1])
  }

  /** Entry e is filed under key k of table r. */
  predicate RoutedTo(e: QuantParams, r: Route, k: string)
  {
    RouteOf(e) == r && KeyOf(SourceText(e)) == k
  }

  /** Filing one entry touches only the table it is routed to, and there
      inserts its key unless the key is already present. */
  lemma ClassifyOneTable(t: Tables, e: QuantParams, r: Route)
    requires EntryParses(e) && r != Ignored
    ensures TableOf(ClassifyOne(t, e), r) ==
      if RouteOf(e) == r then InsertFirst(TableOf(t, r), KeyOf(SourceText(e)), InfoOf(e)) else TableOf(t, r)
  {
  }

  /** The keys of the entries routed to table r. */
  function RoutedKeys(es: seq<QuantParams>, r: Route): set<string>
  {
    if |es| == 0 then {}
    else
      var last := es[|es| - 1];
      RoutedKeys(es[..|es| - 1], r) + (if RouteOf(last) == r then {KeyOf(SourceText(last))} else {})
  }

  /** Every key in RoutedKeys comes from an entry routed to r. */
  lemma {:induction false} RoutedKeysSound(es: seq<QuantParams>, r: Route, k: string)
    requires k in RoutedKeys(es, r)
    ensures exists i :: 0 <= i < |es| && RoutedTo(es[i], r, k)
    decreases |es|
  {
    var n := |es| - 1;
    var init := es[..n];
    if k in RoutedKeys(init, r) {
      RoutedKeysSound(init, r, k);
      var i :| 0 <= i < n && RoutedTo(init[i], r, k);
      assert es[i] == init[i];
    } else {
      assert RoutedTo(es[n], r, k);
    }
  }

  /** The key of every entry routed to r is in RoutedKeys. */
  lemma {:induction false} RoutedKeysComplete(es: seq<QuantParams>, r: Route, i: nat)
    requires i < |es| && RouteOf(es[i]) == r
    ensures KeyOf(SourceText(es[i])) in RoutedKeys(es, r)
    decreases |es|
  {
    var n := |es| - 1;
    if i < n {
      var init := es[..n];
      assert init[i] == es[i];
      RoutedKeysComplete(init, r, i);
    }
  }

  /** A key no entry is routed under is not in RoutedKeys. */
  lemma {:induction false} RoutedKeysAbsent(es: seq<QuantParams>, r: Route, k: string)
    requires forall j :: 0 <= j < |es| ==> !RoutedTo(es[j], r, k)
    ensures k !in RoutedKeys(es, r)
    decreases |es|
  {
    if |es| > 0 {
      var n := |es| - 1;
      assert forall j :: 0 <= j < n ==> es[..n][j] == es[j];
      RoutedKeysAbsent(es[..n], r, k);
    }
  }

  lemma RoutedKeysSpec(es: seq<QuantParams>, r: Route, k: string)
    ensures k in RoutedKeys(es, r) <==> exists i :: 0 <= i < |es| && RoutedTo(es[i], r, k)
  {
    if k in RoutedKeys(es, r) {
      RoutedKeysSound(es, r, k);
    }
    if exists i :: 0 <= i < |es| && RoutedTo(es[i], r, k) {
      var i :| 0 <= i < |es| && RoutedTo(es[i], r, k);
      RoutedKeysComplete(es, r, i);
    }
  }

  lemma {:induction false} ClassifyKeySet(t: Tables, es: seq<QuantParams>, r: Route)
    requires AllEntriesParse(es) && r != Ignored
    ensures TableOf(Classify(t, es), r).Keys == TableOf(t, r).Keys + RoutedKeys(es, r)
    decreases |es|
  {
    if |es| > 0 {
      var n := |es| - 1;
      PrefixParses(es, n);
      ClassifyKeySet(t, es[..n], r);
      ClassifyOneTable(Classify(t, es[..n]), es[n], r);
    }
  }

  /** Each table gains exactly the keys of the entries routed to it: a named
      entry never reaches the regex table, a regex entry reaches it only
      when its name is empty, and an entry with neither reaches no table. */
  lemma ClassifyKeys(t: Tables, es: seq<QuantParams>, r: Route, k: string)
    requires AllEntriesParse(es) && r != Ignored
    ensures k in TableOf(Classify(t, es), r) <==>
      k in TableOf(t, r) || exists i :: 0 <= i < |es| && RoutedTo(es[i], r, k)
  {
    ClassifyKeySet(t, es, r);
    RoutedKeysSpec(es, r, k);
  }

  /** For a new key, the first entry filed under it wins: its port and
      entry are what the table holds. */
  lemma {:induction false} ClassifyFirstWins(t: Tables, es: seq<QuantParams>, r: Route, i: nat)
    requires AllEntriesParse(es) && r != Ignored
    requires i < |es| && RouteOf(es[i]) == r
    requires KeyOf(SourceText(es[i])) !in TableOf(t, r)
    requires forall j :: 0 <= j < i ==> !RoutedTo(es[j], r, KeyOf(SourceText(es[i])))
    ensures KeyOf(SourceText(es[i])) in TableOf(Classify(t, es), r)
    ensures TableOf(Classify(t, es), r)[KeyOf(SourceText(es[i]))] == InfoOf(es[i])
    decreases |es|
  {
    var n := |es| - 1;
    var init := es[..n];
    PrefixParses(es, n);
    if i == n {
      FirstFiledLast(t, es, r);
    } else {
      assert init[i] == es[i];
      assert forall j :: 0 <= j < i ==> init[j] == es[j];
      ClassifyFirstWins(t, init, r, i);
      ClassifyOneTable(Classify(t, init), es[n], r);
    }
  }

  /** The last entry, when no earlier entry has its key, inserts it. */
  lemma FirstFiledLast(t: Tables, es: seq<QuantParams>, r: Route)
    requires AllEntriesParse(es) && r != Ignored
    requires |es| > 0 && RouteOf(es[|es| - 1]) == r
    requires KeyOf(SourceText(es[|es| - 1])) !in TableOf(t, r)
    requires forall j :: 0 <= j < |es| - 1 ==> !RoutedTo(es[j], r, KeyOf(SourceText(es[|es| - 1])))
    ensures KeyOf(SourceText(es[|es| - 1])) in TableOf(Classify(t, es), r)
    ensures TableOf(Classify(t, es), r)[KeyOf(SourceText(es[|es| - 1]))] == InfoOf(es[|es| - 1])
  {
    var n := |es| - 1;
    var init := es[..n];
    var k := KeyOf(SourceText(es[n]));
    PrefixParses(es, n);
    assert forall j :: 0 <= j < n ==> init[j] == es[j];
    RoutedKeysAbsent(init, r, k);
    ClassifyKeySet(t, init, r);
    assert k !in TableOf(Classify(t, init), r);
    ClassifyOneTable(Classify(t, init), es[n], r);
  }

  // ---------------------------------------------------------------------
  // Statistics layout (ImportAsStatsOps)

  /** The min/max values interleaved: min_0, max_0, min_1, max_1, ... */
  function MinMaxValues(params: seq<MinMax>): (v: seq<real>)
    ensures |v| == 2 * |params|
  {
    if |params| == 0 then []
    else MinMaxValues(params[..|params| - 1]) + [params[|params| - 1].min, params[|params| - 1].max]
  }

  lemma {:induction false} MinMaxValuesLayout(params: seq<MinMax>)
    ensures forall k :: 0 <= k < |params| ==>
      MinMaxValues(params)[2 * k] == params[k].min && MinMaxValues(params)[2 * k + 1] == params[k].max
    decreases |params|
  {
    if |params| > 0 {
      var init := params[..|params| - 1];
      MinMaxValuesLayout(init);
      forall k | 0 <= k < |params|
        ensures MinMaxValues(params)[2 * k] == params[k].min && MinMaxValues(params)[2 * k + 1] == params[k].max
      {
        if k < |params| - 1 {
          assert init[k] == params[k];
        }
      }
    }
  }

  /** The statistics an entry gives: none without params; otherwise the
      first pair as layer stats, and the n x 2 axis stats with the axis
      only when there is more than one pair. */
  function Layout(info: QuantParams): (r: Option<Stats>)
    ensures r.None? <==> |info.params| == 0
    ensures r.Some? ==> r.value.layerStats == [info.params[0].min, info.params[0].max]
  {
    MinMaxValuesLayout(info.params);
    var n := |info.params|;
    if n == 0 then None
    else
      var v := MinMaxValues(info.params);
      Some(Stats([v[0], v[1]],
                 if n > 1 then Some(AxisStats([n, 2], v)) else None,
                 if n > 1 then Some(info.quantizeAxis) else None))
  }

  lemma LayoutSpec(info: QuantParams)
    ensures Layout(info).None? <==> |info.params| == 0
    ensures Layout(info).Some? ==>
      var s := Layout(info).value;
      && s.layerStats == [info.params[0].min, info.params[0].max]
      && (s.axisStats.Some? <==> |info.params| > 1)
      && (s.axis.Some? <==> |info.params| > 1)
      && (s.axis.Some? ==> s.axis.value == info.quantizeAxis)
      && (s.axisStats.Some? ==>
            && s.axisStats.value.shape == [|info.params|, 2]
            && |s.axisStats.value.values| == 2 * |info.params|
            && forall k :: 0 <= k < |info.params| ==>
                 s.axisStats.value.values[2 * k] == info.params[k].min
                 && s.axisStats.value.values[2 * k + 1] == info.params[k].max)
  {
    MinMaxValuesLayout(info.params);
  }

  // ---------------------------------------------------------------------
  // Target selection (ImportAsStatsOps)

  /** The quantizable results among the first n, in increasing order. */
  function QuantizableBelow(op: Op, n: nat): seq<nat>
    requires n <= |op.results|
  {
    if n == 0 then []
    else QuantizableBelow(op, n - 1) + (if IsQuantizableResult(op, n - 1) then [n - 1] else [])
  }

  /** The results that get a statistics op: the port when it is a
      quantizable result, every quantizable result otherwise. */
  function Targets(op: Op, index: int): seq<nat>
  {
    if IsQuantizableResult(op, index) then [index] else QuantizableBelow(op, |op.results|)
  }

  lemma {:induction false} QuantizableBelowSpec(op: Op, n: nat)
    requires n <= |op.results|
    ensures forall r :: r in QuantizableBelow(op, n) <==> r < n && IsQuantizableResult(op, r)
    ensures forall a, b :: 0 <= a < b < |QuantizableBelow(op, n)| ==>
      QuantizableBelow(op, n)[a] < QuantizableBelow(op, n)[b]
  {
    if n > 0 {
      QuantizableBelowSpec(op, n - 1);
      var prev := QuantizableBelow(op, n - 1);
      var cur := QuantizableBelow(op, n);
      forall a, b | 0 <= a < b < |cur| ensures cur[a] < cur[b] {
        if b >= |prev| {
          assert cur[a] == prev[a] && prev[a] in prev;
        } else {
          assert cur[a] == prev[a] && cur[b] == prev[b];
        }
      }
    }
  }

  /** A quantizable port selects that result alone; any other port (-1, out
      of range, or a non-float result) selects every quantizable result,
      each once and in order. Non-quantizable results are never targets, and
      port -1, never quantizable, always means all float results. */
  lemma TargetsSpec(op: Op, index: int)
    ensures IsQuantizableResult(op, index) ==> Targets(op, index) == [index]
    ensures !IsQuantizableResult(op, index) ==>
      && (forall r :: r in Targets(op, index) <==> IsQuantizableResult(op, r))
      && (forall a, b :: 0 <= a < b < |Targets(op, index)| ==> Targets(op, index)[a] < Targets(op, index)[b])
    ensures forall r :: r in Targets(op, index) ==> IsQuantizableResult(op, r)
  {
    QuantizableBelowSpec(op, |op.results|);
  }

  function StatsOpsAt(opIndex: nat, targets: seq<nat>, stats: Stats): seq<StatsOp>
  {
    seq(|targets|, k requires 0 <= k < |targets| => StatsOp(opIndex, targets[k], stats))
  }

  /** The statistics ops ImportAsStatsOps inserts after op opIndex. */
  function StatsOpsFor(op: Op, opIndex: nat, index: int, info: QuantParams): seq<StatsOp>
  {
    match Layout(info)
    case None => []
    case Some(stats) => StatsOpsAt(opIndex, Targets(op, index), stats)
  }

  // ---------------------------------------------------------------------
  // Lookup precedence (runOnFunction)

  /** The position of the first pattern in `order` that matches the name. */
  function FirstMatch(order: seq<string>, name: string, matches: (string, string) -> bool): (r: Option<nat>)
    ensures r.Some? ==>
      && r.value < |order| && matches(order[r.value], name)
      && forall j :: 0 <= j < r.value ==> !matches(order[j], name)
    ensures r.None? ==> forall j :: 0 <= j < |order| ==> !matches(order[j], name)
  {
    if |order| == 0 then None
    else if matches(order[0], name) then Some(0)
    else match FirstMatch(order[1..], name, matches)
      case None => None
      case Some(j) => Some(j + 1)
  }

  /** `order` lists each regex key once: the StringMap's iteration order. */
  predicate EnumeratesKeys(regexes: map<string, Info>, order: seq<string>)
  {
    && (forall j :: 0 <= j < |order| ==> order[j] in regexes)
    && (forall k :: k in regexes ==> k in order)
    && (forall a, b :: 0 <= a < b < |order| ==> order[a] != order[b])
  }

  /** The entry applied to an op of this name, if any. */
  function Selected(name: string, t: Tables, order: seq<string>, matches: (string, string) -> bool): (r: Option<Info>)
    requires EnumeratesKeys(t.regexes, order)
    ensures r.Some? ==>
      || (name in t.names && r.value == t.names[name])
      || (name !in t.names && exists k :: k in t.regexes && matches(k, name) && r.value == t.regexes[k])
  {
    if name in t.names then Some(t.names[name])
    else match FirstMatch(order, name, matches)
      case None => None
      case Some(j) => Some(t.regexes[order[j]])
  }

  /** An exact name hit wins whatever the regexes say; otherwise an entry is
      applied exactly when some regex matches, and it is the one of the
      first matching regex. */
  lemma SelectedPrecedence(name: string, t: Tables, order: seq<string>, matches: (string, string) -> bool)
    requires EnumeratesKeys(t.regexes, order)
    ensures name in t.names ==> Selected(name, t, order, matches) == Some(t.names[name])
    ensures name !in t.names ==>
      (Selected(name, t, order, matches).Some? <==> exists k :: k in t.regexes && matches(k, name))
    ensures name !in t.names && Selected(name, t, order, matches).Some? ==>
      exists j :: 0 <= j < |order|
        && matches(order[j], name)
        && (forall l :: 0 <= l < j ==> !matches(order[l], name))
        && Selected(name, t, order, matches) == Some(t.regexes[order[j]])
  {
    if name !in t.names && exists k :: k in t.regexes && matches(k, name) {
      var k :| k in t.regexes && matches(k, name);
      var j :| 0 <= j < |order| && order[j] == k;
    }
  }

  // ---------------------------------------------------------------------
  // The walk (runOnFunction)

  /** The statistics ops for op i: none for a terminator or an op no entry
      names. */
  function OpStats(op: Op, i: nat, t: Tables, order: seq<string>, matches: (string, string) -> bool): seq<StatsOp>
    requires EnumeratesKeys(t.regexes, order)
  {
    if op.isTerminator then []
    else match Selected(op.name, t, order, matches)
      case None => []
      case Some(info) => StatsOpsFor(op, i, info.port, info.entry)
  }

  /** The statistics ops inserted for the first n ops, in walk order. */
  function WalkStats(ops: seq<Op>, n: nat, t: Tables, order: seq<string>, matches: (string, string) -> bool): seq<StatsOp>
    requires n <= |ops| && EnumeratesKeys(t.regexes, order)
  {
    if n == 0 then [] else WalkStats(ops, n - 1, t, order, matches) + OpStats(ops[n - 1], n - 1, t, order, matches)
  }

  /** A statistics op inserted for op i follows a non-terminator op that
      an entry names, sits on a quantizable result that entry's port
      selects, and carries that entry's statistics. */
  ghost predicate Justified(ops: seq<Op>, s: StatsOp, t: Tables, order: seq<string>,
                            matches: (string, string) -> bool)
    requires EnumeratesKeys(t.regexes, order)
  {
    && s.opIndex < |ops|
    && !ops[s.opIndex].isTerminator
    && IsQuantizableResult(ops[s.opIndex], s.result)
    && Selected(ops[s.opIndex].name, t, order, matches).Some?
    && var info := Selected(ops[s.opIndex].name, t, order, matches).value;
       s.result in Targets(ops[s.opIndex], info.port) && Layout(info.entry) == Some(s.stats)
  }

  lemma OpStatsSound(ops: seq<Op>, i: nat, t: Tables, order: seq<string>, matches: (string, string) -> bool)
    requires i < |ops| && EnumeratesKeys(t.regexes, order)
    ensures forall s :: s in OpStats(ops[i], i, t, order, matches) ==>
      s.opIndex == i && Justified(ops, s, t, order, matches)
  {
    var op := ops[i];
    if !op.isTerminator && Selected(op.name, t, order, matches).Some? {
      var info := Selected(op.name, t, order, matches).value;
      TargetsSpec(op, info.port);
    }
  }

  /** Every statistics op the walk inserts is justified, and follows one of
      the walked ops. */
  lemma {:induction false} WalkStatsSound(ops: seq<Op>, n: nat, t: Tables, order: seq<string>,
                                          matches: (string, string) -> bool)
    requires n <= |ops| && EnumeratesKeys(t.regexes, order)
    ensures forall s :: s in WalkStats(ops, n, t, order, matches) ==>
      s.opIndex < n && Justified(ops, s, t, order, matches)
  {
    if n > 0 {
      WalkStatsSound(ops, n - 1, t, order, matches);
      OpStatsSound(ops, n - 1, t, order, matches);
    }
  }

  /** Every result the walk should annotate is annotated: for a walked,
      non-terminator op with a selected entry that has statistics, each
      target result gets a statistics op carrying them. */
  lemma {:induction false} WalkStatsComplete(ops: seq<Op>, n: nat, t: Tables, order: seq<string>,
                                             matches: (string, string) -> bool,
                                             i: nat, info: Info, stats: Stats, r: nat)
    requires n <= |ops| && EnumeratesKeys(t.regexes, order)
    requires i < n && !ops[i].isTerminator
    requires Selected(ops[i].name, t, order, matches) == Some(info)
    requires Layout(info.entry) == Some(stats) && r in Targets(ops[i], info.port)
    ensures StatsOp(i, r, stats) in WalkStats(ops, n, t, order, matches)
  {
    if i < n - 1 {
      WalkStatsComplete(ops, n - 1, t, order, matches, i, info, stats, r);
    } else {
      var targets := Targets(ops[i], info.port);
      var k :| 0 <= k < |targets| && targets[k] == r;
      assert OpStats(ops[i], i, t, order, matches)[k] == StatsOp(i, r, stats);
    }
  }

  // ---------------------------------------------------------------------
  // The pass

  class ImportQuantStatsPass {
    var nameToInfo: map<string, Info>
    var regexToInfo: map<string, Info>

    constructor ()
      ensures nameToInfo == map[] && regexToInfo == map[]
    {
      nameToInfo := map[];
      regexToInfo := map[];
    }

    function Contents(): Tables
      reads this
    {
      Tables(nameToInfo, regexToInfo)
    }

    /** ParseQuantStats: `loaded` is the result of parsing the serialized
        QuantizationInfo (None when that fails). Returns true on failure,
        leaving the tables as they were; otherwise files every entry. */
    method ParseQuantStats(loaded: Option<seq<QuantParams>>) returns (failed: bool)
      requires loaded.Some? ==> AllEntriesParse(loaded.value)
      modifies this
      ensures failed == loaded.None?
      ensures loaded.None? ==> Contents() == old(Contents())
      ensures loaded.Some? ==> Contents() == Classify(old(Contents()), loaded.value)
    {
      if loaded.None? {
        return true;
      }
      var es := loaded.value;
      var i := 0;
      while i < |es|
        invariant 0 <= i <= |es|
        invariant AllEntriesParse(es[..i])
        invariant Contents() == Classify(old(Contents()), es[..i])
      {
        FileEntry(es[i]);
        PrefixParses(es, i + 1);
        assert es[..i + 1][..i] == es[..i];
        i := i + 1;
      }
      assert es[..|es|] == es;
      return false;
    }

    /** One iteration of ParseQuantStats: splits the name (or the regex)
        into key and port and inserts it unless the key is present. */
    method FileEntry(e: QuantParams)
      requires EntryParses(e)
      modifies this
      ensures Contents() == ClassifyOne(old(Contents()), e)
    {
      if e.name != "" {
        var parts := Split(e.name);
        var port := if |parts| == 2 then Stoi(parts[1]) else -1;
        if parts[0] !in nameToInfo {
          nameToInfo := nameToInfo[parts[0] := Info(port, e)];
        }
      } else if e.nameRegex != "" {
        var parts := Split(e.nameRegex);
        var port := if |parts| == 2 then Stoi(parts[1]) else -1;
        if parts[0] !in regexToInfo {
          regexToInfo := regexToInfo[parts[0] := Info(port, e)];
        }
      }
    }

    /** ImportAsStatsOps: the statistics ops for op opIndex under the entry
        `info` and port `index`. */
    method ImportAsStatsOps(op: Op, opIndex: nat, index: int, info: QuantParams) returns (added: seq<StatsOp>)
      ensures added == StatsOpsFor(op, opIndex, index, info)
    {
      var n := |info.params|;
      if n == 0 {
        return [];
      }
      var minMaxs := BuildMinMaxs(info.params);
      var layerStats := [minMaxs[0], minMaxs[1]];
      var axisStats: Option<AxisStats> := None;
      var axis: Option<int> := None;
      if n > 1 {
        axisStats := Some(AxisStats([n, 2], minMaxs));
        axis := Some(info.quantizeAxis);
      }
      var stats := Stats(layerStats, axisStats, axis);
      if IsQuantizableResult(op, index) {
        added := [StatsOp(opIndex, index, stats)];
      } else {
        added := [];
        var i := 0;
        while i < |op.results|
          invariant 0 <= i <= |op.results|
          invariant added == StatsOpsAt(opIndex, QuantizableBelow(op, i), stats)
        {
          if IsQuantizableResult(op, i) {
            added := added + [StatsOp(opIndex, i, stats)];
          }
          i := i + 1;
        }
      }
    }

    /** The walk's step for one op: nothing for a terminator; an exact
        name hit applies its entry; otherwise the first regex that matches,
        in `regexOrder`, applies its entry and ends the search. */
    method ImportForOp(op: Op, i: nat, regexOrder: seq<string>, matches: (string, string) -> bool)
      returns (added: seq<StatsOp>)
      requires EnumeratesKeys(regexToInfo, regexOrder)
      ensures added == OpStats(op, i, Contents(), regexOrder, matches)
    {
      added := [];
      if op.isTerminator {
        return;
      }
      if op.name in nameToInfo {
        var info := nameToInfo[op.name];
        added := ImportAsStatsOps(op, i, info.port, info.entry);
        return;
      }
      var j := 0;
      while j < |regexOrder|
        invariant 0 <= j <= |regexOrder|
        invariant forall l :: 0 <= l < j ==> !matches(regexOrder[l], op.name)
      {
        if matches(regexOrder[j], op.name) {
          assert FirstMatch(regexOrder, op.name, matches) == Some(j);
          var info := regexToInfo[regexOrder[j]];
          added := ImportAsStatsOps(op, i, info.port, info.entry);
          return;
        }
        j := j + 1;
      }
      assert FirstMatch(regexOrder, op.name, matches).None?;
    }

    /** runOnFunction over the ops of one function body. `regexOrder` is
        the order in which the regex table is iterated. */
    method RunOnFunction(ops: seq<Op>, regexOrder: seq<string>, matches: (string, string) -> bool)
      returns (added: seq<StatsOp>)
      requires EnumeratesKeys(regexToInfo, regexOrder)
      ensures added == WalkStats(ops, |ops|, Contents(), regexOrder, matches)
    {
      added := [];
      var i := 0;
      while i < |ops|
        invariant 0 <= i <= |ops|
        invariant added == WalkStats(ops, i, Contents(), regexOrder, matches)
      {
        var more := ImportForOp(ops[i], i, regexOrder, matches);
        added := added + more;
        i := i + 1;
      }
    }
  }

  /** Pushes min_k and max_k for every pair, in order. */
  method BuildMinMaxs(params: seq<MinMax>) returns (minMaxs: seq<real>)
    ensures minMaxs == MinMaxValues(params)
  {
    minMaxs := [];
    var i := 0;
    while i < |params|
      invariant 0 <= i <= |params|
      invariant minMaxs == MinMaxValues(params[..i])
    {
      assert params[..i + 1][..i] == params[..i];
      minMaxs := minMaxs + [params[i].min, params[i].max];
      i := i + 1;
    }
    assert params[..|params|] == params;
  }

  /** CreateImportQuantStatsPass: no pass when the statistics do not load. */
  method CreateImportQuantStatsPass(loaded: Option<seq<QuantParams>>) returns (pass: ImportQuantStatsPass?)
    requires loaded.Some? ==> AllEntriesParse(loaded.value)
    ensures pass == null <==> loaded.None?
    ensures pass != null ==> fresh(pass) && pass.Contents() == Classify(Tables(map[], map[]), loaded.value)
  {
    pass := new ImportQuantStatsPass();
    var failed := pass.ParseQuantStats(loaded);
    if failed {
      return null;
    }
  }
}

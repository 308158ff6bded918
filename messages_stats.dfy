/** message-node/messages-stats.js: per-node counters kept in the shared store at
    `prefix:stats:<guid>:<field>`, incremented with INCRBY, and the cluster-wide
    report that reads every node's counters back. */
module MessagesStats {
  import opened Wrappers
  import opened JsStrings
  import opened RedisHelpers

  // ---------------------------------------------------------------- counter names and keys

  datatype Metric = Generated | Handled | Scanned | HandleErrors

  /** The field name of a counter, as it appears in keys and in the report. */
  function MetricName(m: Metric): string {
    match m
    case Generated => "generated"
    case Handled => "handled"
    case Scanned => "scanned"
    case HandleErrors => "handle_errors"
  }

  /** The counter a key's last segment names, if any: the guard getStats applies
      before reading a key, restricted to the four counter names. */
  function MetricOf(field: string): (r: Option<Metric>)
    ensures r.Some? ==> MetricName(r.value) == field
  {
    if field == "generated" then Some(Generated)
    else if field == "handled" then Some(Handled)
    else if field == "scanned" then Some(Scanned)
    else if field == "handle_errors" then Some(HandleErrors)
    else None
  }

  /** Every counter name is recognised, as exactly that counter. */
  lemma MetricOfName(m: Metric)
    ensures MetricOf(MetricName(m)) == Some(m)
  {
    match m
    case Generated =>
    case Handled =>
    case Scanned =>
    case HandleErrors =>
  }

  /** The guard as written: `statResult.hasOwnProperty(field)`, whose own properties
      are the four counters and `nodesStat`. */
  predicate AsWrittenGuard(field: string) {
    field in {"nodesStat", "generated", "handled", "scanned", "handle_errors"}
  }

  /** The guard as written lets a key ending in `:nodesStat` through, where the
      counter guard does not: its value would be added onto the per-node table. */
  lemma AsWrittenGuardAdmitsNodesStat()
    ensures AsWrittenGuard("nodesStat") && MetricOf("nodesStat") == None
    ensures forall f :: AsWrittenGuard(f) <==> (MetricOf(f).Some? || f == "nodesStat")
  {
    forall f ensures AsWrittenGuard(f) <==> (MetricOf(f).Some? || f == "nodesStat") {
      if AsWrittenGuard(f) && f != "nodesStat" {
        assert f in {"generated", "handled", "scanned", "handle_errors"};
      }
    }
  }

  /** `this._prefix`: the prefix of one node's counter keys. */
  function StatsPrefix(appPrefix: string, guid: string): string {
    appPrefix + ":stats:" + guid
  }

  /** `this._matchPrefix`: the KEYS pattern that finds every node's counters. */
  function MatchPattern(appPrefix: string): string {
    appPrefix + ":stats:*"
  }

  function CounterKey(statsPrefix: string, m: Metric): string {
    statsPrefix + ":" + MetricName(m)
  }

  /** Distinct counters of one node live under distinct keys. */
  lemma CounterKeysDistinct(statsPrefix: string, m1: Metric, m2: Metric)
    ensures CounterKey(statsPrefix, m1) == CounterKey(statsPrefix, m2) <==> m1 == m2
  {
    var p := statsPrefix + ":";
    if CounterKey(statsPrefix, m1) == CounterKey(statsPrefix, m2) {
      assert MetricName(m1) == CounterKey(statsPrefix, m1)[|p|..];
      assert MetricName(m2) == CounterKey(statsPrefix, m2)[|p|..];
      MetricOfName(m1);
      MetricOfName(m2);
    }
  }

  /** `keysParts[keysParts.length - 2]`: the node segment of a key, `undefined`
      (which becomes the property name "undefined") when there is only one part. */
  function KeyNode(key: string): string {
    var parts := Split(key, ':');
    if |parts| >= 2 then parts[|parts| - 2] else "undefined"
  }

  /** `keysParts[keysParts.length - 1]`: the field segment of a key. */
  function KeyField(key: string): string {
    var parts := Split(key, ':');
    parts[|parts| - 1]
  }

  /** The last two pieces of `a:g:n`, when neither `g` nor `n` holds a colon. */
  lemma SplitLastTwo(a: string, g: string, n: string)
    requires ':' !in g && ':' !in n
    ensures var parts := Split(a + [':'] + (g + [':'] + n), ':');
            |parts| >= 2 && parts[|parts| - 2] == g && parts[|parts| - 1] == n
  {
    SplitAppend(a, g + [':'] + n, ':');
    SplitAppend(g, n, ':');
    SplitNoSeparator(g, ':');
    SplitNoSeparator(n, ':');
  }

  /** A counter key splits back into the node's guid and the counter's name,
      whatever colons the application prefix holds, provided the guid has none. */
  lemma CounterKeyParts(appPrefix: string, guid: string, m: Metric)
    requires ':' !in guid
    ensures KeyNode(CounterKey(StatsPrefix(appPrefix, guid), m)) == guid
    ensures KeyField(CounterKey(StatsPrefix(appPrefix, guid), m)) == MetricName(m)
    ensures MetricOf(KeyField(CounterKey(StatsPrefix(appPrefix, guid), m))) == Some(m)
  {
    var a := appPrefix + ":stats";
    var name := MetricName(m);
    assert ':' !in name;
    assert appPrefix + ":stats:" == a + [':'];
    assert CounterKey(StatsPrefix(appPrefix, guid), m) == a + [':'] + (guid + [':'] + name);
    SplitLastTwo(a, guid, name);
    MetricOfName(m);
  }

  // ---------------------------------------------------------------- incrStats

  /** The statistics of one handling pass: what handleMessages resolves with. */
  datatype PassStats = PassStats(scanned: nat, handled: nat, handleErrors: nat)

  function PassField(s: PassStats, m: Metric): nat {
    match m
    case Generated => 0
    case Handled => s.handled
    case Scanned => s.scanned
    case HandleErrors => s.handleErrors
  }

  datatype Increment = Increment(metric: Metric, amount: nat)

  /** The increments incrStats issues: handled, handle_errors, scanned, each only
      when positive. */
  function Increments(s: PassStats): (incs: seq<Increment>)
    ensures forall i | 0 <= i < |incs| :: incs[i].amount == PassField(s, incs[i].metric) > 0
    ensures forall i, j | 0 <= i < j < |incs| :: incs[i].metric != incs[j].metric
  {
    (if s.handled > 0 then [Increment(Handled, s.handled)] else [])
    + (if s.handleErrors > 0 then [Increment(HandleErrors, s.handleErrors)] else [])
    + (if s.scanned > 0 then [Increment(Scanned, s.scanned)] else [])
  }

  /** One INCRBY on counter `inc.metric`: the store afterwards and whether it
      succeeded. */
  function ApplyOne(data: map<string, string>, statsPrefix: string, inc: Increment, failed: bool)
    : (map<string, string>, bool)
  {
    var key := CounterKey(statsPrefix, inc.metric);
    if !failed && IncrementAccepted(data, key, inc.amount) then
      (data[key := IntToString(CounterValue(data, key) + inc.amount)], true)
    else (data, false)
  }

  /** The store after the increments are issued and whether all of them succeeded
      (`Promise.all` resolves): a rejected increment leaves its key alone and does
      not stop the others, which were already sent. `fails` is the connection's
      error per counter. */
  function ApplyIncrements(data: map<string, string>, statsPrefix: string,
                           incs: seq<Increment>, fails: Metric -> bool): (map<string, string>, bool)
    decreases |incs|
  {
    if incs == [] then (data, true)
    else
      var one := ApplyOne(data, statsPrefix, incs[0], fails(incs[0].metric));
      var rest := ApplyIncrements(one.0, statsPrefix, incs[1..], fails);
      (rest.0, one.1 && rest.1)
  }

  /** A list of one increment does what that increment does. */
  lemma ApplyIncrementsSingle(data: map<string, string>, statsPrefix: string,
                              inc: Increment, fails: Metric -> bool)
    ensures ApplyIncrements(data, statsPrefix, [inc], fails) == ApplyOne(data, statsPrefix, inc, fails(inc.metric))
  {
    assert [inc][1..] == [];
  }

  /** Applying one list of increments and then another is applying their
      concatenation: each increment sees the store the ones before it left. */
  lemma {:induction false} ApplyIncrementsAppend(data: map<string, string>, statsPrefix: string,
                                                 xs: seq<Increment>, ys: seq<Increment>, fails: Metric -> bool)
    ensures var a := ApplyIncrements(data, statsPrefix, xs, fails);
            var b := ApplyIncrements(a.0, statsPrefix, ys, fails);
            ApplyIncrements(data, statsPrefix, xs + ys, fails) == (b.0, a.1 && b.1)
    decreases |xs|
  {
    if xs == [] {
      assert xs + ys == ys;
    } else {
      var one := ApplyOne(data, statsPrefix, xs[0], fails(xs[0].metric));
      assert (xs + ys)[0] == xs[0];
      assert (xs + ys)[1..] == xs[1..] + ys;
      ApplyIncrementsAppend(one.0, statsPrefix, xs[1..], ys, fails);
    }
  }

  /** When every increment succeeds, each counter key of the node grows by its
      increments. */
  lemma {:induction false} ApplyIncrementsCounter(data: map<string, string>, statsPrefix: string,
                                                  incs: seq<Increment>, fails: Metric -> bool, m: Metric)
    requires ApplyIncrements(data, statsPrefix, incs, fails).1
    ensures CounterValue(ApplyIncrements(data, statsPrefix, incs, fails).0, CounterKey(statsPrefix, m)) ==
            CounterValue(data, CounterKey(statsPrefix, m)) + Amount(incs, m)
    decreases |incs|
  {
    if incs != [] {
      var one := ApplyOne(data, statsPrefix, incs[0], fails(incs[0].metric));
      ApplyIncrementsCounter(one.0, statsPrefix, incs[1..], fails, m);
      IncrementStep(data, statsPrefix, incs[0], fails(incs[0].metric), m);
    }
  }

  /** One accepted increment moves its own counter and no other counter of the node. */
  lemma IncrementStep(data: map<string, string>, statsPrefix: string, inc: Increment, failed: bool, m: Metric)
    requires ApplyOne(data, statsPrefix, inc, failed).1
    ensures CounterValue(ApplyOne(data, statsPrefix, inc, failed).0, CounterKey(statsPrefix, m)) ==
            CounterValue(data, CounterKey(statsPrefix, m)) + (if m == inc.metric then inc.amount else 0)
  {
    var key := CounterKey(statsPrefix, inc.metric);
    if m == inc.metric {
      IncrementReadsBack(data, key, inc.amount);
    } else {
      CounterKeysDistinct(statsPrefix, m, inc.metric);
      CounterValueOtherKey(data, key, IntToString(CounterValue(data, key) + inc.amount), CounterKey(statsPrefix, m));
    }
  }

  /** Increments touch no key other than the node's counter keys. */
  lemma {:induction false} ApplyIncrementsOthers(data: map<string, string>, statsPrefix: string,
                                                 incs: seq<Increment>, fails: Metric -> bool, k: string)
    requires forall m: Metric :: k != CounterKey(statsPrefix, m)
    ensures Lookup(ApplyIncrements(data, statsPrefix, incs, fails).0, k) == Lookup(data, k)
    decreases |incs|
  {
    if incs != [] {
      var one := ApplyOne(data, statsPrefix, incs[0], fails(incs[0].metric));
      assert Lookup(one.0, k) == Lookup(data, k);
      ApplyIncrementsOthers(one.0, statsPrefix, incs[1..], fails, k);
    }
  }

  /** The total increment of counter `m` in a list of increments. */
  function Amount(incs: seq<Increment>, m: Metric): nat {
    if incs == [] then 0
    else (if incs[0].metric == m then incs[0].amount else 0) + Amount(incs[1..], m)
  }

  /** A single increment adds up to its amount on its own metric only. */
  lemma AmountSingle(inc: Increment, m: Metric)
    ensures Amount([inc], m) == if inc.metric == m then inc.amount else 0
  {
    assert [inc][1..] == [];
  }

  /** incrStats adds to each counter exactly the pass's figure. */
  lemma IncrementsAmount(s: PassStats, m: Metric)
    ensures Amount(Increments(s), m) == PassField(s, m)
  {
    var incs := Increments(s);
    var a := if s.handled > 0 then [Increment(Handled, s.handled)] else [];
    var b := if s.handleErrors > 0 then [Increment(HandleErrors, s.handleErrors)] else [];
    var c := if s.scanned > 0 then [Increment(Scanned, s.scanned)] else [];
    assert incs == a + b + c;
    AmountSingle(Increment(Handled, s.handled), m);
    AmountSingle(Increment(HandleErrors, s.handleErrors), m);
    AmountSingle(Increment(Scanned, s.scanned), m);
    AmountConcat(a, b, m);
    AmountConcat(a + b, c, m);
  }

  lemma {:induction false} AmountConcat(a: seq<Increment>, b: seq<Increment>, m: Metric)
    ensures Amount(a + b, m) == Amount(a, m) + Amount(b, m)
  {
    if a != [] {
      assert (a + b)[1..] == a[1..] + b;
      AmountConcat(a[1..], b, m);
    } else {
      assert a + b == b;
    }
  }

  // ---------------------------------------------------------------- the report

  /** The per-counter figures of the report, for the cluster or for one node. */
  datatype Counters = Counters(generated: int, handled: int, scanned: int, handleErrors: int) {
    function Get(m: Metric): int {
      match m
      case Generated => generated
      case Handled => handled
      case Scanned => scanned
      case HandleErrors => handleErrors
    }

    function Add(m: Metric, v: int): (c: Counters)
      ensures c.Get(m) == Get(m) + v
      ensures forall n: Metric | n != m :: c.Get(n) == Get(n)
    {
      match m
      case Generated => this.(generated := generated + v)
      case Handled => this.(handled := handled + v)
      case Scanned => this.(scanned := scanned + v)
      case HandleErrors => this.(handleErrors := handleErrors + v)
    }
  }

  const NoCounts: Counters := Counters(0, 0, 0, 0)

  /** statResult: the cluster totals and `nodesStat`, one entry per node guid. */
  datatype StatResult = StatResult(totals: Counters, nodes: map<string, Counters>)

  /** What one key adds to the report: its node, its counter and its value, when
      the field is a counter name and the GET reply is a non-empty string that
      `parseInt` reads as a number; the value is then `parseInt(result, 10)`. */
  datatype Contribution = Contribution(node: string, metric: Metric, value: int)

  /** `result && !isNaN(parseInt(result))`: the GET reply is a non-empty string that
      `parseInt` reads as a number. */
  predicate NumericReply(reply: Result<Option<string>>) {
    reply.Ok? && reply.value.Some? && reply.value.value != [] && ParseIntAutoIsNumber(reply.value.value)
  }

  function KeyContribution(key: string, reply: Result<Option<string>>): (c: Option<Contribution>)
    ensures c.Some? ==> MetricOf(KeyField(key)) == Some(c.value.metric) && c.value.node == KeyNode(key)
  {
    match MetricOf(KeyField(key))
    case None => None
    case Some(m) =>
      if NumericReply(reply) then
        var v := reply.value.value;
        AutoNumberMeansDecimalNumber(v);
        Some(Contribution(KeyNode(key), m, ParseInt10(v).value))
      else None
  }

  function AddContribution(acc: StatResult, c: Option<Contribution>): StatResult {
    match c
    case None => acc
    case Some(Contribution(g, m, v)) =>
      var entry := if g in acc.nodes then acc.nodes[g] else NoCounts;
      StatResult(acc.totals.Add(m, v), acc.nodes[g := entry.Add(m, v)])
  }

  /** The report after the GET replies of `keys` have been folded in, in order. */
  function Aggregate(keys: seq<string>, get: string -> Result<Option<string>>): StatResult {
    if keys == [] then StatResult(NoCounts, map[])
    else
      var k := keys[|keys| - 1];
      AddContribution(Aggregate(keys[..|keys| - 1], get), KeyContribution(k, get(k)))
  }

  // ---------------------------------------------------------------- reference sums

  /** The sum of the values the keys contribute to counter `m` of node `g`. */
  function NodeSum(keys: seq<string>, get: string -> Result<Option<string>>, g: string, m: Metric): int {
    if keys == [] then 0
    else
      var k := keys[|keys| - 1];
      var c := KeyContribution(k, get(k));
      NodeSum(keys[..|keys| - 1], get, g, m)
      + (if c.Some? && c.value.node == g && c.value.metric == m then c.value.value else 0)
  }

  /** The sum of the values the keys contribute to counter `m`, over all nodes. */
  function TotalSum(keys: seq<string>, get: string -> Result<Option<string>>, m: Metric): int {
    if keys == [] then 0
    else
      var k := keys[|keys| - 1];
      var c := KeyContribution(k, get(k));
      TotalSum(keys[..|keys| - 1], get, m) + (if c.Some? && c.value.metric == m then c.value.value else 0)
  }

  /** Whether some key contributes to node `g`. */
  predicate Contributes(keys: seq<string>, get: string -> Result<Option<string>>, g: string) {
    if keys == [] then false
    else
      var k := keys[|keys| - 1];
      var c := KeyContribution(k, get(k));
      Contributes(keys[..|keys| - 1], get, g) || (c.Some? && c.value.node == g)
  }

  ghost function AnyNode(nodes: map<string, Counters>): (g: string)
    requires nodes != map[]
    ensures g in nodes
  {
    var g :| g in nodes; g
  }

  /** The sum of counter `m` over the per-node entries. */
  ghost function SumNodes(nodes: map<string, Counters>, m: Metric): int
    decreases |nodes|
  {
    if nodes == map[] then 0
    else
      var g := AnyNode(nodes);
      assert |nodes - {g}| == |nodes| - 1 by { assert (nodes - {g}).Keys == nodes.Keys - {g}; }
      nodes[g].Get(m) + SumNodes(nodes - {g}, m)
  }

  /** The node sum does not depend on which entry is taken first. */
  lemma {:induction false} SumNodesRemove(nodes: map<string, Counters>, g: string, m: Metric)
    requires g in nodes
    ensures SumNodes(nodes, m) == nodes[g].Get(m) + SumNodes(nodes - {g}, m)
    decreases |nodes|
  {
    var h := AnyNode(nodes);
    assert (nodes - {h}).Keys == nodes.Keys - {h};
    if h != g {
      assert (nodes - {g}).Keys == nodes.Keys - {g};
      SumNodesRemove(nodes - {h}, g, m);
      SumNodesRemove(nodes - {g}, h, m);
      assert nodes - {h} - {g} == nodes - {g} - {h};
    }
  }

  lemma SumNodesUpdate(nodes: map<string, Counters>, g: string, c: Counters, m: Metric)
    ensures SumNodes(nodes[g := c], m) == c.Get(m) + SumNodes(nodes - {g}, m)
  {
    SumNodesRemove(nodes[g := c], g, m);
    assert nodes[g := c] - {g} == nodes - {g};
  }

  /** Each cluster total is the sum of what all keys contribute to it. */
  lemma {:induction false} AggregateTotals(keys: seq<string>, get: string -> Result<Option<string>>, m: Metric)
    ensures Aggregate(keys, get).totals.Get(m) == TotalSum(keys, get, m)
  {
    if keys != [] {
      AggregateTotals(keys[..|keys| - 1], get, m);
    }
  }

  /** A node has an entry in `nodesStat` exactly when some key contributes to it. */
  lemma {:induction false} AggregateNodes(keys: seq<string>, get: string -> Result<Option<string>>, g: string)
    ensures g in Aggregate(keys, get).nodes <==> Contributes(keys, get, g)
  {
    if keys != [] {
      AggregateNodes(keys[..|keys| - 1], get, g);
    }
  }

  /** Each node entry is the sum of what that node's keys contribute. */
  lemma {:induction false} AggregateNodeEntries(keys: seq<string>, get: string -> Result<Option<string>>,
                                                g: string, m: Metric)
    requires g in Aggregate(keys, get).nodes
    ensures Aggregate(keys, get).nodes[g].Get(m) == NodeSum(keys, get, g, m)
  {
    var init := keys[..|keys| - 1];
    var k := keys[|keys| - 1];
    var c := KeyContribution(k, get(k));
    var acc := Aggregate(init, get);
    assert Aggregate(keys, get) == AddContribution(acc, c);
    AddContributionNode(acc, c, g, m);
    if g in acc.nodes {
      AggregateNodeEntries(init, get, g, m);
    } else {
      AggregateNodes(init, get, g);
      NodeSumWithout(init, get, g, m);
    }
  }

  /** Folding in one contribution: a node has an entry afterwards when it had one
      or the contribution is its own, and the entry grows by the contribution. */
  lemma AddContributionNode(acc: StatResult, c: Option<Contribution>, g: string, m: Metric)
    ensures g in AddContribution(acc, c).nodes <==> g in acc.nodes || (c.Some? && c.value.node == g)
    ensures g in AddContribution(acc, c).nodes ==>
            AddContribution(acc, c).nodes[g].Get(m) ==
            (if g in acc.nodes then acc.nodes[g].Get(m) else 0)
            + (if c.Some? && c.value.node == g && c.value.metric == m then c.value.value else 0)
  {
  }

  /** A key whose value is missing, empty or not a number leaves the report as it
      was: it adds to no total and creates no node entry. */
  lemma MissingValueContributesNothing(keys: seq<string>, k: string, get: string -> Result<Option<string>>)
    requires get(k) == Ok(None) || get(k) == Ok(Some([]))
             || (get(k).Ok? && get(k).value.Some? && !ParseIntAutoIsNumber(get(k).value.value))
    ensures Aggregate(keys + [k], get) == Aggregate(keys, get)
  {
    assert (keys + [k])[..|keys|] == keys;
  }

  /** A node no key contributes to sums to 0. */
  lemma {:induction false} NodeSumWithout(keys: seq<string>, get: string -> Result<Option<string>>, g: string, m: Metric)
    requires !Contributes(keys, get, g)
    ensures NodeSum(keys, get, g, m) == 0
  {
    if keys != [] {
      NodeSumWithout(keys[..|keys| - 1], get, g, m);
    }
  }

  /** Each cluster total equals the sum of that counter over the node entries. */
  lemma {:induction false} TotalsAreNodeSums(keys: seq<string>, get: string -> Result<Option<string>>, m: Metric)
    ensures Aggregate(keys, get).totals.Get(m) == SumNodes(Aggregate(keys, get).nodes, m)
  {
    if keys != [] {
      var init := keys[..|keys| - 1];
      var k := keys[|keys| - 1];
      TotalsAreNodeSums(init, get, m);
      var acc := Aggregate(init, get);
      var c := KeyContribution(k, get(k));
      assert Aggregate(keys, get) == AddContribution(acc, c);
      AddContributionSums(acc, c, m);
    }
  }

  /** Folding in one contribution keeps each total equal to its node sum. */
  lemma AddContributionSums(acc: StatResult, c: Option<Contribution>, m: Metric)
    requires acc.totals.Get(m) == SumNodes(acc.nodes, m)
    ensures AddContribution(acc, c).totals.Get(m) == SumNodes(AddContribution(acc, c).nodes, m)
  {
    if c.Some? {
      var cg, cm, v := c.value.node, c.value.metric, c.value.value;
      var entry := if cg in acc.nodes then acc.nodes[cg] else NoCounts;
      SumNodesUpdate(acc.nodes, cg, entry.Add(cm, v), m);
      if cg in acc.nodes {
        SumNodesRemove(acc.nodes, cg, m);
      } else {
        assert acc.nodes - {cg} == acc.nodes;
      }
    }
  }

  /** A counter key holding a number written by INCRBY contributes that number to
      its own node and counter. */
  lemma CounterKeyContribution(appPrefix: string, guid: string, m: Metric, v: int)
    requires ':' !in guid
    ensures var key := CounterKey(StatsPrefix(appPrefix, guid), m);
            KeyContribution(key, Ok(Some(IntToString(v)))) == Some(Contribution(guid, m, v))
  {
    CounterKeyParts(appPrefix, guid, m);
    ParseIntToString(v);
  }

  // ---------------------------------------------------------------- the class

  /** How getStats's promise settles: resolved with the report, rejected (KEYS
      failed), or never settled (no key matched, so `checkDone` never runs, or a GET
      failed and its callback threw before `checkDone`). */
  datatype Delivery = Delivered(result: StatResult) | Rejected | NeverSettled

  /** Whether a guarded key's GET fails. */
  predicate GetFails(key: string, get: string -> Result<Option<string>>) {
    MetricOf(KeyField(key)).Some? && get(key).Err?
  }

  /** Whether no key of `keys` is `bad`, checked from the last key back. */
  predicate NoneBad(keys: seq<string>, bad: string -> bool) {
    keys == [] || (NoneBad(keys[..|keys| - 1], bad) && !bad(keys[|keys| - 1]))
  }

  /** The recursive check says no key is bad. */
  lemma {:induction false} NoneBadAll(keys: seq<string>, bad: string -> bool)
    ensures NoneBad(keys, bad) <==> forall i | 0 <= i < |keys| :: !bad(keys[i])
  {
    if keys != [] {
      var init := keys[..|keys| - 1];
      NoneBadAll(init, bad);
      assert forall i | 0 <= i < |init| :: init[i] == keys[i];
    }
  }

  /** Whether every GET getStats issues for `keys` succeeds. */
  predicate NoGetFails(keys: seq<string>, get: string -> Result<Option<string>>) {
    NoneBad(keys, key => GetFails(key, get))
  }

  /** No GET failure among `keys` means no key's GET fails. */
  lemma NoGetFailsAll(keys: seq<string>, get: string -> Result<Option<string>>)
    ensures NoGetFails(keys, get) <==> forall i | 0 <= i < |keys| :: !GetFails(keys[i], get)
  {
    NoneBadAll(keys, key => GetFails(key, get));
  }

  // ---------------------------------------------------------------- getStats as written

  /** Whether, with the guard as written, the GET callback of `key` throws: a GET
      error is rethrown, and a number read for a `nodesStat` field is added onto the
      per-node table, which becomes the string `[object Object]<n>`; the node entry
      then assigned on that string throws in class (strict) code. The throw happens
      in a store callback, so the promise never settles. */
  predicate ThrowsAsWritten(key: string, get: string -> Result<Option<string>>) {
    var f := KeyField(key);
    AsWrittenGuard(f) && (get(key).Err? || (f == "nodesStat" && NumericReply(get(key))))
  }

  /** getStats with the `hasOwnProperty` guard of the source. A `nodesStat` key
      whose callback does not throw adds nothing to the report, so a report that is
      delivered is the corrected fold `Aggregate`. */
  function GetStatsAsWritten(keysReply: Result<seq<string>>, get: string -> Result<Option<string>>): Delivery {
    match keysReply
    case Err => Rejected
    case Ok(keys) =>
      if keys != [] && NoneBad(keys, key => ThrowsAsWritten(key, get)) then Delivered(Aggregate(keys, get))
      else NeverSettled
  }

  /** On a key ending in `:nodesStat` that holds an integer, getStats as written
      never settles, while the corrected guard skips the key: no GET fails, so
      `Stats.GetStats` delivers, and the report it delivers is empty. */
  lemma AsWrittenNodesStatNeverSettles(appPrefix: string, guid: string, v: int,
                                        get: string -> Result<Option<string>>)
    requires ':' !in guid
    requires get(StatsPrefix(appPrefix, guid) + ":nodesStat") == Ok(Some(IntToString(v)))
    ensures var keys := [StatsPrefix(appPrefix, guid) + ":nodesStat"];
            && GetStatsAsWritten(Ok(keys), get) == NeverSettled
            && NoGetFails(keys, get) && Aggregate(keys, get) == StatResult(NoCounts, map[])
  {
    var key := StatsPrefix(appPrefix, guid) + ":nodesStat";
    NodesStatKeyField(appPrefix, guid);
    IntegerReplyIsNumeric(v);
    NumericNodesStatThrows(key, get);
    SingleThrowingKey(key, get);
    SingleUncountedKey(key, get);
  }

  /** A number read for a `nodesStat` field throws as written, and no counter guard
      lets that field through. */
  lemma NumericNodesStatThrows(key: string, get: string -> Result<Option<string>>)
    requires KeyField(key) == "nodesStat" && NumericReply(get(key))
    ensures ThrowsAsWritten(key, get) && MetricOf(KeyField(key)) == None
  {
  }

  /** A lone key whose callback throws as written leaves getStats pending. */
  lemma SingleThrowingKey(key: string, get: string -> Result<Option<string>>)
    requires ThrowsAsWritten(key, get)
    ensures GetStatsAsWritten(Ok([key]), get) == NeverSettled
  {
    assert [key][..0] == [];
    assert !NoneBad([key], k => ThrowsAsWritten(k, get));
  }

  /** A lone key whose field is no counter name is read by no GET and adds nothing. */
  lemma SingleUncountedKey(key: string, get: string -> Result<Option<string>>)
    requires MetricOf(KeyField(key)) == None
    ensures NoGetFails([key], get) && Aggregate([key], get) == StatResult(NoCounts, map[])
  {
    assert [key][..0] == [];
    assert !GetFails(key, get);
    assert KeyContribution(key, get(key)) == None;
  }

  /** The field of a `nodesStat` key under a node's prefix is `nodesStat`. */
  lemma NodesStatKeyField(appPrefix: string, guid: string)
    requires ':' !in guid
    ensures KeyField(StatsPrefix(appPrefix, guid) + ":nodesStat") == "nodesStat"
  {
    var a := appPrefix + ":stats";
    assert appPrefix + ":stats:" == a + [':'];
    assert StatsPrefix(appPrefix, guid) + ":nodesStat" == a + [':'] + (guid + [':'] + "nodesStat");
    SplitLastTwo(a, guid, "nodesStat");
  }

  /** A stored integer is a reply the GET callback reads as a number. */
  lemma IntegerReplyIsNumeric(v: int)
    ensures NumericReply(Ok(Some(IntToString(v))))
  {
    ParseIntToString(v);
  }

  /** Off `nodesStat` fields the two guards agree: with no key ending in
      `:nodesStat`, getStats as written delivers exactly when the corrected one does,
      and the same report. */
  lemma AsWrittenAgreesWithoutNodesStat(keys: seq<string>, get: string -> Result<Option<string>>)
    requires forall i | 0 <= i < |keys| :: KeyField(keys[i]) != "nodesStat"
    ensures GetStatsAsWritten(Ok(keys), get) ==
              if |keys| > 0 && NoGetFails(keys, get) then Delivered(Aggregate(keys, get)) else NeverSettled
  {
    NoneBadAll(keys, key => ThrowsAsWritten(key, get));
    NoGetFailsAll(keys, get);
    forall i | 0 <= i < |keys|
      ensures ThrowsAsWritten(keys[i], get) == GetFails(keys[i], get)
    {
      ThrowsIffGetFails(keys[i], get);
    }
  }

  /** Off `nodesStat`, a callback throws as written exactly when the corrected GET
      fails. */
  lemma ThrowsIffGetFails(key: string, get: string -> Result<Option<string>>)
    requires KeyField(key) != "nodesStat"
    ensures ThrowsAsWritten(key, get) == GetFails(key, get)
  {
    AsWrittenGuardAdmitsNodesStat();
  }

  class Stats {
    const keyPrefix: string
    const matchPattern: string

    constructor (guid: string, appPrefix: string)
      ensures keyPrefix == StatsPrefix(appPrefix, guid) && matchPattern == MatchPattern(appPrefix)
    {
      keyPrefix := StatsPrefix(appPrefix, guid);
      matchPattern := MatchPattern(appPrefix);
    }

    /** incrGenerated(by): one INCRBY on this node's generated counter. */
    method IncrGenerated(store: Store, amount: nat, fails: bool) returns (ok: bool)
      modifies store
      ensures (store.data, ok) == ApplyIncrements(old(store.data), keyPrefix, [Increment(Generated, amount)], _ => fails)
    {
      var r := store.IncrBy(CounterKey(keyPrefix, Generated), amount, fails);
      ok := r.Ok?;
    }

    /** incrHandled / incrScanned / incrHandleErrors: one INCRBY on the counter of
        metric `m`. */
    method IncrMetric(store: Store, m: Metric, amount: nat, fails: bool) returns (ok: bool)
      modifies store
      ensures (store.data, ok) == ApplyOne(old(store.data), keyPrefix, Increment(m, amount), fails)
    {
      var r := store.IncrBy(CounterKey(keyPrefix, m), amount, fails);
      ok := r.Ok?;
    }

    /** incrStats(statsObject): one INCRBY per positive figure, all issued; the
        result says whether `Promise.all` resolves. */
    method IncrStats(store: Store, s: PassStats, fails: Metric -> bool) returns (ok: bool)
      modifies store
      ensures (store.data, ok) == ApplyIncrements(old(store.data), keyPrefix, Increments(s), fails)
    {
      var hs := if s.handled > 0 then [Increment(Handled, s.handled)] else [];
      var es := if s.handleErrors > 0 then [Increment(HandleErrors, s.handleErrors)] else [];
      var ss := if s.scanned > 0 then [Increment(Scanned, s.scanned)] else [];
      ghost var d0 := store.data;
      ok := true;
      if s.handled > 0 {
        ApplyIncrementsSingle(store.data, keyPrefix, Increment(Handled, s.handled), fails);
        ok := IncrMetric(store, Handled, s.handled, fails(Handled));
      }
      assert (store.data, ok) == ApplyIncrements(d0, keyPrefix, hs, fails);
      ghost var d1 := store.data;
      var ok2 := true;
      if s.handleErrors > 0 {
        ApplyIncrementsSingle(store.data, keyPrefix, Increment(HandleErrors, s.handleErrors), fails);
        ok2 := IncrMetric(store, HandleErrors, s.handleErrors, fails(HandleErrors));
      }
      assert (store.data, ok2) == ApplyIncrements(d1, keyPrefix, es, fails);
      ghost var d2 := store.data;
      var ok3 := true;
      if s.scanned > 0 {
        ApplyIncrementsSingle(store.data, keyPrefix, Increment(Scanned, s.scanned), fails);
        ok3 := IncrMetric(store, Scanned, s.scanned, fails(Scanned));
      }
      assert (store.data, ok3) == ApplyIncrements(d2, keyPrefix, ss, fails);
      ApplyIncrementsAppend(d1, keyPrefix, es, ss, fails);
      ApplyIncrementsAppend(d0, keyPrefix, hs, es + ss, fails);
      ok := ok && ok2 && ok3;
      assert Increments(s) == hs + (es + ss);
    }

    /** getStats(): KEYS `matchPattern`, then GET per key whose field is a counter
        name, folding each reply into the report; `get` stands for the store's GET
        replies. The report is delivered when the last pending key is done. */
    method GetStats(keysReply: Result<seq<string>>, get: string -> Result<Option<string>>)
      returns (d: Delivery)
      ensures keysReply.Err? ==> d == Rejected
      ensures keysReply.Ok? ==>
                (d.Delivered? <==> |keysReply.value| > 0 && NoGetFails(keysReply.value, get))
      ensures keysReply.Ok? && !d.Delivered? ==> d == NeverSettled
      ensures d.Delivered? ==> d.result == Aggregate(keysReply.value, get)
    {
      if keysReply.Err? {
        return Rejected;
      }
      var keys := keysReply.value;
      var statResult := StatResult(NoCounts, map[]);
      var counter := |keys|;
      var resolved := false;
      var i := 0;
      while i < |keys|
        invariant 0 <= i <= |keys|
        invariant statResult == Aggregate(keys[..i], get)
        invariant |keys| - i <= counter <= |keys|
        invariant counter == |keys| - i <==> NoGetFails(keys[..i], get)
        invariant resolved <==> i > 0 && counter == 0
      {
        var key := keys[i];
        assert keys[..i + 1][..i] == keys[..i];
        assert keys[..i + 1][i] == key;
        if MetricOf(KeyField(key)).Some? {
          var reply := get(key);
          statResult := AddContribution(statResult, KeyContribution(key, reply));
          if reply.Ok? {
            counter := counter - 1;
            if counter == 0 {
              resolved := true;
            }
          }
        } else {
          counter := counter - 1;
          if counter == 0 {
            resolved := true;
          }
        }
        i := i + 1;
      }
      assert keys[..|keys|] == keys;
      if resolved {
        d := Delivered(statResult);
      } else {
        d := NeverSettled;
      }
    }
  }
}

/** message-node/index.js: the MessageNode class. Its role state machine lives in
    NodeControl as a transition system; the class below holds the same state in
    fields and every method is proved to move it exactly as NodeControl says.
    The event loop's pending timers, the asynchronous calls in flight and the
    locks handed to `redlock.release` are kept as fields too, so that a method
    can say what it schedules. The display-errors pass is specified here. */
module MessageNode {
  import opened Wrappers
  import opened RedisHelpers
  import opened NodeControl
  import MessagesHandler
  import MessagesGenerator
  import MessagesStats

  // ---------------------------------------------------------------- the display-errors pass

  /** What _displayErrors writes for one key: the record's date, the original
      message and the stack on the console log, or the caught error on the error
      log (a failed read, a missing key, whose `null` record has no `stamp`, or a
      value JSON.parse rejects). */
  datatype Report = Printed(stamp: nat, message: string, stack: string) | LoggedError

  function ReportOf(o: ReadOutcome): Report {
    match o
    case Read(rec) => Printed(rec.stamp, rec.message, rec.stack)
    case _ => LoggedError
  }

  /** The store and the reports so far. */
  datatype Shown = Shown(data: map<string, string>, reports: seq<Report>)

  /** One key: readAndDeleteError, then its report; a failed MULTI leaves the key. */
  function ShowKey(s: Shown, key: string, readFails: bool): Shown {
    if readFails then Shown(s.data, s.reports + [LoggedError])
    else Shown(s.data - {key}, s.reports + [ReportOf(Decoded(Lookup(s.data, key)))])
  }

  /** The `for` loop over the keys of one SCAN page. */
  function ShowPage(data: map<string, string>, keys: seq<string>, fails: nat -> bool): (p: Shown)
    ensures |p.reports| == |keys|
  {
    if keys == [] then Shown(data, [])
    else ShowKey(ShowPage(data, keys[..|keys| - 1], fails), keys[|keys| - 1], fails(|keys| - 1))
  }

  function PageFails(fails: (nat, nat) -> bool, i: nat): nat -> bool {
    (j: nat) => fails(i, j)
  }

  /** The `while` loop from SCAN reply `i` on: a rejected SCAN ends the pass and
      rejects start() (`false`); the cursor "0" ends it normally (`true`). */
  function Display(data: map<string, string>, replies: seq<ScanReply>, fails: (nat, nat) -> bool, i: nat): (Shown, bool)
    requires PassEnds(replies, i)
    decreases |replies| - i
  {
    match replies[i]
    case ScanFailed => (Shown(data, []), false)
    case Batch(cursor, keys) =>
      var p := ShowPage(data, keys, PageFails(fails, i));
      if cursor == "0" then (p, true)
      else
        PassEndsNext(replies, i);
        var rest := Display(p.data, replies, fails, i + 1);
        (Shown(rest.0.data, p.reports + rest.0.reports), rest.1)
  }

  /** One report per key of the page, and the store only loses keys of the page. */
  lemma {:induction false} ShowPageShape(data: map<string, string>, keys: seq<string>, fails: nat -> bool)
    ensures var p := ShowPage(data, keys, fails);
            |p.reports| == |keys|
            && (forall k | k in p.data :: k in data && p.data[k] == data[k])
            && (forall k | k in data && k !in keys :: k in p.data)
  {
    if keys != [] {
      ShowPageShape(data, keys[..|keys| - 1], fails);
      assert forall k | k !in keys :: k !in keys[..|keys| - 1];
    }
  }

  /** The last key of a page, absent from the keys before it, is reported from
      what the store held for it when the pass began. */
  lemma ShowPageLastReport(data: map<string, string>, keys: seq<string>, fails: nat -> bool)
    requires |keys| > 0 && keys[|keys| - 1] !in keys[..|keys| - 1]
    ensures var n := |keys|;
            var p := ShowPage(data, keys, fails);
            p.reports[n - 1] == (if fails(n - 1) then LoggedError else ReportOf(Decoded(Lookup(data, keys[n - 1]))))
            && (!fails(n - 1) ==> keys[n - 1] !in p.data)
  {
    var n := |keys|;
    var init := keys[..n - 1];
    var q := ShowPage(data, init, fails);
    assert ShowPage(data, keys, fails) == ShowKey(q, keys[n - 1], fails(n - 1));
    ShowPageShape(data, init, fails);
    assert Lookup(q.data, keys[n - 1]) == Lookup(data, keys[n - 1]);
  }

  /** A key before the last keeps the report the shorter page gave it, and stays
      gone once gone. */
  lemma ShowPageEarlierReport(data: map<string, string>, keys: seq<string>, fails: nat -> bool, j: nat)
    requires j < |keys| - 1
    ensures var n := |keys|;
            var p := ShowPage(data, keys, fails);
            var q := ShowPage(data, keys[..n - 1], fails);
            p.reports[j] == q.reports[j] && (keys[j] !in q.data ==> keys[j] !in p.data)
  {
    var n := |keys|;
    var q := ShowPage(data, keys[..n - 1], fails);
    var p := ShowKey(q, keys[n - 1], fails(n - 1));
    assert ShowPage(data, keys, fails) == p;
    assert p.reports == q.reports + [p.reports[n - 1]];
  }

  /** With distinct keys, key `j` is reported from what the store held for it when
      the pass began, and it is gone afterwards unless its read failed. */
  lemma {:induction false} ShowPageReportAt(data: map<string, string>, keys: seq<string>, fails: nat -> bool, j: nat)
    requires j < |keys|
    requires forall a, b | 0 <= a < b < |keys| :: keys[a] != keys[b]
    ensures var p := ShowPage(data, keys, fails);
            p.reports[j] == (if fails(j) then LoggedError else ReportOf(Decoded(Lookup(data, keys[j]))))
            && (!fails(j) ==> keys[j] !in p.data)
  {
    var n := |keys|;
    var init := keys[..n - 1];
    if j == n - 1 {
      assert forall a | 0 <= a < |init| :: init[a] == keys[a] && keys[a] != keys[n - 1];
      ShowPageLastReport(data, keys, fails);
    } else {
      assert forall a, b | 0 <= a < b < |init| :: init[a] != init[b];
      ShowPageReportAt(data, init, fails, j);
      ShowPageEarlierReport(data, keys, fails, j);
    }
  }

  /** The display pass writes one report per key SCAN delivered. */
  lemma {:induction false} DisplayReportsEveryKey(data: map<string, string>, replies: seq<ScanReply>,
                                                  fails: (nat, nat) -> bool, i: nat)
    requires PassEnds(replies, i)
    ensures |Display(data, replies, fails, i).0.reports| == MessagesHandler.ScannedFrom(replies, i)
    decreases |replies| - i
  {
    match replies[i]
    case ScanFailed =>
    case Batch(cursor, keys) =>
      var p := ShowPage(data, keys, PageFails(fails, i));
      ShowPageShape(data, keys, PageFails(fails, i));
      if cursor != "0" {
        PassEndsNext(replies, i);
        DisplayReportsEveryKey(p.data, replies, fails, i + 1);
      }
  }

  /** The display pass only deletes: whatever is left holds what it held before. */
  lemma {:induction false} DisplayOnlyDeletes(data: map<string, string>, replies: seq<ScanReply>,
                                              fails: (nat, nat) -> bool, i: nat)
    requires PassEnds(replies, i)
    ensures var d := Display(data, replies, fails, i).0.data;
            forall k | k in d :: k in data && d[k] == data[k]
    decreases |replies| - i
  {
    match replies[i]
    case ScanFailed =>
    case Batch(cursor, keys) =>
      var p := ShowPage(data, keys, PageFails(fails, i));
      ShowPageShape(data, keys, PageFails(fails, i));
      if cursor != "0" {
        PassEndsNext(replies, i);
        DisplayOnlyDeletes(p.data, replies, fails, i + 1);
      }
  }

  /** An error record the handler saved is printed with its stamp, the message
      that failed and the stack. */
  lemma SavedErrorIsPrinted(data: map<string, string>, errorsPrefix: string, err: HandlerError,
                            message: string, stamp: nat, keyNow: nat)
    ensures var rec := ErrorRecord(stamp, err.msg, err.stack, message);
            var key := ErrorKey(errorsPrefix, keyNow);
            ShowKey(Shown(data[key := Serialize(rec)], []), key, false).reports == [Printed(stamp, message, err.stack)]
  {
    WrittenErrorReadsBack(data, errorsPrefix, err, message, stamp, keyNow);
  }

  // ---------------------------------------------------------------- what a drain and a write settle with

  /** handleMessages() from `before`, then incrStats when the pass settled with
      statistics; `resolved` says whether `handleMessages().then(incrStats)`
      resolves: incrStats reads `handled` of `undefined` when the pass settled
      without statistics, and `Promise.all` rejects when an increment does. */
  predicate DrainOutcome(before: map<string, string>, after: map<string, string>, errorsPrefix: string,
                         statsPrefix: string, replies: seq<ScanReply>, fate: (nat, nat) -> MessagesHandler.KeyFate,
                         incFails: MessagesStats.Metric -> bool, r: MessagesHandler.PassResult, resolved: bool)
    requires PassEnds(replies, 0)
  {
    var pass := MessagesHandler.Pass(before, errorsPrefix, replies, fate, 0);
    r == pass.1
    && (r.Stats? ==>
          (after, resolved) == MessagesStats.ApplyIncrements(pass.0, statsPrefix, MessagesStats.Increments(r.stats), incFails))
    && (!r.Stats? ==> after == pass.0 && !resolved)
  }

  /** generate(false, …) with a random text at millisecond `now` from counter
      `counter`, then, whether or not the write failed, incrGenerated(1);
      `counted` says whether that increment resolves. */
  predicate GenerationOutcome(before: map<string, string>, after: map<string, string>, keyPrefix: string,
                              statsPrefix: string, counter: nat, counter': nat, random: string, now: nat,
                              writeFails: bool, incrFails: bool, counted: bool)
    requires counter <= MessagesGenerator.CounterCeiling
  {
    var written := if writeFails then before else before[MessagesGenerator.MessageKey(keyPrefix, now, counter) := random];
    (after, counted) == MessagesStats.ApplyIncrements(written, statsPrefix,
                          [MessagesStats.Increment(MessagesStats.Generated, 1)], _ => incrFails)
    && counter' == if writeFails then counter else MessagesGenerator.WrittenNextCounter(counter)
  }

  // ---------------------------------------------------------------- the class

  class Node {
    const handler: MessagesHandler.Handler
    const generator: MessagesGenerator.Generator
    const stats: MessagesStats.Stats
    const isLimit: bool    // testLimit
    const testEnv: bool    // process.env.NODE_ENV === 'test'

    var state: State
    var lock: Option<Lock>
    var limit: nat
    var electionSlot: Option<TimerId>   // _testGeneratorLockTimeout
    var extendSlot: Option<TimerId>     // _extendGeneratorLockTimeout
    var handlingSlot: Option<TimerId>   // _handleMessagesTimeout
    // the environment the node acts on
    var timers: map<TimerId, Callback>
    var nextTimer: TimerId
    var inFlight: multiset<Call>
    var releases: seq<Option<Lock>>

    function Snapshot(): Control
      reads this
    {
      Control(state, lock, limit, electionSlot, extendSlot, handlingSlot, timers, nextTimer, inFlight, releases)
    }

    function Configuration(): Config {
      Config(isLimit, testEnv)
    }

    ghost predicate Valid()
      reads this, generator
    {
      NodeControl.Valid(Snapshot(), Configuration()) && generator.Valid()
      && generator.resetAt == MessagesGenerator.MathMaxSafeInteger
    }

    constructor (appPrefix: string, guid: string, displayErrorsMode: bool, testLimit: bool, testEnv: bool)
      ensures Valid()
      ensures Snapshot() == Init(displayErrorsMode) && Configuration() == Config(testLimit, testEnv)
      ensures handler.errorsPrefix == MessagesHandler.ErrorsPrefix(appPrefix)
      ensures generator.keyPrefix == MessagesGenerator.KeyPrefix(appPrefix, guid) && generator.counter == 0
      ensures stats.keyPrefix == MessagesStats.StatsPrefix(appPrefix, guid)
      ensures fresh(handler) && fresh(generator) && fresh(stats)
    {
      handler := new MessagesHandler.Handler(appPrefix);
      generator := new MessagesGenerator.Generator(appPrefix, guid);
      stats := new MessagesStats.Stats(guid, appPrefix);
      isLimit := testLimit;
      this.testEnv := testEnv;
      state := if displayErrorsMode then DisplayErrors else NotRun;
      lock := None;
      limit := InitialLimit;
      electionSlot, extendSlot, handlingSlot := None, None, None;
      timers, nextTimer, inFlight, releases := map[], 0, multiset{}, [];
      InitValid(displayErrorsMode, Config(testLimit, testEnv));
    }

    /** `isRunning`: only NOT_RUN is not running. */
    function IsRunning(): (b: bool)
      reads this
      ensures b <==> state != NotRun
    {
      NodeControl.IsRunning(state)
    }

    /** `isGenerator`; a generator is always running. */
    function IsGenerator(): (b: bool)
      reads this
      ensures b <==> state == Generator
      ensures b ==> IsRunning()
    {
      state == Generator
    }

    // ------------------------------------------------ timers

    method SetTimeout(cb: Callback) returns (id: TimerId)
      modifies this
      ensures id == old(nextTimer) && Snapshot() == Arm(old(Snapshot()), cb)
    {
      id := nextTimer;
      timers := timers[id := cb];
      nextTimer := nextTimer + 1;
    }

    /** The four _clear* methods: clear the slot's timer when the slot is set. */
    method ClearTimeout(slot: Option<TimerId>)
      modifies this
      ensures Snapshot() == Cancel(old(Snapshot()), slot)
    {
      if slot.Some? {
        timers := timers - {slot.value};
      }
    }

    // ------------------------------------------------ the private methods

    method TestGeneratorLock()
      modifies this
      ensures Snapshot() == NodeControl.TestGeneratorLock(old(Snapshot()))
    {
      if IsGenerator() {
        return;
      }
      var id := SetTimeout(ElectionCheck);
      electionSlot := Some(id);
    }

    method ExtendGeneratorLock(l: Lock)
      modifies this
      ensures Snapshot() == NodeControl.ExtendGeneratorLock(old(Snapshot()), l)
    {
      if !IsRunning() || !IsGenerator() {
        return;
      }
      var id := SetTimeout(ExtendLock(l));
      extendSlot := Some(id);
    }

    method HandleMessages()
      modifies this
      ensures Snapshot() == NodeControl.HandleMessages(old(Snapshot()))
    {
      if !IsRunning() || IsGenerator() {
        return;
      }
      var id := SetTimeout(HandleTick);
      handlingSlot := Some(id);
    }

    method GenerateMessage()
      modifies this
      ensures Snapshot() == NodeControl.GenerateMessage(old(Snapshot()))
    {
      inFlight := inFlight + multiset{Generation};
    }

    method GenerateMessagesLoop()
      modifies this
      ensures Snapshot() == NodeControl.GenerateMessagesLoop(old(Snapshot()), Configuration())
    {
      if !IsRunning() || !IsGenerator() || (isLimit && limit == 0) {
        return;
      }
      if isLimit {
        limit := limit - 1;
      }
      if testEnv {
        GenerateMessage();
      } else {
        var id := SetTimeout(GenerateTick);
        handlingSlot := Some(id);
      }
    }

    method SetupGenerator(l: Lock)
      modifies this
      ensures Snapshot() == NodeControl.SetupGenerator(old(Snapshot()), Configuration(), l)
    {
      state := Generator;
      lock := Some(l);
      ClearTimeout(electionSlot);
      ClearTimeout(handlingSlot);
      ExtendGeneratorLock(l);
      GenerateMessagesLoop();
    }

    method SetupHandler()
      modifies this
      ensures Snapshot() == NodeControl.SetupHandler(old(Snapshot()))
    {
      state := Handler;
      ClearTimeout(extendSlot);
      HandleMessages();
    }

    // ------------------------------------------------ the public methods and the events

    /** stop(). */
    method Stop()
      requires Valid()
      modifies this
      ensures Valid() && Snapshot() == Step(old(Snapshot()), Configuration(), Event.Stop)
    {
      ghost var before := Snapshot();
      assert Step(before, Configuration(), Event.Stop) == StopNode(before);
      if IsGenerator() {
        releases := releases + [lock];
      }
      state := NotRun;
      ClearTimeout(electionSlot);
      ClearTimeout(handlingSlot);
      ClearTimeout(extendSlot);
      StopValid(before, Configuration());
    }

    /** start(): in display mode, the display-errors pass over `replies`, the
        SCAN answers, with `readFails(i, j)` saying whether the read of key `j` of
        page `i` fails; the result says whether start() resolves. Otherwise the
        election timer is armed unless the node is generator. */
    method Start(store: Store, replies: seq<ScanReply>, readFails: (nat, nat) -> bool)
      returns (reports: seq<Report>, completed: bool)
      requires Valid()
      requires state == DisplayErrors ==> PassEnds(replies, 0)
      modifies this, store
      ensures Valid() && Snapshot() == Step(old(Snapshot()), Configuration(), Event.Start)
      ensures old(state) == DisplayErrors ==>
                (Shown(store.data, reports), completed) == Display(old(store.data), replies, readFails, 0)
      ensures old(state) != DisplayErrors ==> reports == [] && completed && store.data == old(store.data)
    {
      if state == DisplayErrors {
        reports, completed := DisplayErrorsPass(store, replies, readFails);
        return;
      }
      TestGeneratorLock();
      reports, completed := [], true;
      StepValid(old(Snapshot()), Configuration(), Event.Start);
    }

    /** The inner `for` loop of _displayErrors. */
    method ShowPageKeys(store: Store, keys: seq<string>, fails: nat -> bool) returns (reports: seq<Report>)
      modifies store
      ensures Shown(store.data, reports) == ShowPage(old(store.data), keys, fails)
    {
      reports := [];
      var j := 0;
      while j < |keys|
        invariant 0 <= j <= |keys|
        invariant Shown(store.data, reports) == ShowPage(old(store.data), keys[..j], fails)
      {
        assert keys[..j + 1][..j] == keys[..j];
        var outcome := store.ReadAndDeleteError(keys[j], fails(j));
        reports := reports + [ReportOf(outcome)];
        j := j + 1;
      }
      assert keys[..|keys|] == keys;
    }

    /** _displayErrors. */
    method DisplayErrorsPass(store: Store, replies: seq<ScanReply>, readFails: (nat, nat) -> bool)
      returns (reports: seq<Report>, completed: bool)
      requires PassEnds(replies, 0)
      modifies store
      ensures (Shown(store.data, reports), completed) == Display(old(store.data), replies, readFails, 0)
    {
      reports := [];
      var i := 0;
      ghost var start := store.data;
      assert Display(start, replies, readFails, 0).0 == Shown(Display(start, replies, readFails, 0).0.data,
                                                             [] + Display(start, replies, readFails, 0).0.reports);
      while true
        invariant PassEnds(replies, i)
        invariant var rest := Display(store.data, replies, readFails, i);
                  Display(start, replies, readFails, 0) ==
                  (Shown(rest.0.data, reports + rest.0.reports), rest.1)
        decreases |replies| - i
      {
        var reply := replies[i];
        if reply.ScanFailed? {
          assert reports + [] == reports;
          return reports, false;
        }
        var page := ShowPageKeys(store, reply.keys, PageFails(readFails, i));
        if reply.cursor == "0" {
          return reports + page, true;
        }
        PassEndsNext(replies, i);
        assert reports + (page + Display(store.data, replies, readFails, i + 1).0.reports)
            == reports + page + Display(store.data, replies, readFails, i + 1).0.reports;
        reports := reports + page;
        i := i + 1;
      }
    }

    /** A pending timer fires. */
    method TimerFires(id: TimerId)
      requires Valid() && id in timers
      modifies this
      ensures Valid() && Snapshot() == Step(old(Snapshot()), Configuration(), Fire(id))
    {
      ghost var before := Snapshot();
      assert Step(before, Configuration(), Fire(id)) == FireTimer(before, id);
      var cb := timers[id];
      timers := timers - {id};
      match cb {
        case ElectionCheck => inFlight := inFlight + multiset{LockAttempt};
        case ExtendLock(_) => inFlight := inFlight + multiset{ExtendAttempt};
        case HandleTick => inFlight := inFlight + multiset{Drain};
        case GenerateTick => GenerateMessage();
      }
      FireValid(before, Configuration(), id);
    }

    /** redlock.lock resolves with `l`. */
    method LockAcquired(l: Lock)
      requires Valid() && LockAttempt in inFlight
      modifies this
      ensures Valid() && Snapshot() == Step(old(Snapshot()), Configuration(), Event.LockAcquired(l))
    {
      ghost var before := Snapshot();
      ghost var settled := Settle(before, LockAttempt);
      assert Step(before, Configuration(), Event.LockAcquired(l)) == NodeControl.SetupGenerator(settled, Configuration(), l);
      inFlight := inFlight - multiset{LockAttempt};
      assert Snapshot() == settled;
      SetupGenerator(l);
      assert Snapshot() == NodeControl.SetupGenerator(settled, Configuration(), l);
      SettleValid(before, Configuration(), LockAttempt);
      SetupGeneratorValid(settled, Configuration(), l);
    }

    /** redlock.lock rejects. */
    method LockFailed()
      requires Valid() && LockAttempt in inFlight
      modifies this
      ensures Valid() && Snapshot() == Step(old(Snapshot()), Configuration(), Event.LockFailed)
    {
      ghost var before := Snapshot();
      ghost var settled := Settle(before, LockAttempt);
      assert Step(before, Configuration(), Event.LockFailed) ==
        NodeControl.TestGeneratorLock(if !NodeControl.IsRunning(settled.state) then NodeControl.SetupHandler(settled) else settled);
      inFlight := inFlight - multiset{LockAttempt};
      assert Snapshot() == settled;
      if !IsRunning() {
        SetupHandler();
      }
      assert Snapshot() == if !NodeControl.IsRunning(settled.state) then NodeControl.SetupHandler(settled) else settled;
      TestGeneratorLock();
      LockFailedValid(before, Configuration());
    }

    /** lock.extend calls back with the extended lock `l`. */
    method ExtendSucceeded(l: Lock)
      requires Valid() && ExtendAttempt in inFlight
      modifies this
      ensures Valid() && Snapshot() == Step(old(Snapshot()), Configuration(), ExtendOk(l))
    {
      ghost var before := Snapshot();
      ghost var settled := Settle(before, ExtendAttempt);
      assert Step(before, Configuration(), ExtendOk(l)) == NodeControl.ExtendGeneratorLock(settled, l);
      inFlight := inFlight - multiset{ExtendAttempt};
      assert Snapshot() == settled;
      ExtendGeneratorLock(l);
      ExtendOkValid(before, Configuration(), l);
    }

    /** lock.extend calls back with an error. */
    method ExtendFailed()
      requires Valid() && ExtendAttempt in inFlight
      modifies this
      ensures Valid() && Snapshot() == Step(old(Snapshot()), Configuration(), Event.ExtendFailed)
    {
      ghost var before := Snapshot();
      ghost var settled := Settle(before, ExtendAttempt);
      assert Step(before, Configuration(), Event.ExtendFailed) == NodeControl.SetupHandler(settled);
      inFlight := inFlight - multiset{ExtendAttempt};
      assert Snapshot() == settled;
      SetupHandler();
      SettleValid(before, Configuration(), ExtendAttempt);
      SetupHandlerValid(settled, Configuration());
    }

    /** handleMessages() over `replies` with `fate`, then incrStats with
        `incFails` when the pass settled with statistics; `resolved` says whether
        the chain `handleMessages().then(incrStats)` resolves (incrStats of
        `undefined` throws, so NoStats does not). */
    method DrainAndCount(store: Store, replies: seq<ScanReply>, fate: (nat, nat) -> MessagesHandler.KeyFate,
                         incFails: MessagesStats.Metric -> bool)
      returns (r: MessagesHandler.PassResult, resolved: bool)
      requires PassEnds(replies, 0)
      modifies store
      ensures DrainOutcome(old(store.data), store.data, handler.errorsPrefix, stats.keyPrefix, replies, fate, incFails, r, resolved)
    {
      r := handler.HandleMessages(store, replies, fate, 0);
      resolved := false;
      if r.Stats? {
        resolved := stats.IncrStats(store, r.stats, incFails);
      }
    }

    /** The drain a fired handling timer started settles; the loop is re-armed
        only when it resolves. */
    method DrainFinished(store: Store, replies: seq<ScanReply>, fate: (nat, nat) -> MessagesHandler.KeyFate,
                         incFails: MessagesStats.Metric -> bool)
      returns (r: MessagesHandler.PassResult, resolved: bool)
      requires Valid() && Drain in inFlight && PassEnds(replies, 0)
      modifies this, store
      ensures DrainOutcome(old(store.data), store.data, handler.errorsPrefix, stats.keyPrefix, replies, fate, incFails, r, resolved)
      ensures Valid() && Snapshot() == Step(old(Snapshot()), Configuration(), DrainDone(resolved))
    {
      ghost var before := Snapshot();
      r, resolved := DrainAndCount(store, replies, fate, incFails);
      assert Snapshot() == before;
      ghost var settled := Settle(before, Drain);
      assert Step(before, Configuration(), DrainDone(resolved)) ==
        if resolved then NodeControl.HandleMessages(settled) else settled;
      inFlight := inFlight - multiset{Drain};
      assert Snapshot() == settled;
      if resolved {
        HandleMessages();
      }
      assert Snapshot() == (if resolved then NodeControl.HandleMessages(Settle(before, Drain)) else Settle(before, Drain));
      DrainDoneValid(before, Configuration(), resolved);
    }

    /** generate(false, …) with a random text at millisecond `now`, then, whether
        or not the write failed, incrGenerated(1); `counted` says whether that
        increment resolves. */
    method WriteAndCount(store: Store, random: string, now: nat, writeFails: bool, incrFails: bool)
      returns (counted: bool)
      requires generator.Valid() && generator.resetAt == MessagesGenerator.MathMaxSafeInteger
      modifies store, generator
      ensures generator.Valid()
      ensures GenerationOutcome(old(store.data), store.data, generator.keyPrefix, stats.keyPrefix,
                                old(generator.counter), generator.counter, random, now, writeFails, incrFails, counted)
    {
      var written := generator.Generate(store, "", random, now, writeFails);
      counted := stats.IncrGenerated(store, 1, incrFails);
    }

    /** The write a generation started settles; the loop goes on only when the
        increment resolves. */
    method GenerationFinished(store: Store, random: string, now: nat, writeFails: bool, incrFails: bool)
      returns (counted: bool)
      requires Valid() && Generation in inFlight
      modifies this, store, generator
      ensures GenerationOutcome(old(store.data), store.data, generator.keyPrefix, stats.keyPrefix,
                                old(generator.counter), generator.counter, random, now, writeFails, incrFails, counted)
      ensures Valid() && Snapshot() == Step(old(Snapshot()), Configuration(), GenerationDone(counted))
    {
      counted := WriteAndCount(store, random, now, writeFails, incrFails);
      GenerationSettles(counted);
    }

    /** generate's callback after incrGenerated settled: the loop goes on only
        when the increment resolved. */
    method GenerationSettles(counted: bool)
      requires Valid() && Generation in inFlight
      modifies this
      ensures Valid() && Snapshot() == Step(old(Snapshot()), Configuration(), GenerationDone(counted))
    {
      ghost var before := Snapshot();
      ghost var settled := Settle(before, Generation);
      assert Step(before, Configuration(), GenerationDone(counted)) ==
        if counted then NodeControl.GenerateMessagesLoop(settled, Configuration()) else settled;
      inFlight := inFlight - multiset{Generation};
      assert Snapshot() == settled;
      if counted {
        GenerateMessagesLoop();
      }
      SettleValid(before, Configuration(), Generation);
      GenerateMessagesLoopValid(settled, Configuration());
    }
  }
}

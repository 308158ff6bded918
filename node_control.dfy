/** The role state machine of message-node/index.js as a transition system over
    values: the node's role, its lock, the test limit, the three timer slots, the
    pending timers, and the asynchronous calls in flight. A `setTimeout` adds a
    pending timer under a fresh id and stores the id in a slot; a `clearTimeout`
    removes the slot's id from the pending timers, leaving the slot as it was. A
    timer firing and an asynchronous call settling are separate events, so events
    that the source lets interleave (a `stop()` while a lock attempt is in flight)
    can be stated. */
module NodeControl {
  import opened Wrappers

  /** STATES, ordered as their numeric values 0..3. */
  datatype State = NotRun | DisplayErrors | Handler | Generator

  function Rank(s: State): nat {
    match s
    case NotRun => 0
    case DisplayErrors => 1
    case Handler => 2
    case Generator => 3
  }

  /** `isRunning`: the state is above NOT_RUN. */
  predicate IsRunning(s: State) {
    Rank(s) > Rank(NotRun)
  }

  /** DISPLAY_ERRORS counts as running; only NOT_RUN does not. */
  lemma RunningStates(s: State)
    ensures IsRunning(s) <==> s in {DisplayErrors, Handler, Generator}
  {
    match s
    case NotRun =>
    case DisplayErrors =>
    case Handler =>
    case Generator =>
  }

  /** A lock held in the store (Redlock's lock object), told apart by its token. */
  datatype Lock = Lock(token: nat)

  type TimerId = nat

  /** What a pending timer runs when it fires. */
  datatype Callback =
    | ElectionCheck        // _testGeneratorLock: try to take the generator lock
    | ExtendLock(lock: Lock) // _extendGeneratorLock: extend this lock
    | HandleTick           // _handleMessages: run one drain pass
    | GenerateTick         // _generateMessagesLoop: write one message

  /** An asynchronous call that has been issued and has not settled yet. */
  datatype Call = LockAttempt | ExtendAttempt | Drain | Generation

  /** `testLimit` and `process.env.NODE_ENV === 'test'`. */
  datatype Config = Config(isLimit: bool, testEnv: bool)

  const InitialLimit: nat := 1000000

  datatype Control = Control(
    state: State,
    lock: Option<Lock>,            // _lock
    limit: nat,                    // _limit
    election: Option<TimerId>,     // _testGeneratorLockTimeout
    extend: Option<TimerId>,       // _extendGeneratorLockTimeout
    handling: Option<TimerId>,     // _handleMessagesTimeout (also the generation timer)
    timers: map<TimerId, Callback>,
    nextTimer: TimerId,
    inFlight: multiset<Call>,
    releases: seq<Option<Lock>>)   // what was passed to redlock.release, in order

  /** The constructor's state. */
  function Init(displayErrorsMode: bool): Control {
    Control(if displayErrorsMode then DisplayErrors else NotRun, None, InitialLimit,
            None, None, None, map[], 0, multiset{}, [])
  }

  predicate Armed(c: Control, slot: Option<TimerId>) {
    slot.Some? && slot.value in c.timers
  }

  predicate ArmedWith(c: Control, slot: Option<TimerId>, cb: Callback) {
    Armed(c, slot) && c.timers[slot.value] == cb
  }

  // ---------------------------------------------------------------- timer primitives

  /** setTimeout: a new pending timer under the next id. */
  function Arm(c: Control, cb: Callback): Control {
    c.(timers := c.timers[c.nextTimer := cb], nextTimer := c.nextTimer + 1)
  }

  /** `if (slot) clearTimeout(slot)`. */
  function Cancel(c: Control, slot: Option<TimerId>): Control {
    if slot.Some? then c.(timers := c.timers - {slot.value}) else c
  }

  function Settle(c: Control, call: Call): Control {
    c.(inFlight := c.inFlight - multiset{call})
  }

  function Issue(c: Control, call: Call): Control {
    c.(inFlight := c.inFlight + multiset{call})
  }

  // ---------------------------------------------------------------- the private methods

  /** _testGeneratorLock: unless generator, arm the election timer. */
  function TestGeneratorLock(c: Control): Control {
    if c.state == Generator then c
    else Arm(c, ElectionCheck).(election := Some(c.nextTimer))
  }

  /** _extendGeneratorLock(lock): only while running and generator, arm the extend
      timer for `lock`. */
  function ExtendGeneratorLock(c: Control, l: Lock): Control {
    if !IsRunning(c.state) || c.state != Generator then c
    else Arm(c, ExtendLock(l)).(extend := Some(c.nextTimer))
  }

  /** _handleMessages: only while running and not generator, arm the handling
      timer. */
  function HandleMessages(c: Control): Control {
    if !IsRunning(c.state) || c.state == Generator then c
    else Arm(c, HandleTick).(handling := Some(c.nextTimer))
  }

  /** _generateMessage: issue one write. */
  function GenerateMessage(c: Control): Control {
    Issue(c, Generation)
  }

  /** _generateMessagesLoop: only while running, generator and not out of test
      budget; spend one unit of the budget under `testLimit`; in the test
      environment write at once, otherwise arm a timer in the handling slot. */
  function GenerateMessagesLoop(c: Control, cfg: Config): Control {
    if !IsRunning(c.state) || c.state != Generator || (cfg.isLimit && c.limit == 0) then c
    else
      var c1 := if cfg.isLimit then c.(limit := c.limit - 1) else c;
      if cfg.testEnv then GenerateMessage(c1)
      else Arm(c1, GenerateTick).(handling := Some(c1.nextTimer))
  }

  /** _setupGenerator(lock). */
  function SetupGenerator(c: Control, cfg: Config, l: Lock): Control {
    var c1 := c.(state := Generator, lock := Some(l));
    var c2 := Cancel(c1, c1.election);
    var c3 := Cancel(c2, c2.handling);
    GenerateMessagesLoop(ExtendGeneratorLock(c3, l), cfg)
  }

  /** _setupHandler. */
  function SetupHandler(c: Control): Control {
    var c1 := c.(state := Handler);
    HandleMessages(Cancel(c1, c1.extend))
  }

  // ---------------------------------------------------------------- events

  datatype Event =
    | Start                                // start(), outside display mode
    | Stop                                 // stop()
    | Fire(id: TimerId)                    // a pending timer fires
    | LockAcquired(lock: Lock)             // redlock.lock resolves
    | LockFailed                           // redlock.lock rejects
    | ExtendOk(lock: Lock)                 // lock.extend calls back with a lock
    | ExtendFailed                         // lock.extend calls back with an error
    | DrainDone(resolved: bool)            // handleMessages().then(incrStats) settles
    | GenerationDone(counted: bool)        // generate's callback, after incrGenerated

  /** stop(): release the lock only when generator, then NOT_RUN and clear the
      three slots. */
  function StopNode(c: Control): Control {
    var c1 := if c.state == Generator then c.(releases := c.releases + [c.lock]) else c;
    var c2 := c1.(state := NotRun);
    var c3 := Cancel(c2, c2.election);
    var c4 := Cancel(c3, c3.handling);
    Cancel(c4, c4.extend)
  }

  /** The pending timer `id` fires: it stops being pending and its callback runs. */
  function FireTimer(c: Control, id: TimerId): Control {
    if id !in c.timers then c
    else
      var c1 := c.(timers := c.timers - {id});
      match c.timers[id]
      case ElectionCheck => Issue(c1, LockAttempt)
      case ExtendLock(_) => Issue(c1, ExtendAttempt)
      case HandleTick => Issue(c1, Drain)
      case GenerateTick => GenerateMessage(c1)
  }

  /** The node after event `e`; an event whose timer is not pending or whose call
      is not in flight cannot happen and leaves the node as it is. */
  function Step(c: Control, cfg: Config, e: Event): Control {
    match e
    case Start => if c.state == DisplayErrors then c else TestGeneratorLock(c)
    case Stop => StopNode(c)
    case Fire(id) => FireTimer(c, id)
    case LockAcquired(l) =>
      if LockAttempt !in c.inFlight then c
      else SetupGenerator(Settle(c, LockAttempt), cfg, l)
    case LockFailed =>
      if LockAttempt !in c.inFlight then c
      else
        var c1 := Settle(c, LockAttempt);
        TestGeneratorLock(if !IsRunning(c1.state) then SetupHandler(c1) else c1)
    case ExtendOk(l) =>
      if ExtendAttempt !in c.inFlight then c
      else ExtendGeneratorLock(Settle(c, ExtendAttempt), l)
    case ExtendFailed =>
      if ExtendAttempt !in c.inFlight then c
      else SetupHandler(Settle(c, ExtendAttempt))
    case DrainDone(resolved) =>
      if Drain !in c.inFlight then c
      else
        var c1 := Settle(c, Drain);
        if resolved then HandleMessages(c1) else c1
    case GenerationDone(counted) =>
      if Generation !in c.inFlight then c
      else
        var c1 := Settle(c, Generation);
        if counted then GenerateMessagesLoop(c1, cfg) else c1
  }

  function Run(c: Control, cfg: Config, events: seq<Event>): Control
    decreases |events|
  {
    if events == [] then c else Run(Step(c, cfg, events[0]), cfg, events[1..])
  }

  // ---------------------------------------------------------------- the invariant

  predicate SlotFresh(c: Control, slot: Option<TimerId>) {
    slot.Some? ==> slot.value < c.nextTimer
  }

  /** What holds in every reachable state: ids are fresh; a generator holds a lock
      and has no election timer pending; a pending election timer runs the
      election; a pending extend timer belongs to a generator; the timer in the
      handling slot is a drain of a handler or, outside the test environment, a
      write of a generator; display mode runs nothing; the test budget never
      exceeds its initial value and moves only under `testLimit`. */
  predicate Valid(c: Control, cfg: Config) {
    && (forall id | id in c.timers :: id < c.nextTimer)
    && SlotFresh(c, c.election) && SlotFresh(c, c.extend) && SlotFresh(c, c.handling)
    && (c.state == Generator ==> c.lock.Some? && !Armed(c, c.election))
    && (Armed(c, c.election) ==> c.timers[c.election.value] == ElectionCheck)
    && (Armed(c, c.extend) ==> c.state == Generator && c.timers[c.extend.value].ExtendLock?)
    && (Armed(c, c.handling) ==>
          (c.timers[c.handling.value] == HandleTick && c.state == Handler)
          || (c.timers[c.handling.value] == GenerateTick && c.state == Generator && !cfg.testEnv))
    && (c.state == DisplayErrors ==> c.timers == map[] && c.inFlight == multiset{})
    && c.limit <= InitialLimit
    && (!cfg.isLimit ==> c.limit == InitialLimit)
  }

  lemma InitValid(displayErrorsMode: bool, cfg: Config)
    ensures Valid(Init(displayErrorsMode), cfg)
    ensures !IsRunning(Init(false).state) && Init(false).state != Generator
  {
  }

  /** _setupGenerator up to the generation loop: generator with the lock, the
      election and drain timers disarmed, the extend timer armed for the lock
      under a fresh id. */
  lemma SetupGeneratorShape(c: Control, cfg: Config, l: Lock)
    requires forall id | id in c.timers :: id < c.nextTimer
    requires SlotFresh(c, c.election) && SlotFresh(c, c.handling)
    ensures var c1 := c.(state := Generator, lock := Some(l));
            var c2 := Cancel(c1, c1.election);
            var d := ExtendGeneratorLock(Cancel(c2, c2.handling), l);
            && (forall id | id in d.timers :: id < d.nextTimer)
            && d.nextTimer == c.nextTimer + 1 && d.limit == c.limit
            && d.inFlight == c.inFlight && d.releases == c.releases
            && d.state == Generator && d.lock == Some(l)
            && d.election == c.election && d.handling == c.handling && d.extend == Some(c.nextTimer)
            && !Armed(d, d.election) && !Armed(d, d.handling) && ArmedWith(d, d.extend, ExtendLock(l))
            && SetupGenerator(c, cfg, l) == GenerateMessagesLoop(d, cfg)
  {
    var c1 := c.(state := Generator, lock := Some(l));
    var c2 := Cancel(c1, c1.election);
    var c3 := Cancel(c2, c2.handling);
    assert ExtendGeneratorLock(c3, l) == Arm(c3, ExtendLock(l)).(extend := Some(c.nextTimer));
  }

  lemma SetupGeneratorValid(c: Control, cfg: Config, l: Lock)
    requires Valid(c, cfg) && c.state != DisplayErrors
    ensures Valid(SetupGenerator(c, cfg, l), cfg)
  {
    SetupGeneratorShape(c, cfg, l);
    var c1 := c.(state := Generator, lock := Some(l));
    var c2 := Cancel(c1, c1.election);
    var d := ExtendGeneratorLock(Cancel(c2, c2.handling), l);
    assert Valid(d, cfg);
    GenerateMessagesLoopValid(d, cfg);
  }

  /** _setupHandler arms a drain under a fresh id, disarms the extend timer and
      leaves the election timer as it was. */
  lemma SetupHandlerShape(c: Control)
    requires forall id | id in c.timers :: id < c.nextTimer
    requires SlotFresh(c, c.election) && SlotFresh(c, c.extend)
    ensures var d := SetupHandler(c);
            && (forall id | id in d.timers :: id < d.nextTimer)
            && d.nextTimer == c.nextTimer + 1 && d.limit == c.limit && d.state == Handler
            && d.election == c.election && d.extend == c.extend && d.handling == Some(c.nextTimer)
            && ArmedWith(d, d.handling, HandleTick) && !Armed(d, d.extend)
            && (Armed(d, d.election) ==> ArmedWith(c, c.election, d.timers[d.election.value]))
  {
    var c1 := c.(state := Handler);
    var c2 := Cancel(c1, c1.extend);
    assert SetupHandler(c) == Arm(c2, HandleTick).(handling := Some(c.nextTimer));
  }

  lemma SetupHandlerValid(c: Control, cfg: Config)
    requires Valid(c, cfg) && c.state != DisplayErrors
    ensures Valid(SetupHandler(c), cfg)
  {
    SetupHandlerShape(c);
  }

  lemma GenerateMessagesLoopValid(c: Control, cfg: Config)
    requires Valid(c, cfg)
    ensures Valid(GenerateMessagesLoop(c, cfg), cfg)
  {
  }

  lemma TestGeneratorLockValid(c: Control, cfg: Config)
    requires Valid(c, cfg) && c.state != DisplayErrors
    ensures Valid(TestGeneratorLock(c), cfg)
  {
  }

  /** A state whose three slots hold no pending timer, and which is neither
      generator nor in display mode, is valid once its ids are fresh. */
  lemma QuietValid(c: Control, cfg: Config)
    requires forall id | id in c.timers :: id < c.nextTimer
    requires SlotFresh(c, c.election) && SlotFresh(c, c.extend) && SlotFresh(c, c.handling)
    requires !Armed(c, c.election) && !Armed(c, c.handling) && !Armed(c, c.extend)
    requires c.state == NotRun
    requires c.limit <= InitialLimit && (!cfg.isLimit ==> c.limit == InitialLimit)
    ensures Valid(c, cfg)
  {
  }

  /** stop() leaves no slot armed and touches neither ids nor the budget. */
  lemma StopQuiet(c: Control)
    requires forall id | id in c.timers :: id < c.nextTimer
    ensures var d := StopNode(c);
            && (forall id | id in d.timers :: id < d.nextTimer)
            && d.nextTimer == c.nextTimer && d.limit == c.limit && d.state == NotRun
            && d.election == c.election && d.extend == c.extend && d.handling == c.handling
            && !Armed(d, d.election) && !Armed(d, d.handling) && !Armed(d, d.extend)
  {
  }

  lemma StopValid(c: Control, cfg: Config)
    requires Valid(c, cfg)
    ensures Valid(StopNode(c), cfg)
  {
    StopQuiet(c);
    QuietValid(StopNode(c), cfg);
  }

  /** Removing a pending timer keeps the invariant. */
  lemma RemoveTimerValid(c: Control, cfg: Config, id: TimerId)
    requires Valid(c, cfg)
    ensures Valid(c.(timers := c.timers - {id}), cfg)
  {
    var c1 := c.(timers := c.timers - {id});
    assert forall k | k in c1.timers :: k in c.timers && c1.timers[k] == c.timers[k];
  }

  /** A settled call keeps the invariant; a node with a call in flight is not in
      display mode. */
  lemma SettleValid(c: Control, cfg: Config, call: Call)
    requires Valid(c, cfg) && call in c.inFlight
    ensures Valid(Settle(c, call), cfg) && Settle(c, call).state != DisplayErrors
  {
  }

  /** Starting an asynchronous call keeps the invariant outside display mode. */
  lemma IssueValid(c: Control, cfg: Config, call: Call)
    requires Valid(c, cfg) && c.state != DisplayErrors
    ensures Valid(Issue(c, call), cfg)
  {
  }

  lemma FireValid(c: Control, cfg: Config, id: TimerId)
    requires Valid(c, cfg)
    ensures Valid(FireTimer(c, id), cfg)
  {
    if id in c.timers {
      var c1 := c.(timers := c.timers - {id});
      RemoveTimerValid(c, cfg, id);
      var call := match c.timers[id]
        case ElectionCheck => LockAttempt
        case ExtendLock(_) => ExtendAttempt
        case HandleTick => Drain
        case GenerateTick => Generation;
      assert FireTimer(c, id) == Issue(c1, call);
      IssueValid(c1, cfg, call);
    }
  }

  lemma ExtendOkValid(c: Control, cfg: Config, l: Lock)
    requires Valid(c, cfg) && ExtendAttempt in c.inFlight
    ensures Valid(ExtendGeneratorLock(Settle(c, ExtendAttempt), l), cfg)
  {
  }

  lemma DrainDoneValid(c: Control, cfg: Config, resolved: bool)
    requires Valid(c, cfg) && Drain in c.inFlight
    ensures var c1 := Settle(c, Drain);
            Valid(if resolved then HandleMessages(c1) else c1, cfg)
  {
  }

  lemma LockFailedValid(c: Control, cfg: Config)
    requires Valid(c, cfg) && LockAttempt in c.inFlight
    ensures var c1 := Settle(c, LockAttempt);
            Valid(TestGeneratorLock(if !IsRunning(c1.state) then SetupHandler(c1) else c1), cfg)
  {
    var c1 := Settle(c, LockAttempt);
    SettleValid(c, cfg, LockAttempt);
    if !IsRunning(c1.state) {
      var c2 := SetupHandler(c1);
      SetupHandlerValid(c1, cfg);
      assert c2.state == Handler;
      TestGeneratorLockValid(c2, cfg);
    } else {
      TestGeneratorLockValid(c1, cfg);
    }
  }

  // Each event keeps the invariant, one lemma per event.

  lemma StartStepValid(c: Control, cfg: Config)
    requires Valid(c, cfg)
    ensures Valid(Step(c, cfg, Start), cfg)
  {
    if c.state != DisplayErrors {
      TestGeneratorLockValid(c, cfg);
    }
  }

  lemma StopStepValid(c: Control, cfg: Config)
    requires Valid(c, cfg)
    ensures Valid(Step(c, cfg, Stop), cfg)
  {
    assert Step(c, cfg, Stop) == StopNode(c);
    StopValid(c, cfg);
  }

  lemma FireStepValid(c: Control, cfg: Config, id: TimerId)
    requires Valid(c, cfg)
    ensures Valid(Step(c, cfg, Fire(id)), cfg)
  {
    assert Step(c, cfg, Fire(id)) == FireTimer(c, id);
    FireValid(c, cfg, id);
  }

  lemma LockAcquiredStepValid(c: Control, cfg: Config, l: Lock)
    requires Valid(c, cfg)
    ensures Valid(Step(c, cfg, LockAcquired(l)), cfg)
  {
    if LockAttempt in c.inFlight {
      assert Step(c, cfg, LockAcquired(l)) == SetupGenerator(Settle(c, LockAttempt), cfg, l);
      SettleValid(c, cfg, LockAttempt);
      SetupGeneratorValid(Settle(c, LockAttempt), cfg, l);
    }
  }

  lemma LockFailedStepValid(c: Control, cfg: Config)
    requires Valid(c, cfg)
    ensures Valid(Step(c, cfg, LockFailed), cfg)
  {
    if LockAttempt in c.inFlight {
      LockFailedValid(c, cfg);
    }
  }

  lemma ExtendOkStepValid(c: Control, cfg: Config, l: Lock)
    requires Valid(c, cfg)
    ensures Valid(Step(c, cfg, ExtendOk(l)), cfg)
  {
    if ExtendAttempt in c.inFlight {
      ExtendOkValid(c, cfg, l);
    }
  }

  lemma ExtendFailedStepValid(c: Control, cfg: Config)
    requires Valid(c, cfg)
    ensures Valid(Step(c, cfg, ExtendFailed), cfg)
  {
    if ExtendAttempt in c.inFlight {
      assert Step(c, cfg, ExtendFailed) == SetupHandler(Settle(c, ExtendAttempt));
      SettleValid(c, cfg, ExtendAttempt);
      SetupHandlerValid(Settle(c, ExtendAttempt), cfg);
    }
  }

  lemma DrainDoneStepValid(c: Control, cfg: Config, resolved: bool)
    requires Valid(c, cfg)
    ensures Valid(Step(c, cfg, DrainDone(resolved)), cfg)
  {
    if Drain in c.inFlight {
      DrainDoneValid(c, cfg, resolved);
    }
  }

  lemma GenerationDoneStepValid(c: Control, cfg: Config, counted: bool)
    requires Valid(c, cfg)
    ensures Valid(Step(c, cfg, GenerationDone(counted)), cfg)
  {
    if Generation in c.inFlight {
      var c1 := Settle(c, Generation);
      assert Step(c, cfg, GenerationDone(counted)) == if counted then GenerateMessagesLoop(c1, cfg) else c1;
      SettleValid(c, cfg, Generation);
      GenerateMessagesLoopValid(c1, cfg);
    }
  }

  /** Every event keeps the invariant. */
  lemma StepValid(c: Control, cfg: Config, e: Event)
    requires Valid(c, cfg)
    ensures Valid(Step(c, cfg, e), cfg)
  {
    match e
    case Start => StartStepValid(c, cfg);
    case Stop => StopStepValid(c, cfg);
    case Fire(id) => FireStepValid(c, cfg, id);
    case LockAcquired(l) => LockAcquiredStepValid(c, cfg, l);
    case LockFailed => LockFailedStepValid(c, cfg);
    case ExtendOk(l) => ExtendOkStepValid(c, cfg, l);
    case ExtendFailed => ExtendFailedStepValid(c, cfg);
    case DrainDone(resolved) => DrainDoneStepValid(c, cfg, resolved);
    case GenerationDone(counted) => GenerationDoneStepValid(c, cfg, counted);
  }

  /** Every state reachable from construction satisfies the invariant. */
  lemma {:induction false} RunValid(c: Control, cfg: Config, events: seq<Event>)
    requires Valid(c, cfg)
    ensures Valid(Run(c, cfg, events), cfg)
    decreases |events|
  {
    if events != [] {
      StepValid(c, cfg, events[0]);
      RunValid(Step(c, cfg, events[0]), cfg, events[1..]);
    }
  }

  // ---------------------------------------------------------------- what each event does

  /** stop(): NOT_RUN and all three slots cleared; the lock is handed to release
      only when the node was generator, so a second stop releases nothing; calls
      already in flight are not cancelled. */
  lemma StopEffect(c: Control)
    ensures var s := StopNode(c);
            s.state == NotRun
            && !Armed(s, c.election) && !Armed(s, c.handling) && !Armed(s, c.extend)
            && s.releases == c.releases + (if c.state == Generator then [c.lock] else [])
            && s.inFlight == c.inFlight
            && StopNode(s).releases == s.releases
  {
  }

  /** _setupGenerator(lock): generator holding `lock`, no election or drain timer,
      the extend timer armed for `lock`, and one pass of the generation loop. */
  lemma SetupGeneratorEffect(c: Control, cfg: Config, l: Lock)
    requires Valid(c, cfg)
    ensures var s := SetupGenerator(c, cfg, l);
            s.state == Generator && s.lock == Some(l)
            && !Armed(s, s.election)
            && ArmedWith(s, s.extend, ExtendLock(l))
            && !ArmedWith(s, s.handling, HandleTick)
            && s.releases == c.releases
            && (cfg.isLimit && c.limit == 0 ==> !Armed(s, s.handling) && s.inFlight == c.inFlight)
            && (!(cfg.isLimit && c.limit == 0) ==>
                  s.limit == (if cfg.isLimit then c.limit - 1 else c.limit)
                  && (cfg.testEnv ==> s.inFlight == c.inFlight + multiset{Generation})
                  && (!cfg.testEnv ==> ArmedWith(s, s.handling, GenerateTick)))
            && (cfg.isLimit && c.limit == 0 ==> s.limit == c.limit)
  {
    SetupGeneratorShape(c, cfg, l);
  }

  /** A won election: generator, holding the new lock, no election timer, the
      extend timer armed for that lock, no drain timer, and the generation loop
      started unless the test budget is spent. */
  lemma LockAcquiredEffect(c: Control, cfg: Config, l: Lock)
    requires Valid(c, cfg) && LockAttempt in c.inFlight
    ensures var s := Step(c, cfg, LockAcquired(l));
            s.state == Generator && s.lock == Some(l)
            && !Armed(s, s.election)
            && ArmedWith(s, s.extend, ExtendLock(l))
            && !ArmedWith(s, s.handling, HandleTick)
            && (cfg.isLimit && c.limit == 0 ==> !Armed(s, s.handling) && s.inFlight == c.inFlight - multiset{LockAttempt})
            && (!(cfg.isLimit && c.limit == 0) ==>
                  (cfg.testEnv ==> s.inFlight == c.inFlight - multiset{LockAttempt} + multiset{Generation})
                  && (!cfg.testEnv ==> ArmedWith(s, s.handling, GenerateTick)))
  {
    var c0 := Settle(c, LockAttempt);
    assert Valid(c0, cfg);
    SetupGeneratorEffect(c0, cfg, l);
  }

  /** A lost election: a node that is not running yet becomes handler (and starts
      draining); a running node keeps its role; the election timer is armed again
      unless the node is generator. */
  lemma LockFailedEffect(c: Control, cfg: Config)
    requires Valid(c, cfg) && LockAttempt in c.inFlight
    ensures var s := Step(c, cfg, LockFailed);
            s.state == (if IsRunning(c.state) then c.state else Handler)
            && (s.state != Generator ==> ArmedWith(s, s.election, ElectionCheck))
            && (s.state == Generator ==> !Armed(s, s.election))
            && (!IsRunning(c.state) ==> ArmedWith(s, s.handling, HandleTick))
  {
  }

  /** A failed extension: handler, extend slot cleared, drain timer armed, and the
      election slot left exactly as it was: the node does not compete again. */
  lemma ExtendFailedEffect(c: Control, cfg: Config)
    requires Valid(c, cfg) && ExtendAttempt in c.inFlight
    ensures var s := Step(c, cfg, ExtendFailed);
            s.state == Handler
            && !Armed(s, s.extend)
            && ArmedWith(s, s.handling, HandleTick)
            && s.election == c.election
            && (Armed(s, s.election) <==> Armed(c, c.election))
            && s.inFlight[LockAttempt] == c.inFlight[LockAttempt]
  {
    var c1 := Settle(c, ExtendAttempt).(state := Handler);
    var c2 := Cancel(c1, c1.extend);
    assert c.extend.Some? && Armed(c, c.election) ==> c.extend.value != c.election.value;
  }

  /** A generator whose extension fails while it has no lock attempt pending ends
      up as a handler whose election slot holds no pending timer and with no lock
      attempt in flight. */
  lemma DemotedGeneratorStopsCompeting(c: Control, cfg: Config)
    requires Valid(c, cfg) && c.state == Generator
    requires ExtendAttempt in c.inFlight && LockAttempt !in c.inFlight
    ensures var s := Step(c, cfg, ExtendFailed);
            s.state == Handler && !Armed(s, s.election) && LockAttempt !in s.inFlight
  {
    ExtendFailedEffect(c, cfg);
  }

  /** The node takes no part in the election: no pending timer runs it and no lock
      attempt is in flight. */
  predicate OutOfElection(c: Control) {
    LockAttempt !in c.inFlight && forall id | id in c.timers :: c.timers[id] != ElectionCheck
  }

  /** Arming a timer that is not an election keeps the node out of the election. */
  lemma ArmOutOfElection(c: Control, cb: Callback)
    requires OutOfElection(c) && cb != ElectionCheck
    ensures OutOfElection(Arm(c, cb))
  {
  }

  lemma SettleOutOfElection(c: Control, call: Call)
    requires OutOfElection(c)
    ensures OutOfElection(Settle(c, call)) && Settle(c, call).state == c.state
  {
  }

  lemma CancelOutOfElection(c: Control, slot: Option<TimerId>)
    requires OutOfElection(c)
    ensures OutOfElection(Cancel(c, slot)) && Cancel(c, slot).state == c.state
  {
  }

  lemma HandleMessagesOutOfElection(c: Control)
    requires OutOfElection(c)
    ensures OutOfElection(HandleMessages(c)) && HandleMessages(c).state == c.state
  {
    if IsRunning(c.state) && c.state != Generator {
      ArmOutOfElection(c, HandleTick);
    }
  }

  lemma SetupHandlerOutOfElection(c: Control)
    requires OutOfElection(c)
    ensures OutOfElection(SetupHandler(c)) && SetupHandler(c).state == Handler
  {
    var c1 := c.(state := Handler);
    CancelOutOfElection(c1, c1.extend);
    HandleMessagesOutOfElection(Cancel(c1, c1.extend));
  }

  lemma ExtendGeneratorLockOutOfElection(c: Control, l: Lock)
    requires OutOfElection(c)
    ensures OutOfElection(ExtendGeneratorLock(c, l)) && ExtendGeneratorLock(c, l).state == c.state
  {
    if IsRunning(c.state) && c.state == Generator {
      ArmOutOfElection(c, ExtendLock(l));
    }
  }

  lemma GenerateMessagesLoopOutOfElection(c: Control, cfg: Config)
    requires OutOfElection(c)
    ensures OutOfElection(GenerateMessagesLoop(c, cfg)) && GenerateMessagesLoop(c, cfg).state == c.state
  {
    if IsRunning(c.state) && c.state == Generator && !(cfg.isLimit && c.limit == 0) {
      var c1 := if cfg.isLimit then c.(limit := c.limit - 1) else c;
      assert OutOfElection(c1);
      if !cfg.testEnv {
        ArmOutOfElection(c1, GenerateTick);
      }
    }
  }

  lemma StopNodeOutOfElection(c: Control)
    requires OutOfElection(c)
    ensures OutOfElection(StopNode(c)) && StopNode(c).state == NotRun
  {
    var c1 := if c.state == Generator then c.(releases := c.releases + [c.lock]) else c;
    var c2 := c1.(state := NotRun);
    assert OutOfElection(c2);
    CancelOutOfElection(c2, c2.election);
    var c3 := Cancel(c2, c2.election);
    CancelOutOfElection(c3, c3.handling);
    var c4 := Cancel(c3, c3.handling);
    CancelOutOfElection(c4, c4.extend);
  }

  lemma FireTimerOutOfElection(c: Control, id: TimerId)
    requires OutOfElection(c)
    ensures OutOfElection(FireTimer(c, id)) && FireTimer(c, id).state == c.state
  {
    if id in c.timers {
      assert c.timers[id] != ElectionCheck;
    }
  }

  /** Only start() brings a node that is out of the election back into it, and only
      a won election makes it generator. */
  lemma OutOfElectionStep(c: Control, cfg: Config, e: Event)
    requires OutOfElection(c) && !e.Start?
    ensures OutOfElection(Step(c, cfg, e))
    ensures c.state != Generator ==> Step(c, cfg, e).state != Generator
  {
    match e
    case Stop =>
      assert Step(c, cfg, e) == StopNode(c);
      StopNodeOutOfElection(c);
    case Fire(id) =>
      assert Step(c, cfg, e) == FireTimer(c, id);
      FireTimerOutOfElection(c, id);
    case LockAcquired(_) =>
      assert Step(c, cfg, e) == c;
    case LockFailed =>
      assert Step(c, cfg, e) == c;
    case ExtendOk(l) =>
      if ExtendAttempt in c.inFlight {
        assert Step(c, cfg, e) == ExtendGeneratorLock(Settle(c, ExtendAttempt), l);
        SettleOutOfElection(c, ExtendAttempt);
        ExtendGeneratorLockOutOfElection(Settle(c, ExtendAttempt), l);
      }
    case ExtendFailed =>
      if ExtendAttempt in c.inFlight {
        assert Step(c, cfg, e) == SetupHandler(Settle(c, ExtendAttempt));
        SettleOutOfElection(c, ExtendAttempt);
        SetupHandlerOutOfElection(Settle(c, ExtendAttempt));
      }
    case DrainDone(resolved) =>
      if Drain in c.inFlight {
        var c1 := Settle(c, Drain);
        assert Step(c, cfg, e) == if resolved then HandleMessages(c1) else c1;
        SettleOutOfElection(c, Drain);
        HandleMessagesOutOfElection(c1);
      }
    case GenerationDone(counted) =>
      if Generation in c.inFlight {
        var c1 := Settle(c, Generation);
        assert Step(c, cfg, e) == if counted then GenerateMessagesLoop(c1, cfg) else c1;
        SettleOutOfElection(c, Generation);
        GenerateMessagesLoopOutOfElection(c1, cfg);
      }
  }

  /** A node out of the election stays out of it, and does not become generator,
      over any run without start(). */
  lemma {:induction false} OutOfElectionRun(c: Control, cfg: Config, events: seq<Event>)
    requires OutOfElection(c)
    requires forall i | 0 <= i < |events| :: !events[i].Start?
    ensures OutOfElection(Run(c, cfg, events))
    ensures c.state != Generator ==> Run(c, cfg, events).state != Generator
    decreases |events|
  {
    if events != [] {
      OutOfElectionStep(c, cfg, events[0]);
      OutOfElectionRun(Step(c, cfg, events[0]), cfg, events[1..]);
    }
  }

  /** A generator out of the election that fails to extend its lease becomes a
      handler that stays out of it until start() is called again. */
  lemma DemotedGeneratorLeavesElection(c: Control, cfg: Config, events: seq<Event>)
    requires c.state == Generator && ExtendAttempt in c.inFlight && OutOfElection(c)
    requires forall i | 0 <= i < |events| :: !events[i].Start?
    ensures var s := Step(c, cfg, ExtendFailed);
            s.state == Handler && OutOfElection(Run(s, cfg, events))
            && Run(s, cfg, events).state != Generator
  {
    var s := Step(c, cfg, ExtendFailed);
    assert s == SetupHandler(Settle(c, ExtendAttempt));
    SettleOutOfElection(c, ExtendAttempt);
    SetupHandlerOutOfElection(Settle(c, ExtendAttempt));
    OutOfElectionRun(s, cfg, events);
  }

  /** A successful extension re-arms the extend timer with the returned lock, and
      only while the node is running and generator. */
  lemma ExtendOkEffect(c: Control, cfg: Config, l: Lock)
    requires ExtendAttempt in c.inFlight
    ensures var s := Step(c, cfg, ExtendOk(l));
            (IsRunning(c.state) && c.state == Generator ==> ArmedWith(s, s.extend, ExtendLock(l)))
            && (!(IsRunning(c.state) && c.state == Generator) ==> s == Settle(c, ExtendAttempt))
  {
  }

  /** The drain loop arms a timer exactly when the node is running and not
      generator. */
  lemma HandleMessagesGuard(c: Control)
    ensures var s := HandleMessages(c);
            (s != c <==> IsRunning(c.state) && c.state != Generator)
            && (s != c ==> ArmedWith(s, s.handling, HandleTick) && s.state == c.state && s.inFlight == c.inFlight)
  {
  }

  /** Whether the generation loop makes a pass. */
  predicate LoopProceeds(c: Control, cfg: Config) {
    IsRunning(c.state) && c.state == Generator && !(cfg.isLimit && c.limit == 0)
  }

  /** The generation loop does nothing unless it may proceed; a pass spends one
      unit of the test budget under `testLimit`, and then writes at once in the test
      environment or arms the generation timer in the handling slot otherwise. */
  lemma GenerateMessagesLoopGuard(c: Control, cfg: Config)
    ensures var s := GenerateMessagesLoop(c, cfg);
            (!LoopProceeds(c, cfg) ==> s == c)
            && (LoopProceeds(c, cfg) ==>
                  s.limit == (if cfg.isLimit then c.limit - 1 else c.limit)
                  && (cfg.testEnv ==> s.inFlight == c.inFlight + multiset{Generation} && s.timers == c.timers)
                  && (!cfg.testEnv ==> ArmedWith(s, s.handling, GenerateTick) && s.inFlight == c.inFlight))
  {
  }

  // ---------------------------------------------------------------- the test budget

  /** The number of generation-loop passes event `e` makes. */
  function Passes(c: Control, cfg: Config, e: Event): nat {
    match e
    case LockAcquired(_) =>
      if LockAttempt in c.inFlight && !(cfg.isLimit && c.limit == 0) then 1 else 0
    case GenerationDone(counted) =>
      if Generation in c.inFlight && counted && LoopProceeds(c, cfg) then 1 else 0
    case _ => 0
  }

  function TotalPasses(c: Control, cfg: Config, events: seq<Event>): nat
    decreases |events|
  {
    if events == [] then 0
    else Passes(c, cfg, events[0]) + TotalPasses(Step(c, cfg, events[0]), cfg, events[1..])
  }

  /** Under `testLimit` every pass spends exactly one unit and nothing else does. */
  lemma LockAcquiredSpendsBudget(c: Control, cfg: Config, l: Lock)
    requires cfg.isLimit && LockAttempt in c.inFlight
    ensures SetupGenerator(Settle(c, LockAttempt), cfg, l).limit
            + (if cfg.isLimit && c.limit == 0 then 0 else 1) == c.limit
  {
    var c0 := Settle(c, LockAttempt);
    var c1 := c0.(state := Generator, lock := Some(l));
    var c2 := Cancel(c1, c1.election);
    var c3 := Cancel(c2, c2.handling);
    var c4 := ExtendGeneratorLock(c3, l);
    assert c4.limit == c.limit && c4.state == Generator;
  }

  /** A lost election leaves the budget as it was. */
  lemma LockFailedKeepsBudget(c: Control, cfg: Config)
    ensures Step(c, cfg, LockFailed).limit == c.limit
  {
    if LockAttempt in c.inFlight {
      var c1 := Settle(c, LockAttempt);
      var c2 := if !IsRunning(c1.state) then SetupHandler(c1) else c1;
      assert Step(c, cfg, LockFailed) == TestGeneratorLock(c2);
      assert c2.limit == c.limit;
    }
  }

  /** A settled write spends one unit exactly when it starts another pass. */
  lemma GenerationDoneSpendsBudget(c: Control, cfg: Config, counted: bool)
    requires cfg.isLimit
    ensures Step(c, cfg, GenerationDone(counted)).limit + Passes(c, cfg, GenerationDone(counted)) == c.limit
  {
    if Generation in c.inFlight {
      var c1 := Settle(c, Generation);
      assert Step(c, cfg, GenerationDone(counted)) == if counted then GenerateMessagesLoop(c1, cfg) else c1;
    }
  }

  /** Events other than a won election and a settled write leave the budget as it
      was. */
  lemma EventKeepsBudget(c: Control, cfg: Config, e: Event)
    requires !e.LockAcquired? && !e.GenerationDone? && !e.LockFailed?
    ensures Step(c, cfg, e).limit == c.limit
  {
    match e
    case Start =>
    case Stop =>
    case Fire(id) =>
    case ExtendOk(l) =>
    case ExtendFailed =>
    case DrainDone(resolved) =>
  }

  lemma StepSpendsBudget(c: Control, cfg: Config, e: Event)
    requires cfg.isLimit
    ensures Step(c, cfg, e).limit + Passes(c, cfg, e) == c.limit
  {
    match e
    case LockAcquired(l) =>
      if LockAttempt in c.inFlight {
        assert Step(c, cfg, e) == SetupGenerator(Settle(c, LockAttempt), cfg, l);
        LockAcquiredSpendsBudget(c, cfg, l);
      }
    case GenerationDone(counted) =>
      GenerationDoneSpendsBudget(c, cfg, counted);
    case LockFailed =>
      LockFailedKeepsBudget(c, cfg);
    case _ =>
      EventKeepsBudget(c, cfg, e);
  }

  /** Under `testLimit` a node makes at most 1000000 generation passes over any run
      from its construction. */
  lemma {:induction false} RunSpendsBudget(c: Control, cfg: Config, events: seq<Event>)
    requires cfg.isLimit
    ensures Run(c, cfg, events).limit + TotalPasses(c, cfg, events) == c.limit
    decreases |events|
  {
    if events != [] {
      StepSpendsBudget(c, cfg, events[0]);
      RunSpendsBudget(Step(c, cfg, events[0]), cfg, events[1..]);
    }
  }

  lemma GenerationBudget(displayErrorsMode: bool, cfg: Config, events: seq<Event>)
    requires cfg.isLimit
    ensures TotalPasses(Init(displayErrorsMode), cfg, events) <= InitialLimit
  {
    RunSpendsBudget(Init(displayErrorsMode), cfg, events);
  }

  // ---------------------------------------------------------------- races the source leaves open

  /** stop() does not cancel a lock attempt in flight: when it settles afterwards
      the stopped node comes back as generator (won) or as handler (lost). */
  lemma StopThenLockSettles(c: Control, cfg: Config, l: Lock)
    requires Valid(c, cfg) && LockAttempt in c.inFlight
    ensures var s := StopNode(c);
            LockAttempt in s.inFlight
            && Step(s, cfg, LockAcquired(l)).state == Generator
            && Step(s, cfg, LockFailed).state == Handler
  {
    var s := StopNode(c);
    StopEffect(c);
    WonElectionMakesGenerator(s, cfg, l);
    LostElectionWhenStopped(s, cfg);
  }

  /** stop() does not cancel a lease extension in flight either. When it fails,
      the stopped node comes back as a running handler with its drain timer
      armed. */
  lemma StopThenExtendFails(c: Control, cfg: Config)
    requires Valid(c, cfg) && ExtendAttempt in c.inFlight
    ensures var s := StopNode(c);
            var t := Step(s, cfg, ExtendFailed);
            ExtendAttempt in s.inFlight
            && t.state == Handler && IsRunning(t.state)
            && ArmedWith(t, t.handling, HandleTick)
  {
    var s := StopNode(c);
    StopEffect(c);
    StopValid(c, cfg);
    ExtendFailedEffect(s, cfg);
  }

  /** Running two lists of events one after the other is running their
      concatenation. */
  lemma {:induction false} RunAppend(c: Control, cfg: Config, xs: seq<Event>, ys: seq<Event>)
    ensures Run(c, cfg, xs + ys) == Run(Run(c, cfg, xs), cfg, ys)
    decreases |xs|
  {
    if xs == [] {
      assert xs + ys == ys;
    } else {
      assert (xs + ys)[0] == xs[0] && (xs + ys)[1..] == xs[1..] + ys;
      RunAppend(Step(c, cfg, xs[0]), cfg, xs[1..], ys);
    }
  }

  /** A lock attempt that survived stop() also revives a demoted node: the node
      starts, tries the lock, is stopped and started again, wins with the second
      attempt and is demoted. No election timer is then pending, yet the first
      attempt is still in flight and its success makes the node generator. */
  lemma StrayLockRevivesDemotedNode()
    ensures var cfg := Config(false, false);
            var s := Run(Init(false), cfg, [Start, Fire(0), Stop, Start, Fire(1), LockAcquired(Lock(7)), Fire(2), ExtendFailed]);
            && s.state == Handler
            && (forall id | id in s.timers :: s.timers[id] != ElectionCheck)
            && LockAttempt in s.inFlight
            && Step(s, cfg, LockAcquired(Lock(8))).state == Generator
  {
    var cfg := Config(false, false);
    var xs := [Start, Fire(0), Stop, Start, Fire(1)];
    var ys := [LockAcquired(Lock(7)), Fire(2), ExtendFailed];
    assert xs + ys == [Start, Fire(0), Stop, Start, Fire(1), LockAcquired(Lock(7)), Fire(2), ExtendFailed];
    RunAppend(Init(false), cfg, xs, ys);
    StrayRestart();
    StrayDemoted();
    var s := Control(Handler, Some(Lock(7)), InitialLimit, Some(1), Some(2), Some(4),
                     map[3 := GenerateTick, 4 := HandleTick], 5, multiset{LockAttempt}, []);
    WonElectionMakesGenerator(s, cfg, Lock(8));
  }

  /** The first part of StrayLockRevivesDemotedNode: started, lock tried, stopped,
      started again and the lock tried again; both attempts are in flight. */
  lemma StrayRestart()
    ensures Run(Init(false), Config(false, false), [Start, Fire(0), Stop, Start, Fire(1)])
            == Control(NotRun, None, InitialLimit, Some(1), None, None, map[], 2, multiset{LockAttempt, LockAttempt}, [])
  {
    var cfg := Config(false, false);
    var c0 := Init(false);
    var c1 := Step(c0, cfg, Start);
    assert c1 == Control(NotRun, None, InitialLimit, Some(0), None, None, map[0 := ElectionCheck], 1, multiset{}, []);
    var c2 := Step(c1, cfg, Fire(0));
    assert c2 == Control(NotRun, None, InitialLimit, Some(0), None, None, map[], 1, multiset{LockAttempt}, []);
    var c3 := Step(c2, cfg, Stop);
    assert c3 == c2;
    var c4 := Step(c3, cfg, Start);
    assert c4 == Control(NotRun, None, InitialLimit, Some(1), None, None, map[1 := ElectionCheck], 2, multiset{LockAttempt}, []);
    var c5 := Step(c4, cfg, Fire(1));
    assert c5 == Control(NotRun, None, InitialLimit, Some(1), None, None, map[], 2, multiset{LockAttempt, LockAttempt}, []);
    RunCons(c0, cfg, Start, [Fire(0), Stop, Start, Fire(1)]);
    RunCons(c1, cfg, Fire(0), [Stop, Start, Fire(1)]);
    RunCons(c2, cfg, Stop, [Start, Fire(1)]);
    RunCons(c3, cfg, Start, [Fire(1)]);
    RunCons(c4, cfg, Fire(1), []);
  }

  /** The second part: the second attempt wins, the extension fails. */
  lemma StrayDemoted()
    ensures Run(Control(NotRun, None, InitialLimit, Some(1), None, None, map[], 2, multiset{LockAttempt, LockAttempt}, []),
                Config(false, false), [LockAcquired(Lock(7)), Fire(2), ExtendFailed])
            == Control(Handler, Some(Lock(7)), InitialLimit, Some(1), Some(2), Some(4),
                       map[3 := GenerateTick, 4 := HandleTick], 5, multiset{LockAttempt}, [])
  {
    var cfg := Config(false, false);
    var c5 := Control(NotRun, None, InitialLimit, Some(1), None, None, map[], 2, multiset{LockAttempt, LockAttempt}, []);
    var c6 := Control(Generator, Some(Lock(7)), InitialLimit, Some(1), Some(2), Some(3),
                      map[2 := ExtendLock(Lock(7)), 3 := GenerateTick], 4, multiset{LockAttempt}, []);
    var c7 := Control(Generator, Some(Lock(7)), InitialLimit, Some(1), Some(2), Some(3),
                      map[3 := GenerateTick], 4, multiset{LockAttempt, ExtendAttempt}, []);
    StrayWin();
    StrayExtendFires();
    StrayDemotion();
    RunCons(c5, cfg, LockAcquired(Lock(7)), [Fire(2), ExtendFailed]);
    RunCons(c6, cfg, Fire(2), [ExtendFailed]);
    RunCons(c7, cfg, ExtendFailed, []);
  }

  /** The extend timer of StrayLockRevivesDemotedNode fires. */
  lemma StrayExtendFires()
    ensures Step(Control(Generator, Some(Lock(7)), InitialLimit, Some(1), Some(2), Some(3),
                         map[2 := ExtendLock(Lock(7)), 3 := GenerateTick], 4, multiset{LockAttempt}, []),
                 Config(false, false), Fire(2))
            == Control(Generator, Some(Lock(7)), InitialLimit, Some(1), Some(2), Some(3),
                       map[3 := GenerateTick], 4, multiset{LockAttempt, ExtendAttempt}, [])
  {
    var c6 := Control(Generator, Some(Lock(7)), InitialLimit, Some(1), Some(2), Some(3),
                      map[2 := ExtendLock(Lock(7)), 3 := GenerateTick], 4, multiset{LockAttempt}, []);
    assert c6.timers - {2} == map[3 := GenerateTick];
    assert c6.inFlight + multiset{ExtendAttempt} == multiset{LockAttempt, ExtendAttempt};
  }

  /** Running the events of `es` after `e` is running `[e] + es`. */
  lemma RunCons(c: Control, cfg: Config, e: Event, es: seq<Event>)
    ensures Run(c, cfg, [e] + es) == Run(Step(c, cfg, e), cfg, es)
  {
    assert ([e] + es)[0] == e && ([e] + es)[1..] == es;
  }

  /** The won election of StrayLockRevivesDemotedNode. */
  lemma StrayWin()
    ensures Step(Control(NotRun, None, InitialLimit, Some(1), None, None, map[], 2, multiset{LockAttempt, LockAttempt}, []),
                 Config(false, false), LockAcquired(Lock(7)))
            == Control(Generator, Some(Lock(7)), InitialLimit, Some(1), Some(2), Some(3),
                       map[2 := ExtendLock(Lock(7)), 3 := GenerateTick], 4, multiset{LockAttempt}, [])
  {
    var c := Control(NotRun, None, InitialLimit, Some(1), None, None, map[], 2, multiset{LockAttempt, LockAttempt}, []);
    var c1 := Settle(c, LockAttempt);
    assert c1.inFlight == multiset{LockAttempt};
    var c2 := c1.(state := Generator, lock := Some(Lock(7)));
    assert Cancel(Cancel(c2, c2.election), c2.handling) == c2;
    var c3 := ExtendGeneratorLock(c2, Lock(7));
    assert c3.timers == map[2 := ExtendLock(Lock(7))] && c3.nextTimer == 3 && c3.extend == Some(2);
    var c4 := GenerateMessagesLoop(c3, Config(false, false));
    assert c4.timers == map[2 := ExtendLock(Lock(7)), 3 := GenerateTick];
  }

  /** The demotion of StrayLockRevivesDemotedNode. */
  lemma StrayDemotion()
    ensures Step(Control(Generator, Some(Lock(7)), InitialLimit, Some(1), Some(2), Some(3),
                         map[3 := GenerateTick], 4, multiset{LockAttempt, ExtendAttempt}, []),
                 Config(false, false), ExtendFailed)
            == Control(Handler, Some(Lock(7)), InitialLimit, Some(1), Some(2), Some(4),
                       map[3 := GenerateTick, 4 := HandleTick], 5, multiset{LockAttempt}, [])
  {
    var c := Control(Generator, Some(Lock(7)), InitialLimit, Some(1), Some(2), Some(3),
                     map[3 := GenerateTick], 4, multiset{LockAttempt, ExtendAttempt}, []);
    var c1 := Settle(c, ExtendAttempt);
    assert c1.inFlight == multiset{LockAttempt};
    var c2 := c1.(state := Handler);
    assert Cancel(c2, c2.extend).timers == map[3 := GenerateTick];
  }

  /** A won election makes the node generator, whatever its state. */
  lemma WonElectionMakesGenerator(c: Control, cfg: Config, l: Lock)
    requires LockAttempt in c.inFlight
    ensures Step(c, cfg, LockAcquired(l)).state == Generator
  {
    assert Step(c, cfg, LockAcquired(l)) == SetupGenerator(Settle(c, LockAttempt), cfg, l);
  }

  /** A lost election makes a stopped node handler. */
  lemma LostElectionWhenStopped(c: Control, cfg: Config)
    requires LockAttempt in c.inFlight && c.state == NotRun
    ensures Step(c, cfg, LockFailed).state == Handler
  {
    var c1 := Settle(c, LockAttempt);
    assert Step(c, cfg, LockFailed) == TestGeneratorLock(SetupHandler(c1));
  }

  /** Outside the test environment the generation timer lives in the handling slot;
      when the extension fails, the drain timer takes the slot and the generation
      timer is left pending with no slot, so a later stop() cannot clear it and the
      stopped node still writes a message when it fires. */
  lemma OrphanedGenerationTimer(c: Control, cfg: Config)
    requires Valid(c, cfg) && !cfg.testEnv && c.state == Generator
    requires ArmedWith(c, c.handling, GenerateTick) && ExtendAttempt in c.inFlight
    ensures var g := c.handling.value;
            var s := StopNode(Step(c, cfg, ExtendFailed));
            s.state == NotRun && g in s.timers && s.timers[g] == GenerateTick
            && Generation in Step(s, cfg, Fire(g)).inFlight
  {
    var g := c.handling.value;
    assert c.extend != Some(g) && c.election != Some(g) && g < c.nextTimer;
    GenerationTimerSurvives(c, cfg, g);
  }

  /** The chain behind OrphanedGenerationTimer, from the facts the invariant gives
      about the generation timer `g`. */
  lemma GenerationTimerSurvives(c: Control, cfg: Config, g: TimerId)
    requires c.handling == Some(g) && g in c.timers && c.timers[g] == GenerateTick && g < c.nextTimer
    requires c.extend != Some(g) && c.election != Some(g) && ExtendAttempt in c.inFlight
    ensures var s := StopNode(Step(c, cfg, ExtendFailed));
            s.state == NotRun && g in s.timers && s.timers[g] == GenerateTick
            && Generation in Step(s, cfg, Fire(g)).inFlight
  {
    DemotionKeepsTimer(c, cfg, g);
    var c1 := Step(c, cfg, ExtendFailed);
    StopKeepsTimer(c1, g);
    FireIssuesWrite(StopNode(c1), cfg, g);
  }

  /** A failed extension moves the handling slot to a fresh drain timer and keeps
      the other pending timers. */
  lemma DemotionKeepsTimer(c: Control, cfg: Config, g: TimerId)
    requires g in c.timers && g < c.nextTimer && c.extend != Some(g) && ExtendAttempt in c.inFlight
    ensures var c1 := Step(c, cfg, ExtendFailed);
            g in c1.timers && c1.timers[g] == c.timers[g]
            && c1.election == c.election && c1.extend == c.extend && c1.handling == Some(c.nextTimer)
  {
    var c0 := Settle(c, ExtendAttempt);
    var h := c0.(state := Handler);
    var c2 := Cancel(h, h.extend);
    assert g in c2.timers && c2.timers[g] == c.timers[g];
    assert Step(c, cfg, ExtendFailed) == Arm(c2, HandleTick).(handling := Some(c.nextTimer));
  }

  /** stop() clears only the timers in the three slots. */
  lemma StopKeepsTimer(c: Control, g: TimerId)
    requires g in c.timers && c.election != Some(g) && c.handling != Some(g) && c.extend != Some(g)
    ensures var s := StopNode(c);
            s.state == NotRun && g in s.timers && s.timers[g] == c.timers[g]
  {
  }

  /** A pending generation timer that fires issues a write. */
  lemma FireIssuesWrite(c: Control, cfg: Config, g: TimerId)
    requires g in c.timers && c.timers[g] == GenerateTick
    ensures Generation in Step(c, cfg, Fire(g)).inFlight
  {
    assert Step(c, cfg, Fire(g)) == GenerateMessage(c.(timers := c.timers - {g}));
  }

  /** start() does not check for a pending election timer: a second start() arms
      another one in the same slot, and the first stays pending through stop(). */
  lemma StartTwiceOrphansElectionTimer(c: Control, cfg: Config)
    requires Valid(c, cfg) && c.state in {NotRun, Handler}
    ensures var s := StopNode(Step(Step(c, cfg, Start), cfg, Start));
            s.state == NotRun && c.nextTimer in s.timers && s.timers[c.nextTimer] == ElectionCheck
  {
    var c1 := Step(c, cfg, Start);
    var c2 := Step(c1, cfg, Start);
    assert c1 == Arm(c, ElectionCheck).(election := Some(c.nextTimer));
    assert c2.election == Some(c.nextTimer + 1) && c2.timers[c.nextTimer] == ElectionCheck;
    assert c2.handling == c.handling && c2.extend == c.extend;
  }
}

/** message-node/messages-handler.js: one drain pass. SCAN pages through the keys
    matching `prefix:messages:*`; every key of a page is claimed (GET and DEL in one
    transaction), a claimed non-empty message is given to the handler, and a handler
    failure is saved as an error record under `prefix:handling_errors:<ms>`. The
    source pages by recursion on the cursor; the method here recurses on the index
    of the SCAN reply in the same way, and is proved equal to the function `Pass`. */
module MessagesHandler {
  import opened Wrappers
  import opened JsStrings
  import opened RedisHelpers
  import opened MessagesStats

  /** `this._matchKey`. */
  function MatchKey(appPrefix: string): string {
    appPrefix + ":messages:*"
  }

  /** The prefix every key the pattern `MatchKey` selects starts with. */
  function MessagesPrefix(appPrefix: string): string {
    appPrefix + ":messages:"
  }

  /** `this.errorsPrefix`. */
  function ErrorsPrefix(appPrefix: string): string {
    appPrefix + ":handling_errors:"
  }

  /** Error records never land in the namespace the pass scans. */
  lemma ErrorKeysAreNotMessages(appPrefix: string, now: nat)
    ensures StartsWith(ErrorKey(ErrorsPrefix(appPrefix), now), ErrorsPrefix(appPrefix))
    ensures !StartsWith(ErrorKey(ErrorsPrefix(appPrefix), now), MessagesPrefix(appPrefix))
  {
    var p := appPrefix + ":";
    var n := NatToString(now);
    var q := "handling_errors:" + n;
    assert ErrorsPrefix(appPrefix) == p + "handling_errors:";
    assert ErrorKey(ErrorsPrefix(appPrefix), now) == (p + "handling_errors:") + n;
    assert (p + "handling_errors:") + n == p + q;
    assert MessagesPrefix(appPrefix) == p + "messages:";
    StartsWithConcat(ErrorsPrefix(appPrefix), NatToString(now));
    DivergentConcat(p, q, "messages:");
  }

  /** What happens to one key of a page, supplied from outside: whether the claim
      fails, the handler's outcome (`None` when it returns), and for a failure the
      two `Date.now()` readings and whether saving the record fails. */
  datatype KeyFate = KeyFate(claimFails: bool, outcome: Option<HandlerError>,
                             stamp: nat, keyNow: nat, writeFails: bool)

  /** The store and the counters of a page while its keys are processed. */
  datatype Progress = Progress(data: map<string, string>, handled: nat, handleErrors: nat)

  /** One key: a failed claim, or a failed save of the error record, skips the key
      (`catch { continue }`); a claimed value that is null or empty is falsy and
      skipped; otherwise exactly one of the two counters moves. */
  function StepKey(p: Progress, errorsPrefix: string, key: string, f: KeyFate): Progress {
    if f.claimFails then p
    else
      var data1 := p.data - {key};
      match Lookup(p.data, key)
      case None => p.(data := data1)
      case Some(message) =>
        if message == [] then p.(data := data1)
        else match f.outcome
          case None => Progress(data1, p.handled + 1, p.handleErrors)
          case Some(err) =>
            if f.writeFails then p.(data := data1)
            else
              var record := ErrorRecord(f.stamp, err.msg, err.stack, message);
              Progress(data1[ErrorKey(errorsPrefix, f.keyNow) := Serialize(record)], p.handled, p.handleErrors + 1)
  }

  /** A claimed message whose handler throws counts as a handle error exactly when
      its error record is saved; when the save fails it counts nowhere. A handler
      that returns counts as handled. */
  lemma HandlerOutcomeCounted(p: Progress, errorsPrefix: string, key: string, f: KeyFate)
    requires !f.claimFails && key in p.data && p.data[key] != []
    ensures var q := StepKey(p, errorsPrefix, key, f);
            && q.handled == p.handled + (if f.outcome.None? then 1 else 0)
            && q.handleErrors == p.handleErrors + (if f.outcome.Some? && !f.writeFails then 1 else 0)
  {
  }

  /** The fates of the keys of page `i`. */
  function PageFate(fate: (nat, nat) -> KeyFate, i: nat): nat -> KeyFate {
    (j: nat) => fate(i, j)
  }

  /** The keys of one page processed in order from `data`. */
  function Page(data: map<string, string>, errorsPrefix: string, keys: seq<string>, fate: nat -> KeyFate): Progress {
    if keys == [] then Progress(data, 0, 0)
    else StepKey(Page(data, errorsPrefix, keys[..|keys| - 1], fate), errorsPrefix, keys[|keys| - 1], fate(|keys| - 1))
  }

  /** How handleMessages settles: with statistics; with `undefined`, when the first
      SCAN fails; or rejected, when a later SCAN fails and the caller one level up
      reads `stat.handled` of `undefined`. */
  datatype PassResult = Stats(stats: PassStats) | NoStats | Failed

  function Add(s: PassStats, t: PassStats): PassStats {
    PassStats(s.scanned + t.scanned, s.handled + t.handled, s.handleErrors + t.handleErrors)
  }

  /** The caller's figures added to what the recursive call settled with. */
  function Combine(s: PassStats, r: PassResult): PassResult {
    match r
    case Stats(t) => Stats(Add(s, t))
    case _ => Failed
  }

  /** handleMessages at recursion depth `i`: reply `i` of SCAN, its page, then the
      next level unless the cursor is "0". */
  function Pass(data: map<string, string>, errorsPrefix: string, replies: seq<ScanReply>,
                fate: (nat, nat) -> KeyFate, i: nat): (map<string, string>, PassResult)
    requires PassEnds(replies, i)
    decreases |replies| - i
  {
    match replies[i]
    case ScanFailed => (data, if i == 0 then NoStats else Failed)
    case Batch(cursor, keys) =>
      var p := Page(data, errorsPrefix, keys, PageFate(fate, i));
      var s := PassStats(|keys|, p.handled, p.handleErrors);
      if cursor == "0" then (p.data, Stats(s))
      else
        PassEndsNext(replies, i);
        var rest := Pass(p.data, errorsPrefix, replies, fate, i + 1);
        (rest.0, Combine(s, rest.1))
  }

  // ---------------------------------------------------------------- counting

  /** Each page moves at most one counter per key. */
  lemma {:induction false} PageCountsBounded(data: map<string, string>, errorsPrefix: string,
                                             keys: seq<string>, fate: nat -> KeyFate)
    ensures var p := Page(data, errorsPrefix, keys, fate);
            p.handled + p.handleErrors <= |keys|
  {
    if keys != [] {
      PageCountsBounded(data, errorsPrefix, keys[..|keys| - 1], fate);
    }
  }

  /** The number of keys SCAN delivered from depth `i` until the pass ends. */
  function ScannedFrom(replies: seq<ScanReply>, i: nat): nat
    requires PassEnds(replies, i)
    decreases |replies| - i
  {
    match replies[i]
    case ScanFailed => 0
    case Batch(cursor, keys) =>
      if cursor == "0" then |keys|
      else
        PassEndsNext(replies, i);
        |keys| + ScannedFrom(replies, i + 1)
  }

  /** A settled pass counts every key SCAN delivered as scanned, whether or not
      its claim returned a value, and handles or records at most that many. */
  lemma {:induction false} PassCounts(data: map<string, string>, errorsPrefix: string, replies: seq<ScanReply>,
                                      fate: (nat, nat) -> KeyFate, i: nat)
    requires PassEnds(replies, i)
    ensures var r := Pass(data, errorsPrefix, replies, fate, i).1;
            r.Stats? ==> (r.stats.scanned == ScannedFrom(replies, i)
                          && r.stats.handled + r.stats.handleErrors <= r.stats.scanned)
    ensures i > 0 ==> !Pass(data, errorsPrefix, replies, fate, i).1.NoStats?
    decreases |replies| - i
  {
    match replies[i]
    case ScanFailed =>
    case Batch(cursor, keys) =>
      var p := Page(data, errorsPrefix, keys, PageFate(fate, i));
      PageCountsBounded(data, errorsPrefix, keys, PageFate(fate, i));
      if cursor != "0" {
        PassEndsNext(replies, i);
        PassCounts(p.data, errorsPrefix, replies, fate, i + 1);
      }
  }

  /** On a page whose keys are distinct and all hold a message, and where no claim
      and no save fails, every key is counted exactly once. */
  lemma {:induction false} PageCountsEveryMessage(data: map<string, string>, errorsPrefix: string,
                                                  keys: seq<string>, fate: nat -> KeyFate, n: nat)
    requires n <= |keys|
    requires forall i, j | 0 <= i < j < |keys| :: keys[i] != keys[j]
    requires forall j | 0 <= j < |keys| :: keys[j] in data && data[keys[j]] != []
    requires forall j | 0 <= j < |keys| :: !fate(j).claimFails && !fate(j).writeFails
    ensures var p := Page(data, errorsPrefix, keys[..n], fate);
            p.handled + p.handleErrors == n
            && forall j | n <= j < |keys| :: keys[j] in p.data && p.data[keys[j]] != []
  {
    if n > 0 {
      PageCountsEveryMessage(data, errorsPrefix, keys, fate, n - 1);
      assert keys[..n][..n - 1] == keys[..n - 1];
      var p := Page(data, errorsPrefix, keys[..n - 1], fate);
      var key := keys[n - 1];
      assert Page(data, errorsPrefix, keys[..n], fate) == StepKey(p, errorsPrefix, key, fate(n - 1));
      forall j | n <= j < |keys|
        ensures keys[j] in StepKey(p, errorsPrefix, key, fate(n - 1)).data
                && StepKey(p, errorsPrefix, key, fate(n - 1)).data[keys[j]] != []
      {
        assert keys[j] != key;
        var f := fate(n - 1);
        if f.outcome.Some? {
          var record := ErrorRecord(f.stamp, f.outcome.value.msg, f.outcome.value.stack, p.data[key]);
          assert Serialize(record)[0] == '{';
        }
      }
    }
  }

  // ---------------------------------------------------------------- what a pass leaves in the store

  /** A page removes only its own keys and adds only error records. */
  lemma {:induction false} PageFrame(data: map<string, string>, errorsPrefix: string,
                                     keys: seq<string>, fate: nat -> KeyFate, k: string)
    requires !StartsWith(k, errorsPrefix)
    ensures k in Page(data, errorsPrefix, keys, fate).data ==> k in data
    ensures k !in keys ==> Lookup(Page(data, errorsPrefix, keys, fate).data, k) == Lookup(data, k)
  {
    if keys != [] {
      PageFrame(data, errorsPrefix, keys[..|keys| - 1], fate, k);
      var f := fate(|keys| - 1);
      StartsWithConcat(errorsPrefix, NatToString(f.keyNow));
      assert k !in keys ==> k !in keys[..|keys| - 1] && k != keys[|keys| - 1];
    }
  }

  /** A key of the page whose claim succeeded is gone at the end of the page,
      unless it is itself an error-record key that a later save rewrote. */
  lemma {:induction false} PageClaims(data: map<string, string>, errorsPrefix: string,
                                      keys: seq<string>, fate: nat -> KeyFate, j: nat)
    requires j < |keys| && !fate(j).claimFails && !StartsWith(keys[j], errorsPrefix)
    ensures keys[j] !in Page(data, errorsPrefix, keys, fate).data
  {
    var init := keys[..|keys| - 1];
    var f := fate(|keys| - 1);
    StartsWithConcat(errorsPrefix, NatToString(f.keyNow));
    if j < |keys| - 1 {
      assert init[j] == keys[j];
      PageClaims(data, errorsPrefix, init, fate, j);
    }
  }

  /** Whether `k` is among the keys SCAN delivered from depth `i` on. */
  predicate InPass(replies: seq<ScanReply>, i: nat, k: string)
    requires PassEnds(replies, i)
    decreases |replies| - i
  {
    match replies[i]
    case ScanFailed => false
    case Batch(cursor, keys) =>
      k in keys || (cursor != "0" && (PassEndsNext(replies, i); InPass(replies, i + 1, k)))
  }

  /** Whether no claim fails from depth `i` on. */
  predicate ClaimsSucceed(replies: seq<ScanReply>, fate: (nat, nat) -> KeyFate, i: nat)
    requires PassEnds(replies, i)
    decreases |replies| - i
  {
    match replies[i]
    case ScanFailed => true
    case Batch(cursor, keys) =>
      (forall j | 0 <= j < |keys| :: !fate(i, j).claimFails)
      && (cursor != "0" ==> (PassEndsNext(replies, i); ClaimsSucceed(replies, fate, i + 1)))
  }

  /** A pass never creates a key outside the error namespace, and every such key
      it delivered and claimed is gone afterwards. */
  lemma {:induction false} PassClaims(data: map<string, string>, errorsPrefix: string, replies: seq<ScanReply>,
                                      fate: (nat, nat) -> KeyFate, i: nat, k: string)
    requires PassEnds(replies, i)
    requires !StartsWith(k, errorsPrefix)
    ensures k in Pass(data, errorsPrefix, replies, fate, i).0 ==> k in data
    ensures InPass(replies, i, k) && ClaimsSucceed(replies, fate, i) ==> k !in Pass(data, errorsPrefix, replies, fate, i).0
    decreases |replies| - i
  {
    match replies[i]
    case ScanFailed =>
    case Batch(cursor, keys) =>
      var fi := PageFate(fate, i);
      var p := Page(data, errorsPrefix, keys, fi);
      PageFrame(data, errorsPrefix, keys, fi, k);
      if k in keys && ClaimsSucceed(replies, fate, i) {
        var j :| 0 <= j < |keys| && keys[j] == k;
        PageClaims(data, errorsPrefix, keys, fi, j);
      }
      if cursor != "0" {
        PassEndsNext(replies, i);
        PassClaims(p.data, errorsPrefix, replies, fate, i + 1, k);
      }
  }

  /** After a pass over a store that nothing else writes, in which SCAN delivered
      every message key and no claim failed, no message key is left. */
  lemma PassDrainsMessages(data: map<string, string>, appPrefix: string, replies: seq<ScanReply>,
                           fate: (nat, nat) -> KeyFate)
    requires PassEnds(replies, 0)
    requires ClaimsSucceed(replies, fate, 0)
    requires forall k | k in data && StartsWith(k, MessagesPrefix(appPrefix)) :: InPass(replies, 0, k)
    ensures forall k | k in Pass(data, ErrorsPrefix(appPrefix), replies, fate, 0).0 ::
              !StartsWith(k, MessagesPrefix(appPrefix))
  {
    var final := Pass(data, ErrorsPrefix(appPrefix), replies, fate, 0).0;
    forall k | k in final ensures !StartsWith(k, MessagesPrefix(appPrefix)) {
      if StartsWith(k, MessagesPrefix(appPrefix)) {
        MessagesAreNotErrorKeys(appPrefix, k);
        PassClaims(data, ErrorsPrefix(appPrefix), replies, fate, 0, k);
      }
    }
  }

  lemma MessagesAreNotErrorKeys(appPrefix: string, k: string)
    requires StartsWith(k, MessagesPrefix(appPrefix))
    ensures !StartsWith(k, ErrorsPrefix(appPrefix))
  {
    assert MessagesPrefix(appPrefix) == appPrefix + ":" + "messages:";
    assert ErrorsPrefix(appPrefix) == appPrefix + ":" + "handling_errors:";
    DivergentPrefixes(k, appPrefix + ":", "messages:", "handling_errors:");
  }

  // ---------------------------------------------------------------- the class

  /** A MessageHandler: the scan pattern and the error-record prefix. */
  class Handler {
    const matchKey: string
    const errorsPrefix: string

    constructor (appPrefix: string)
      ensures matchKey == MatchKey(appPrefix) && errorsPrefix == ErrorsPrefix(appPrefix)
    {
      matchKey := MatchKey(appPrefix);
      errorsPrefix := ErrorsPrefix(appPrefix);
    }

    /** The `for` loop of handleMessages over the keys of one page. */
    method HandlePage(store: Store, keys: seq<string>, fate: nat -> KeyFate)
      returns (handled: nat, handleErrors: nat)
      modifies store
      ensures Progress(store.data, handled, handleErrors) == Page(old(store.data), errorsPrefix, keys, fate)
    {
      handled, handleErrors := 0, 0;
      var j := 0;
      while j < |keys|
        invariant 0 <= j <= |keys|
        invariant Progress(store.data, handled, handleErrors) == Page(old(store.data), errorsPrefix, keys[..j], fate)
      {
        assert keys[..j + 1][..j] == keys[..j];
        var f := fate(j);
        var key := keys[j];
        var claimed := store.GetAndDelete(key, f.claimFails);
        if claimed.Ok? && claimed.value.Some? && claimed.value.value != [] {
          var message := claimed.value.value;
          match f.outcome {
            case None =>
              handled := handled + 1;
            case Some(err) =>
              var saved := store.WriteError(errorsPrefix, err, message, f.stamp, f.keyNow, f.writeFails);
              if saved.Ok? {
                handleErrors := handleErrors + 1;
              }
          }
        }
        j := j + 1;
      }
      assert keys[..|keys|] == keys;
    }

    /** handleMessages(cursor) at recursion depth `i`: `replies` are SCAN's
        answers in order, reply `i` answers this level's SCAN, and `fate` decides
        what happens to key `j` of page `i`. */
    method HandleMessages(store: Store, replies: seq<ScanReply>, fate: (nat, nat) -> KeyFate, i: nat)
      returns (r: PassResult)
      requires PassEnds(replies, i)
      modifies store
      ensures (store.data, r) == Pass(old(store.data), errorsPrefix, replies, fate, i)
      decreases |replies| - i
    {
      match replies[i]
      case ScanFailed =>
        r := if i == 0 then NoStats else Failed;
      case Batch(cursor, keys) =>
        var handled, handleErrors := HandlePage(store, keys, PageFate(fate, i));
        var s := PassStats(|keys|, handled, handleErrors);
        if cursor == "0" {
          r := Stats(s);
        } else {
          PassEndsNext(replies, i);
          var rest := HandleMessages(store, replies, fate, i + 1);
          r := Combine(s, rest);
        }
    }
  }
}

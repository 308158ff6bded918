/** message-node/messages-generator.js: writes one work item per call under
    `prefix:messages:<guid>:<Date.now()><counter>`. The counter disambiguates items
    written in the same millisecond and moves only after a successful write. The
    code means to reset it to 0 at `MAX_SAFE_INTEGER`, but its guard reads
    `Math.MAX_SAFE_INTEGER`, which is `undefined`, so the counter as written never
    resets: it climbs to 2^53 and stays there. `Date.now()`, the random payload and
    the store's error are inputs. */
module MessagesGenerator {
  import opened Wrappers
  import opened JsStrings
  import opened RedisHelpers

  /** `Number.MAX_SAFE_INTEGER`, 2^53 - 1. */
  const MaxSafeInteger: nat := 0x1F_FFFF_FFFF_FFFF

  /** 2^53. A JavaScript number holding it is not moved by `++`: 2^53 + 1 is not
      representable and rounds (half to even) back to 2^53. */
  const CounterCeiling: nat := MaxSafeInteger + 1

  /** A JavaScript value that is a non-negative integer number or `undefined`. */
  datatype JsNumber = Undefined | Number(value: nat)

  /** What `Math.MAX_SAFE_INTEGER` reads: `Math` has no such property (the
      constant lives on `Number`), so it is `undefined`. */
  const MathMaxSafeInteger: JsNumber := Undefined

  /** `this._prefix`: the key prefix of every item this generator writes. */
  function KeyPrefix(appPrefix: string, guid: string): string {
    appPrefix + ":messages:" + guid + ":"
  }

  /** The key of an item: `this._prefix + Date.now() + this._counter`. */
  function MessageKey(keyPrefix: string, now: nat, counter: nat): string {
    keyPrefix + NatToString(now) + NatToString(counter)
  }

  /** The stored value: `text || randomString.generate()`; the empty string (like
      `false` and `undefined`) is falsy. */
  function MessageText(text: string, random: string): string {
    if text != [] then text else random
  }

  // ------------------------------------------------- the counter as written

  /** `this._counter++` on a number holding an integer in [0, 2^53]. */
  function Incremented(c: nat): nat
    requires c <= CounterCeiling
  {
    if c < CounterCeiling then c + 1 else c
  }

  /** The counter after a successful write: the increment, then the reset guarded
      by `this._counter === resetAt`. Both sides of `===` are numbers or
      `undefined`, and a number is never `undefined`. */
  function GuardedNext(c: nat, resetAt: JsNumber): (n: nat)
    requires c <= CounterCeiling
    ensures n <= CounterCeiling
  {
    var n := Incremented(c);
    if Number(n) == resetAt then 0 else n
  }

  /** The counter after a successful write as written, where the guard reads
      `Math.MAX_SAFE_INTEGER`. */
  function WrittenNextCounter(c: nat): nat
    requires c <= CounterCeiling
  {
    GuardedNext(c, MathMaxSafeInteger)
  }

  /** The counter as written after `k` successful writes starting from `c`. */
  function WrittenCounterAfter(c: nat, k: nat): (n: nat)
    requires c <= CounterCeiling
    ensures n <= CounterCeiling
  {
    if k == 0 then c else WrittenNextCounter(WrittenCounterAfter(c, k - 1))
  }

  /** The counter as written counts the writes up to 2^53 and then stays there. */
  lemma {:induction false} WrittenCounterAfterValue(c: nat, k: nat)
    requires c <= CounterCeiling
    ensures WrittenCounterAfter(c, k) == if c + k <= CounterCeiling then c + k else CounterCeiling
  {
    if k > 0 {
      WrittenCounterAfterValue(c, k - 1);
    }
  }

  /** The reset never fires: after any write the counter is positive and not below
      where it started. In particular counter 2^53 - 2 becomes 2^53 - 1, where the
      intended reset (`NextCounter`) gives 0. */
  lemma {:induction false} WrittenCounterNeverResets(c: nat, k: nat)
    requires c <= CounterCeiling && 0 < k
    ensures 0 < WrittenCounterAfter(c, k) && c <= WrittenCounterAfter(c, k)
    ensures WrittenNextCounter(MaxSafeInteger - 1) == MaxSafeInteger != NextCounter(MaxSafeInteger - 1)
  {
    WrittenCounterAfterValue(c, k);
  }

  /** Once the writes reach 2^53 the counter sticks, so every later write in the
      same millisecond reuses one key. */
  lemma WrittenCounterSticks(p: string, now: nat, c: nat, a: nat, b: nat)
    requires c <= CounterCeiling && CounterCeiling <= c + a
    ensures WrittenCounterAfter(c, a) == WrittenCounterAfter(c, a + b) == CounterCeiling
    ensures MessageKey(p, now, WrittenCounterAfter(c, a)) == MessageKey(p, now, WrittenCounterAfter(c, a + b))
  {
    WrittenCounterAfterValue(c, a);
    WrittenCounterAfterValue(c, a + b);
  }

  // ------------------------------------------ the counter with the intended reset

  /** The counter after a successful write with the reset the code intends
      (`Number.MAX_SAFE_INTEGER` in the guard). */
  function NextCounter(c: nat): (n: nat)
    requires c < MaxSafeInteger
    ensures n < MaxSafeInteger
  {
    GuardedNext(c, Number(MaxSafeInteger))
  }

  /** The counter with the intended reset after `k` successful writes from `c`. */
  function CounterAfter(c: nat, k: nat): (n: nat)
    requires c < MaxSafeInteger
    ensures n < MaxSafeInteger
  {
    if k == 0 then c else NextCounter(CounterAfter(c, k - 1))
  }

  /** Until it wraps, the corrected counter counts the writes. */
  lemma {:induction false} CounterAfterNoWrap(c: nat, k: nat)
    requires c + k < MaxSafeInteger
    ensures CounterAfter(c, k) == c + k
  {
    if k > 0 {
      CounterAfterNoWrap(c, k - 1);
    }
  }

  /** A run of writes split in two. */
  lemma {:induction false} CounterAfterCompose(c: nat, a: nat, b: nat)
    requires c < MaxSafeInteger
    ensures CounterAfter(c, a + b) == CounterAfter(CounterAfter(c, a), b)
  {
    if b > 0 {
      CounterAfterCompose(c, a, b - 1);
    }
  }

  /** With the intended guard, the write that would reach `MAX_SAFE_INTEGER`
      resets the counter to 0. */
  lemma CounterResets(c: nat)
    requires c < MaxSafeInteger
    ensures CounterAfter(c, MaxSafeInteger - c) == 0
  {
    CounterAfterNoWrap(c, MaxSafeInteger - c - 1);
    CounterAfterCompose(c, MaxSafeInteger - c - 1, 1);
  }

  /** With the intended guard, after `MAX_SAFE_INTEGER` writes the counter is back
      where it started, so an item key repeats when the millisecond does too. */
  lemma CounterWrapsAround(c: nat)
    requires c < MaxSafeInteger
    ensures CounterAfter(c, MaxSafeInteger) == c
    ensures forall now: nat, p: string ::
              MessageKey(p, now, CounterAfter(c, MaxSafeInteger)) == MessageKey(p, now, c)
  {
    CounterResets(c);
    CounterAfterCompose(c, MaxSafeInteger - c, c);
    CounterAfterNoWrap(0, c);
  }

  // ------------------------------------------------------------------ the keys

  /** With timestamps of one width, keys coincide exactly when both the millisecond
      and the counter do. */
  lemma MessageKeyInjective(p: string, t1: nat, c1: nat, t2: nat, c2: nat)
    requires |NatToString(t1)| == |NatToString(t2)|
    ensures MessageKey(p, t1, c1) == MessageKey(p, t2, c2) <==> t1 == t2 && c1 == c2
  {
    if MessageKey(p, t1, c1) == MessageKey(p, t2, c2) {
      var s1, s2 := NatToString(t1) + NatToString(c1), NatToString(t2) + NatToString(c2);
      assert p + s1 == MessageKey(p, t1, c1);
      assert p + s2 == MessageKey(p, t2, c2);
      ConcatSameWidth(p, s1, p, s2);
      ConcatSameWidth(NatToString(t1), NatToString(c1), NatToString(t2), NatToString(c2));
      NatToStringInjective(t1, t2);
      NatToStringInjective(c1, c2);
    }
  }

  /** The keys of a run of successful writes as written, the i-th at millisecond
      `stamps[i]`. */
  function RunKeys(keyPrefix: string, c: nat, stamps: seq<nat>): seq<string>
    requires c <= CounterCeiling
  {
    seq(|stamps|, i requires 0 <= i < |stamps| => MessageKey(keyPrefix, stamps[i], WrittenCounterAfter(c, i)))
  }

  /** Until the counter reaches 2^53, and with timestamps of one width, every key a
      generator writes is new. */
  lemma RunKeysDistinct(keyPrefix: string, c: nat, stamps: seq<nat>)
    requires c <= CounterCeiling && c + |stamps| <= CounterCeiling + 1
    requires forall i, j | 0 <= i < j < |stamps| :: |NatToString(stamps[i])| == |NatToString(stamps[j])|
    ensures var keys := RunKeys(keyPrefix, c, stamps);
            forall i, j | 0 <= i < j < |keys| :: keys[i] != keys[j]
  {
    var keys := RunKeys(keyPrefix, c, stamps);
    forall i, j | 0 <= i < j < |keys| ensures keys[i] != keys[j] {
      WrittenCounterAfterValue(c, i);
      WrittenCounterAfterValue(c, j);
      MessageKeyInjective(keyPrefix, stamps[i], WrittenCounterAfter(c, i), stamps[j], WrittenCounterAfter(c, j));
    }
  }

  /** A MessagesGenerator: the key prefix of its node, the collision counter, and
      the value its reset guard compares with (`Math.MAX_SAFE_INTEGER`). */
  class Generator {
    const keyPrefix: string
    const resetAt: JsNumber
    var counter: nat

    ghost predicate Valid()
      reads this
    {
      counter <= CounterCeiling
    }

    constructor (appPrefix: string, guid: string)
      ensures Valid()
      ensures keyPrefix == KeyPrefix(appPrefix, guid) && counter == 0
      ensures resetAt == MathMaxSafeInteger
    {
      keyPrefix := KeyPrefix(appPrefix, guid);
      resetAt := MathMaxSafeInteger;
      counter := 0;
    }

    /** generate(text, callback): SET the new item; on a store error the counter
        stays and the error is handed to the callback (`Err`). */
    method Generate(store: Store, text: string, random: string, now: nat, writeFails: bool)
      returns (r: Result<()>)
      requires Valid()
      modifies this, store
      ensures Valid()
      ensures r.Err? <==> writeFails
      ensures resetAt == MathMaxSafeInteger ==> old(counter) <= counter
      ensures writeFails ==> counter == old(counter) && store.data == old(store.data)
      ensures !writeFails ==>
                counter == GuardedNext(old(counter), resetAt)
                && store.data == old(store.data)[MessageKey(keyPrefix, now, old(counter)) :=
                                                 MessageText(text, random)]
    {
      var value := MessageText(text, random);
      r := store.Set(MessageKey(keyPrefix, now, counter), value, writeFails);
      if r.Ok? {
        // `this._counter++`: at 2^53 the sum rounds back to 2^53
        if counter < CounterCeiling {
          counter := counter + 1;
        }
        // reset the counter when it grows too big
        if Number(counter) == resetAt {
          counter := 0;
        }
      }
    }
  }
}

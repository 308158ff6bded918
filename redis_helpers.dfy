/** The store primitives of message-node/redis-helpers.js over a key-value store
    held as a map: the atomic claim (GET then DEL in one transaction), the error
    record writer and the error record reader, plus the SET and INCRBY commands
    the other modules issue. A store error is an input of each operation. The
    error record is serialized exactly as `JSON.stringify` renders it. */
module RedisHelpers {
  import opened Wrappers
  import opened JsStrings

  // ---------------------------------------------------------------- SCAN replies

  /** One reply of `SCAN cursor MATCH pattern COUNT n`: the next cursor and the
      keys of this batch, or a store error. */
  datatype ScanReply = Batch(cursor: string, keys: seq<string>) | ScanFailed

  /** A reply after which a pass over the keyspace stops: an error, or the cursor
      "0" that ends a full iteration. */
  predicate EndsPass(r: ScanReply) {
    r.ScanFailed? || r.cursor == "0"
  }

  /** The replies from position `from` on contain one that ends the pass. */
  predicate PassEnds(replies: seq<ScanReply>, from: nat) {
    exists k | from <= k < |replies| :: EndsPass(replies[k])
  }

  lemma PassEndsNext(replies: seq<ScanReply>, i: nat)
    requires PassEnds(replies, i) && i < |replies| && !EndsPass(replies[i])
    ensures PassEnds(replies, i + 1)
  {
    var k :| i <= k < |replies| && EndsPass(replies[k]);
    assert k != i;
  }

  // ---------------------------------------------------------------- error records

  /** `err.message` and `err.stack` of what the message handler threw. */
  datatype HandlerError = HandlerError(msg: string, stack: string)

  /** The object writeError stores: `{stamp, msg, stack, message}`. */
  datatype ErrorRecord = ErrorRecord(stamp: nat, msg: string, stack: string, message: string)

  /** The key of an error record written at millisecond `now`: `prefix + Date.now()`. */
  function ErrorKey(prefix: string, now: nat): string {
    prefix + NatToString(now)
  }

  /** Error keys under one prefix coincide exactly when their milliseconds do, so two
      errors written in the same millisecond share a key. */
  lemma ErrorKeyCollision(prefix: string, t1: nat, t2: nat)
    ensures ErrorKey(prefix, t1) == ErrorKey(prefix, t2) <==> t1 == t2
  {
    if ErrorKey(prefix, t1) == ErrorKey(prefix, t2) {
      ConcatSameWidth(prefix, NatToString(t1), prefix, NatToString(t2));
      NatToStringInjective(t1, t2);
    }
  }

  function HexChar(d: nat): (c: char)
    requires d < 16
    ensures IsHexDigit(c)
  {
    if d < 10 then DigitChar(d) else (('a' as int) + d - 10) as char
  }

  function HexValue(c: char): (d: nat)
    requires IsHexDigit(c)
    ensures d < 16
  {
    if IsDigit(c) then DigitValue(c)
    else if 'a' <= c <= 'f' then (c as int) - ('a' as int) + 10
    else (c as int) - ('A' as int) + 10
  }

  lemma HexRoundTrip(d: nat)
    requires d < 16
    ensures HexValue(HexChar(d)) == d
  {
  }

  /** How `JSON.stringify` writes one character inside a string literal. */
  function EscapeChar(c: char): string {
    if c == '"' then "\\\""
    else if c == '\\' then "\\\\"
    else if c == '\U{0008}' then "\\b"
    else if c == '\U{000C}' then "\\f"
    else if c == '\n' then "\\n"
    else if c == '\r' then "\\r"
    else if c == '\t' then "\\t"
    else if (c as int) < 0x20 then "\\u00" + [HexChar((c as int) / 16), HexChar((c as int) % 16)]
    else [c]
  }

  function Escape(s: string): string {
    if s == [] then [] else EscapeChar(s[0]) + Escape(s[1..])
  }

  /** The opening of a string member after the first: `,"name":"`. */
  function MemberOpening(name: string): string {
    ",\"" + name + "\":\""
  }

  /** `,"name":"value"` with `value` escaped, followed by `rest`. */
  function StringMember(name: string, value: string, rest: string): string {
    MemberOpening(name) + (Escape(value) + ("\"" + rest))
  }

  /** `JSON.stringify({stamp, msg, stack, message})`:
      `{"stamp":N,"msg":"…","stack":"…","message":"…"}`. */
  function Serialize(r: ErrorRecord): string {
    "{\"stamp\":" + (NatToString(r.stamp) +
      StringMember("msg", r.msg, StringMember("stack", r.stack, StringMember("message", r.message, "}"))))
  }

  /** The character a JSON escape stands for, given the text after the backslash,
      and how many characters of that text the escape takes. */
  function Unescape(t: string): (r: Option<(char, nat)>)
    ensures r.Some? ==> 1 <= r.value.1 <= |t|
  {
    if t == [] then None
    else if t[0] == '"' then Some(('"', 1))
    else if t[0] == '\\' then Some(('\\', 1))
    else if t[0] == '/' then Some(('/', 1))
    else if t[0] == 'b' then Some(('\U{0008}', 1))
    else if t[0] == 'f' then Some(('\U{000C}', 1))
    else if t[0] == 'n' then Some(('\n', 1))
    else if t[0] == 'r' then Some(('\r', 1))
    else if t[0] == 't' then Some(('\t', 1))
    else if t[0] == 'u' && |t| >= 5
            && IsHexDigit(t[1]) && IsHexDigit(t[2]) && IsHexDigit(t[3]) && IsHexDigit(t[4]) then
      var v := ((HexValue(t[1]) * 16 + HexValue(t[2])) * 16 + HexValue(t[3])) * 16 + HexValue(t[4]);
      // a lone surrogate half has no character of its own
      if 0xD800 <= v < 0xE000 then None else Some((v as char, 5))
    else None
  }

  /** Reads the inside of a JSON string literal up to its closing quote: the decoded
      text and what follows the quote. Raw control characters are refused. */
  function ParseStringBody(s: string): (r: Option<(string, string)>)
    ensures r.Some? ==> |r.value.1| < |s|
    decreases |s|
  {
    if s == [] then None
    else if s[0] == '"' then Some(([], s[1..]))
    else if (s[0] as int) < 0x20 then None
    else if s[0] == '\\' then
      match Unescape(s[1..])
      case None => None
      case Some(e) =>
        match ParseStringBody(s[1 + e.1..])
        case None => None
        case Some(p) => Some(([e.0] + p.0, p.1))
    else
      match ParseStringBody(s[1..])
      case None => None
      case Some(p) => Some(([s[0]] + p.0, p.1))
  }

  /** Matches a literal at the start of the input and returns the rest: on success
      the literal followed by the rest is the input. */
  function Expect(t: string, literal: string): (r: Option<string>)
    ensures r.Some? <==> StartsWith(t, literal)
    ensures r.Some? ==> literal + r.value == t
  {
    if StartsWith(t, literal) then Some(t[|literal|..]) else None
  }

  /** A JSON number that is a non-negative integer: digits without a leading zero. */
  function ParseStamp(t: string): Option<(nat, string)> {
    var k := LeadingDigits(t);
    if k == 0 || (k > 1 && t[0] == '0') then None else Some((DigitsValue(t[..k]), t[k..]))
  }

  /** `JSON.parse` restricted to the shape `Serialize` writes: the four members in that
      order, no whitespace, any standard escape inside the strings. Every other text
      is reported as a parse failure. */
  function Parse(text: string): Option<ErrorRecord> {
    var t0 :- Expect(text, "{\"stamp\":");
    var stamp :- ParseStamp(t0);
    var t2 :- Expect(stamp.1, MemberOpening("msg"));
    var msg :- ParseStringBody(t2);
    var t4 :- Expect(msg.1, MemberOpening("stack"));
    var stack :- ParseStringBody(t4);
    var t6 :- Expect(stack.1, MemberOpening("message"));
    var message :- ParseStringBody(t6);
    if message.1 == "}" then Some(ErrorRecord(stamp.0, msg.0, stack.0, message.0)) else None
  }

  lemma ExpectLiteral(literal: string, t: string)
    ensures Expect(literal + t, literal) == Some(t)
  {
    StartsWithConcat(literal, t);
    assert (literal + t)[|literal|..] == t;
  }

  lemma ParseStampOf(n: nat, rest: string)
    requires rest == [] || !IsDigit(rest[0])
    ensures ParseStamp(NatToString(n) + rest) == Some((n, rest))
  {
    var d := NatToString(n);
    LeadingDigitsAll(d, rest);
    assert (d + rest)[..|d|] == d;
    assert (d + rest)[|d|..] == rest;
    assert (d + rest)[0] == d[0];
    NatToStringValue(n);
  }

  /** A control character written as `\u00XX` is read back as itself. */
  lemma UnescapeControl(c: char, tail: string)
    requires (c as int) < 0x20
    ensures Unescape(['u', '0', '0', HexChar((c as int) / 16), HexChar((c as int) % 16)] + tail)
              == Some((c, 5))
  {
    var h1, h2 := (c as int) / 16, (c as int) % 16;
    HexRoundTrip(h1);
    HexRoundTrip(h2);
    var t := ['u', '0', '0', HexChar(h1), HexChar(h2)] + tail;
    assert t[1] == '0' && t[2] == '0' && t[3] == HexChar(h1) && t[4] == HexChar(h2);
    assert ((0 * 16 + 0) * 16 + h1) * 16 + h2 == c as int;
  }

  /** The text after the backslash of an escaped character is read back as that
      character, taking the whole escape. */
  lemma UnescapeEscaped(c: char, tail: string)
    requires EscapeChar(c) != [c]
    ensures EscapeChar(c)[0] == '\\'
    ensures Unescape(EscapeChar(c)[1..] + tail) == Some((c, |EscapeChar(c)| - 1))
  {
    var u := EscapeChar(c)[1..];
    if c == '"' || c == '\\' || c == '\U{0008}' || c == '\U{000C}' || c == '\n' || c == '\r' || c == '\t' {
      assert |u| == 1 && (u + tail)[0] == u[0];
    } else {
      assert u == ['u', '0', '0', HexChar((c as int) / 16), HexChar((c as int) % 16)];
      UnescapeControl(c, tail);
    }
  }

  /** One escaped character is read back as itself. */
  lemma ParseEscapedChar(c: char, tail: string)
    ensures ParseStringBody(EscapeChar(c) + tail) ==
              match ParseStringBody(tail)
              case None => None
              case Some(p) => Some(([c] + p.0, p.1))
  {
    var e := EscapeChar(c);
    if e == [c] {
      assert (e + tail)[0] == c && (e + tail)[1..] == tail;
    } else {
      UnescapeEscaped(c, tail);
      var u := e[1..];
      assert (e + tail)[0] == '\\';
      assert (e + tail)[1..] == u + tail;
      assert (e + tail)[1 + |u|..] == tail;
    }
  }

  lemma {:induction false} ParseEscaped(s: string, rest: string)
    ensures ParseStringBody(Escape(s) + "\"" + rest) == Some((s, rest))
  {
    if s == [] {
      assert Escape(s) + "\"" + rest == "\"" + rest;
      assert ("\"" + rest)[1..] == rest;
    } else {
      var tail := Escape(s[1..]) + "\"" + rest;
      assert Escape(s) + "\"" + rest == EscapeChar(s[0]) + tail;
      ParseEscapedChar(s[0], tail);
      ParseEscaped(s[1..], rest);
      assert [s[0]] + s[1..] == s;
    }
  }

  /** A string member is read back as its value, leaving what follows it. */
  lemma ParseMember(name: string, value: string, rest: string)
    ensures var t := Expect(StringMember(name, value, rest), MemberOpening(name));
            t.Some? && ParseStringBody(t.value) == Some((value, rest))
  {
    ExpectLiteral(MemberOpening(name), Escape(value) + ("\"" + rest));
    assert Escape(value) + ("\"" + rest) == Escape(value) + "\"" + rest;
    ParseEscaped(value, rest);
  }

  /** Reading back what writeError wrote gives the record that was written. */
  lemma SerializeParse(r: ErrorRecord)
    ensures Parse(Serialize(r)) == Some(r)
  {
    var m3 := StringMember("message", r.message, "}");
    var m2 := StringMember("stack", r.stack, m3);
    var m1 := StringMember("msg", r.msg, m2);
    ExpectLiteral("{\"stamp\":", NatToString(r.stamp) + m1);
    assert m1[0] == ',';
    ParseStampOf(r.stamp, m1);
    ParseMember("msg", r.msg, m2);
    ParseMember("stack", r.stack, m3);
    ParseMember("message", r.message, "}");
  }

  // ---------------------------------------------------------------- integers in the store

  const Int64Min: int := -0x8000_0000_0000_0000
  const Int64Max: int := 0x7FFF_FFFF_FFFF_FFFF

  /** The value INCRBY accepts in a key: the canonical decimal form of a signed
      64-bit integer (no sign `+`, no leading zero, no whitespace). */
  function StoredInteger(s: string): (r: Option<int>)
    ensures r.Some? ==> Int64Min <= r.value <= Int64Max && IntToString(r.value) == s
  {
    var v := ParseInt10(s);
    if v.Some? && IntToString(v.value) == s && Int64Min <= v.value <= Int64Max then v else None
  }

  lemma StoredIntegerOf(i: int)
    requires Int64Min <= i <= Int64Max
    ensures StoredInteger(IntToString(i)) == Some(i)
  {
    ParseIntToString(i);
  }

  // ---------------------------------------------------------------- the store

  /** GET: the value bound to the key, or `null`. */
  function Lookup(data: map<string, string>, key: string): Option<string> {
    if key in data then Some(data[key]) else None
  }

  /** What readAndDeleteError delivers. `NullRecord` is `JSON.parse(null)`, the
      `null` an absent key hands to the parser. */
  datatype ReadOutcome = Read(record: ErrorRecord) | NullRecord | ParseError | ReadFailed

  /** `JSON.parse` of what the claim delivered. */
  function Decoded(reply: Option<string>): ReadOutcome {
    match reply
    case None => NullRecord
    case Some(v) => match Parse(v)
                    case Some(rec) => Read(rec)
                    case None => ParseError
  }

  /** A record writeError saved is what readAndDeleteError delivers for its key. */
  lemma WrittenErrorReadsBack(data: map<string, string>, prefix: string, err: HandlerError,
                              message: string, stamp: nat, keyNow: nat)
    ensures var rec := ErrorRecord(stamp, err.msg, err.stack, message);
            var key := ErrorKey(prefix, keyNow);
            Decoded(Lookup(data[key := Serialize(rec)], key)) == Read(rec)
  {
    SerializeParse(ErrorRecord(stamp, err.msg, err.stack, message));
  }

  /** The shared key-value store. */
  class Store {
    var data: map<string, string>

    constructor (initial: map<string, string>)
      ensures data == initial
    {
      data := initial;
    }

    /** SET key value. */
    method Set(key: string, value: string, fails: bool) returns (r: Result<()>)
      modifies this
      ensures fails ==> r == Err && data == old(data)
      ensures !fails ==> r == Ok(()) && data == old(data)[key := value]
    {
      if fails {
        r := Err;
      } else {
        data := data[key := value];
        r := Ok(());
      }
    }

    /** getAndDelete: MULTI, GET key, DEL key, EXEC. On success the reply of GET
        is delivered (null for an absent key) and the key is gone; a failed
        transaction changes nothing. */
    method GetAndDelete(key: string, fails: bool) returns (r: Result<Option<string>>)
      modifies this
      ensures fails ==> r == Err && data == old(data)
      ensures !fails ==> r == Ok(Lookup(old(data), key)) && data == old(data) - {key}
      ensures !fails && key !in old(data) ==> r == Ok(None) && data == old(data)
      ensures key !in data || fails
    {
      if fails {
        r := Err;
      } else {
        r := Ok(Lookup(data, key));
        data := data - {key};
      }
    }

    /** writeError: SET `prefix + Date.now()` to the serialized record. The record's
        stamp and the key's millisecond come from two separate calls of
        `Date.now()`, so they are separate inputs. */
    method WriteError(prefix: string, err: HandlerError, message: string,
                      stamp: nat, keyNow: nat, fails: bool) returns (r: Result<()>)
      modifies this
      ensures fails ==> r == Err && data == old(data)
      ensures !fails ==> (r == Ok(()) &&
        data == old(data)[ErrorKey(prefix, keyNow) :=
                          Serialize(ErrorRecord(stamp, err.msg, err.stack, message))])
    {
      var record := ErrorRecord(stamp, err.msg, err.stack, message);
      r := Set(ErrorKey(prefix, keyNow), Serialize(record), fails);
    }

    /** readAndDeleteError: claim the key, then parse what it held. The key is
        deleted before the parse, so a record that fails to parse is gone too. */
    method ReadAndDeleteError(key: string, fails: bool) returns (r: ReadOutcome)
      modifies this
      ensures fails ==> r == ReadFailed && data == old(data)
      ensures !fails ==> data == old(data) - {key}
      ensures !fails ==> r == Decoded(Lookup(old(data), key))
    {
      var claimed := GetAndDelete(key, fails);
      if claimed.Err? {
        r := ReadFailed;
      } else if claimed.value.None? {
        r := NullRecord;
      } else {
        var parsed := Parse(claimed.value.value);
        r := if parsed.Some? then Read(parsed.value) else ParseError;
      }
    }

    /** INCRBY key by: an absent key counts as 0; a value that is not a 64-bit
        integer, or a sum outside that range, is an error and changes nothing. */
    method IncrBy(key: string, amount: int, fails: bool) returns (r: Result<int>)
      modifies this
      ensures r.Err? ==> data == old(data)
      ensures r.Ok? <==> !fails && IncrementAccepted(old(data), key, amount)
      ensures r.Ok? ==> (r.value == CounterValue(old(data), key) + amount
                         && data == old(data)[key := IntToString(r.value)])
    {
      if fails || !IncrementAccepted(data, key, amount) {
        r := Err;
      } else {
        var v := CounterValue(data, key) + amount;
        data := data[key := IntToString(v)];
        r := Ok(v);
      }
    }
  }

  /** The integer a counter key holds: 0 when absent. */
  function CounterValue(data: map<string, string>, key: string): int {
    if key !in data then 0
    else match StoredInteger(data[key])
         case Some(v) => v
         case None => 0
  }

  /** INCRBY succeeds when the key is absent or holds an integer and the sum stays
      in the signed 64-bit range. */
  predicate IncrementAccepted(data: map<string, string>, key: string, amount: int) {
    (key !in data || StoredInteger(data[key]).Some?)
    && Int64Min <= CounterValue(data, key) + amount <= Int64Max
  }

  /** After an accepted increment the key holds the new total, readable again. */
  lemma IncrementReadsBack(data: map<string, string>, key: string, amount: int)
    requires IncrementAccepted(data, key, amount)
    ensures var v := CounterValue(data, key) + amount;
            CounterValue(data[key := IntToString(v)], key) == v
            && ParseInt10(IntToString(v)) == Some(v)
  {
    var v := CounterValue(data, key) + amount;
    StoredIntegerOf(v);
    ParseIntToString(v);
  }

  /** Writing one key leaves every other counter as it was. */
  lemma CounterValueOtherKey(data: map<string, string>, key: string, v: string, other: string)
    requires other != key
    ensures CounterValue(data[key := v], other) == CounterValue(data, other)
  {
    assert (other in data[key := v]) == (other in data);
    if other in data {
      assert data[key := v][other] == data[other];
    }
  }
}

/**
 History cursors.  The adapter hands the daemon an opaque "id:timestamp" string and
 accepts it back; it also accepts a bare message id and recovers the timestamp from
 its cache.  The decimal printer and parser are those of Go's strconv, base 10, 64 bits.
 */
module Cursor {
  import opened Wrappers

  const INT64_LIMIT: int := 0x8000_0000_0000_0000

  type int64 = x: int | -INT64_LIMIT <= x < INT64_LIMIT

  // ---------- decimal notation ----------

  predicate IsDigit(c: char) {
    '0' <= c <= '9'
  }

  predicate AllDigits(s: string) {
    forall i :: 0 <= i < |s| ==> IsDigit(s[i])
  }

  function Digit(d: nat): char
    requires d < 10
  {
    (('0' as int) + d) as char
  }

  function DigitValue(c: char): nat
    requires IsDigit(c)
  {
    (c as int) - ('0' as int)
  }

  function FormatNat(n: nat): string {
    if n < 10 then [Digit(n)] else FormatNat(n / 10) + [Digit(n % 10)]
  }

  function FormatInt(x: int): string {
    if x < 0 then "-" + FormatNat(-x) else FormatNat(x)
  }

  function ParseDigits(s: string): nat
    requires AllDigits(s)
  {
    if s == [] then 0 else 10 * ParseDigits(s[..|s| - 1]) + DigitValue(s[|s| - 1])
  }

  /** An optional sign, at least one digit, nothing else, and a value that fits in 64 bits. */
  function ParseInt(raw: string): Option<int64> {
    var negative := raw != "" && raw[0] == '-';
    var body := if raw != "" && (raw[0] == '-' || raw[0] == '+') then raw[1..] else raw;
    if body == "" || !AllDigits(body) then None
    else
      var value: int := ParseDigits(body);
      if negative then if value > INT64_LIMIT then None else Some(-value)
      else if value >= INT64_LIMIT then None else Some(value)
  }

  lemma {:induction false} FormatNatParses(n: nat)
    ensures FormatNat(n) != "" && AllDigits(FormatNat(n)) && ParseDigits(FormatNat(n)) == n
  {
    if n >= 10 {
      FormatNatParses(n / 10);
      assert FormatNat(n)[..|FormatNat(n)| - 1] == FormatNat(n / 10);
    }
  }

  lemma ParseSigned(digits: string, n: int)
    requires digits != "" && AllDigits(digits) && ParseDigits(digits) == n
    ensures ':' !in digits
    ensures n < INT64_LIMIT ==> ParseInt(digits) == Some(n)
    ensures n <= INT64_LIMIT ==> ParseInt("-" + digits) == Some(-n)
  {
    assert ("-" + digits)[1..] == digits;
  }

  lemma FormatIntParses(x: int64)
    ensures ParseInt(FormatInt(x)) == Some(x)
    ensures ':' !in FormatInt(x)
  {
    var n := Magnitude(x);
    FormatNatParses(n);
    ParseSigned(FormatNat(n), n);
  }

  function Magnitude(x: int): nat {
    if x < 0 then -x else x
  }

  function Pow10(k: nat): nat {
    if k == 0 then 1 else 10 * Pow10(k - 1)
  }

  lemma {:induction false} FormatNatLength(n: nat, k: nat)
    requires k >= 1 && n < Pow10(k)
    ensures |FormatNat(n)| <= k
    ensures n >= Pow10(k - 1) ==> |FormatNat(n)| == k
  {
    if n >= 10 {
      assert k >= 2;
      FormatNatLength(n / 10, k - 1);
    }
  }

  /** No sign, no leading zero: the digit strings the printer produces. */
  predicate PlainDigits(s: string) {
    s != "" && AllDigits(s) && (|s| == 1 || s[0] != '0')
  }

  lemma {:induction false} PlainDigitsReprint(s: string)
    requires PlainDigits(s)
    ensures FormatNat(ParseDigits(s)) == s
    ensures |s| > 1 || s[0] != '0' ==> ParseDigits(s) > 0
  {
    var front := s[..|s| - 1];
    if |s| > 1 {
      PlainDigitsReprint(front);
      assert ParseDigits(s) >= 10;
      assert s == front + [s[|s| - 1]];
    } else {
      assert ParseDigits(front) == 0;
    }
  }

  /** The numerals that print back as themselves. */
  predicate PlainInt(raw: string) {
    if raw != "" && raw[0] == '-' then PlainDigits(raw[1..]) && raw != "-0" else PlainDigits(raw)
  }

  lemma {:induction false} FormatNatPlain(n: nat)
    ensures PlainDigits(FormatNat(n))
    ensures n > 0 ==> FormatNat(n)[0] != '0'
  {
    FormatNatParses(n);
    if n >= 10 {
      FormatNatPlain(n / 10);
    }
  }

  /** The parser accepts more numerals than the printer writes; this is exactly which survive. */
  lemma ReprintExactlyWhenPlain(raw: string)
    requires ParseInt(raw).Some?
    ensures FormatInt(ParseInt(raw).value) == raw <==> PlainInt(raw)
  {
    var x := ParseInt(raw).value;
    var n := Magnitude(x);
    FormatNatPlain(n);
    if raw[0] == '-' {
      assert raw == "-" + raw[1..];
      assert n == ParseDigits(raw[1..]);
      if PlainDigits(raw[1..]) {
        PlainDigitsReprint(raw[1..]);
      }
    } else if raw[0] == '+' {
      assert !IsDigit('+');
    } else if PlainDigits(raw) {
      PlainDigitsReprint(raw);
    }
  }

  // ---------- the cursor ----------

  /** Position of the first colon, or the length of the string. */
  function FirstColon(s: string): (i: nat)
    ensures i <= |s| && ':' !in s[..i] && (i < |s| ==> s[i] == ':')
  {
    if s == "" || s[0] == ':' then 0 else
      var i := FirstColon(s[1..]) + 1;
      assert s[..i] == [s[0]] + s[1..][..i - 1];
      i
  }

  function Mint(id: string, ts: int64): string {
    id + ":" + FormatInt(ts)
  }

  function Parse(cursor: string): Option<(string, int64)> {
    var cut := FirstColon(cursor);
    if cut == |cursor| || cut == 0 then None
    else
      match ParseInt(cursor[cut + 1..])
      case None => None
      case Some(ts) => Some((cursor[..cut], ts))
  }

  lemma {:induction false} CutAtColon(id: string, rest: string)
    requires ':' !in id
    ensures FirstColon(id + ":" + rest) == |id|
  {
    if id == "" {
    } else {
      CutAtColon(id[1..], rest);
      assert (id + ":" + rest)[1..] == id[1..] + ":" + rest;
    }
  }

  lemma ColonIsNoNumber(raw: string)
    requires ':' in raw
    ensures ParseInt(raw).None?
  {
    var i :| 0 <= i < |raw| && raw[i] == ':';
    assert !IsDigit(raw[i]);
    if i > 0 {
      assert raw[1..][i - 1] == ':';
    }
  }

  lemma CleanIdReturns(id: string, ts: int64)
    requires id != "" && ':' !in id
    ensures Parse(Mint(id, ts)) == Some((id, ts))
  {
    var cursor := Mint(id, ts);
    FormatIntParses(ts);
    CutAtColon(id, FormatInt(ts));
    assert cursor[|id| + 1..] == FormatInt(ts);
    assert cursor[..|id|] == id;
  }

  lemma ColonIdIsRejected(id: string, rest: string)
    requires ':' in id
    ensures Parse(id + ":" + rest).None?
  {
    var at := FirstColon(id);
    var cursor, tail := id + ":" + rest, id[at + 1..] + ":" + rest;
    assert cursor == id[..at] + ":" + tail;
    CutAtColon(id[..at], tail);
    assert cursor[at + 1..] == tail;
    assert tail[|id| - at - 1] == ':';
    ColonIsNoNumber(tail);
  }

  /** A minted cursor parses back to its own pair, or not at all: never to another pair. */
  lemma RoundTrip(id: string, ts: int64)
    ensures Parse(Mint(id, ts)) == if id != "" && ':' !in id then Some((id, ts)) else None
  {
    if ':' in id {
      ColonIdIsRejected(id, FormatInt(ts));
    } else if id != "" {
      CleanIdReturns(id, ts);
    } else {
      CutAtColon(id, FormatInt(ts));
    }
  }

  lemma AcceptedParts(cursor: string, id: string, ts: int64)
    requires Parse(cursor) == Some((id, ts))
    ensures id != "" && ':' !in id && |id| < |cursor| && cursor == id + ":" + cursor[|id| + 1..]
    ensures ParseInt(cursor[|id| + 1..]) == Some(ts)
  {
  }

  /** What the parser accepts, and which accepted strings are the ones the adapter mints. */
  lemma AcceptedCursors(cursor: string, id: string, ts: int64)
    requires Parse(cursor) == Some((id, ts))
    ensures id != "" && ':' !in id
    ensures cursor == Mint(id, ts) <==> PlainInt(cursor[|id| + 1..])
  {
    AcceptedParts(cursor, id, ts);
    var raw := cursor[|id| + 1..];
    ReprintExactlyWhenPlain(raw);
    assert Mint(id, ts)[|id| + 1..] == FormatInt(ts);
  }

  // ---------- the relay cursor behind a daemon cursor ----------

  datatype RelayCursor = RelayCursor(lastItem: string, lastTimestamp: int64)

  /** Go's signed division truncates toward zero. */
  function Truncated(x: int64, d: nat): int64
    requires d > 0
  {
    if x >= 0 then x / d else -(Magnitude(x) / d)
  }

  /** What emitWindow sends to the relay; the cache holds microseconds, the relay wants milliseconds. */
  function Recover(cursor: string, cached: string -> int64): Result<RelayCursor> {
    match Parse(cursor)
    case Some(pair) => Ok(RelayCursor(pair.0, pair.1))
    case None =>
      var ts := cached(cursor);
      if cursor == "" || ts == 0 then Err("unknown history cursor")
      else Ok(RelayCursor(cursor, Truncated(ts, 1000)))
  }

  /** The cursor of the oldest message of a page, minted from the same cache. */
  function OldestCursor(oldest: string, cached: string -> int64): string {
    var ts := cached(oldest);
    Mint(oldest, if ts > 0 then ts / 1000 else ts)
  }

  /** The cursor emitWindow attaches to a page of `limit` messages. */
  function PageCursor(relay: Option<RelayCursor>, ids: seq<string>, limit: nat, cached: string -> int64): string {
    if relay.Some? && relay.value.lastItem != "" then Mint(relay.value.lastItem, relay.value.lastTimestamp)
    else if |ids| % 0x1_0000_0000 == limit && |ids| > 0 then OldestCursor(ids[0], cached)
    else ""
  }

  /** The minted cursor and the bare id reach the same relay position exactly when the cache knows a positive time. */
  lemma MintedAgreesWithBareId(id: string, cached: string -> int64)
    requires id != "" && ':' !in id
    ensures Recover(OldestCursor(id, cached), cached) == Recover(id, cached) <==> cached(id) > 0
  {
    var ts := cached(id);
    RoundTrip(id, if ts > 0 then ts / 1000 else ts);
    assert Parse(id).None?;
  }

  /** A page has a cursor exactly if the relay gave one with an id, or the page is as full as was asked for. */
  lemma PageCursorExactly(relay: Option<RelayCursor>, ids: seq<string>, limit: nat, cached: string -> int64)
    ensures PageCursor(relay, ids, limit, cached) != ""
            <==> (relay.Some? && relay.value.lastItem != "") || (ids != [] && |ids| % 0x1_0000_0000 == limit)
  {
    assert forall id: string, ts: int64 :: |Mint(id, ts)| > 0;
  }

  /** A cursor is an error exactly if it is neither a minted one nor, as it stands, an id the cache knows a time for. */
  lemma ForeignExactly(cursor: string, cached: string -> int64)
    ensures Recover(cursor, cached) == Err("unknown history cursor")
            <==> Parse(cursor).None? && (cursor == "" || cached(cursor) == 0)
  {
  }

  /** The message a page cursor names: the relay's own position, or the oldest message shown. */
  function Named(relay: Option<RelayCursor>, ids: seq<string>): string {
    if relay.Some? && relay.value.lastItem != "" then relay.value.lastItem else if ids != [] then ids[0] else ""
  }

  /** A cursor minted from an id with a colon, or from an empty one, is not the cursor of that id when it comes back. */
  lemma UncleanIsForeign(id: string, ts: int64, cached: string -> int64)
    requires id == "" || ':' in id
    ensures Recover(Mint(id, ts), cached).Ok? ==> Recover(Mint(id, ts), cached).value.lastItem != id
  {
    RoundTrip(id, ts);
    assert |Mint(id, ts)| > |id|;
  }

  /**
   A page cursor sent back reaches the message it names if and only if that message's id is
   not empty and holds no colon; the relay's own position then comes back whole.
   */
  lemma PageCursorResumes(relay: Option<RelayCursor>, ids: seq<string>, limit: nat, cached: string -> int64)
    requires PageCursor(relay, ids, limit, cached) != ""
    ensures var back, id := Recover(PageCursor(relay, ids, limit, cached), cached), Named(relay, ids);
            && ((back.Ok? && back.value.lastItem == id) <==> id != "" && ':' !in id)
            && (relay.Some? && id == relay.value.lastItem != "" && ':' !in id ==> back == Ok(relay.value))
  {
    var id := Named(relay, ids);
    var ts: int64 :=
      if relay.Some? && relay.value.lastItem != "" then relay.value.lastTimestamp
      else if cached(id) > 0 then cached(id) / 1000 else cached(id);
    assert PageCursor(relay, ids, limit, cached) == Mint(id, ts);
    RoundTrip(id, ts);
    if id == "" || ':' in id {
      UncleanIsForeign(id, ts, cached);
    }
  }
}

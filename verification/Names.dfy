/**
 Safe file names from relay-supplied ones, on the bytes of their UTF-8 encoding: the
 basename, trimmed, free of control characters, cut to 255 bytes at a rune boundary.
 Well-formed sequences are those of section 4 of RFC 3629.
 */
module Names {
  import opened Wrappers
  import opened Chunks

  type Byte = b: int | 0 <= b < 256

  type Bytes = seq<Byte>

  const MAX_NAME: nat := 255

  // ---------- UTF-8 ----------

  predicate Tail(b: Byte) {
    0x80 <= b <= 0xBF
  }

  /** The encoding of one rune. */
  predicate WellFormed(r: Bytes) {
    if |r| == 1 then r[0] < 0x80
    else if |r| == 2 then 0xC2 <= r[0] <= 0xDF && Tail(r[1])
    else if |r| == 3 then
      && Tail(r[1]) && Tail(r[2]) && 0xE0 <= r[0] <= 0xEF
      && (r[0] == 0xE0 ==> r[1] >= 0xA0) && (r[0] == 0xED ==> r[1] <= 0x9F)
    else if |r| == 4 then
      && Tail(r[1]) && Tail(r[2]) && Tail(r[3]) && 0xF0 <= r[0] <= 0xF4
      && (r[0] == 0xF0 ==> r[1] >= 0x90) && (r[0] == 0xF4 ==> r[1] <= 0x8F)
    else false
  }

  /** Length of the well-formed sequence a string starts with, or zero. */
  function RuneLength(s: Bytes): (n: nat)
    ensures n <= 4 && n <= |s| && (n > 0 ==> WellFormed(s[..n]))
  {
    if |s| >= 1 && WellFormed(s[..1]) then 1
    else if |s| >= 2 && WellFormed(s[..2]) then 2
    else if |s| >= 3 && WellFormed(s[..3]) then 3
    else if |s| >= 4 && WellFormed(s[..4]) then 4
    else 0
  }

  predicate Valid(s: Bytes) {
    s == [] || (RuneLength(s) > 0 && Valid(s[RuneLength(s)..]))
  }

  /** Go's utf8.DecodeRuneInString: an ill-formed start counts as one byte. */
  function DecodeSize(s: Bytes): nat {
    if s == [] then 0 else if RuneLength(s) > 0 then RuneLength(s) else 1
  }

  /** The backward scan of utf8.DecodeLastRuneInString for a byte that can start a rune. */
  function ScanBack(s: Bytes, start: int, lim: int): (i: int)
    requires lim - 1 <= start < |s| && lim >= 0
    ensures lim - 1 <= i <= start
    decreases start - lim + 1
  {
    if start < lim then start else if !Tail(s[start]) then start else ScanBack(s, start - 1, lim)
  }

  /** The size utf8.DecodeLastRuneInString reports. */
  function LastSize(s: Bytes): (n: nat)
    ensures s != [] ==> 1 <= n <= 4 && n <= |s|
  {
    if s == [] then 0
    else if s[|s| - 1] < 0x80 then 1
    else
      var lim := if |s| < 4 then 0 else |s| - 4;
      var found := if |s| - 2 < lim then lim - 1 else ScanBack(s, |s| - 2, lim);
      var start := if found < 0 then 0 else found;
      var size := DecodeSize(s[start..]);
      if start + size != |s| then 1 else size
  }

  lemma RuneLengthOf(r: Bytes, rest: Bytes)
    requires WellFormed(r)
    ensures RuneLength(r + rest) == |r|
  {
    var s := r + rest;
    assert s[..|r|] == r;
    assert |s| >= 1 ==> s[..1][0] == r[0];
    assert |s| >= 2 ==> s[..2][0] == r[0];
    assert |s| >= 3 ==> s[..3][0] == r[0];
  }

  /** A proper part of a rune's encoding is not valid. */
  lemma PartIsInvalid(r: Bytes, m: nat)
    requires WellFormed(r) && 0 < m < |r|
    ensures !Valid(r[..m])
  {
    var part := r[..m];
    assert part[0] == r[0];
    assert forall k :: 1 <= k <= m ==> part[..k][0] == r[0];
    assert RuneLength(part) == 0;
  }

  lemma {:induction false} ValidConcat(a: Bytes, b: Bytes)
    requires Valid(a)
    ensures Valid(a + b) <==> Valid(b)
  {
    if a == [] {
      assert a + b == b;
    } else {
      var n := RuneLength(a);
      RuneLengthOf(a[..n], a[n..] + b);
      assert a + b == a[..n] + (a[n..] + b);
      assert (a + b)[n..] == a[n..] + b;
      ValidConcat(a[n..], b);
    }
  }

  lemma ValidRune(r: Bytes)
    requires WellFormed(r)
    ensures Valid(r)
  {
    RuneLengthOf(r, []);
    assert r + [] == r && r[|r|..] == [];
  }

  lemma RuneBefore(r: Bytes, back: Bytes)
    requires WellFormed(r) && Valid(back)
    ensures Valid(r + back)
  {
    ValidRune(r);
    ValidConcat(r, back);
  }

  /** A valid string ends with a whole rune. */
  lemma {:induction false} SplitLast(s: Bytes) returns (front: Bytes, rune: Bytes)
    requires Valid(s) && s != []
    ensures s == front + rune && Valid(front) && WellFormed(rune)
  {
    var n := RuneLength(s);
    if n == |s| {
      front, rune := [], s;
      assert s[..n] == s;
    } else {
      var back: Bytes;
      back, rune := SplitLast(s[n..]);
      front := s[..n] + back;
      assert s == s[..n] + s[n..];
      RuneBefore(s[..n], back);
    }
  }

  lemma {:induction false} ScanStops(s: Bytes, start: int, lim: int, stop: int)
    requires 0 <= lim <= stop <= start < |s| && !Tail(s[stop])
    requires forall i :: stop < i <= start ==> Tail(s[i])
    ensures ScanBack(s, start, lim) == stop
    decreases start - stop
  {
    if start > stop {
      ScanStops(s, start - 1, lim, stop);
    }
  }

  lemma LastSizeIsLongRune(front: Bytes, rune: Bytes)
    requires WellFormed(rune) && |rune| > 1
    ensures LastSize(front + rune) == |rune|
  {
    var s, stop := front + rune, |front|;
    var lim := if |s| < 4 then 0 else |s| - 4;
    assert s[stop..] == rune;
    assert !Tail(s[stop]) by { assert s[stop] == rune[0]; }
    forall i | stop < i < |s|
      ensures Tail(s[i])
    {
      assert s[i] == rune[i - stop];
    }
    assert lim <= stop <= |s| - 2;
    ScanStops(s, |s| - 2, lim, stop);
    assert DecodeSize(s[stop..]) == |rune| by {
      RuneLengthOf(rune, []);
      assert rune + [] == rune;
    }
  }

  /** On a string that ends with a whole rune the decoder finds exactly that rune. */
  lemma LastSizeIsLastRune(front: Bytes, rune: Bytes)
    requires WellFormed(rune)
    ensures LastSize(front + rune) == |rune|
  {
    if |rune| == 1 {
      assert (front + rune)[|front|] == rune[0];
    } else {
      LastSizeIsLongRune(front, rune);
    }
  }

  /** The last n bytes. */
  function Ending(s: Bytes, n: nat): Bytes
    requires n <= |s|
  {
    s[|s| - n..]
  }

  /** On any string the decoder finds a rune of several bytes exactly if the string ends with one, and else one byte. */
  lemma LastSizeExactly(s: Bytes)
    requires s != []
    ensures LastSize(s) > 1 <==> exists n :: 2 <= n <= |s| && WellFormed(Ending(s, n))
    ensures LastSize(s) > 1 ==> WellFormed(Ending(s, LastSize(s)))
  {
    if n :| 2 <= n <= |s| && WellFormed(Ending(s, n)) {
      assert s == s[..|s| - n] + Ending(s, n);
      LastSizeIsLastRune(s[..|s| - n], Ending(s, n));
    }
    if LastSize(s) > 1 {
      var start := |s| - LastSize(s);
      assert s[start..][..LastSize(s)] == Ending(s, LastSize(s));
    }
  }

  /** The rune a well-formed sequence encodes. */
  function CodePoint(r: Bytes): int
    requires WellFormed(r)
  {
    var b: seq<int> := seq(|r|, i requires 0 <= i < |r| => r[i] as int);
    if |b| == 1 then b[0]
    else if |b| == 2 then (b[0] - 0xC0) * 0x40 + (b[1] - 0x80)
    else if |b| == 3 then (b[0] - 0xE0) * 0x1000 + (b[1] - 0x80) * 0x40 + (b[2] - 0x80)
    else (b[0] - 0xF0) * 0x40000 + (b[1] - 0x80) * 0x1000 + (b[2] - 0x80) * 0x40 + (b[3] - 0x80)
  }

  /** The code points that have an encoding: all up to 0x10FFFF but the surrogates. */
  predicate Scalar(c: int) {
    0 <= c < 0xD800 || 0xE000 <= c <= 0x10FFFF
  }

  /** The encoding of a code point, by section 3 of RFC 3629: six bits in every byte but the first. */
  function Encoded(c: int): Bytes
    requires Scalar(c)
  {
    var c1 := c / 0x40;
    var c2 := c1 / 0x40;
    if c < 0x80 then [c]
    else if c < 0x800 then [0xC0 + c1, 0x80 + c % 0x40]
    else if c < 0x10000 then [0xE0 + c2, 0x80 + c1 % 0x40, 0x80 + c % 0x40]
    else [0xF0 + c2 / 0x40, 0x80 + c2 % 0x40, 0x80 + c1 % 0x40, 0x80 + c % 0x40]
  }

  lemma SixBits(high: int, low: int)
    requires 0 <= low < 0x40
    ensures (high * 0x40 + low) / 0x40 == high && (high * 0x40 + low) % 0x40 == low
  {
  }

  /** Every code point has a well-formed encoding, from which it comes back. */
  lemma EncodedIsWellFormed(c: int)
    requires Scalar(c)
    ensures WellFormed(Encoded(c)) && CodePoint(Encoded(c)) == c
  {
  }

  lemma TwoBytes(r: Bytes)
    requires WellFormed(r) && |r| == 2
    ensures Scalar(CodePoint(r)) && Encoded(CodePoint(r)) == r
  {
    SixBits(r[0] as int - 0xC0, r[1] as int - 0x80);
  }

  lemma ThreeBytes(r: Bytes)
    requires WellFormed(r) && |r| == 3
    ensures Scalar(CodePoint(r)) && Encoded(CodePoint(r)) == r
  {
    var b0: int, b1: int, b2: int := r[0], r[1], r[2];
    var c1 := (b0 - 0xE0) * 0x40 + (b1 - 0x80);
    SixBits(b0 - 0xE0, b1 - 0x80);
    SixBits(c1, b2 - 0x80);
    assert CodePoint(r) == c1 * 0x40 + (b2 - 0x80);
  }

  lemma FourBytes(r: Bytes)
    requires WellFormed(r) && |r| == 4
    ensures Scalar(CodePoint(r)) && Encoded(CodePoint(r)) == r
  {
    var b0: int, b1: int, b2: int, b3: int := r[0], r[1], r[2], r[3];
    var c2 := (b0 - 0xF0) * 0x40 + (b1 - 0x80);
    var c1 := c2 * 0x40 + (b2 - 0x80);
    SixBits(b0 - 0xF0, b1 - 0x80);
    SixBits(c2, b2 - 0x80);
    SixBits(c1, b3 - 0x80);
    assert CodePoint(r) == c1 * 0x40 + (b3 - 0x80);
  }

  /** And every well-formed sequence is the encoding of a code point. */
  lemma WellFormedIsEncoded(r: Bytes)
    requires WellFormed(r)
    ensures Scalar(CodePoint(r)) && Encoded(CodePoint(r)) == r
  {
    if |r| == 2 {
      TwoBytes(r);
    } else if |r| == 3 {
      ThreeBytes(r);
    } else if |r| == 4 {
      FourBytes(r);
    }
  }

  // ---------- the steps of sanitizeName ----------

  const SLASH: Byte := 0x2F
  const BACKSLASH: Byte := 0x5C
  const DOT: Byte := 0x2E

  predicate Separator(b: Byte) {
    b == SLASH || b == BACKSLASH
  }

  predicate Control(b: Byte) {
    b < 0x20 || b == 0x7F
  }

  /** What follows the last separator. */
  function Basename(s: Bytes): Bytes {
    if s == [] then []
    else if Separator(s[|s| - 1]) then []
    else Basename(s[..|s| - 1]) + [s[|s| - 1]]
  }

  /** The encodings of the runes unicode.IsSpace accepts. */
  predicate Space(r: Bytes) {
    || (|r| == 1 && (0x09 <= r[0] <= 0x0D || r[0] == 0x20))
    || (|r| == 2 && r[0] == 0xC2 && (r[1] == 0x85 || r[1] == 0xA0))
    || (|r| == 3 && r[0] == 0xE1 && r[1] == 0x9A && r[2] == 0x80)
    || (|r| == 3 && r[0] == 0xE2 && r[1] == 0x80
        && ((0x80 <= r[2] <= 0x8A) || r[2] == 0xA8 || r[2] == 0xA9 || r[2] == 0xAF))
    || (|r| == 3 && r[0] == 0xE2 && r[1] == 0x81 && r[2] == 0x9F)
    || (|r| == 3 && r[0] == 0xE3 && r[1] == 0x80 && r[2] == 0x80)
  }

  /** Unicode's White_Space. */
  predicate WhiteSpace(c: int) {
    || 0x09 <= c <= 0x0D || c == 0x20 || c == 0x85 || c == 0xA0 || c == 0x1680
    || 0x2000 <= c <= 0x200A || c == 0x2028 || c == 0x2029 || c == 0x202F || c == 0x205F || c == 0x3000
  }

  lemma SpaceExactly(r: Bytes)
    ensures Space(r) <==> WellFormed(r) && WhiteSpace(CodePoint(r))
  {
  }

  function TrimLeft(s: Bytes): Bytes {
    if s == [] then []
    else
      var n := DecodeSize(s);
      if Space(s[..n]) then TrimLeft(s[n..]) else s
  }

  function TrimRight(s: Bytes): Bytes {
    if s == [] then []
    else
      var n := LastSize(s);
      if Space(s[|s| - n..]) then TrimRight(s[..|s| - n]) else s
  }

  /** The name the rules are applied to. */
  function Trimmed(name: Bytes): Bytes {
    TrimRight(TrimLeft(Basename(name)))
  }

  /** Runes are dropped from the end until the name fits. */
  function Cut(s: Bytes): Bytes {
    if |s| <= MAX_NAME then s else Cut(s[..|s| - LastSize(s)])
  }

  predicate HasControl(s: Bytes) {
    exists i :: 0 <= i < |s| && Control(s[i])
  }

  predicate Reserved(s: Bytes) {
    s == [] || s == [DOT] || s == [DOT, DOT]
  }

  function Sanitized(name: Bytes): Option<Bytes> {
    var base := Trimmed(name);
    if Reserved(base) || HasControl(base) then None else Some(Cut(base))
  }

  lemma {:induction false} CutLength(s: Bytes)
    ensures |Cut(s)| <= |s| && Cut(s) == s[..|Cut(s)|]
    ensures |Cut(s)| <= MAX_NAME && (|s| > MAX_NAME ==> |Cut(s)| >= MAX_NAME - 3)
  {
    if |s| > MAX_NAME {
      CutLength(s[..|s| - LastSize(s)]);
    }
  }

  /** The loop that looks for control characters, rune by rune. */
  method CheckControls(base: Bytes) returns (found: bool)
    ensures found == HasControl(base)
  {
    var i := 0;
    while i < |base|
      invariant i <= |base| && forall j :: 0 <= j < i ==> !Control(base[j])
    {
      var n := DecodeSize(base[i..]);
      if n == 1 && base[i] < 0x80 && (base[i] < 0x20 || base[i] == 0x7F) {
        return true;
      }
      assert n > 1 ==> WellFormed(base[i..][..n]);
      assert forall j :: 0 <= j < n ==> base[i..][..n][j] == base[i + j];
      i := i + n;
    }
    found := false;
  }

  /** sanitizeName. */
  method SanitizeName(name: Bytes) returns (r: Option<Bytes>)
    ensures r == Sanitized(name)
  {
    var base := TrimRight(TrimLeft(Basename(name)));
    if base == [] || base == [DOT] || base == [DOT, DOT] {
      return None;
    }
    var bad := CheckControls(base);
    if bad {
      return None;
    }
    ghost var trimmed := base;
    CutLength(trimmed);
    while |base| > MAX_NAME
      invariant Cut(base) == Cut(trimmed)
      decreases |base|
    {
      var size := LastSize(base);
      if size <= 1 {
        base := base[..|base| - 1];
      } else {
        base := base[..|base| - size];
      }
    }
    if base == [] || base == [DOT] || base == [DOT, DOT] {
      return None;
    }
    r := Some(base);
  }

  // ---------- what an accepted name is ----------

  predicate Clean(s: Bytes) {
    forall i :: 0 <= i < |s| ==> !Separator(s[i])
  }

  lemma CleanPart(s: Bytes, i: nat, j: nat)
    requires Clean(s) && i <= j <= |s|
    ensures Clean(s[i..j])
  {
  }

  /** The basename is what follows the last separator. */
  lemma {:induction false} BasenameIsSuffix(s: Bytes) returns (k: nat)
    ensures k <= |s| && Basename(s) == s[k..] && (k > 0 ==> Separator(s[k - 1]))
    ensures Clean(Basename(s))
  {
    k := |s|;
    if s != [] {
      var n := |s| - 1;
      if !Separator(s[n]) {
        var front := s[..n];
        k := BasenameIsSuffix(front);
        assert front[k..] + [s[n]] == s[k..];
      }
    }
  }

  lemma {:induction false} ValidAfterAscii(s: Bytes, i: nat)
    requires Valid(s) && i < |s| && s[i] < 0x80
    ensures Valid(s[i + 1..])
  {
    var n := RuneLength(s);
    assert WellFormed(s[..n]);
    if i < n {
      assert s[..n][i] == s[i];
      assert i == 0 && n == 1;
    } else {
      assert s[n..][i - n] == s[i];
      ValidAfterAscii(s[n..], i - n);
      assert s[n..][i - n + 1..] == s[i + 1..];
    }
  }

  lemma {:induction false} TrimLeftIsSuffix(s: Bytes) returns (k: nat)
    ensures k <= |s| && TrimLeft(s) == s[k..]
  {
    k := 0;
    if s != [] {
      var n := DecodeSize(s);
      if Space(s[..n]) {
        var m := TrimLeftIsSuffix(s[n..]);
        assert s[n..][m..] == s[n + m..];
        k := n + m;
      }
    }
  }

  lemma {:induction false} TrimLeftStaysValid(s: Bytes)
    requires Valid(s)
    ensures Valid(TrimLeft(s))
  {
    if s != [] && Space(s[..DecodeSize(s)]) {
      TrimLeftStaysValid(s[DecodeSize(s)..]);
    }
  }

  lemma {:induction false} TrimRightIsPrefix(s: Bytes)
    ensures |TrimRight(s)| <= |s| && TrimRight(s) == s[..|TrimRight(s)|]
  {
    if s != [] && Space(s[|s| - LastSize(s)..]) {
      TrimRightIsPrefix(s[..|s| - LastSize(s)]);
    }
  }

  lemma {:induction false} TrimRightStaysValid(s: Bytes)
    requires Valid(s)
    ensures Valid(TrimRight(s))
  {
    if s != [] && Space(s[|s| - LastSize(s)..]) {
      DroppingLastStaysValid(s);
      TrimRightStaysValid(s[..|s| - LastSize(s)]);
    }
  }

  lemma DroppingLastStaysValid(s: Bytes)
    requires Valid(s) && s != []
    ensures Valid(s[..|s| - LastSize(s)])
  {
    var front, rune := SplitLast(s);
    LastSizeIsLastRune(front, rune);
    assert s[..|s| - |rune|] == front;
  }

  lemma TrimmedIsClean(name: Bytes)
    ensures Clean(Trimmed(name))
  {
    var from := BasenameIsSuffix(name);
    var base := Basename(name);
    var left := TrimLeft(base);
    var k := TrimLeftIsSuffix(base);
    CleanPart(base, k, |base|);
    TrimRightIsPrefix(left);
    CleanPart(left, 0, |TrimRight(left)|);
  }

  lemma BasenameStaysValid(name: Bytes)
    requires Valid(name)
    ensures Valid(Basename(name))
  {
    var k := BasenameIsSuffix(name);
    if k > 0 {
      ValidAfterAscii(name, k - 1);
    }
  }

  lemma TrimmedStaysValid(name: Bytes)
    requires Valid(name)
    ensures Valid(Trimmed(name))
  {
    BasenameStaysValid(name);
    TrimLeftStaysValid(Basename(name));
    TrimRightStaysValid(TrimLeft(Basename(name)));
  }

  /** A valid prefix of a valid string never ends inside its last rune. */
  lemma PrefixKeepsRunes(front: Bytes, rune: Bytes, prefix: Bytes)
    requires Valid(front) && WellFormed(rune) && Valid(prefix)
    requires prefix <= front + rune && |prefix| < |front| + |rune|
    ensures |prefix| <= |front|
  {
    if |prefix| > |front| {
      var m := |prefix| - |front|;
      assert prefix == front + rune[..m];
      ValidConcat(front, rune[..m]);
      PartIsInvalid(rune, m);
    }
  }

  /** Of a valid name, the cut is valid and is the longest whole-rune prefix that fits. */
  lemma {:induction false} CutIsLongest(s: Bytes, prefix: Bytes)
    requires Valid(s)
    ensures Valid(Cut(s))
    ensures Valid(prefix) && prefix <= s && |prefix| <= MAX_NAME ==> |prefix| <= |Cut(s)|
  {
    if |s| > MAX_NAME {
      var front, rune := SplitLast(s);
      LastSizeIsLastRune(front, rune);
      assert s[..|s| - |rune|] == front;
      if Valid(prefix) && prefix <= s && |prefix| <= MAX_NAME {
        PrefixKeepsRunes(front, rune, prefix);
        assert prefix <= front;
      }
      CutIsLongest(front, prefix);
    }
  }

  // ---------- what trimming leaves ----------

  predicate AllSpace(runes: seq<Bytes>) {
    forall r :: r in runes ==> Space(r)
  }

  /** Nothing but white space. */
  ghost predicate Spaces(s: Bytes) {
    exists runes: seq<Bytes> :: Concat(runes) == s && AllSpace(runes)
  }

  predicate StartsWithSpace(s: Bytes) {
    exists n :: 1 <= n <= |s| && Space(s[..n])
  }

  predicate EndsWithSpace(s: Bytes) {
    exists n :: 1 <= n <= |s| && Space(Ending(s, n))
  }

  lemma NoSpaces()
    ensures Spaces([])
  {
    var none: seq<Bytes> := [];
    assert Concat(none) == [] && AllSpace(none);
  }

  lemma SpacesAppend(s: Bytes, r: Bytes)
    requires Spaces(s) && Space(r)
    ensures Spaces(s + r)
  {
    var runes: seq<Bytes> :| Concat(runes) == s && AllSpace(runes);
    ConcatAppend(runes, r);
    assert AllSpace(runes + [r]);
  }

  lemma SpacesPrepend(r: Bytes, s: Bytes)
    requires Space(r) && Spaces(s)
    ensures Spaces(r + s)
  {
    var runes: seq<Bytes> :| Concat(runes) == s && AllSpace(runes);
    assert ([r] + runes)[1..] == runes;
    assert AllSpace([r] + runes);
  }

  lemma SpaceIsRune(r: Bytes)
    requires Space(r)
    ensures WellFormed(r)
  {
  }

  lemma StartSize(s: Bytes, m: nat)
    requires 1 <= m <= |s| && WellFormed(s[..m])
    ensures DecodeSize(s) == m
  {
    RuneLengthOf(s[..m], s[m..]);
    assert s == s[..m] + s[m..];
  }

  lemma EndSize(s: Bytes, m: nat)
    requires 1 <= m <= |s| && WellFormed(Ending(s, m))
    ensures LastSize(s) == m
  {
    LastSizeIsLastRune(s[..|s| - m], Ending(s, m));
    assert s == s[..|s| - m] + Ending(s, m);
  }

  /** A string starts with a space exactly if its first rune is one. */
  lemma StartIsSeen(s: Bytes)
    ensures StartsWithSpace(s) <==> s != [] && Space(s[..DecodeSize(s)])
  {
    if StartsWithSpace(s) {
      var m :| 1 <= m <= |s| && Space(s[..m]);
      SpaceIsRune(s[..m]);
      StartSize(s, m);
    }
  }

  /** And ends with one exactly if its last rune is one. */
  lemma EndIsSeen(s: Bytes)
    ensures EndsWithSpace(s) <==> s != [] && Space(Ending(s, LastSize(s)))
  {
    if EndsWithSpace(s) {
      var m :| 1 <= m <= |s| && Space(Ending(s, m));
      SpaceIsRune(Ending(s, m));
      EndSize(s, m);
    }
  }

  lemma Slices<T>(s: seq<T>, n: nat, m: nat)
    requires n + m <= |s|
    ensures s[n..][m..] == s[n + m..] && s[..n] + s[n..][..m] == s[..n + m]
  {
  }

  lemma {:induction false} TrimLeftExactly(s: Bytes) returns (k: nat)
    ensures k <= |s| && TrimLeft(s) == s[k..] && Spaces(s[..k]) && !StartsWithSpace(s[k..])
    decreases |s|
  {
    StartIsSeen(s);
    if s != [] && Space(s[..DecodeSize(s)]) {
      var n := DecodeSize(s);
      var m := TrimLeftExactly(s[n..]);
      k := n + m;
      Slices(s, n, m);
      SpacesPrepend(s[..n], s[n..][..m]);
    } else {
      k := 0;
      assert s[..0] == [] && s[0..] == s;
      NoSpaces();
    }
  }

  lemma Halves<T>(s: seq<T>, n: nat, k: nat)
    requires k <= n <= |s|
    ensures s[..n][..k] == s[..k] && s[..n][k..] + s[n..] == s[k..]
  {
  }

  lemma TrimRightDrops(s: Bytes)
    requires s != [] && Space(Ending(s, LastSize(s)))
    ensures TrimRight(s) == TrimRight(s[..|s| - LastSize(s)])
  {
  }

  lemma {:induction false} TrimRightExactly(s: Bytes) returns (k: nat)
    ensures k <= |s| && TrimRight(s) == s[..k] && Spaces(s[k..]) && !EndsWithSpace(s[..k])
    decreases |s|
  {
    EndIsSeen(s);
    if s != [] && Space(Ending(s, LastSize(s))) {
      var n := |s| - LastSize(s);
      TrimRightDrops(s);
      k := TrimRightExactly(s[..n]);
      Halves(s, n, k);
      SpacesAppend(s[..n][k..], s[n..]);
    } else {
      k := |s|;
      assert s[..k] == s && s[k..] == [];
      NoSpaces();
    }
  }

  lemma PrefixStarts(s: Bytes, len: nat)
    requires len <= |s| && StartsWithSpace(s[..len])
    ensures StartsWithSpace(s)
  {
    var n :| 1 <= n <= len && Space(s[..len][..n]);
    assert s[..len][..n] == s[..n];
  }

  lemma TrimExactly(base: Bytes) returns (from: nat, to: nat)
    ensures from <= to <= |base| && TrimRight(TrimLeft(base)) == base[from..to]
    ensures Spaces(base[..from]) && Spaces(base[to..])
    ensures !StartsWithSpace(base[from..to]) && !EndsWithSpace(base[from..to])
  {
    from := TrimLeftExactly(base);
    var left := base[from..];
    var len := TrimRightExactly(left);
    to := from + len;
    assert left[..len] == base[from..to] && left[len..] == base[to..];
    if StartsWithSpace(left[..len]) {
      PrefixStarts(left, len);
    }
  }

  lemma CleanBytes(s: Bytes)
    requires Clean(s)
    ensures forall b :: b in s ==> b != 0x2F && b != 0x5C
  {
  }

  /**
   What the rules are applied to: of the part after the last slash or backslash, everything
   but the white space around it.
   */
  lemma TrimmedExactly(name: Bytes) returns (k: nat, base: Bytes, from: nat, to: nat)
    ensures k <= |name| && base == name[k..] && from <= to <= |base| && Trimmed(name) == base[from..to]
    ensures k > 0 ==> name[k - 1] == 0x2F || name[k - 1] == 0x5C
    ensures forall b :: b in base ==> b != 0x2F && b != 0x5C
    ensures Spaces(base[..from]) && Spaces(base[to..])
    ensures !StartsWithSpace(Trimmed(name)) && !EndsWithSpace(Trimmed(name))
  {
    k := BasenameIsSuffix(name);
    base := name[k..];
    CleanBytes(base);
    from, to := TrimExactly(base);
  }

  /** A name is refused exactly if nothing, one dot or two are left, or a control character is. */
  lemma RefusedExactly(name: Bytes)
    ensures var t := Trimmed(name);
            Sanitized(name).None? <==> t == [] || t == [0x2E] || t == [0x2E, 0x2E]
                                       || exists b :: b in t && (b < 0x20 || b == 0x7F)
  {
    var t := Trimmed(name);
    if HasControl(t) {
      var i :| 0 <= i < |t| && Control(t[i]);
      assert t[i] in t;
    }
  }

  /** Everything an accepted name promises, for any input, and for valid UTF-8 in particular. */
  lemma AcceptedName(name: Bytes, prefix: Bytes)
    requires Sanitized(name).Some?
    ensures var base, t := Sanitized(name).value, Trimmed(name);
            && base <= t && 1 <= |base| <= 255 && base != [0x2E] && base != [0x2E, 0x2E]
            && (base != t <==> |t| > 255) && (base != t ==> |base| >= 252)
            && (forall b :: b in base ==> b >= 0x20 && b != 0x7F && b != 0x2F && b != 0x5C)
            && (Valid(name) ==> Valid(base))
            && (Valid(name) && Valid(prefix) && prefix <= t && |prefix| <= MAX_NAME ==> |prefix| <= |base|)
  {
    var t := Trimmed(name);
    TrimmedIsClean(name);
    CutLength(t);
    if Valid(name) {
      TrimmedStaysValid(name);
      CutIsLongest(t, prefix);
    }
  }

  /** A dot inside a name is accepted. */
  lemma DottedNameIsAccepted()
    ensures Sanitized([0x61, DOT, 0x62]) == Some([0x61, DOT, 0x62])
  {
    var name: Bytes := [0x61, DOT, 0x62];
    assert name[..2] == [0x61, DOT] && name[..2][..1] == [0x61] && [0x61][..0] == [];
    assert Basename([0x61]) == [] + [0x61];
    assert Basename(name[..2]) == [0x61] + [DOT];
    assert Basename(name) == [0x61, DOT] + [0x62];
    assert name[..1] == [0x61] && RuneLength(name) == 1;
    assert !Space(name[..1]) && TrimLeft(name) == name;
    assert name[2..] == [0x62] && LastSize(name) == 1 && !Space(name[2..]);
    assert name[|name| - 1..] == name[2..] && TrimRight(name) == name;
    assert Trimmed(name) == name && Cut(name) == name;
    assert !HasControl(name);
  }
}

/**
 Finding pax extended headers in a tar archive (scripts/verify-offline-bundle.js):
 walking the 512-byte blocks undoes what an archive writer lays out.
 */
module PaxHeaders {
  import opened Common

  const BLOCK := 512

  function OffsetOf(block: int): int {
    512 * block
  }

  function BlocksIn(raw: Bytes): nat {
    |raw| / 512
  }

  const SIZE_AT := 124
  const SIZE_END := 135
  const TYPEFLAG_AT := 156

  // -------------------------------------------------------- reading the size

  predicate IsLineEnd(b: Byte) {
    b == 10 || b == 13
  }

  predicate IsBlank(b: Byte) {
    9 <= b <= 13 || b == 32
  }

  predicate IsOctal(b: Byte) {
    48 <= b <= 55
  }

  /** Decoding as 'ascii' drops the high bit. */
  function AsAscii(s: Bytes): Bytes {
    seq(|s|, i requires 0 <= i < |s| => s[i] % 128)
  }

  /** `replace(/\\0.*$/, '')`: from the first NUL with no line end after it. */
  function CutAtNul(s: Bytes): Bytes {
    if s == [] then []
    else if s[0] == 0 && !(exists b <- s :: IsLineEnd(b)) then []
    else [s[0]] + CutAtNul(s[1..])
  }

  function TrimStart(s: Bytes): Bytes {
    if s != [] && IsBlank(s[0]) then TrimStart(s[1..]) else s
  }

  function TrimEnd(s: Bytes): Bytes {
    if s != [] && IsBlank(s[|s| - 1]) then TrimEnd(s[..|s| - 1]) else s
  }

  function OctalPrefix(s: Bytes): Bytes {
    if s != [] && IsOctal(s[0]) then [s[0]] + OctalPrefix(s[1..]) else []
  }

  function OctalValue(s: Bytes): int {
    if s == [] then 0 else OctalValue(s[..|s| - 1]) * 8 + (s[|s| - 1] as int - 48)
  }

  /** `parseInt(s, 8)`; None is NaN. */
  function ParseInt8(s: Bytes): Option<int> {
    var signed := s != [] && (s[0] == 43 || s[0] == 45);
    var digits := OctalPrefix(if signed then s[1..] else s);
    if digits == [] then None
    else if signed && s[0] == 45 then Some(-OctalValue(digits))
    else Some(OctalValue(digits))
  }

  function SizeOf(field: Bytes): Option<int> {
    ParseInt8(TrimEnd(TrimStart(CutAtNul(AsAscii(field)))))
  }

  /** `Buffer.toString(…, start, end)`: bounds outside the buffer are pulled in, and an empty range is ''. */
  function Text(raw: Bytes, start: int, end: int): Bytes {
    var from, to := Min(Max(start, 0), |raw|), Min(end, |raw|);
    if to <= from then [] else raw[from..to]
  }

  function SizeAt(raw: Bytes, offset: int): Option<int> {
    SizeOf(Text(raw, offset + SIZE_AT, offset + SIZE_END))
  }

  /** Blanks, perhaps a sign, octal digits, and anything that is not one more digit. */
  ghost predicate ReadsAs(ascii: Bytes, pre: Bytes, sign: Bytes, digits: Bytes, post: Bytes, n: int) {
    && ascii == pre + (sign + (digits + post))
    && (forall i :: 0 <= i < |pre| ==> 9 <= pre[i] <= 13 || pre[i] == 32)
    && (sign == [] || sign == [43] || sign == [45])
    && digits != [] && (forall i :: 0 <= i < |digits| ==> 48 <= digits[i] < 56)
    && (post == [] || !(48 <= post[0] < 56))
    && n == if sign == [45] then -OctalValue(digits) else OctalValue(digits)
  }

  lemma {:induction false} CutIsPrefix(s: Bytes)
    ensures CutAtNul(s) <= s && (|CutAtNul(s)| < |s| ==> s[|CutAtNul(s)|] == 0)
  {
    if s != [] { CutIsPrefix(s[1..]); }
  }

  lemma {:induction false} CutKeepsFront(a: Bytes, b: Bytes)
    requires forall i :: 0 <= i < |a| ==> a[i] != 0
    ensures CutAtNul(a + b) == a + CutAtNul(b)
  {
    if a == [] {
      assert a + b == b;
    } else {
      CutKeepsFront(a[1..], b);
      assert (a + b)[1..] == a[1..] + b;
    }
  }

  /** The first byte that is no blank. */
  lemma {:induction false} TrimStartIsSuffix(s: Bytes)
    ensures var n := |s| - |TrimStart(s)|;
            0 <= n && TrimStart(s) == s[n..] && forall i :: 0 <= i < n ==> IsBlank(s[i])
  {
    if s != [] && IsBlank(s[0]) {
      TrimStartIsSuffix(s[1..]);
      var n := |s[1..]| - |TrimStart(s[1..])|;
      forall i | 0 <= i < n + 1 ensures IsBlank(s[i]) {
        if i > 0 { assert s[i] == s[1..][i - 1]; }
      }
      assert s[1..][n..] == s[n + 1..];
    }
  }

  lemma {:induction false} TrimStartDrops(pre: Bytes, s: Bytes)
    requires (forall i :: 0 <= i < |pre| ==> IsBlank(pre[i])) && (s == [] || !IsBlank(s[0]))
    ensures TrimStart(pre + s) == s
  {
    if pre == [] {
      assert pre + s == s;
    } else {
      TrimStartDrops(pre[1..], s);
      assert (pre + s)[1..] == pre[1..] + s;
    }
  }

  lemma {:induction false} TrimEndIsPrefix(s: Bytes)
    ensures TrimEnd(s) <= s && (|TrimEnd(s)| < |s| ==> IsBlank(s[|TrimEnd(s)|]))
  {
    if s != [] && IsBlank(s[|s| - 1]) { TrimEndIsPrefix(s[..|s| - 1]); }
  }

  lemma {:induction false} TrimEndKeepsFront(a: Bytes, b: Bytes)
    requires a != [] && !IsBlank(a[|a| - 1])
    ensures a <= TrimEnd(a + b) <= a + b
    decreases |b|
  {
    if b == [] {
      assert a + b == a;
    } else if IsBlank((a + b)[|a + b| - 1]) {
      TrimEndKeepsFront(a, b[..|b| - 1]);
      assert (a + b)[..|a + b| - 1] == a + b[..|b| - 1];
    }
  }

  lemma {:induction false} PrefixStops(s: Bytes)
    ensures OctalPrefix(s) <= s && (forall i :: 0 <= i < |OctalPrefix(s)| ==> IsOctal(s[i]))
    ensures |OctalPrefix(s)| < |s| ==> !IsOctal(s[|OctalPrefix(s)|])
  {
    if s != [] && IsOctal(s[0]) { PrefixStops(s[1..]); }
  }

  lemma {:induction false} PrefixIsDigits(digits: Bytes, rest: Bytes)
    requires (forall i :: 0 <= i < |digits| ==> IsOctal(digits[i])) && (rest == [] || !IsOctal(rest[0]))
    ensures OctalPrefix(digits + rest) == digits
  {
    if digits == [] {
      assert digits + rest == rest;
    } else {
      PrefixIsDigits(digits[1..], rest);
      assert (digits + rest)[1..] == digits[1..] + rest;
    }
  }

  lemma ParsesUnsigned(digits: Bytes, rest: Bytes)
    requires digits != [] && (forall i :: 0 <= i < |digits| ==> IsOctal(digits[i])) && (rest == [] || !IsOctal(rest[0]))
    ensures ParseInt8(digits + rest) == Some(OctalValue(digits))
  {
    PrefixIsDigits(digits, rest);
    assert (digits + rest)[0] == digits[0];
  }

  lemma ParsesAfterSign(s: Bytes, tail: Bytes, digits: Bytes)
    requires s != [] && (s[0] == 43 || s[0] == 45) && s[1..] == tail && OctalPrefix(tail) == digits && digits != []
    ensures ParseInt8(s) == Some(if s[0] == 45 then -OctalValue(digits) else OctalValue(digits))
  {
  }

  lemma SignInFront(sign: Byte, tail: Bytes)
    ensures [sign] + tail != [] && ([sign] + tail)[0] == sign && ([sign] + tail)[1..] == tail
  {
  }

  lemma ParsesSigned(sign: Byte, digits: Bytes, rest: Bytes, tail: Bytes)
    requires (sign == 43 || sign == 45) && tail == digits + rest
    requires digits != [] && (forall i :: 0 <= i < |digits| ==> IsOctal(digits[i])) && (rest == [] || !IsOctal(rest[0]))
    ensures ParseInt8([sign] + tail) == Some(if sign == 45 then -OctalValue(digits) else OctalValue(digits))
  {
    PrefixIsDigits(digits, rest);
    SignInFront(sign, tail);
    ParsesAfterSign([sign] + tail, tail, digits);
  }

  lemma PaddedReads(ascii: Bytes, pre: Bytes, sign: Bytes, digits: Bytes, post: Bytes, n: int)
    requires ReadsAs(ascii, pre, sign, digits, post, n)
    ensures ParseInt8(TrimEnd(TrimStart(CutAtNul(ascii)))) == Some(n)
  {
    var number, rest := sign + digits, CutAtNul(post);
    assert number[|number| - 1] == digits[|digits| - 1];
    assert pre + (sign + (digits + post)) == pre + (number + post);
    CutAndTrimmed(pre, number, post);
    TrimEndKeepsFront(number, rest);
    NumberReads(sign, digits, post, TrimEnd(number + rest));
  }

  lemma CutAndTrimmed(pre: Bytes, number: Bytes, post: Bytes)
    requires (forall i :: 0 <= i < |pre| ==> IsBlank(pre[i])) && number != [] && !IsBlank(number[0])
    requires forall i :: 0 <= i < |number| ==> number[i] != 0
    ensures TrimStart(CutAtNul(pre + (number + post))) == number + CutAtNul(post)
  {
    CutKeepsFront(pre, number + post);
    CutKeepsFront(number, post);
    TrimStartDrops(pre, number + CutAtNul(post));
  }

  lemma NumberReads(sign: Bytes, digits: Bytes, post: Bytes, text: Bytes)
    requires sign == [] || sign == [43] || sign == [45]
    requires digits != [] && (forall i :: 0 <= i < |digits| ==> IsOctal(digits[i])) && (post == [] || !IsOctal(post[0]))
    requires sign + digits <= text <= sign + digits + CutAtNul(post)
    ensures ParseInt8(text) == Some(if sign == [45] then -OctalValue(digits) else OctalValue(digits))
  {
    CutIsPrefix(post);
    var kept := KeptOf(sign, digits, CutAtNul(post), text);
    assert kept <= post;
    if sign == [] {
      ParsesUnsigned(digits, kept);
    } else {
      ParsesSigned(sign[0], digits, kept, digits + kept);
    }
  }

  lemma KeptOf(sign: Bytes, digits: Bytes, more: Bytes, text: Bytes) returns (kept: Bytes)
    requires sign + digits <= text <= sign + digits + more
    ensures text == sign + (digits + kept) && kept <= more
    ensures sign == [] ==> text == digits + kept
    ensures |sign| == 1 ==> text == [sign[0]] + (digits + kept)
  {
    var at := |sign + digits|;
    kept := text[at..];
    assert text == text[..at] + kept;
    assert text == (sign + digits + more)[..|text|];
  }

  lemma ParsedText(text: Bytes, n: int) returns (sign: Bytes, digits: Bytes)
    requires ParseInt8(text) == Some(n)
    ensures (sign == [] || sign == [43] || sign == [45]) && sign + digits <= text
    ensures digits != [] && (forall i :: 0 <= i < |digits| ==> IsOctal(digits[i]))
    ensures |sign| + |digits| < |text| ==> !IsOctal(text[|sign| + |digits|])
    ensures n == if sign == [45] then -OctalValue(digits) else OctalValue(digits)
  {
    sign := if text != [] && (text[0] == 43 || text[0] == 45) then [text[0]] else [];
    var number := text[|sign|..];
    PrefixStops(number);
    digits := OctalPrefix(number);
  }

  lemma ParsedWasPadded(ascii: Bytes, n: int) returns (pre: Bytes, sign: Bytes, digits: Bytes, post: Bytes)
    requires ParseInt8(TrimEnd(TrimStart(CutAtNul(ascii)))) == Some(n)
    ensures ReadsAs(ascii, pre, sign, digits, post, n)
  {
    CutIsPrefix(ascii);
    TrimStartIsSuffix(CutAtNul(ascii));
    TrimEndIsPrefix(TrimStart(CutAtNul(ascii)));
    pre, sign, digits, post := ReadsFrom(ascii, CutAtNul(ascii), TrimStart(CutAtNul(ascii)),
                                         TrimEnd(TrimStart(CutAtNul(ascii))), n);
  }

  lemma ReadsFrom(ascii: Bytes, cut: Bytes, trimmed: Bytes, text: Bytes, n: int)
    returns (pre: Bytes, sign: Bytes, digits: Bytes, post: Bytes)
    requires cut <= ascii && (|cut| < |ascii| ==> ascii[|cut|] == 0)
    requires |trimmed| <= |cut| && trimmed == cut[|cut| - |trimmed|..]
    requires forall i :: 0 <= i < |cut| - |trimmed| ==> IsBlank(cut[i])
    requires text <= trimmed && (|text| < |trimmed| ==> IsBlank(trimmed[|text|])) && ParseInt8(text) == Some(n)
    ensures ReadsAs(ascii, pre, sign, digits, post, n)
  {
    pre := cut[..|cut| - |trimmed|];
    sign, digits := ParsedText(text, n);
    post := PutTogether(ascii, cut, pre, trimmed, text, sign + digits);
    Regrouped(pre, sign, digits, post);
  }

  lemma Regrouped(pre: Bytes, sign: Bytes, digits: Bytes, post: Bytes)
    ensures pre + (sign + digits) + post == pre + (sign + (digits + post))
  {
  }

  /** Each part is the front of the one before it, and what comes next is no digit. */
  lemma PutTogether(ascii: Bytes, cut: Bytes, pre: Bytes, trimmed: Bytes, text: Bytes, number: Bytes) returns (post: Bytes)
    requires cut <= ascii && cut == pre + trimmed && text <= trimmed && number <= text
    requires |cut| < |ascii| ==> ascii[|cut|] == 0
    requires |text| < |trimmed| ==> IsBlank(trimmed[|text|])
    requires |number| < |text| ==> !IsOctal(text[|number|])
    ensures ascii == pre + number + post && (post == [] || !IsOctal(post[0]))
  {
    var at := |pre| + |number|;
    post := ascii[at..];
    assert ascii[..at] == cut[..at] == pre + trimmed[..|number|];
    assert trimmed[..|number|] == number;
    if |number| < |trimmed| {
      assert ascii[at] == cut[at] == trimmed[|number|];
    }
  }

  /** What a size field reads as, whatever bytes it holds, `ascii` being these without
      their high bits: the number after blanks and a sign, with what follows the digits
      left out; and nothing else reads as a number. */
  lemma SizeReadsIff(field: Bytes, ascii: Bytes, n: int)
    requires |ascii| == |field| && forall i :: 0 <= i < |field| ==> ascii[i] == field[i] % 128
    ensures SizeOf(field) == Some(n) <==>
            exists pre: Bytes, sign: Bytes, digits: Bytes, post: Bytes :: ReadsAs(ascii, pre, sign, digits, post, n)
  {
    assert ascii == AsAscii(field);
    if SizeOf(field) == Some(n) {
      var pre, sign, digits, post := ParsedWasPadded(ascii, n);
    }
    forall pre: Bytes, sign: Bytes, digits: Bytes, post: Bytes | ReadsAs(ascii, pre, sign, digits, post, n)
      ensures SizeOf(field) == Some(n)
    {
      PaddedReads(ascii, pre, sign, digits, post, n);
    }
  }

  // --------------------------------------------------------- walks in general

  /** Where to go from each block; None ends the walk, and so does a block that is not there. */
  type Way = seq<Option<int>>

  predicate Ended(way: Way, block: int) {
    !(0 <= block < |way|) || way[block].None?
  }

  /** Where a walk from block 0 is after `n` steps; where it ended, if it ended earlier. */
  function At(way: Way, n: nat): int {
    if n == 0 then 0
    else
      var block := At(way, n - 1);
      if Ended(way, block) then block else way[block].value
  }

  predicate Over(way: Way, n: nat) {
    Ended(way, At(way, n))
  }

  ghost predicate Ends(way: Way) {
    exists n: nat :: Over(way, n)
  }

  predicate Returns(way: Way, m: nat, n: nat) {
    m < n && !Over(way, m) && At(way, n) == At(way, m)
  }

  /** It never goes from a block back to one it has been at. */
  ghost predicate NeverReturns(way: Way) {
    forall m: nat, n: nat :: !Returns(way, m, n)
  }

  lemma {:induction false} OverStays(way: Way, m: nat, n: nat)
    requires m <= n && Over(way, m)
    ensures At(way, n) == At(way, m)
  {
    if m < n {
      OverStays(way, m, n - 1);
    }
  }

  lemma {:induction false} SameFromThereOn(way: Way, m: nat, n: nat, more: nat)
    requires At(way, m) == At(way, n)
    ensures At(way, m + more) == At(way, n + more)
  {
    if more > 0 {
      SameFromThereOn(way, m, n, more - 1);
    }
  }

  lemma {:induction false} ReturningNeverEnds(way: Way, m: nat, n: nat, k: nat)
    requires Returns(way, m, n)
    ensures !Over(way, k)
    decreases k
  {
    if k < n {
      if Over(way, k) {
        OverStays(way, k, n);
        if k <= m { OverStays(way, k, m); }
      }
    } else {
      SameFromThereOn(way, m, n, k - n);
      ReturningNeverEnds(way, m, n, m + (k - n));
    }
  }

  ghost function BlocksRead(way: Way, n: nat): set<int> {
    if n == 0 then {} else BlocksRead(way, n - 1) + {At(way, n - 1)}
  }

  /** A walk that never returns reads a new block at every step. */
  lemma {:induction false} EachStepReadsANewBlock(way: Way, n: nat)
    requires NeverReturns(way) && forall m: nat :: m < n ==> !Over(way, m)
    ensures |BlocksRead(way, n)| == n
    ensures forall b <- BlocksRead(way, n) :: 0 <= b < |way|
  {
    if n > 0 {
      EachStepReadsANewBlock(way, n - 1);
      assert !Over(way, n - 1);
      LastBlockIsNew(way, n - 1, n - 1);
    }
  }

  lemma {:induction false} LastBlockIsNew(way: Way, n: nat, last: nat)
    requires NeverReturns(way) && n <= last && forall m: nat :: m <= last ==> !Over(way, m)
    ensures At(way, last) !in BlocksRead(way, n)
  {
    if n > 0 {
      LastBlockIsNew(way, n - 1, last);
      assert !Returns(way, n - 1, last);
    }
  }

  /** So it cannot take more steps than there are blocks. */
  lemma NoMoreStepsThanBlocks(way: Way, n: nat)
    requires NeverReturns(way) && forall m: nat :: m < n ==> !Over(way, m)
    ensures n <= |way|
  {
    EachStepReadsANewBlock(way, n);
    RangeIsLarge(BlocksRead(way, n), |way|);
  }

  lemma {:induction false} RangeIsLarge(s: set<int>, n: nat)
    requires forall x <- s :: 0 <= x < n
    ensures |s| <= n
  {
    if n > 0 {
      RangeIsLarge(s - {n - 1}, n - 1);
    } else if s != {} {
      var x := SomeMember(s);
      assert false;
    }
  }

  lemma {:induction false} NotOverBefore(way: Way, n: nat)
    requires !Over(way, n)
    ensures forall m: nat :: m <= n ==> !Over(way, m)
  {
    forall m: nat | m <= n ensures !Over(way, m) {
      if Over(way, m) { OverStays(way, m, n); }
    }
  }

  lemma FewerStepsThanBlocks(way: Way, n: nat)
    requires NeverReturns(way) && !Over(way, n)
    ensures n < |way|
  {
    NotOverBefore(way, n);
    NoMoreStepsThanBlocks(way, n + 1);
  }

  /** A walk ends if and only if it never comes back to a block it has been at,
      and then within as many steps as there are blocks. */
  lemma EndsIffNeverReturns(way: Way)
    ensures Ends(way) <==> NeverReturns(way)
    ensures Ends(way) <==> Over(way, |way|)
  {
    if NeverReturns(way) {
      if !Over(way, |way|) {
        FewerStepsThanBlocks(way, |way|);
      }
    } else {
      var m: nat, n: nat :| Returns(way, m, n);
      forall k: nat ensures !Over(way, k) {
        ReturningNeverEnds(way, m, n, k);
      }
    }
  }

  predicate OnlyForward(way: Way) {
    forall block :: 0 <= block < |way| && way[block].Some? ==> block < way[block].value
  }

  lemma {:induction false} ForwardGetsAhead(way: Way, m: nat, n: nat)
    requires OnlyForward(way) && m < n && !Over(way, m)
    ensures At(way, m) < At(way, n)
  {
    if m + 1 < n {
      ForwardGetsAhead(way, m, n - 1);
    }
  }

  lemma ForwardNeverReturns(way: Way)
    requires OnlyForward(way)
    ensures NeverReturns(way)
  {
    forall m: nat, n: nat ensures !Returns(way, m, n) {
      if m < n && !Over(way, m) {
        ForwardGetsAhead(way, m, n);
      }
    }
  }

  /** What the first `n` steps read, given what there is to read at each block. */
  function Gathered(way: Way, records: seq<seq<Bytes>>, n: nat): seq<Bytes>
    requires |records| == |way|
  {
    if n == 0 then []
    else
      var block := At(way, n - 1);
      Gathered(way, records, n - 1) + if Ended(way, block) then [] else records[block]
  }

  /** However many steps are counted, a walk that ended has read one thing. */
  lemma {:induction false} OneResult(way: Way, records: seq<seq<Bytes>>, m: nat, n: nat)
    requires |records| == |way| && m <= n && Over(way, m)
    ensures Gathered(way, records, n) == Gathered(way, records, m)
  {
    if m < n {
      OneResult(way, records, m, n - 1);
      OverStays(way, m, n - 1);
    }
  }

  // ---------------------------------------------------- the walk of the header blocks

  predicate IsPax(typeflag: Byte) {
    typeflag == 120 || typeflag == 103   // 'x' and 'g'
  }

  /** `Math.ceil(size / BLOCK)`. */
  function DataBlocks(size: int): int {
    (size + 511) / 512
  }

  /** The block after a header and its data; at or before the header when the size is -512 or less. */
  function NextBlock(block: int, size: Option<int>): Option<int> {
    match size
    case None => None
    case Some(n) => Some(block + DataBlocks(n) + 1)
  }

  /** What each block holds as a size, when it is read as a header. */
  predicate HasSizes(raw: Bytes, sizes: seq<Option<int>>) {
    && |sizes| == BlocksIn(raw)
    && forall block {:trigger SizeAt(raw, OffsetOf(block))} :: 0 <= block < |sizes| ==> sizes[block] == SizeAt(raw, OffsetOf(block))
  }

  /** Every archive has them. */
  function SizesOf(raw: Bytes): (sizes: seq<Option<int>>)
    ensures HasSizes(raw, sizes)
  {
    seq(BlocksIn(raw), block => SizeAt(raw, OffsetOf(block)))
  }

  function WayOf(sizes: seq<Option<int>>): (way: Way)
    ensures |way| == |sizes|
    ensures forall block :: 0 <= block < |way| ==> way[block] == NextBlock(block, sizes[block])
  {
    seq(|sizes|, block requires 0 <= block < |sizes| => NextBlock(block, sizes[block]))
  }

  /** The records with the header's payload pushed, if it is a pax header. */
  function Pushed(raw: Bytes, offset: nat, size: int, records: seq<Bytes>): seq<Bytes>
    requires offset + BLOCK <= |raw|
  {
    if IsPax(raw[offset + TYPEFLAG_AT]) then records + [Text(raw, offset + BLOCK, offset + BLOCK + size)] else records
  }

  function RecordAt(raw: Bytes, block: nat, size: Option<int>): seq<Bytes>
    requires OffsetOf(block) + BLOCK <= |raw|
  {
    if size.Some? then Pushed(raw, OffsetOf(block), size.value, []) else []
  }

  function RecordsOf(raw: Bytes, sizes: seq<Option<int>>): (records: seq<seq<Bytes>>)
    requires |sizes| == BlocksIn(raw)
    ensures |records| == |sizes|
    ensures forall block :: 0 <= block < |records| ==> records[block] == RecordAt(raw, block, sizes[block])
  {
    seq(|sizes|, block requires 0 <= block < |sizes| => RecordAt(raw, block, sizes[block]))
  }

  /** The records of the first `n` headers. */
  function Collected(raw: Bytes, sizes: seq<Option<int>>, n: nat): seq<Bytes>
    requires |sizes| == BlocksIn(raw)
  {
    Gathered(WayOf(sizes), RecordsOf(raw, sizes), n)
  }

  /** Before the first byte there is no size to read. */
  lemma NothingBeforeTheArchive(raw: Bytes, offset: int)
    requires offset <= -BLOCK
    ensures SizeAt(raw, offset) == None
  {
    assert Text(raw, offset + SIZE_AT, offset + SIZE_END) == [];
    assert TrimStart([]) == [] && TrimEnd([]) == [] && ParseInt8([]) == None;
  }

  /** What the loop reads at an offset is what the block holds. */
  lemma SizeHere(raw: Bytes, sizes: seq<Option<int>>, block: int)
    requires HasSizes(raw, sizes) && OffsetOf(block) + BLOCK <= |raw|
    ensures block < |sizes| && SizeAt(raw, OffsetOf(block)) == if block < 0 then None else sizes[block]
  {
    if block < 0 { NothingBeforeTheArchive(raw, OffsetOf(block)); }
  }

  predicate Forward(size: Option<int>) {
    size.Some? ==> size.value > -BLOCK
  }

  /** A look at the size fields alone, block by block, is enough to know that the walk ends. */
  lemma ForwardSizesEnd(sizes: seq<Option<int>>)
    requires forall block :: 0 <= block < |sizes| ==> Forward(sizes[block])
    ensures NeverReturns(WayOf(sizes))
  {
    assert OnlyForward(WayOf(sizes));
    ForwardNeverReturns(WayOf(sizes));
  }

  /** What a first size that leads back does: one of about minus one block keeps
      the walk for ever, a smaller one ends it at once. */
  lemma BackwardFirstSize(sizes: seq<Option<int>>)
    requires sizes != [] && sizes[0].Some? && sizes[0].value <= -BLOCK
    ensures Ends(WayOf(sizes)) <==> sizes[0].value <= -2 * BLOCK
  {
    var way := WayOf(sizes);
    assert At(way, 0) == 0 && At(way, 1) == DataBlocks(sizes[0].value) + 1;
    if sizes[0].value <= -2 * BLOCK {
      assert Over(way, 1);
    } else {
      assert Returns(way, 0, 1);
      EndsIffNeverReturns(way);
    }
  }

  /** "-0000001000", octal for minus one block. */
  const MINUS_ONE_BLOCK: Bytes := [45, 48, 48, 48, 48, 48, 48, 49, 48, 48, 48]

  lemma MinusOneBlockReads()
    ensures SizeOf(MINUS_ONE_BLOCK) == Some(-512)
  {
    var zeros: Bytes := [48, 48, 48, 48, 48, 48];
    var digits := MINUS_ONE_BLOCK[1..];
    assert digits == zeros + [49] + [48] + [48] + [48];
    ZerosAreNothing(zeros);
    ValueOfMore(zeros, 49);
    ValueOfMore(zeros + [49], 48);
    ValueOfMore(zeros + [49] + [48], 48);
    ValueOfMore(zeros + [49] + [48] + [48], 48);
    NegativeSize(MINUS_ONE_BLOCK, digits);
  }

  lemma FirstSizeIsMinusOneBlock(raw: Bytes)
    requires |raw| >= BLOCK && raw[SIZE_AT..SIZE_END] == MINUS_ONE_BLOCK
    ensures SizeAt(raw, 0) == Some(-512)
  {
    assert Text(raw, 0 + SIZE_AT, 0 + SIZE_END) == raw[SIZE_AT..SIZE_END];
    MinusOneBlockReads();
  }

  /** Any archive that starts with such a size keeps the walk for ever. */
  lemma MinusOneBlockNeverEnds(raw: Bytes, sizes: seq<Option<int>>)
    requires HasSizes(raw, sizes) && |raw| >= BLOCK && raw[SIZE_AT..SIZE_END] == MINUS_ONE_BLOCK
    ensures sizes[0] == Some(-512) && !Ends(WayOf(sizes))
  {
    FirstSizeIsMinusOneBlock(raw);
    assert OffsetOf(0) == 0;
    SizeHere(raw, sizes, 0);
    BackwardFirstSize(sizes);
  }

  lemma ValueOfMore(s: Bytes, b: Byte)
    ensures OctalValue(s + [b]) == OctalValue(s) * 8 + (b as int - 48)
  {
    assert (s + [b])[..|s|] == s;
  }

  lemma {:induction false} ZerosAreNothing(s: Bytes)
    requires forall i :: 0 <= i < |s| ==> s[i] == 48
    ensures OctalValue(s) == 0
  {
    if s != [] {
      ZerosAreNothing(s[..|s| - 1]);
    }
  }

  lemma NegativeSize(field: Bytes, digits: Bytes)
    requires field == [45] + digits && digits != [] && AllOctal(digits)
    ensures SizeOf(field) == Some(-OctalValue(digits))
  {
    NothingToStrip(field, digits);
    AllIsPrefix(digits);
    assert field[1..] == digits;
  }

  lemma NothingToStrip(field: Bytes, digits: Bytes)
    requires field == [45] + digits && digits != [] && AllOctal(digits)
    ensures TrimEnd(TrimStart(CutAtNul(AsAscii(field)))) == field
  {
    assert forall i :: 0 <= i < |field| ==> field[i] == 45 || IsOctal(field[i]);
    assert AsAscii(field) == field;
    NothingIsCut(field);
    assert IsOctal(field[|field| - 1]);
  }

  /** One turn of the loop. */
  lemma ReadsHeader(raw: Bytes, sizes: seq<Option<int>>, n: nat, block: nat, size: int)
    requires |sizes| == BlocksIn(raw) && At(WayOf(sizes), n) == block < |sizes| && sizes[block] == Some(size)
    ensures !Over(WayOf(sizes), n)
    ensures At(WayOf(sizes), n + 1) == block + DataBlocks(size) + 1
    ensures Collected(raw, sizes, n + 1) == Collected(raw, sizes, n) + RecordAt(raw, block, sizes[block])
  {
  }

  /** One turn of the loop, at the `n`-th header. */
  lemma OneTurn(raw: Bytes, sizes: seq<Option<int>>, n: nat, offset: int, size: int)
    requires HasSizes(raw, sizes) && offset == OffsetOf(At(WayOf(sizes), n)) && offset + BLOCK <= |raw|
    requires SizeAt(raw, offset) == Some(size)
    ensures offset >= 0 && !Over(WayOf(sizes), n)
    ensures OffsetOf(At(WayOf(sizes), n + 1)) == offset + OffsetOf(DataBlocks(size)) + BLOCK
    ensures Collected(raw, sizes, n + 1) == Pushed(raw, offset, size, Collected(raw, sizes, n))
  {
    var block, records := At(WayOf(sizes), n), Collected(raw, sizes, n);
    SizeHere(raw, sizes, block);
    ReadsHeader(raw, sizes, n, block, size);
    assert records + [] == records;
  }

  /** Where the loop stops. */
  lemma NoTurn(raw: Bytes, sizes: seq<Option<int>>, n: nat, offset: int)
    requires HasSizes(raw, sizes) && offset == OffsetOf(At(WayOf(sizes), n))
    requires offset + BLOCK > |raw| || SizeAt(raw, offset) == None
    ensures Over(WayOf(sizes), n)
  {
    if offset + BLOCK <= |raw| { SizeHere(raw, sizes, At(WayOf(sizes), n)); }
  }

  /** Where the loop is after `n` headers. */
  ghost predicate Progress(raw: Bytes, sizes: seq<Option<int>>, n: nat, offset: int, records: seq<Bytes>)
    requires |sizes| == BlocksIn(raw)
  {
    n <= |sizes| && offset == OffsetOf(At(WayOf(sizes), n)) && records == Collected(raw, sizes, n)
  }

  lemma ProgressGoesOn(raw: Bytes, sizes: seq<Option<int>>, n: nat, offset: int, records: seq<Bytes>, size: int)
    requires HasSizes(raw, sizes) && NeverReturns(WayOf(sizes))
    requires Progress(raw, sizes, n, offset, records) && offset + BLOCK <= |raw| && SizeAt(raw, offset) == Some(size)
    ensures offset >= 0 && n < |sizes|
    ensures offset >= 0 ==>
              Progress(raw, sizes, n + 1, offset + OffsetOf(DataBlocks(size)) + BLOCK, Pushed(raw, offset, size, records))
  {
    OneTurn(raw, sizes, n, offset, size);
    FewerStepsThanBlocks(WayOf(sizes), n);
  }

  /** The loop, with the place where it stops. */
  method ReadHeaders(raw: Bytes, ghost sizes: seq<Option<int>>)
    returns (records: seq<Bytes>, ghost n: nat, ghost last: int)
    requires HasSizes(raw, sizes) && NeverReturns(WayOf(sizes))
    ensures Progress(raw, sizes, n, last, records)
    ensures last + BLOCK > |raw| || SizeAt(raw, last) == None
  {
    records := [];
    var offset := 0;
    n := 0;
    while offset + BLOCK <= |raw|
      invariant Progress(raw, sizes, n, offset, records)
      decreases |sizes| - n
    {
      var size := SizeAt(raw, offset);
      if size.None? {
        break;
      }
      ProgressGoesOn(raw, sizes, n, offset, records, size.value);
      records := Pushed(raw, offset, size.value, records);
      offset := offset + OffsetOf(DataBlocks(size.value));
      offset := offset + BLOCK;
      n := n + 1;
    }
    last := offset;
  }

  /** Given an archive whose walk ends; `sizes` are its size fields, block by block. */
  method PaxHeaderRecords(raw: Bytes, ghost sizes: seq<Option<int>>) returns (records: seq<Bytes>)
    requires HasSizes(raw, sizes) && NeverReturns(WayOf(sizes))
    ensures records == Collected(raw, sizes, |sizes|)
  {
    ghost var n: nat, last: int;
    records, n, last := ReadHeaders(raw, sizes);
    NoTurn(raw, sizes, n, last);
    OneResult(WayOf(sizes), RecordsOf(raw, sizes), n, |sizes|);
  }

  // --------------------------------------------------------------- the writer

  /** A member as a writer knows it; `header` is its header block but for the
      size field and the typeflag, `fill` whatever pads the data. */
  datatype Member = Member(header: Bytes, typeflag: Byte, data: Bytes, fill: Bytes)

  function OctalField(n: nat, width: nat): (field: Bytes)
    ensures |field| == width
    ensures forall i :: 0 <= i < width ==> IsOctal(field[i])
  {
    if width == 0 then [] else OctalField(n / 8, width - 1) + [48 + n % 8]
  }

  function Power8(width: nat): nat {
    if width == 0 then 1 else 8 * Power8(width - 1)
  }

  function PaddingFor(n: nat): nat {
    OffsetOf(DataBlocks(n)) - n
  }

  predicate Writable(m: Member) {
    |m.header| == BLOCK && |m.data| < Power8(SIZE_END - SIZE_AT) && |m.fill| == PaddingFor(|m.data|)
  }

  function HeaderBlock(m: Member): (block: Bytes)
    requires Writable(m)
    ensures |block| == BLOCK
  {
    m.header[..SIZE_AT] + OctalField(|m.data|, SIZE_END - SIZE_AT) + m.header[SIZE_END..TYPEFLAG_AT]
    + [m.typeflag] + m.header[TYPEFLAG_AT + 1..]
  }

  function MemberBytes(m: Member): (bytes: Bytes)
    requires Writable(m)
    ensures |bytes| == BLOCK + OffsetOf(DataBlocks(|m.data|))
  {
    HeaderBlock(m) + m.data + m.fill
  }

  function Layout(members: seq<Member>): Bytes
    requires forall m <- members :: Writable(m)
  {
    if members == [] then []
    else Layout(members[..|members| - 1]) + MemberBytes(members[|members| - 1])
  }

  /** The payload of a member of type 'x' or 'g'. */
  function PaxPayload(m: Member): seq<Bytes> {
    if m.typeflag == 0x78 || m.typeflag == 0x67 then [m.data] else []
  }

  function PaxPayloads(members: seq<Member>): seq<Bytes> {
    if members == [] then [] else PaxPayloads(members[..|members| - 1]) + PaxPayload(members[|members| - 1])
  }

  /** What may end an archive: less than a block, or a block with no size, such
      as the zero blocks of the format. */
  predicate EndsArchive(trailer: Bytes) {
    |trailer| < BLOCK || SizeOf(trailer[SIZE_AT..SIZE_END]).None?
  }

  lemma {:induction false} OctalFieldHoldsTheNumber(n: nat, width: nat)
    requires n < Power8(width)
    ensures OctalValue(OctalField(n, width)) == n
  {
    if width > 0 {
      OctalFieldHoldsTheNumber(n / 8, width - 1);
      var field := OctalField(n, width);
      assert field[..width - 1] == OctalField(n / 8, width - 1);
    }
  }

  predicate AllOctal(s: Bytes) {
    forall i :: 0 <= i < |s| ==> IsOctal(s[i])
  }

  lemma {:induction false} NothingIsCut(s: Bytes)
    requires forall i :: 0 <= i < |s| ==> s[i] != 0
    ensures CutAtNul(s) == s
  {
    if s != [] {
      NothingIsCut(s[1..]);
      assert s == [s[0]] + s[1..];
    }
  }

  lemma {:induction false} AllIsPrefix(s: Bytes)
    requires AllOctal(s)
    ensures OctalPrefix(s) == s
  {
    if s != [] {
      AllIsPrefix(s[1..]);
      assert IsOctal(s[0]) && s == [s[0]] + s[1..];
    }
  }

  lemma DigitsAreKept(s: Bytes)
    requires AllOctal(s)
    ensures AsAscii(s) == s && TrimStart(s) == s && TrimEnd(s) == s
  {
    if s != [] {
      assert IsOctal(s[0]) && IsOctal(s[|s| - 1]);
    }
  }

  lemma SizeReadsBack(n: nat)
    requires n < Power8(SIZE_END - SIZE_AT)
    ensures SizeOf(OctalField(n, SIZE_END - SIZE_AT)) == Some(n)
  {
    var field := OctalField(n, SIZE_END - SIZE_AT);
    DigitsAreKept(field);
    assert forall i :: 0 <= i < |field| ==> IsOctal(field[i]);
    NothingIsCut(field);
    AllIsPrefix(field);
    OctalFieldHoldsTheNumber(n, SIZE_END - SIZE_AT);
    assert IsOctal(field[0]);
  }

  lemma ZeroBlockEndsArchive(trailer: Bytes)
    requires |trailer| >= BLOCK && forall i :: 0 <= i < BLOCK ==> trailer[i] == 0
    ensures EndsArchive(trailer)
  {
    var field := trailer[SIZE_AT..SIZE_END];
    var ascii := AsAscii(field);
    assert |ascii| == SIZE_END - SIZE_AT && forall i :: 0 <= i < |ascii| ==> ascii[i] == 0;
    assert !exists b <- ascii :: IsLineEnd(b);
    var cut := CutAtNul(ascii);
    assert cut == [] && TrimStart(cut) == cut && TrimEnd(cut) == cut && OctalPrefix(cut) == [];
    assert ParseInt8(cut) == None;
  }

  lemma {:induction false} LayoutGoesOn(members: seq<Member>, i: nat)
    requires (forall m <- members :: Writable(m)) && i <= |members|
    ensures Layout(members[..i]) <= Layout(members)
  {
    if i < |members| {
      LayoutGoesOn(members[..|members| - 1], i);
      assert members[..|members| - 1][..i] == members[..i];
    } else {
      assert members[..i] == members;
    }
  }

  lemma ReadsFields(m: Member, here: Bytes)
    requires Writable(m) && here == MemberBytes(m)
    ensures here[SIZE_AT..SIZE_END] == OctalField(|m.data|, SIZE_END - SIZE_AT)
    ensures here[TYPEFLAG_AT] == m.typeflag
    ensures here[BLOCK..BLOCK + |m.data|] == m.data
  {
    var head := HeaderBlock(m);
    assert here[SIZE_AT..SIZE_END] == head[SIZE_AT..SIZE_END];
    assert here[TYPEFLAG_AT] == head[TYPEFLAG_AT];
  }

  lemma TextWithin(raw: Bytes, at: nat, here: Bytes, from: nat, to: nat)
    requires at + |here| <= |raw| && raw[at..at + |here|] == here && from <= to <= |here|
    ensures Text(raw, at + from, at + to) == here[from..to]
  {
    forall i | from <= i < to ensures raw[at + i] == here[i] {
      assert raw[at..at + |here|][i] == raw[at + i];
    }
    assert raw[at + from..at + to] == here[from..to];
  }

  lemma ReadsMemberSize(raw: Bytes, offset: nat, m: Member)
    requires Writable(m) && offset + |MemberBytes(m)| <= |raw|
    requires raw[offset..offset + |MemberBytes(m)|] == MemberBytes(m)
    ensures SizeAt(raw, offset) == Some(|m.data|)
  {
    ReadsFields(m, MemberBytes(m));
    TextWithin(raw, offset, MemberBytes(m), SIZE_AT, SIZE_END);
    SizeReadsBack(|m.data|);
  }

  lemma ByteWithin(raw: Bytes, at: nat, bytes: Bytes, i: nat)
    requires at + |bytes| <= |raw| && raw[at..at + |bytes|] == bytes && i < |bytes|
    ensures raw[at + i] == bytes[i]
  {
  }

  lemma ReadsMemberRecord(raw: Bytes, block: nat, m: Member)
    requires Writable(m) && OffsetOf(block) + |MemberBytes(m)| <= |raw|
    requires raw[OffsetOf(block)..OffsetOf(block) + |MemberBytes(m)|] == MemberBytes(m)
    ensures RecordAt(raw, block, Some(|m.data|)) == PaxPayload(m)
  {
    var bytes, at := MemberBytes(m), OffsetOf(block);
    ReadsFields(m, bytes);
    TextWithin(raw, at, bytes, BLOCK, BLOCK + |m.data|);
    ByteWithin(raw, at, bytes, TYPEFLAG_AT);
  }

  /** A header the walk is at, read as its writer meant it. */
  lemma ReadsMember(raw: Bytes, sizes: seq<Option<int>>, block: nat, m: Member)
    requires HasSizes(raw, sizes) && Writable(m) && OffsetOf(block) + |MemberBytes(m)| <= |raw|
    requires raw[OffsetOf(block)..OffsetOf(block) + |MemberBytes(m)|] == MemberBytes(m)
    ensures block < |sizes| && sizes[block] == Some(|m.data|)
    ensures RecordAt(raw, block, Some(|m.data|)) == PaxPayload(m)
  {
    ReadsMemberSize(raw, OffsetOf(block), m);
    ReadsMemberRecord(raw, block, m);
    SizeHere(raw, sizes, block);
  }

  lemma MemberTurn(raw: Bytes, sizes: seq<Option<int>>, n: nat, block: nat, m: Member)
    requires HasSizes(raw, sizes) && Writable(m) && OffsetOf(block) + |MemberBytes(m)| <= |raw|
    requires raw[OffsetOf(block)..OffsetOf(block) + |MemberBytes(m)|] == MemberBytes(m)
    requires At(WayOf(sizes), n) == block
    ensures OffsetOf(At(WayOf(sizes), n + 1)) == OffsetOf(block) + |MemberBytes(m)|
    ensures Collected(raw, sizes, n + 1) == Collected(raw, sizes, n) + PaxPayload(m)
  {
    ReadsMember(raw, sizes, block, m);
    ReadsHeader(raw, sizes, n, block, |m.data|);
  }

  lemma MemberIsThere(members: seq<Member>, raw: Bytes, i: nat)
    requires (forall m <- members :: Writable(m)) && Layout(members) <= raw && i < |members|
    ensures var m, at := members[i], |Layout(members[..i])|;
            && at + |MemberBytes(m)| == |Layout(members[..i + 1])| <= |raw|
            && raw[at..at + |MemberBytes(m)|] == MemberBytes(m)
            && PaxPayloads(members[..i + 1]) == PaxPayloads(members[..i]) + PaxPayload(m)
  {
    var m, before, now := members[i], Layout(members[..i]), Layout(members[..i + 1]);
    LayoutGoesOn(members, i + 1);
    assert members[..i + 1][..i] == members[..i];
    assert now == before + MemberBytes(m) && now <= raw;
    FoundAfter(before, MemberBytes(m), raw);
  }

  lemma FoundAfter(before: Bytes, bytes: Bytes, raw: Bytes)
    requires before + bytes <= raw
    ensures raw[|before|..|before| + |bytes|] == bytes
  {
    assert raw[..|before| + |bytes|] == before + bytes;
  }

  lemma NextMember(members: seq<Member>, raw: Bytes, sizes: seq<Option<int>>, i: nat)
    requires (forall m <- members :: Writable(m)) && Layout(members) <= raw && i < |members|
    requires HasSizes(raw, sizes) && OffsetOf(At(WayOf(sizes), i)) == |Layout(members[..i])|
    ensures OffsetOf(At(WayOf(sizes), i + 1)) == |Layout(members[..i + 1])|
    ensures Collected(raw, sizes, i + 1) == Collected(raw, sizes, i) + PaxPayload(members[i])
    ensures PaxPayloads(members[..i + 1]) == PaxPayloads(members[..i]) + PaxPayload(members[i])
  {
    MemberIsThere(members, raw, i);
    MemberTurn(raw, sizes, i, At(WayOf(sizes), i), members[i]);
  }

  lemma {:induction false} WalkFollowsMembers(members: seq<Member>, raw: Bytes, sizes: seq<Option<int>>, i: nat)
    requires (forall m <- members :: Writable(m)) && Layout(members) <= raw && i <= |members|
    requires HasSizes(raw, sizes)
    ensures OffsetOf(At(WayOf(sizes), i)) == |Layout(members[..i])|
    ensures Collected(raw, sizes, i) == PaxPayloads(members[..i])
  {
    if i > 0 {
      WalkFollowsMembers(members, raw, sizes, i - 1);
      NextMember(members, raw, sizes, i - 1);
    }
  }

  lemma TrailerHasNoSize(before: Bytes, trailer: Bytes)
    requires EndsArchive(trailer) && |trailer| >= BLOCK
    ensures SizeAt(before + trailer, |before|) == None
  {
    var raw := before + trailer;
    assert Text(raw, |before| + SIZE_AT, |before| + SIZE_END) == trailer[SIZE_AT..SIZE_END];
  }

  /** For every list of members the walk ends behind the last one and has
      collected exactly the payloads of the pax members, in order, whatever file
      data looks like. */
  lemma WalkUndoesLayout(members: seq<Member>, trailer: Bytes, sizes: seq<Option<int>>)
    requires (forall m <- members :: Writable(m)) && EndsArchive(trailer)
    requires HasSizes(Layout(members) + trailer, sizes)
    ensures NeverReturns(WayOf(sizes))
    ensures Collected(Layout(members) + trailer, sizes, |sizes|) == PaxPayloads(members)
  {
    var raw, end := Layout(members) + trailer, |Layout(members)|;
    WalkFollowsMembers(members, raw, sizes, |members|);
    assert members[..|members|] == members;
    if end + BLOCK <= |raw| {
      TrailerHasNoSize(Layout(members), trailer);
    }
    NoTurn(raw, sizes, |members|, end);
    EndsIffNeverReturns(WayOf(sizes));
    if |members| <= |sizes| {
      OneResult(WayOf(sizes), RecordsOf(raw, sizes), |members|, |sizes|);
    } else {
      OneResult(WayOf(sizes), RecordsOf(raw, sizes), |sizes|, |members|);
    }
  }

  /** As the format ends archives: with zero blocks. */
  lemma ZeroBlocksEndTheWalk(members: seq<Member>, zeros: Bytes, sizes: seq<Option<int>>)
    requires (forall m <- members :: Writable(m)) && forall i :: 0 <= i < |zeros| ==> zeros[i] == 0
    requires HasSizes(Layout(members) + zeros, sizes)
    ensures NeverReturns(WayOf(sizes))
    ensures Collected(Layout(members) + zeros, sizes, |sizes|) == PaxPayloads(members)
  {
    if |zeros| >= BLOCK {
      ZeroBlockEndsArchive(zeros);
    }
    WalkUndoesLayout(members, zeros, sizes);
  }
}

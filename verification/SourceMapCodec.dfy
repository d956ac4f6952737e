/** The native source-map format: deltas, zig-zag, LEB128 (section 7.6 of DWARF 5) and base64url without
    padding (sections 3.2 and 5 of RFC 4648). Shifts and masks are written as arithmetic; every width is
    explicit. */
module SourceMapCodec {
  import opened Collections
  import opened Results

  const U32: int := 0x1_0000_0000
  const U64: int := 0x1_0000_0000_0000_0000
  const I64: int := 0x8000_0000_0000_0000

  type byte = x: int | 0 <= x < 0x100
  type u32 = x: int | 0 <= x < U32
  type u64 = x: int | 0 <= x < U64
  type i64 = x: int | -I64 <= x < I64

  type Bytes = seq<byte>

  // ---- LEB128 ---------------------------------------------------------------------------------------

  function Pow2(k: nat): (r: nat)
    ensures r > 0
  {
    if k == 0 then 1 else 2 * Pow2(k - 1)
  }

  function Uvarint(n: nat): Bytes {
    if n < 0x80 then [n] else [n % 0x80 + 0x80] + Uvarint(n / 0x80)
  }

  /** What reading from `pos` gives: the value and the position after it. */
  type Read<T> = Result<(T, nat)>

  /** The groups of seven bits read so far make up `value`; the next one counts `Pow2(shift)`. Bits
      that do not fit 64 fall off. */
  function ReadUvarintFrom(buf: Bytes, pos: nat, shift: nat, value: nat): (r: Read<nat>)
    requires pos <= |buf|
    ensures r.Ok? ==> pos < r.value.1 <= |buf|
    decreases |buf| - pos
  {
    if pos == |buf| then Err("uvarint: unexpected EOF")
    else
      var b := buf[pos];
      var value' := value + b % 0x80 * Pow2(shift) % U64;
      if b < 0x80 then Ok((value', pos + 1))
      else if shift + 7 >= 64 then Err("uvarint: overflow")
      else ReadUvarintFrom(buf, pos + 1, shift + 7, value')
  }

  function ReadUvarint(buf: Bytes, pos: nat): (r: Read<nat>)
    requires pos <= |buf|
    ensures r.Ok? ==> pos < r.value.1 <= |buf|
  {
    ReadUvarintFrom(buf, pos, 0, 0)
  }

  function ZigZag(n: i64): u64 {
    if n >= 0 then 2 * n else -2 * n - 1
  }

  function UnZigZag(z: nat): int {
    if z % 2 == 0 then z / 2 else -(z / 2) - 1
  }

  function Svarint(n: i64): Bytes {
    Uvarint(ZigZag(n))
  }

  function ReadSvarint(buf: Bytes, pos: nat): (r: Read<int>)
    requires pos <= |buf|
    ensures r.Ok? ==> pos < r.value.1 <= |buf|
  {
    match ReadUvarint(buf, pos)
    case Err(e) => Err(e)
    case Ok((z, p)) => Ok((UnZigZag(z), p))
  }

  // ---- Source maps ----------------------------------------------------------------------------------

  datatype ByteRange = ByteRange(start: u32, end: u32)
  {
    function Len(): u32 {
      if end >= start then end - start else 0
    }
  }

  datatype Mapping = Mapping(out: u32, src: Option<ByteRange>)

  function EncodeMapping(m: Mapping, prevOut: u32, prevStart: u32): Bytes {
    Svarint(m.out - prevOut)
    + match m.src
      case None => Uvarint(0)
      case Some(src) => Uvarint(1) + Svarint(src.start - prevStart) + Uvarint(src.Len())
  }

  /** The source position the next delta is taken from. */
  function NextStart(m: Mapping, prevStart: u32): u32 {
    if m.src.Some? then m.src.value.start else prevStart
  }

  function EncodeMappings(ms: seq<Mapping>, prevOut: u32, prevStart: u32): Bytes {
    if ms == [] then []
    else EncodeMapping(ms[0], prevOut, prevStart) + EncodeMappings(ms[1..], ms[0].out, NextStart(ms[0], prevStart))
  }

  function Encode(ms: seq<Mapping>): Bytes {
    Uvarint(|ms|) + EncodeMappings(ms, 0, 0)
  }

  /** Sums wrap around as 32-bit numbers. */
  function ToU32(n: int): u32 {
    n % U32
  }

  function ReadMapping(buf: Bytes, pos: nat, prevOut: u32, prevStart: u32): (r: Read<Mapping>)
    requires pos <= |buf|
    ensures r.Ok? ==> pos < r.value.1 <= |buf|
  {
    match ReadSvarint(buf, pos)
    case Err(e) => Err(e)
    case Ok((dOut, p1)) =>
      var out := ToU32(prevOut + dOut);
      match ReadUvarint(buf, p1)
      case Err(e) => Err(e)
      case Ok((hasSrc, p2)) =>
        if hasSrc == 0 then Ok((Mapping(out, None), p2))
        else if hasSrc != 1 then Err("invalid has_src tag")
        else
          match ReadSvarint(buf, p2)
          case Err(e) => Err(e)
          case Ok((dStart, p3)) =>
            match ReadUvarint(buf, p3)
            case Err(e) => Err(e)
            case Ok((len, p4)) =>
              var start := ToU32(prevStart + dStart);
              Ok((Mapping(out, Some(ByteRange(start, ToU32(start + ToU32(len))))), p4))
  }

  function ReadMappings(buf: Bytes, pos: nat, n: nat, prevOut: u32, prevStart: u32): (r: Read<seq<Mapping>>)
    requires pos <= |buf|
    ensures r.Ok? ==> pos <= r.value.1 <= |buf|
    decreases n
  {
    if n == 0 then Ok(([], pos))
    else
      match ReadMapping(buf, pos, prevOut, prevStart)
      case Err(e) => Err(e)
      case Ok((m, p)) =>
        Prepend([m], ReadMappings(buf, p, n - 1, m.out, NextStart(m, prevStart)))
  }

  function Prepend(ms: seq<Mapping>, r: Read<seq<Mapping>>): Read<seq<Mapping>> {
    match r
    case Err(e) => Err(e)
    case Ok((rest, p)) => Ok((ms + rest, p))
  }

  lemma PrependBoth(a: seq<Mapping>, b: seq<Mapping>, r: Read<seq<Mapping>>)
    ensures Prepend(a + b, r) == Prepend(a, Prepend(b, r))
  {
    if r.Ok? {
      assert a + b + r.value.0 == a + (b + r.value.0);
    }
  }

  function Decode(buf: Bytes): Result<seq<Mapping>> {
    match ReadUvarint(buf, 0)
    case Err(e) => Err(e)
    case Ok((n, p)) =>
      match ReadMappings(buf, p, n, 0, 0)
      case Err(e) => Err(e)
      case Ok((ms, q)) => if q == |buf| then Ok(ms) else Err("trailing bytes after sourcemap")
  }

  // ---- base64url ------------------------------------------------------------------------------------

  /** The letter of a group of six bits: `A`..`Z`, `a`..`z`, `0`..`9`, `-`, `_`. */
  function Letter(i: nat): byte
    requires i < 64
  {
    if i < 26 then 'A' as int + i
    else if i < 52 then 'a' as int + (i - 26)
    else if i < 62 then '0' as int + (i - 52)
    else if i == 62 then '-' as int
    else '_' as int
  }

  function Val(c: byte): (r: Option<nat>)
    ensures r.Some? ==> r.value < 64
  {
    if 'A' as int <= c <= 'Z' as int then Some(c - 'A' as int)
    else if 'a' as int <= c <= 'z' as int then Some(c - 'a' as int + 26)
    else if '0' as int <= c <= '9' as int then Some(c - '0' as int + 52)
    else if c == '-' as int then Some(62)
    else if c == '_' as int then Some(63)
    else None
  }

  function Group3(a: byte, b: byte, c: byte): (r: Bytes)
    ensures |r| == 4
  {
    var v := a * 0x10000 + b * 0x100 + c;
    [Letter(v / 0x40000 % 0x40), Letter(v / 0x1000 % 0x40), Letter(v / 0x40 % 0x40), Letter(v % 0x40)]
  }

  function Base64Encode(bytes: Bytes): Bytes {
    if |bytes| >= 3 then Group3(bytes[0], bytes[1], bytes[2]) + Base64Encode(bytes[3..])
    else if |bytes| == 2 then Group3(bytes[0], bytes[1], 0)[..3]
    else if |bytes| == 1 then Group3(bytes[0], 0, 0)[..2]
    else []
  }

  const BAD_CHAR := "base64url: bad char"

  /** The three bytes of four letters. */
  function Ungroup(a: nat, b: nat, c: nat, d: nat): (r: Bytes)
    requires a < 64 && b < 64 && c < 64 && d < 64
    ensures |r| == 3
  {
    var v := a * 0x40000 + b * 0x1000 + c * 0x40 + d;
    [v / 0x10000 % 0x100, v / 0x100 % 0x100, v % 0x100]
  }

  function Base64Decode(s: Bytes): Result<Bytes> {
    if s == [] then Ok([])
    else if |s| == 1 then Err("base64url: truncated input")
    else if |s| == 2 then
      match (Val(s[0]), Val(s[1]))
      case (Some(a), Some(b)) => Ok(Ungroup(a, b, 0, 0)[..1])
      case _ => Err(BAD_CHAR)
    else if |s| == 3 then
      match (Val(s[0]), Val(s[1]), Val(s[2]))
      case (Some(a), Some(b), Some(c)) => Ok(Ungroup(a, b, c, 0)[..2])
      case _ => Err(BAD_CHAR)
    else
      match (Val(s[0]), Val(s[1]), Val(s[2]), Val(s[3]))
      case (Some(a), Some(b), Some(c), Some(d)) =>
        (match Base64Decode(s[4..])
         case Err(e) => Err(e)
         case Ok(rest) => Ok(Ungroup(a, b, c, d) + rest))
      case _ => Err(BAD_CHAR)
  }

  // ---- The codec as it runs -------------------------------------------------------------------------

  class Sink {
    var bytes: Bytes

    constructor ()
      ensures bytes == []
    {
      bytes := [];
    }

    method Push(b: byte)
      modifies this
      ensures bytes == old(bytes) + [b]
    {
      bytes := bytes + [b];
    }

    method WriteUvarint(value: u64)
      modifies this
      ensures bytes == old(bytes) + Uvarint(value)
    {
      var n: nat := value;
      while n >= 0x80
        invariant bytes + Uvarint(n) == old(bytes) + Uvarint(value)
      {
        ghost var was := bytes;
        Push(n % 0x80 + 0x80);
        assert was + Uvarint(n) == bytes + Uvarint(n / 0x80);
        n := n / 0x80;
      }
      Push(n);
    }

    method WriteSvarint(n: i64)
      modifies this
      ensures bytes == old(bytes) + Svarint(n)
    {
      WriteUvarint(ZigZag(n));
    }

    method WriteMapping(m: Mapping, prevOut: u32, prevStart: u32)
      modifies this
      ensures bytes == old(bytes) + EncodeMapping(m, prevOut, prevStart)
    {
      WriteSvarint(m.out - prevOut);
      match m.src
      case None => WriteUvarint(0);
      case Some(src) =>
        WriteUvarint(1);
        WriteSvarint(src.start - prevStart);
        WriteUvarint(src.Len());
    }
  }

  lemma Regroup(a: Bytes, b: Bytes, c: Bytes)
    ensures a + (b + c) == a + b + c
  {
  }

  method EncodeBytes(ms: seq<Mapping>) returns (bytes: Bytes)
    requires |ms| < U64
    ensures bytes == Encode(ms)
  {
    var out := new Sink();
    out.WriteUvarint(|ms|);
    var prevOut: u32, prevStart: u32 := 0, 0;
    var i := 0;
    while i < |ms|
      invariant 0 <= i <= |ms|
      invariant out.bytes + EncodeMappings(ms[i..], prevOut, prevStart) == Encode(ms)
    {
      ghost var was := out.bytes;
      out.WriteMapping(ms[i], prevOut, prevStart);
      assert ms[i..][0] == ms[i] && ms[i..][1..] == ms[i + 1..];
      Regroup(was, EncodeMapping(ms[i], prevOut, prevStart), EncodeMappings(ms[i + 1..], ms[i].out, NextStart(ms[i], prevStart)));
      prevOut := ms[i].out;
      if ms[i].src.Some? {
        prevStart := ms[i].src.value.start;
      }
      i := i + 1;
    }
    assert ms[i..] == [];
    bytes := out.bytes;
  }

  class Cursor {
    const buf: Bytes
    var pos: nat

    ghost predicate Valid()
      reads this
    {
      pos <= |buf|
    }

    constructor (buf: Bytes)
      ensures Valid() && this.buf == buf && pos == 0
    {
      this.buf := buf;
      pos := 0;
    }

    /** A failed read may leave the cursor anywhere. */
    method TakeUvarint() returns (r: Result<nat>)
      requires Valid()
      modifies this
      ensures Valid()
      ensures match ReadUvarint(buf, old(pos))
              case Err(e) => r == Err(e)
              case Ok((n, p)) => r == Ok(n) && pos == p
    {
      var value: nat, shift: nat := 0, 0;
      while true
        invariant Valid()
        invariant ReadUvarintFrom(buf, pos, shift, value) == ReadUvarint(buf, old(pos))
        decreases |buf| - pos
      {
        if pos >= |buf| {
          return Err("uvarint: unexpected EOF");
        }
        var b := buf[pos];
        pos := pos + 1;
        value := value + b % 0x80 * Pow2(shift) % U64;
        if b < 0x80 {
          return Ok(value);
        }
        shift := shift + 7;
        if shift >= 64 {
          return Err("uvarint: overflow");
        }
      }
    }

    method TakeSvarint() returns (r: Result<int>)
      requires Valid()
      modifies this
      ensures Valid()
      ensures match ReadSvarint(buf, old(pos))
              case Err(e) => r == Err(e)
              case Ok((n, p)) => r == Ok(n) && pos == p
    {
      var z := TakeUvarint();
      match z
      case Err(e) => r := Err(e);
      case Ok(n) => r := Ok(UnZigZag(n));
    }

    method TakeMapping(prevOut: u32, prevStart: u32) returns (r: Result<Mapping>)
      requires Valid()
      modifies this
      ensures Valid()
      ensures match ReadMapping(buf, old(pos), prevOut, prevStart)
              case Err(e) => r == Err(e)
              case Ok((m, p)) => r == Ok(m) && pos == p
    {
      var dOut := TakeSvarint();
      if dOut.Err? {
        return Err(dOut.error);
      }
      var out := ToU32(prevOut + dOut.value);
      var hasSrc := TakeUvarint();
      if hasSrc.Err? {
        return Err(hasSrc.error);
      }
      if hasSrc.value == 0 {
        return Ok(Mapping(out, None));
      }
      if hasSrc.value != 1 {
        return Err("invalid has_src tag");
      }
      var dStart := TakeSvarint();
      if dStart.Err? {
        return Err(dStart.error);
      }
      var len := TakeUvarint();
      if len.Err? {
        return Err(len.error);
      }
      var start := ToU32(prevStart + dStart.value);
      return Ok(Mapping(out, Some(ByteRange(start, ToU32(start + ToU32(len.value))))));
    }

    method TakeMappings(n: nat) returns (r: Result<seq<Mapping>>)
      requires Valid()
      modifies this
      ensures Valid()
      ensures match ReadMappings(buf, old(pos), n, 0, 0)
              case Err(e) => r == Err(e)
              case Ok((ms, p)) => r == Ok(ms) && pos == p
    {
      hide ReadMapping;
      ghost var whole := ReadMappings(buf, pos, n, 0, 0);
      var ms: seq<Mapping> := [];
      var prevOut: u32, prevStart: u32 := 0, 0;
      assert whole.Ok? ==> [] + whole.value.0 == whole.value.0;
      var i := 0;
      while i < n
        invariant 0 <= i <= n && Valid()
        invariant Prepend(ms, ReadMappings(buf, pos, n - i, prevOut, prevStart)) == whole
      {
        var m := TakeMapping(prevOut, prevStart);
        if m.Err? {
          return Err(m.error);
        }
        var nextStart := NextStart(m.value, prevStart);
        PrependBoth(ms, [m.value], ReadMappings(buf, pos, n - i - 1, m.value.out, nextStart));
        ms, prevOut, prevStart, i := ms + [m.value], m.value.out, nextStart, i + 1;
      }
      assert ms + [] == ms;
      return Ok(ms);
    }
  }

  method DecodeBytes(buf: Bytes) returns (r: Result<seq<Mapping>>)
    ensures r == Decode(buf)
  {
    var c := new Cursor(buf);
    var count := c.TakeUvarint();
    if count.Err? {
      return Err(count.error);
    }
    r := c.TakeMappings(count.value);
    if r.Ok? && c.pos != |c.buf| {
      return Err("trailing bytes after sourcemap");
    }
  }

  /** Letters of whole groups first, then those of what is left over. */
  method EncodeText(bytes: Bytes) returns (out: Bytes)
    ensures out == Base64Encode(bytes)
  {
    out := [];
    var i := 0;
    while i + 3 <= |bytes|
      invariant 0 <= i <= |bytes|
      invariant out + Base64Encode(bytes[i..]) == Base64Encode(bytes)
    {
      assert bytes[i..][3..] == bytes[i + 3..];
      Regroup(out, Group3(bytes[i], bytes[i + 1], bytes[i + 2]), Base64Encode(bytes[i + 3..]));
      out := out + Group3(bytes[i], bytes[i + 1], bytes[i + 2]);
      i := i + 3;
    }
    if |bytes| - i == 1 {
      out := out + Group3(bytes[i], 0, 0)[..2];
    } else if |bytes| - i == 2 {
      out := out + Group3(bytes[i], bytes[i + 1], 0)[..3];
    }
  }

  function PrependBytes(out: Bytes, r: Result<Bytes>): Result<Bytes> {
    if r.Ok? then Ok(out + r.value) else r
  }

  method DecodeText(s: Bytes) returns (r: Result<Bytes>)
    ensures r == Base64Decode(s)
  {
    hide Val, Ungroup;
    var out: Bytes := [];
    var i := 0;
    PrependNone(Base64Decode(s));
    assert s[0..] == s;
    while i + 4 <= |s|
      invariant 0 <= i <= |s|
      invariant PrependBytes(out, Base64Decode(s[i..])) == Base64Decode(s)
    {
      var a, b, c, d := Val(s[i]), Val(s[i + 1]), Val(s[i + 2]), Val(s[i + 3]);
      if a.None? || b.None? || c.None? || d.None? {
        return Err(BAD_CHAR);
      }
      assert s[i..][4..] == s[i + 4..];
      var group := Ungroup(a.value, b.value, c.value, d.value);
      PrependStep(out, group, Base64Decode(s[i + 4..]));
      out := out + group;
      i := i + 4;
    }
    ghost var rest := s[i..];
    assert out + [] == out;
    if |s| - i == 1 {
      return Err("base64url: truncated input");
    } else if |s| - i == 2 {
      var a, b := Val(s[i]), Val(s[i + 1]);
      assert rest[0] == s[i] && rest[1] == s[i + 1];
      if a.None? || b.None? {
        return Err(BAD_CHAR);
      }
      out := out + Ungroup(a.value, b.value, 0, 0)[..1];
    } else if |s| - i == 3 {
      var a, b, c := Val(s[i]), Val(s[i + 1]), Val(s[i + 2]);
      assert rest[0] == s[i] && rest[1] == s[i + 1] && rest[2] == s[i + 2];
      if a.None? || b.None? || c.None? {
        return Err(BAD_CHAR);
      }
      out := out + Ungroup(a.value, b.value, c.value, 0)[..2];
    }
    return Ok(out);
  }

  lemma PrependNone(r: Result<Bytes>)
    ensures PrependBytes([], r) == r
  {
    if r.Ok? {
      assert [] + r.value == r.value;
    }
  }

  lemma PrependStep(out: Bytes, group: Bytes, r: Result<Bytes>)
    ensures PrependBytes(out + group, r) == PrependBytes(out, PrependBytes(group, r))
  {
    if r.Ok? {
      assert out + group + r.value == out + (group + r.value);
    }
  }

  // ---- Round trips ----------------------------------------------------------------------------------

  lemma {:induction false} Pow2Add(a: nat, b: nat)
    ensures Pow2(a + b) == Pow2(a) * Pow2(b)
  {
    if a > 0 {
      Pow2Add(a - 1, b);
    }
  }

  lemma {:induction false} Pow2Grows(a: nat, b: nat)
    requires a <= b
    ensures Pow2(a) <= Pow2(b)
  {
    if a < b {
      Pow2Grows(a, b - 1);
    }
  }

  lemma Pow2Of7(s: nat)
    ensures Pow2(s + 7) == 0x80 * Pow2(s)
  {
    Pow2Add(7, s);
    assert Pow2(7) == 0x80 by {
      assert Pow2(3) == 8 && Pow2(6) == 0x40;
    }
  }

  lemma Pow2Of64()
    ensures Pow2(64) == U64
  {
    Pow2Add(8, 8);
    Pow2Add(16, 16);
    Pow2Add(32, 32);
    assert Pow2(4) == 16 && Pow2(8) == 256;
  }

  /** The next seven bits, in their place, and the rest make up the whole. */
  lemma SplitGroup(n: nat, p: nat)
    ensures n % 0x80 * p + n / 0x80 * (0x80 * p) == n * p
  {
    assert n == n / 0x80 * 0x80 + n % 0x80;
    assert n * p == (n / 0x80 * 0x80) * p + n % 0x80 * p;
  }

  lemma Monotone(a: nat, b: nat, p: nat)
    requires a <= b
    ensures a * p <= b * p
  {
  }

  /** The next group of a number that fits, and what is left of it. */
  lemma GroupFits(n: nat, shift: nat)
    requires n * Pow2(shift) < U64
    ensures var p := Pow2(shift); n % 0x80 * p % U64 == n % 0x80 * p && n % 0x80 * p + n / 0x80 * (0x80 * p) == n * p
    ensures n >= 0x80 ==> shift + 7 < 64 && Pow2(shift + 7) == 0x80 * Pow2(shift) && n / 0x80 * Pow2(shift + 7) < U64
  {
    var p := Pow2(shift);
    SplitGroup(n, p);
    Monotone(n % 0x80, n, p);
    if n >= 0x80 {
      NextShiftFits(n, shift);
      Pow2Of7(shift);
      Monotone(0, n % 0x80, p);
    }
  }

  /** Reading back what was written, wherever it stands: the value comes back, and exactly the bytes
      written are consumed. */
  lemma {:induction false} ReadWritten(n: nat, before: Bytes, after: Bytes, shift: nat, value: nat)
    requires n * Pow2(shift) < U64
    ensures ReadUvarintFrom(before + Uvarint(n) + after, |before|, shift, value)
            == Ok((value + n * Pow2(shift), |before| + |Uvarint(n)|))
    decreases n
  {
    var buf := before + Uvarint(n) + after;
    GroupFits(n, shift);
    hide Pow2;
    if n < 0x80 {
      assert buf[|before|] == n && n % 0x80 == n;
    } else {
      var b, m, p := n % 0x80 + 0x80, n / 0x80, Pow2(shift);
      assert buf[|before|] == b && b % 0x80 == n % 0x80;
      assert buf == (before + [b]) + Uvarint(m) + after;
      ReadWritten(m, before + [b], after, shift + 7, value + n % 0x80 * p);
    }
  }

  /** A number that still needs two groups leaves room for another shift. */
  lemma NextShiftFits(n: nat, shift: nat)
    requires n >= 0x80 && n * Pow2(shift) < U64
    ensures shift + 7 < 64
  {
    Monotone(0x80, n, Pow2(shift));
    Pow2Of7(shift);
    Pow2Of64();
    if shift + 7 >= 64 {
      Pow2Grows(64, shift + 7);
    }
  }

  /** LEB128 round trip over all of u64. */
  lemma UvarintRoundTrip(n: u64, before: Bytes, after: Bytes)
    ensures ReadUvarint(before + Uvarint(n) + after, |before|) == Ok((n, |before| + |Uvarint(n)|))
  {
    assert Pow2(0) == 1;
    ReadWritten(n, before, after, 0, 0);
  }

  /** Zig-zag LEB128 round trip over all of i64. */
  lemma SvarintRoundTrip(n: i64, before: Bytes, after: Bytes)
    ensures ReadSvarint(before + Svarint(n) + after, |before|) == Ok((n, |before| + |Svarint(n)|))
  {
    UvarintRoundTrip(ZigZag(n), before, after);
  }

  /** What survives the format: a range that ends before it starts comes back empty. */
  function Clamped(m: Mapping): Mapping {
    match m.src
    case None => m
    case Some(src) => if src.start <= src.end then m else Mapping(m.out, Some(ByteRange(src.start, src.start)))
  }

  function ClampedAll(ms: seq<Mapping>): (r: seq<Mapping>)
    ensures |r| == |ms| && forall i :: 0 <= i < |ms| ==> r[i] == Clamped(ms[i])
  {
    if ms == [] then [] else [Clamped(ms[0])] + ClampedAll(ms[1..])
  }

  lemma MappingRoundTrip(m: Mapping, prevOut: u32, prevStart: u32, before: Bytes, after: Bytes)
    ensures ReadMapping(before + EncodeMapping(m, prevOut, prevStart) + after, |before|, prevOut, prevStart)
            == Ok((Clamped(m), |before| + |EncodeMapping(m, prevOut, prevStart)|))
  {
    hide Uvarint, Svarint, ReadUvarint, ReadSvarint;
    var w1, d1 := Svarint(m.out - prevOut), m.out - prevOut;
    match m.src
    case None =>
      var w2 := Uvarint(0);
      Regroup(before, w1, w2 + after);
      Regroup(before + w1, w2, after);
      SvarintRoundTrip(d1, before, w2 + after);
      UvarintRoundTrip(0, before + w1, after);
      assert before + EncodeMapping(m, prevOut, prevStart) + after == before + w1 + (w2 + after);
    case Some(src) =>
      SourcedRoundTrip(m, src, prevOut, prevStart, before, after);
  }

  lemma SourcedRoundTrip(m: Mapping, src: ByteRange, prevOut: u32, prevStart: u32, before: Bytes, after: Bytes)
    requires m.src == Some(src)
    ensures ReadMapping(before + EncodeMapping(m, prevOut, prevStart) + after, |before|, prevOut, prevStart)
            == Ok((Clamped(m), |before| + |EncodeMapping(m, prevOut, prevStart)|))
  {
    hide Uvarint, Svarint, ReadUvarint, ReadSvarint, ReadMapping;
    var w1, w2 := Svarint(m.out - prevOut), Uvarint(1);
    var w3, w4 := Svarint(src.start - prevStart), Uvarint(src.Len());
    var buf := before + EncodeMapping(m, prevOut, prevStart) + after;
    assert buf == before + w1 + (w2 + (w3 + (w4 + after)));
    SvarintRoundTrip(m.out - prevOut, before, w2 + (w3 + (w4 + after)));
    UvarintRoundTrip(1, before + w1, w3 + (w4 + after));
    Regroup(before + w1, w2, w3 + (w4 + after));
    SvarintRoundTrip(src.start - prevStart, before + w1 + w2, w4 + after);
    Regroup(before + w1 + w2, w3, w4 + after);
    UvarintRoundTrip(src.Len(), before + w1 + w2 + w3, after);
    Regroup(before + w1 + w2 + w3, w4, after);
    SourcedReads(buf, |before|, m, src, prevOut, prevStart, |before| + |w1|, |before| + |w1| + |w2|,
                 |before| + |w1| + |w2| + |w3|, |before| + |w1| + |w2| + |w3| + |w4|);
  }

  /** A mapping is what its four numbers say. */
  lemma SourcedReads(buf: Bytes, p0: nat, m: Mapping, src: ByteRange, prevOut: u32, prevStart: u32, p1: nat, p2: nat, p3: nat, p4: nat)
    requires m.src == Some(src) && p0 <= |buf| && p1 <= |buf| && p2 <= |buf| && p3 <= |buf|
    requires ReadSvarint(buf, p0) == Ok((m.out - prevOut, p1)) && ReadUvarint(buf, p1) == Ok((1, p2))
    requires ReadSvarint(buf, p2) == Ok((src.start - prevStart, p3)) && ReadUvarint(buf, p3) == Ok((src.Len(), p4))
    ensures ReadMapping(buf, p0, prevOut, prevStart) == Ok((Clamped(m), p4))
  {
    hide ReadSvarint, ReadUvarint;
  }

  lemma {:induction false} MappingsRoundTrip(ms: seq<Mapping>, prevOut: u32, prevStart: u32, before: Bytes, after: Bytes)
    ensures ReadMappings(before + EncodeMappings(ms, prevOut, prevStart) + after, |before|, |ms|, prevOut, prevStart)
            == Ok((ClampedAll(ms), |before| + |EncodeMappings(ms, prevOut, prevStart)|))
    decreases ms
  {
    hide EncodeMapping, ReadMapping;
    if ms == [] {
      assert before + EncodeMappings(ms, prevOut, prevStart) == before;
    } else {
      var m, first := ms[0], EncodeMapping(ms[0], prevOut, prevStart);
      var rest := EncodeMappings(ms[1..], m.out, NextStart(m, prevStart));
      assert before + (first + rest) + after == before + first + (rest + after);
      Regroup(before + first, rest, after);
      MappingRoundTrip(m, prevOut, prevStart, before, rest + after);
      MappingsRoundTrip(ms[1..], m.out, NextStart(m, prevStart), before + first, after);
    }
  }

  /** Decoding an encoded map gives the map back with its ranges clamped. So the map itself comes back
      if and only if no range ends before it starts. */
  lemma CodecRoundTrip(ms: seq<Mapping>)
    requires |ms| < U64
    ensures Decode(Encode(ms)) == Ok(ClampedAll(ms))
    ensures Decode(Encode(ms)) == Ok(ms)
            <==> forall i :: 0 <= i < |ms| && ms[i].src.Some? ==> ms[i].src.value.start <= ms[i].src.value.end
  {
    hide Encode, Decode, ClampedAll;
    ClampedSame(ms);
    EncodedReads(ms, []);
    assert Encode(ms) + [] == Encode(ms);
  }

  /** Bytes behind an encoded map are refused. */
  lemma TrailingBytes(ms: seq<Mapping>, extra: Bytes)
    requires |ms| < U64 && extra != []
    ensures Decode(Encode(ms) + extra) == Err("trailing bytes after sourcemap")
  {
    EncodedReads(ms, extra);
  }

  lemma EncodedReads(ms: seq<Mapping>, extra: Bytes)
    requires |ms| < U64
    ensures Decode(Encode(ms) + extra) == if extra == [] then Ok(ClampedAll(ms)) else Err("trailing bytes after sourcemap")
  {
    hide EncodeMappings, ReadMappings, Uvarint, ReadUvarint, ClampedAll, Decode;
    var count, rest := Uvarint(|ms|), EncodeMappings(ms, 0, 0);
    UvarintRoundTrip(|ms|, [], rest + extra);
    Regroup(count, rest, extra);
    assert [] + count + (rest + extra) == Encode(ms) + extra;
    MappingsRoundTrip(ms, 0, 0, count, extra);
    DecodeParts(Encode(ms) + extra, |ms|, |count|, ClampedAll(ms), |count| + |rest|);
  }

  lemma DecodeParts(buf: Bytes, n: nat, p: nat, ms: seq<Mapping>, end: nat)
    requires ReadUvarint(buf, 0) == Ok((n, p)) && ReadMappings(buf, p, n, 0, 0) == Ok((ms, end))
    ensures Decode(buf) == if end == |buf| then Ok(ms) else Err("trailing bytes after sourcemap")
  {
    hide ReadUvarint, ReadMappings;
  }

  lemma ClampedSame(ms: seq<Mapping>)
    ensures ClampedAll(ms) == ms
            <==> forall i :: 0 <= i < |ms| && ms[i].src.Some? ==> ms[i].src.value.start <= ms[i].src.value.end
  {
    var all := ClampedAll(ms);
    if all == ms {
      forall i | 0 <= i < |ms| && ms[i].src.Some?
        ensures ms[i].src.value.start <= ms[i].src.value.end
      {
        assert all[i] == Clamped(ms[i]);
      }
    } else {
      var i :| 0 <= i < |ms| && all[i] != ms[i];
    }
  }

  lemma LetterVal(i: nat)
    requires i < 64
    ensures Val(Letter(i)) == Some(i)
  {
  }

  /** A 24-bit number is its four groups of six bits. */
  lemma Sextets(v: nat)
    requires v < 0x100_0000
    ensures v / 0x40000 < 0x40
    ensures v / 0x40000 * 0x40000 + v / 0x1000 % 0x40 * 0x1000 + v / 0x40 % 0x40 * 0x40 + v % 0x40 == v
  {
    var v1 := v / 0x40;
    var v2 := v1 / 0x40;
    assert v == v1 * 0x40 + v % 0x40;
    assert v / 0x1000 == v2;
    assert v1 == v2 * 0x40 + v1 % 0x40;
    assert v / 0x40000 == v2 / 0x40;
  }

  lemma Octets(a: byte, b: byte, c: byte)
    ensures var v := a * 0x10000 + b * 0x100 + c;
            v < 0x100_0000 && v / 0x10000 % 0x100 == a && v / 0x100 % 0x100 == b && v % 0x100 == c
  {
    var v := a * 0x10000 + b * 0x100 + c;
    assert v == (a * 0x100 + b) * 0x100 + c;
    assert v / 0x100 == a * 0x100 + b;
    assert v / 0x10000 == a;
  }

  lemma FourLetters(a: byte, b: byte, c: byte)
    ensures var g := Group3(a, b, c);
            var v := a * 0x10000 + b * 0x100 + c;
            && v < 0x100_0000 && v / 0x40000 < 0x40
            && Val(g[0]) == Some(v / 0x40000) && Val(g[1]) == Some(v / 0x1000 % 0x40)
            && Val(g[2]) == Some(v / 0x40 % 0x40) && Val(g[3]) == Some(v % 0x40)
  {
    hide Letter, Val;
    var v := a * 0x10000 + b * 0x100 + c;
    Octets(a, b, c);
    Sextets(v);
    assert v / 0x40000 % 0x40 == v / 0x40000;
    LetterVal(v / 0x40000);
    LetterVal(v / 0x1000 % 0x40);
    LetterVal(v / 0x40 % 0x40);
    LetterVal(v % 0x40);
  }

  lemma TailZeros(a: byte, b: byte, c: byte)
    ensures var v := a * 0x10000 + b * 0x100 + c;
            (c == 0 ==> v % 0x40 == 0) && (b == 0 && c == 0 ==> v / 0x40 % 0x40 == 0)
  {
    var v := a * 0x10000 + b * 0x100 + c;
    if c == 0 {
      assert v == (a * 0x400 + b * 4) * 0x40;
      if b == 0 {
        assert v / 0x40 == a * 0x10 * 0x40;
      }
    }
  }

  lemma UngroupIs(w: nat, x: nat, y: nat, z: nat, a: byte, b: byte, c: byte)
    requires w < 64 && x < 64 && y < 64 && z < 64
    requires w * 0x40000 + x * 0x1000 + y * 0x40 + z == a * 0x10000 + b * 0x100 + c
    ensures Ungroup(w, x, y, z) == [a, b, c]
  {
    Octets(a, b, c);
  }

  /** Three bytes come back from their four letters. */
  lemma GroupRoundTrip(a: byte, b: byte, c: byte)
    ensures var g := Group3(a, b, c);
            && Val(g[0]).Some? && Val(g[1]).Some? && Val(g[2]).Some? && Val(g[3]).Some?
            && Ungroup(Val(g[0]).value, Val(g[1]).value, Val(g[2]).value, Val(g[3]).value) == [a, b, c]
            && (c == 0 ==> Val(g[3]).value == 0) && (b == 0 && c == 0 ==> Val(g[2]).value == 0)
  {
    hide Group3, Val, Ungroup;
    var v := a * 0x10000 + b * 0x100 + c;
    FourLetters(a, b, c);
    Sextets(v);
    TailZeros(a, b, c);
    UngroupIs(v / 0x40000, v / 0x1000 % 0x40, v / 0x40 % 0x40, v % 0x40, a, b, c);
  }

  /** base64url round trip, for every length. */
  lemma {:induction false} Base64RoundTrip(bytes: Bytes)
    ensures Base64Decode(Base64Encode(bytes)) == Ok(bytes)
    decreases |bytes|
  {
    hide Group3, Ungroup, Val;
    if |bytes| >= 3 {
      var g, rest := Group3(bytes[0], bytes[1], bytes[2]), Base64Encode(bytes[3..]);
      GroupRoundTrip(bytes[0], bytes[1], bytes[2]);
      Base64RoundTrip(bytes[3..]);
      DecodeGroup(g, rest);
      assert bytes == [bytes[0], bytes[1], bytes[2]] + bytes[3..];
    } else if |bytes| == 2 {
      GroupRoundTrip(bytes[0], bytes[1], 0);
      assert [bytes[0], bytes[1], 0][..2] == bytes;
    } else if |bytes| == 1 {
      GroupRoundTrip(bytes[0], 0, 0);
      assert [bytes[0], 0, 0][..1] == bytes;
    }
  }

  lemma DecodeGroup(g: Bytes, rest: Bytes)
    requires |g| == 4 && Val(g[0]).Some? && Val(g[1]).Some? && Val(g[2]).Some? && Val(g[3]).Some?
    ensures Base64Decode(g + rest)
            == PrependBytes(Ungroup(Val(g[0]).value, Val(g[1]).value, Val(g[2]).value, Val(g[3]).value), Base64Decode(rest))
  {
    hide Ungroup, Val;
    assert (g + rest)[4..] == rest;
  }

  /** The whole format: delta coding, zig-zag, LEB128 and base64url undone in turn. */
  lemma TextRoundTrip(ms: seq<Mapping>)
    requires |ms| < U64
    requires forall i :: 0 <= i < |ms| && ms[i].src.Some? ==> ms[i].src.value.start <= ms[i].src.value.end
    ensures var text := Base64Encode(Encode(ms));
            Base64Decode(text).Ok? && Decode(Base64Decode(text).value) == Ok(ms)
  {
    Base64RoundTrip(Encode(ms));
    CodecRoundTrip(ms);
  }
  // ---- What is on the wire ----------------------------------------------------------------------------

  /** Where the last source range before mapping `k` starts; zero when there is none. */
  function LastStart(ms: seq<Mapping>, k: nat): u32
    requires k <= |ms|
  {
    if k == 0 then 0
    else if ms[k - 1].src.Some? then ms[k - 1].src.value.start
    else LastStart(ms, k - 1)
  }

  /** If `j` is the last mapping before `k` that has a source, or -1 for none, that is where the delta is taken from. */
  lemma {:induction false} LastStartIs(ms: seq<Mapping>, k: nat, j: int)
    requires -1 <= j < k <= |ms| || (j == -1 && k == 0)
    requires j >= 0 ==> ms[j].src.Some?
    requires forall i :: j < i < k ==> ms[i].src.None?
    ensures LastStart(ms, k) == if j < 0 then 0 else ms[j].src.value.start
    decreases k
  {
    if k - 1 > j {
      LastStartIs(ms, k - 1, j);
    }
  }

  /** What mapping `k` is written as: how far its output lies behind that of the mapping before it; then no range, or
      how far its range lies behind the last one there was, and the range's length. */
  function Written(ms: seq<Mapping>, k: nat): Bytes
    requires k < |ms|
  {
    Svarint(ms[k].out - if k == 0 then 0 else ms[k - 1].out)
    + match ms[k].src
      case None => [0]
      case Some(src) =>
        [1] + Svarint(src.start - LastStart(ms, k)) + Uvarint(if src.start <= src.end then src.end - src.start else 0)
  }

  function WrittenUpTo(ms: seq<Mapping>, n: nat): Bytes
    requires n <= |ms|
  {
    if n == 0 then [] else WrittenUpTo(ms, n - 1) + Written(ms, n - 1)
  }

  lemma WrittenIs(ms: seq<Mapping>, k: nat)
    requires k < |ms|
    ensures EncodeMapping(ms[k], if k == 0 then 0 else ms[k - 1].out, LastStart(ms, k)) == Written(ms, k)
    ensures NextStart(ms[k], LastStart(ms, k)) == LastStart(ms, k + 1)
  {
    hide Uvarint, Svarint;
    OneByte();
    if ms[k].src.Some? {
      var a, b, c := Svarint(ms[k].out - if k == 0 then 0 else ms[k - 1].out), Svarint(ms[k].src.value.start - LastStart(ms, k)),
                     Uvarint(ms[k].src.value.Len());
      assert a + ([1] + b + c) == Written(ms, k);
    }
  }

  lemma OneByte()
    ensures Uvarint(0) == [0] && Uvarint(1) == [1]
  {
  }

  lemma {:induction false} WrittenFrom(ms: seq<Mapping>, k: nat)
    requires k <= |ms|
    ensures WrittenUpTo(ms, k) + EncodeMappings(ms[k..], if k == 0 then 0 else ms[k - 1].out, LastStart(ms, k))
            == WrittenUpTo(ms, |ms|)
    decreases |ms| - k
  {
    hide EncodeMapping, Written, LastStart, NextStart;
    if k == |ms| {
      assert ms[k..] == [];
    } else {
      assert ms[k..][0] == ms[k] && ms[k..][1..] == ms[k + 1..];
      WrittenIs(ms, k);
      WrittenFrom(ms, k + 1);
      Regroup(WrittenUpTo(ms, k), Written(ms, k), EncodeMappings(ms[k + 1..], ms[k].out, LastStart(ms, k + 1)));
    }
  }

  /** A map is written as the number of its mappings and then each of them, its source taken from the last earlier
      mapping that has one. */
  lemma EncodeIs(ms: seq<Mapping>)
    ensures Encode(ms) == Uvarint(|ms|) + WrittenUpTo(ms, |ms|)
  {
    hide Uvarint, EncodeMappings, Written, EncodeMapping;
    WrittenFrom(ms, 0);
    assert ms[0..] == ms;
    Regroup([], WrittenUpTo(ms, 0), EncodeMappings(ms, 0, 0));
    assert WrittenUpTo(ms, 0) == [];
  }

  lemma DivTwice(n: nat, p: nat)
    requires p > 0
    ensures n / 0x80 / p == n / (0x80 * p)
  {
    var q := n / 0x80 / p;
    var low := n % 0x80 + 0x80 * (n / 0x80 % p);
    assert n == 0x80 * (n / 0x80) + n % 0x80 && n / 0x80 == q * p + n / 0x80 % p;
    assert n == q * (0x80 * p) + low;
    assert n / 0x80 % p <= p - 1;
    assert 0 <= low < 0x80 * p;
    Quotient(n, 0x80 * p, q, low);
  }

  lemma Quotient(n: nat, m: nat, q: nat, r: nat)
    requires n == q * m + r && r < m
    ensures n / m == q
  {
    assert n == n / m * m + n % m;
    assert (n / m - q) * m == r - n % m;
    LargeMultiple(n / m - q, m);
  }

  lemma LargeMultiple(d: int, m: nat)
    ensures d == 0 || d * m >= m || d * m + m <= 0
  {
    if d > 0 {
      Monotone(1, d, m);
    } else if d < 0 {
      Monotone(1, -d, m);
    }
  }

  /** The bytes of a number are its groups of seven bits, the lowest first, as few as hold it, each but the last with
      the high bit set. */
  lemma {:induction false} UvarintGroups(n: nat, k: nat)
    requires k < |Uvarint(n)|
    ensures Uvarint(n)[k] == n / Pow2(7 * k) % 0x80 + if k + 1 < |Uvarint(n)| then 0x80 else 0
    ensures k + 1 < |Uvarint(n)| <==> n / Pow2(7 * k) >= 0x80
    decreases n
  {
    assert Pow2(0) == 1;
    if k > 0 {
      UvarintGroups(n / 0x80, k - 1);
      Pow2Of7(7 * (k - 1));
      assert 7 * (k - 1) + 7 == 7 * k;
      DivTwice(n, Pow2(7 * (k - 1)));
    }
  }

  function Size(n: int): nat {
    if n < 0 then -n else n
  }

  /** Signed numbers are numbered by size, each negative one just before its opposite. */
  lemma ZigZagOrder(n: i64, m: i64)
    ensures var a: int, b: int := Size(n), Size(m);
            ZigZag(n) < ZigZag(m) <==> a < b || (a == b && n < m)
  {
  }

  const UPPER := "ABCDEFGHIJKLMNOPQRSTUVWXYZ"
  const LOWER := "abcdefghijklmnopqrstuvwxyz"
  const DIGITS := "0123456789"
  const ALPHABET := UPPER + LOWER + DIGITS + "-_"

  function ByteOrZero(bytes: Bytes, i: nat): byte {
    if i < |bytes| then bytes[i] else 0
  }

  /** The `k`-th group of six bits, zeros behind the end. */
  function Sextet(bytes: Bytes, k: nat): (r: nat)
    ensures r < 64
  {
    var q := k / 4 * 3;
    SextetOf(ByteOrZero(bytes, q), ByteOrZero(bytes, q + 1), ByteOrZero(bytes, q + 2), k % 4)
  }

  function SextetOf(a: byte, b: byte, c: byte, k: nat): (r: nat)
    requires k < 4
    ensures r < 64
  {
    if k == 0 then a / 4 else if k == 1 then a % 4 * 16 + b / 16 else if k == 2 then b % 16 * 4 + c / 64 else c % 64
  }

  /** The four groups of six bits in 24. */
  lemma SixBits(a: byte, b: byte, c: byte)
    ensures var v := a * 0x10000 + b * 0x100 + c;
            && v / 0x40000 % 0x40 == a / 4 && v / 0x1000 % 0x40 == a % 4 * 16 + b / 16
            && v / 0x40 % 0x40 == b % 16 * 4 + c / 64 && v % 0x40 == c % 64
  {
    var v := a * 0x10000 + b * 0x100 + c;
    var a1, a0, b1, b0, c1, c0 := a / 4, a % 4, b / 16, b % 16, c / 64, c % 64;
    var x, y := a0 * 16 + b1, b0 * 4 + c1;
    var v1, v2 := (a1 * 0x40 + x) * 0x40 + y, a1 * 0x40 + x;
    SixBitsOf(a, b, c, a1, a0, b1, b0, c1, c0);
    SplitBits(v, v1, c0);
    SplitBits(v1, v2, y);
    SplitBits(v2, a1, x);
    assert v / 0x1000 == v / 0x40 / 0x40 && v / 0x40000 == v / 0x40 / 0x40 / 0x40;
  }

  lemma SixBitsOf(a: byte, b: byte, c: byte, a1: nat, a0: nat, b1: nat, b0: nat, c1: nat, c0: nat)
    requires a == a1 * 4 + a0 && b == b1 * 16 + b0 && c == c1 * 64 + c0
    ensures a * 0x10000 + b * 0x100 + c == ((a1 * 0x40 + (a0 * 16 + b1)) * 0x40 + (b0 * 4 + c1)) * 0x40 + c0
  {
  }

  /** A number and its lowest six bits. */
  lemma SplitBits(v: nat, high: nat, low: nat)
    requires v == high * 0x40 + low && low < 0x40
    ensures v / 0x40 == high && v % 0x40 == low
  {
  }

  lemma GroupSextets(a: byte, b: byte, c: byte, k: nat)
    requires k < 4
    ensures Group3(a, b, c)[k] == Letter(SextetOf(a, b, c, k))
  {
    hide Letter;
    SixBits(a, b, c);
  }

  lemma {:induction false} UpperLetter(i: nat)
    requires i < 26
    ensures UPPER[i] as int == 'A' as int + i && LOWER[i] as int == 'a' as int + i
  {
  }

  lemma Digit(i: nat)
    requires i < 10
    ensures DIGITS[i] as int == '0' as int + i
  {
  }

  lemma LetterOf(i: nat)
    requires i < 64
    ensures |ALPHABET| == 64 && Letter(i) == ALPHABET[i] as int
  {
    if i < 26 {
      UpperLetter(i);
    } else if i < 52 {
      UpperLetter(i - 26);
    } else if i < 62 {
      Digit(i - 52);
    }
  }

  /** The text has one letter of the alphabet for each six bits, without padding. */
  lemma {:induction false} LettersAre(bytes: Bytes, k: nat)
    ensures |Base64Encode(bytes)| == (4 * |bytes| + 2) / 3 && |ALPHABET| == 64
    ensures k < |Base64Encode(bytes)| ==> Base64Encode(bytes)[k] == ALPHABET[Sextet(bytes, k)] as int
    decreases |bytes|
  {
    hide Group3, Letter, SextetOf;
    LetterOf(Sextet(bytes, k));
    if |bytes| >= 3 {
      var rest := bytes[3..];
      LettersAre(rest, if k >= 4 then k - 4 else 0);
      if k < 4 {
        GroupSextets(bytes[0], bytes[1], bytes[2], k);
      } else {
        SextetShift(bytes, k);
      }
    } else if bytes != [] && k < 4 {
      GroupSextets(bytes[0], ByteOrZero(bytes, 1), 0, k);
    }
  }

  lemma SextetShift(bytes: Bytes, k: nat)
    requires |bytes| >= 3 && k >= 4
    ensures Sextet(bytes, k) == Sextet(bytes[3..], k - 4)
  {
    hide SextetOf;
    assert (k - 4) / 4 * 3 + 3 == k / 4 * 3 && (k - 4) % 4 == k % 4;
  }
  /** Only the letters of the alphabet have a value. */
  lemma InAlphabet(c: byte)
    ensures Val(c).Some? <==> c as char in ALPHABET
  {
    if Val(c).Some? {
      ValLetter(c);
      LetterOf(Val(c).value);
      assert ALPHABET[Val(c).value] == c as char;
    } else if c as char in ALPHABET {
      var i :| 0 <= i < |ALPHABET| && ALPHABET[i] == c as char;
      LetterOf(i);
      LetterVal(i);
    }
  }

  lemma ValLetter(c: byte)
    requires Val(c).Some?
    ensures Letter(Val(c).value) == c
  {
  }

  predicate AllLetters(s: Bytes) {
    forall i :: 0 <= i < |s| ==> s[i] as char in ALPHABET
  }

  lemma FirstLetters(s: Bytes, n: nat)
    requires n <= |s|
    ensures AllLetters(s) <==> (forall i :: 0 <= i < n ==> Val(s[i]).Some?) && AllLetters(s[n..])
  {
    hide Val;
    forall i | 0 <= i < |s|
      ensures Val(s[i]).Some? <==> s[i] as char in ALPHABET
      ensures i >= n ==> s[i] == s[n..][i - n]
    {
      InAlphabet(s[i]);
    }
  }

  /** A text decodes exactly when it has only letters of the alphabet and its length leaves no single one over. */
  lemma {:induction false} DecodesWhen(s: Bytes)
    ensures Base64Decode(s).Ok? <==> |s| % 4 != 1 && AllLetters(s)
    decreases |s|
  {
    hide Val, Ungroup, AllLetters;
    NoLetters();
    if |s| >= 4 {
      FirstLetters(s, 4);
      DecodesWhen(s[4..]);
    } else {
      FirstLetters(s, |s|);
      assert s[|s|..] == [];
    }
  }

  lemma NoLetters()
    ensures AllLetters([])
  {
  }
}

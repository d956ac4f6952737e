/** String escapes: the printer's chain of replacements, and the byte loop that renders a literal. */
module StringEscapes {
  import opened Collections

  type Byte = x: int | 0 <= x < 0x100
  type Bytes = seq<Byte>

  /** A character that a string can hold: a codepoint that is no surrogate. */
  type Scalar = c: int | 0 <= c < 0xD800 || 0xE000 <= c < 0x110000
  type Text = seq<Scalar>

  const BACKSLASH: Byte := 0x5C
  const QUOTE: Byte := 0x27

  // ---- UTF-8, section 3 of RFC 3629 -----------------------------------------------------------------

  function Encode(c: Scalar): (r: Bytes)
    ensures r != []
  {
    var lead: Byte := if c < 0x80 then c
                      else if c < 0x800 then 0xC0 + c / 0x40
                      else if c < 0x10000 then 0xE0 + c / 0x1000
                      else 0xF0 + c / 0x40000;
    if c < 0x80 then [lead]
    else if c < 0x800 then [lead, Continuation(c)]
    else if c < 0x10000 then [lead, Continuation(c / 0x40), Continuation(c)]
    else [lead, Continuation(c / 0x1000), Continuation(c / 0x40), Continuation(c)]
  }

  function Continuation(c: nat): (r: Byte)
    ensures 0x80 <= r < 0xC0
  {
    0x80 + c % 0x40
  }

  function EncodeAll(t: Text): Bytes {
    if t == [] then [] else Encode(t[0]) + EncodeAll(t[1..])
  }

  /** How long a sequence the byte starts, read off its leading bits. */
  function SeqLen(b: Byte): nat {
    if b >= 0xF0 then 4 else if b >= 0xE0 then 3 else if b >= 0xC0 then 2 else 1
  }

  // ---- The printer ----------------------------------------------------------------------------------

  /** Every `c` becomes `into`. */
  function Replace(t: Text, c: Scalar, into: Text): Text {
    if t == [] then [] else (if t[0] == c then into else [t[0]]) + Replace(t[1..], c, into)
  }

  function Escaped(c: Scalar): Text {
    [BACKSLASH, c]
  }

  /** One replacement after the other, the backslash first. */
  function EscapeChain(t: Text): Text {
    var t := Replace(t, BACKSLASH, Escaped(BACKSLASH));
    var t := Replace(t, 0x0A, Escaped('n' as int));
    var t := Replace(t, 0x0D, Escaped('r' as int));
    var t := Replace(t, 0x09, Escaped('t' as int));
    var t := Replace(t, 0x0B, Escaped('v' as int));
    var t := Replace(t, 0x08, Escaped('b' as int));
    var t := Replace(t, 0x0C, Escaped('f' as int));
    Replace(t, QUOTE, Escaped(QUOTE))
  }

  // ---- Rendering, as a function ---------------------------------------------------------------------

  function HexDigit(b: Byte): (r: Option<nat>)
    ensures r.Some? ==> r.value < 16 && b != 0
  {
    if '0' as int <= b <= '9' as int then Some(b - '0' as int)
    else if 'a' as int <= b <= 'f' as int then Some(b - 'a' as int + 10)
    else if 'A' as int <= b <= 'F' as int then Some(b - 'A' as int + 10)
    else None
  }

  /** The byte at `k`, zero past the end. */
  function At(s: Bytes, k: nat): Byte {
    if k < |s| then s[k] else 0
  }

  /** What a one-letter escape stands for. */
  function Simple(b: Byte): Option<Byte> {
    if b == 'n' as int then Some(0x0A)
    else if b == 'r' as int then Some(0x0D)
    else if b == 't' as int then Some(0x09)
    else if b == 'v' as int then Some(0x0B)
    else if b == 'b' as int then Some(0x08)
    else if b == 'f' as int then Some(0x0C)
    else if b == QUOTE || b == BACKSLASH || b == '$' as int then Some(b)
    else None
  }

  /** How far the digits go, their value in 32 bits, and how many there are. */
  datatype Digits = Digits(stop: nat, codepoint: nat, count: nat)

  /** The number with one more digit, in 32 bits. */
  function WithDigit(codepoint: nat, digit: nat): (r: nat)
    requires codepoint < 0x1_0000_0000 && digit < 16
    ensures r < 0x1_0000_0000
  {
    codepoint * 16 % 0x1_0000_0000 + digit
  }

  /** Reads hex digits and separators from `d.stop` up to the brace or the first other byte. */
  function ScanDigits(s: Bytes, d: Digits): (r: Digits)
    requires d.stop <= |s| && d.codepoint < 0x1_0000_0000
    ensures d.stop <= r.stop <= |s| && r.codepoint < 0x1_0000_0000
    decreases |s| - d.stop
  {
    if d.stop == |s| || s[d.stop] == '}' as int then d
    else if s[d.stop] == '_' as int then ScanDigits(s, d.(stop := d.stop + 1))
    else
      match HexDigit(s[d.stop])
      case None => d
      case Some(v) => ScanDigits(s, Digits(d.stop + 1, WithDigit(d.codepoint, v), d.count + 1))
  }

  predicate IsScalar(c: int) {
    0 <= c < 0xD800 || 0xE000 <= c < 0x110000
  }

  /** A codepoint that is no character renders as nothing. */
  function EncodeIfScalar(c: int): Bytes {
    if IsScalar(c) then Encode(c) else []
  }

  /** What the head of the bytes renders as, and how many bytes that takes. */
  datatype Piece = Piece(out: Bytes, taken: nat)

  function HeadPiece(s: Bytes): (r: Piece)
    requires s != []
    ensures 0 < r.taken <= |s|
  {
    if s[0] == BACKSLASH && |s| > 1 then
      if Simple(s[1]).Some? then Piece([Simple(s[1]).value], 2)
      else if s[1] == 'x' as int then
        match (HexDigit(At(s, 2)), HexDigit(At(s, 3)))
        case (Some(hi), Some(lo)) => Piece([HexByte(hi, lo)], 4)
        case _ => Piece([BACKSLASH, s[1]], 2)
      else if s[1] == 'u' as int && At(s, 2) == '{' as int then
        UnicodePiece(s, ScanDigits(s, Digits(3, 0, 0)))
      else Piece([BACKSLASH, s[1]], 2)
    else
      var n := if SeqLen(s[0]) <= |s| then SeqLen(s[0]) else |s|;
      Piece(s[..n], n)
  }

  function UnicodePiece(s: Bytes, d: Digits): (r: Piece)
    requires |s| > 2 && d.stop <= |s|
    ensures 0 < r.taken <= |s|
  {
    if d.count > 0 && d.stop < |s| && s[d.stop] == '}' as int
    then Piece(EncodeIfScalar(d.codepoint), d.stop + 1)
    else Piece([BACKSLASH, s[1]], 2)
  }

  function HexByte(hi: nat, lo: nat): Byte
    requires hi < 16 && lo < 16
  {
    hi * 16 + lo
  }

  function Cook(s: Bytes): Bytes
    decreases |s|
  {
    if s == [] then [] else HeadPiece(s).out + Cook(s[HeadPiece(s).taken..])
  }

  // ---- Rendering, as it runs ------------------------------------------------------------------------

  /** No byte starts a sequence that goes past the end. */
  ghost predicate Fits(s: Bytes) {
    forall k :: 0 <= k < |s| ==> k + SeqLen(s[k]) <= |s|
  }

  method Render(raw: Text) returns (out: Bytes)
    ensures out == Cook(EncodeAll(raw))
  {
    var bytes := EncodeAll(raw);
    TextFits(raw);
    hide Encode, EncodeAll, Cook, HeadPiece, UnicodePiece, ScanDigits, HexDigit, IsScalar, EncodeIfScalar, Simple;
    out := [];
    var i := 0;
    assert bytes[0..] == bytes;
    while i < |bytes|
      invariant 0 <= i <= |bytes| && out + Cook(bytes[i..]) == Cook(bytes)
    {
      CookHead(bytes[i..]);
      ghost var from := i;
      var piece: Bytes;
      if bytes[i] == BACKSLASH && i + 1 < |bytes| {
        piece, i := RenderEscape(bytes, i + 1);
      } else {
        var n := SeqLen(bytes[i]);
        piece := bytes[i..i + n];
        CopyPiece(bytes, i);
        i := i + n;
      }
      TakePiece(bytes, out, piece, from, i);
      out := out + piece;
    }
    CookNothing();
    assert bytes[i..] == [];
  }

  /** The escape whose letter is at `i`: what it renders as, and the index after it. */
  method RenderEscape(bytes: Bytes, i: nat) returns (piece: Bytes, next: nat)
    requires 0 < i < |bytes| && bytes[i - 1] == BACKSLASH
    ensures i < next <= |bytes| && HeadPiece(bytes[i - 1..]) == Piece(piece, next - i + 1)
  {
    hide Encode, EncodeAll, Cook, ScanDigits, HexDigit, IsScalar, EncodeIfScalar, Simple, UnicodePiece;
    var b := bytes[i];
    ghost var s := bytes[i - 1..];
    assert s[1] == b && At(s, 2) == At(bytes, i + 1) && At(s, 3) == At(bytes, i + 2);
    next := i;
    if Simple(b).Some? {
      piece := [Simple(b).value];
    } else if b == 'x' as int {
      var hi, lo := HexDigit(At(bytes, i + 1)), HexDigit(At(bytes, i + 2));
      if hi.Some? && lo.Some? {
        piece := [HexByte(hi.value, lo.value)];
        next := i + 2;
      } else {
        piece := [BACKSLASH, b];
      }
    } else if b == 'u' as int && At(bytes, i + 1) == '{' as int {
      piece, next := RenderUnicode(bytes, i);
      return;
    } else {
      piece := [BACKSLASH, b];
    }
    next := next + 1;
  }

  /** The braced escape whose letter is at `i`. */
  method RenderUnicode(bytes: Bytes, i: nat) returns (piece: Bytes, next: nat)
    requires 0 < i && i + 1 < |bytes| && bytes[i - 1] == BACKSLASH
    ensures i < next <= |bytes|
    ensures var s := bytes[i - 1..]; UnicodePiece(s, ScanDigits(s, Digits(3, 0, 0))) == Piece(piece, next - i + 1)
  {
    hide ScanDigits, HexDigit, EncodeIfScalar;
    ScanShift(bytes, i - 1, Digits(3, 0, 0));
    var d := ReadDigits(bytes, i + 2);
    ghost var s := bytes[i - 1..];
    assert s[1] == bytes[i] && (d.stop < |bytes| ==> s[d.stop - i + 1] == bytes[d.stop]);
    if d.count > 0 && d.stop < |bytes| && bytes[d.stop] == '}' as int {
      piece := EncodeIfScalar(d.codepoint);
      next := d.stop + 1;
    } else {
      piece := [BACKSLASH, bytes[i]];
      next := i + 1;
    }
  }

  // The scan by one byte.

  lemma DigitStep(bytes: Bytes, d: Digits, v: nat)
    requires d.stop < |bytes| && d.codepoint < 0x1_0000_0000 && bytes[d.stop] != '}' as int && bytes[d.stop] != '_' as int
    requires HexDigit(bytes[d.stop]) == Some(v)
    ensures v < 16 && ScanDigits(bytes, d) == ScanDigits(bytes, Digits(d.stop + 1, WithDigit(d.codepoint, v), d.count + 1))
  {
    hide HexDigit, WithDigit;
  }

  lemma SeparatorStep(bytes: Bytes, d: Digits)
    requires d.stop < |bytes| && d.codepoint < 0x1_0000_0000 && bytes[d.stop] == '_' as int
    ensures ScanDigits(bytes, d) == ScanDigits(bytes, d.(stop := d.stop + 1))
  {
    hide HexDigit, WithDigit;
  }

  lemma ScanStops(bytes: Bytes, d: Digits)
    requires d.stop <= |bytes| && d.codepoint < 0x1_0000_0000
    requires d.stop == |bytes| || bytes[d.stop] == '}' as int || (bytes[d.stop] != '_' as int && HexDigit(bytes[d.stop]) == None)
    ensures ScanDigits(bytes, d) == d
  {
    hide HexDigit, WithDigit;
  }

  /** Reads hex digits and separators from `start`. */
  method ReadDigits(bytes: Bytes, start: nat) returns (d: Digits)
    requires start <= |bytes|
    ensures d == ScanDigits(bytes, Digits(start, 0, 0))
  {
    hide HexDigit, WithDigit, ScanDigits;
    var codepoint: nat, digits: nat := 0, 0;
    var j := start;
    while j < |bytes| && bytes[j] != '}' as int
      invariant start <= j <= |bytes| && codepoint < 0x1_0000_0000
      invariant ScanDigits(bytes, Digits(j, codepoint, digits)) == ScanDigits(bytes, Digits(start, 0, 0))
    {
      if bytes[j] == '_' as int {
        SeparatorStep(bytes, Digits(j, codepoint, digits));
        j := j + 1;
      } else {
        var v := HexDigit(bytes[j]);
        if v.None? {
          break;
        }
        DigitStep(bytes, Digits(j, codepoint, digits), v.value);
        codepoint := WithDigit(codepoint, v.value);
        digits := digits + 1;
        j := j + 1;
      }
    }
    ScanStops(bytes, Digits(j, codepoint, digits));
    d := Digits(j, codepoint, digits);
  }

  lemma CookHead(s: Bytes)
    requires s != []
    ensures Cook(s) == HeadPiece(s).out + Cook(s[HeadPiece(s).taken..])
  {
  }

  lemma CopyPiece(bytes: Bytes, i: nat)
    requires i < |bytes| && (bytes[i] != BACKSLASH || i + 1 == |bytes|) && i + SeqLen(bytes[i]) <= |bytes|
    ensures HeadPiece(bytes[i..]) == Piece(bytes[i..i + SeqLen(bytes[i])], SeqLen(bytes[i]))
  {
    assert bytes[i..][..SeqLen(bytes[i])] == bytes[i..i + SeqLen(bytes[i])];
  }

  lemma TakePiece(bytes: Bytes, out: Bytes, piece: Bytes, i: nat, next: nat)
    requires i < next <= |bytes| && HeadPiece(bytes[i..]) == Piece(piece, next - i)
    ensures (out + piece) + Cook(bytes[next..]) == out + Cook(bytes[i..])
  {
    hide HeadPiece, Cook;
    CookPiece(bytes[i..], Piece(piece, next - i));
    DropTwice(bytes, i, next - i);
    Regroup(out, piece, Cook(bytes[next..]), Cook(bytes[i..]));
  }

  lemma CookPiece(s: Bytes, piece: Piece)
    requires s != [] && HeadPiece(s) == piece
    ensures Cook(s) == piece.out + Cook(s[piece.taken..])
  {
    hide HeadPiece;
  }

  lemma Regroup(out: Bytes, piece: Bytes, tail: Bytes, whole: Bytes)
    requires whole == piece + tail
    ensures (out + piece) + tail == out + whole
  {
    ConcatAssoc(out, piece, tail);
  }

  lemma DropTwice(s: Bytes, i: nat, n: nat)
    requires i + n <= |s|
    ensures s[i..][n..] == s[i + n..]
  {
  }

  lemma ConcatAssoc(a: Bytes, b: Bytes, c: Bytes)
    ensures (a + b) + c == a + (b + c)
  {
  }

  lemma CookNothing()
    ensures Cook([]) == []
  {
  }

  lemma {:induction false} TextFits(t: Text)
    ensures Fits(EncodeAll(t))
  {
    if t != [] {
      TextFits(t[1..]);
      var first, rest := Encode(t[0]), EncodeAll(t[1..]);
      LeadByte(t[0]);
      forall k | 0 <= k < |first + rest|
        ensures k + SeqLen((first + rest)[k]) <= |first + rest|
      {
        assert k >= |first| ==> (first + rest)[k] == rest[k - |first|];
      }
    }
  }

  /** The first byte tells how many there are; the others tell nothing. */
  lemma LeadByte(c: Scalar)
    ensures SeqLen(Encode(c)[0]) == |Encode(c)|
    ensures forall k :: 0 < k < |Encode(c)| ==> SeqLen(Encode(c)[k]) == 1
    ensures c != BACKSLASH ==> Encode(c)[0] != BACKSLASH
  {
  }

  /** Scanning a suffix is scanning the whole from further on. */
  lemma {:induction false} ScanShift(s: Bytes, off: nat, d: Digits)
    requires off <= |s| && d.stop <= |s| - off && d.codepoint < 0x1_0000_0000
    ensures var r := ScanDigits(s[off..], d);
            ScanDigits(s, d.(stop := d.stop + off)) == r.(stop := r.stop + off)
    decreases |s| - d.stop
  {
    hide HexDigit, WithDigit;
    var t := s[off..];
    if d.stop < |t| && t[d.stop] != '}' as int {
      assert t[d.stop] == s[d.stop + off];
      if t[d.stop] == '_' as int {
        ScanShift(s, off, d.(stop := d.stop + 1));
      } else if HexDigit(t[d.stop]).Some? {
        ScanShift(s, off, Digits(d.stop + 1, WithDigit(d.codepoint, HexDigit(t[d.stop]).value), d.count + 1));
      }
    }
  }

  // ---- Rendering undoes printing --------------------------------------------------------------------

  /** What the whole chain makes of one character. */
  function Escape(c: Scalar): Text {
    if c == BACKSLASH || c == QUOTE then Escaped(c)
    else if c == 0x0A then Escaped('n' as int)
    else if c == 0x0D then Escaped('r' as int)
    else if c == 0x09 then Escaped('t' as int)
    else if c == 0x0B then Escaped('v' as int)
    else if c == 0x08 then Escaped('b' as int)
    else if c == 0x0C then Escaped('f' as int)
    else [c]
  }

  lemma {:induction false} ReplaceConcat(a: Text, b: Text, c: Scalar, into: Text)
    ensures Replace(a + b, c, into) == Replace(a, c, into) + Replace(b, c, into)
  {
    if a == [] {
      assert a + b == b;
    } else {
      assert (a + b)[0] == a[0] && (a + b)[1..] == a[1..] + b;
      ReplaceConcat(a[1..], b, c, into);
    }
  }

  lemma {:induction false} ReplaceAbsent(t: Text, c: Scalar, into: Text)
    requires c !in t
    ensures Replace(t, c, into) == t
  {
    if t != [] {
      ReplaceAbsent(t[1..], c, into);
    }
  }

  lemma ReplaceOne(c: Scalar, into: Text)
    ensures Replace([c], c, into) == into
  {
    assert [c][1..] == [];
  }

  /** No later replacement touches what an earlier one put in, because the backslash comes first. */
  lemma ChainOne(c: Scalar)
    ensures EscapeChain([c]) == Escape(c)
  {
    hide Replace;
    ReplaceStep([c], BACKSLASH, Escaped(BACKSLASH));
    var t1 := Replace([c], BACKSLASH, Escaped(BACKSLASH));
    ReplaceStep(t1, 0x0A, Escaped('n' as int));
    var t2 := Replace(t1, 0x0A, Escaped('n' as int));
    ReplaceStep(t2, 0x0D, Escaped('r' as int));
    var t3 := Replace(t2, 0x0D, Escaped('r' as int));
    ReplaceStep(t3, 0x09, Escaped('t' as int));
    var t4 := Replace(t3, 0x09, Escaped('t' as int));
    ReplaceStep(t4, 0x0B, Escaped('v' as int));
    var t5 := Replace(t4, 0x0B, Escaped('v' as int));
    ReplaceStep(t5, 0x08, Escaped('b' as int));
    var t6 := Replace(t5, 0x08, Escaped('b' as int));
    ReplaceStep(t6, 0x0C, Escaped('f' as int));
    var t7 := Replace(t6, 0x0C, Escaped('f' as int));
    ReplaceStep(t7, QUOTE, Escaped(QUOTE));
  }

  lemma ReplaceStep(t: Text, c: Scalar, into: Text)
    ensures c !in t ==> Replace(t, c, into) == t
    ensures t == [c] ==> Replace(t, c, into) == into
  {
    if c !in t {
      ReplaceAbsent(t, c, into);
    }
    if t == [c] {
      ReplaceOne(c, into);
    }
  }

  lemma ChainConcat(a: Text, b: Text)
    ensures EscapeChain(a + b) == EscapeChain(a) + EscapeChain(b)
  {
    hide Replace;
    ReplaceConcat(a, b, BACKSLASH, Escaped(BACKSLASH));
    var a1, b1 := Replace(a, BACKSLASH, Escaped(BACKSLASH)), Replace(b, BACKSLASH, Escaped(BACKSLASH));
    ReplaceConcat(a1, b1, 0x0A, Escaped('n' as int));
    var a2, b2 := Replace(a1, 0x0A, Escaped('n' as int)), Replace(b1, 0x0A, Escaped('n' as int));
    ReplaceConcat(a2, b2, 0x0D, Escaped('r' as int));
    var a3, b3 := Replace(a2, 0x0D, Escaped('r' as int)), Replace(b2, 0x0D, Escaped('r' as int));
    ReplaceConcat(a3, b3, 0x09, Escaped('t' as int));
    var a4, b4 := Replace(a3, 0x09, Escaped('t' as int)), Replace(b3, 0x09, Escaped('t' as int));
    ReplaceConcat(a4, b4, 0x0B, Escaped('v' as int));
    var a5, b5 := Replace(a4, 0x0B, Escaped('v' as int)), Replace(b4, 0x0B, Escaped('v' as int));
    ReplaceConcat(a5, b5, 0x08, Escaped('b' as int));
    var a6, b6 := Replace(a5, 0x08, Escaped('b' as int)), Replace(b5, 0x08, Escaped('b' as int));
    ReplaceConcat(a6, b6, 0x0C, Escaped('f' as int));
    var a7, b7 := Replace(a6, 0x0C, Escaped('f' as int)), Replace(b6, 0x0C, Escaped('f' as int));
    ReplaceConcat(a7, b7, QUOTE, Escaped(QUOTE));
  }

  lemma {:induction false} EncodeAllConcat(a: Text, b: Text)
    ensures EncodeAll(a + b) == EncodeAll(a) + EncodeAll(b)
  {
    hide Encode;
    if a == [] {
      assert a + b == b;
    } else {
      assert (a + b)[0] == a[0] && (a + b)[1..] == a[1..] + b;
      EncodeAllConcat(a[1..], b);
    }
  }

  lemma EncodeOne(c: Scalar)
    ensures EncodeAll([c]) == Encode(c)
  {
    hide Encode;
    assert [c][1..] == [];
  }

  /** The head of the bytes, cooked. */
  lemma CookOn(head: Bytes, rest: Bytes, out: Bytes)
    requires head != [] && HeadPiece(head + rest) == Piece(out, |head|)
    ensures Cook(head + rest) == out + Cook(rest)
  {
    hide HeadPiece, Cook;
    CookHead(head + rest);
    assert (head + rest)[|head|..] == rest;
  }

  lemma CookChar(c: Scalar, rest: Bytes)
    requires c != BACKSLASH
    ensures Cook(Encode(c) + rest) == Encode(c) + Cook(rest)
  {
    LeadByte(c);
    var s := Encode(c) + rest;
    assert s[0] == Encode(c)[0] && s[..|Encode(c)|] == Encode(c);
    hide Encode;
    CookOn(Encode(c), rest, Encode(c));
  }

  lemma CookEscape(c: Scalar, rest: Bytes)
    ensures Cook(EncodeAll(Escape(c)) + rest) == Encode(c) + Cook(rest)
  {
    hide Cook;
    var e := Escape(c);
    if e == [c] {
      EncodeOne(c);
      CookChar(c, rest);
    } else {
      assert e == [BACKSLASH] + [e[1]];
      EncodeAllConcat([BACKSLASH], [e[1]]);
      EncodeOne(BACKSLASH);
      EncodeOne(e[1]);
      var head := EncodeAll(e);
      assert head == [BACKSLASH, e[1]];
      CookOn(head, rest, [c]);
    }
  }

  /** For every text, rendering what the printer writes gives the text back as UTF-8. */
  lemma {:induction false} RenderUndoesPrinter(t: Text)
    ensures Cook(EncodeAll(EscapeChain(t))) == EncodeAll(t)
  {
    hide Cook, Encode, EscapeChain, Escape;
    if t == [] {
      CookNothing();
      ChainNothing();
    } else {
      var rest := EscapeChain(t[1..]);
      assert t == [t[0]] + t[1..];
      ChainConcat([t[0]], t[1..]);
      ChainOne(t[0]);
      EncodeAllConcat(Escape(t[0]), rest);
      CookEscape(t[0], EncodeAll(rest));
      RenderUndoesPrinter(t[1..]);
    }
  }

  lemma ChainNothing()
    ensures EscapeChain([]) == []
  {
  }

  // ---- Numeric escapes ------------------------------------------------------------------------------

  /** Two hex digits stand for any byte, whether or not the result is UTF-8. */
  lemma HexEscape(hi: Byte, lo: Byte, rest: Bytes)
    requires HexDigit(hi).Some? && HexDigit(lo).Some?
    ensures Cook([BACKSLASH, 'x' as int, hi, lo] + rest)
            == [HexByte(HexDigit(hi).value, HexDigit(lo).value)] + Cook(rest)
  {
    hide Cook;
    var head: Bytes := [BACKSLASH, 'x' as int, hi, lo];
    CookOn(head, rest, [HexByte(HexDigit(hi).value, HexDigit(lo).value)]);
  }

  /** What may stand between the braces. */
  predicate HexBody(body: Bytes) {
    forall b :: b in body ==> b == '_' as int || HexDigit(b).Some?
  }

  /** The number that the digits spell, separators aside. */
  function Number(body: Bytes): nat
    requires HexBody(body)
  {
    if body == [] then 0
    else
      var n, b := Number(body[..|body| - 1]), body[|body| - 1];
      if b == '_' as int then n else n * 16 + HexDigit(b).value
  }

  function DigitCount(body: Bytes): nat {
    if body == [] then 0
    else DigitCount(body[..|body| - 1]) + if body[|body| - 1] == '_' as int then 0 else 1
  }

  lemma ShiftModulo(n: nat, v: nat)
    requires v < 16
    ensures n % 0x1_0000_0000 * 16 % 0x1_0000_0000 + v == (n * 16 + v) % 0x1_0000_0000
  {
    var m := 0x1_0000_0000;
    var q, r := n / m, n % m;
    var t, e := r * 16 / m, r * 16 % m;
    assert e == 16 * (r - 0x1000_0000 * t);
    assert n * 16 + v == m * (16 * q + t) + (e + v);
  }

  lemma {:induction false} ScanBody(s: Bytes, body: Bytes, k: nat)
    requires HexBody(body) && k <= |body| && |s| > 3 + |body|
    requires s[3..3 + |body|] == body && s[3 + |body|] == '}' as int
    ensures HexBody(body[..k])
    ensures ScanDigits(s, Digits(3 + k, Number(body[..k]) % 0x1_0000_0000, DigitCount(body[..k])))
            == Digits(3 + |body|, Number(body) % 0x1_0000_0000, DigitCount(body))
    decreases |body| - k
  {
    hide HexDigit;
    if k == |body| {
      assert body[..k] == body;
    } else {
      var b := body[k];
      assert b == s[3 + k] && b in body;
      assert b != '}' as int by {
        NoBrace();
      }
      assert body[..k + 1][..k] == body[..k];
      ScanBody(s, body, k + 1);
      if b != '_' as int {
        ShiftModulo(Number(body[..k]), HexDigit(b).value);
      }
    }
  }

  lemma NoBrace()
    ensures HexDigit('}' as int) == None
  {
  }

  /** A braced escape renders as the character with the number it spells, taken modulo 2^32; a number that is
      no character renders as nothing. */
  lemma UnicodeEscape(body: Bytes, rest: Bytes)
    requires HexBody(body) && DigitCount(body) > 0
    ensures Cook([BACKSLASH, 'u' as int, '{' as int] + body + ['}' as int] + rest)
            == EncodeIfScalar(Number(body) % 0x1_0000_0000) + Cook(rest)
  {
    hide Cook, EncodeIfScalar, HexDigit;
    var head: Bytes := [BACKSLASH, 'u' as int, '{' as int] + body + ['}' as int];
    var s := head + rest;
    assert s[3..3 + |body|] == body;
    assert body[..0] == [];
    ScanBody(s, body, 0);
    CookOn(head, rest, EncodeIfScalar(Number(body) % 0x1_0000_0000));
  }

  /** The escape renders as the number it spells exactly when that fits 32 bits or wraps to no character:
      more digits than the six that are documented are not refused. */
  lemma LongEscapesWrap(body: Bytes, rest: Bytes)
    requires HexBody(body) && DigitCount(body) > 0
    ensures Cook([BACKSLASH, 'u' as int, '{' as int] + body + ['}' as int] + rest)
            == EncodeIfScalar(Number(body)) + Cook(rest)
            <==> Number(body) < 0x1_0000_0000 || !IsScalar(Number(body) % 0x1_0000_0000)
  {
    hide Cook, HexDigit, Encode;
    UnicodeEscape(body, rest);
    var n := Number(body);
    var wrapped := EncodeIfScalar(n % 0x1_0000_0000);
    if n >= 0x1_0000_0000 && IsScalar(n % 0x1_0000_0000) {
      assert wrapped != [];
      assert |wrapped + Cook(rest)| != |[] + Cook(rest)|;
    }
  }
  // ---- Malformed escapes ----------------------------------------------------------------------------

  /** A hex escape without two digits, the end included, is kept as it is written. */
  lemma MalformedHex(rest: Bytes)
    requires |rest| < 2 || HexDigit(rest[0]).None? || HexDigit(rest[1]).None?
    ensures Cook([BACKSLASH, 'x' as int] + rest) == [BACKSLASH, 'x' as int] + Cook(rest)
  {
    hide Cook, HexDigit, HeadPiece;
    var head: Bytes := [BACKSLASH, 'x' as int];
    var s := head + rest;
    assert |rest| >= 1 ==> s[2] == rest[0];
    assert |rest| >= 2 ==> s[3] == rest[1];
    NoDigitPastTheEnd();
    HexKept(s);
    CookOn(head, rest, head);
  }

  lemma HexKept(s: Bytes)
    requires |s| >= 2 && s[0] == BACKSLASH && s[1] == 'x' as int
    requires HexDigit(At(s, 2)).None? || HexDigit(At(s, 3)).None?
    ensures HeadPiece(s) == Piece([BACKSLASH, 'x' as int], 2)
  {
    hide HexDigit, ScanDigits, UnicodePiece, SeqLen;
  }

  lemma NoDigitPastTheEnd()
    ensures HexDigit(0) == None
  {
  }

  /** The bytes begin with a brace, at least one digit between separators, and the closing brace. */
  ghost predicate Braced(rest: Bytes, body: Bytes) {
    HexBody(body) && DigitCount(body) > 0 && ['{' as int] + body + ['}' as int] <= rest
  }

  /** What the scan passes are digits and separators, and it counts the digits. */
  lemma {:induction false} ScanPasses(s: Bytes, d: Digits)
    requires d.stop <= |s| && d.codepoint < 0x1_0000_0000
    ensures var r := ScanDigits(s, d); HexBody(s[d.stop..r.stop]) && r.count == d.count + DigitCount(s[d.stop..r.stop])
    decreases |s| - d.stop
  {
    hide HexDigit, WithDigit, ScanDigits, HexBody, DigitCount;
    var r := ScanDigits(s, d);
    if d.stop == |s| || s[d.stop] == '}' as int {
      ScanStops(s, d);
      NothingScanned();
      assert s[d.stop..d.stop] == [];
    } else if s[d.stop] == '_' as int {
      SeparatorStep(s, d);
      ScanPasses(s, d.(stop := d.stop + 1));
      CountsFirst(s, d.stop, r.stop);
    } else if HexDigit(s[d.stop]).Some? {
      DigitStep(s, d, HexDigit(s[d.stop]).value);
      ScanPasses(s, Digits(d.stop + 1, WithDigit(d.codepoint, HexDigit(s[d.stop]).value), d.count + 1));
      CountsFirst(s, d.stop, r.stop);
    } else {
      ScanStops(s, d);
      NothingScanned();
    }
  }

  lemma NothingScanned()
    ensures HexBody([]) && DigitCount([]) == 0
  {
  }

  lemma CountsFirst(s: Bytes, i: nat, j: nat)
    requires i < j <= |s|
    ensures DigitCount(s[i..j]) == (if s[i] == '_' as int then 0 else 1) + DigitCount(s[i + 1..j])
    ensures HexBody(s[i + 1..j]) && (s[i] == '_' as int || HexDigit(s[i]).Some?) ==> HexBody(s[i..j])
  {
    hide HexDigit;
    CountCons(s[i], s[i + 1..j]);
    assert s[i..j] == [s[i]] + s[i + 1..j];
  }

  lemma {:induction false} CountCons(b: Byte, body: Bytes)
    ensures DigitCount([b] + body) == (if b == '_' as int then 0 else 1) + DigitCount(body)
    decreases body
  {
    var all: Bytes := [b] + body;
    if body == [] {
      assert all == [b] && [b][..0] == [];
    } else {
      assert all[..|all| - 1] == [b] + body[..|body| - 1];
      CountCons(b, body[..|body| - 1]);
    }
  }

  /** A unicode escape without a brace, a digit or the closing brace is kept as it is written. */
  lemma MalformedUnicode(rest: Bytes)
    requires forall body :: !Braced(rest, body)
    ensures Cook([BACKSLASH, 'u' as int] + rest) == [BACKSLASH, 'u' as int] + Cook(rest)
  {
    hide Cook, HexDigit, ScanDigits, Braced;
    var head: Bytes := [BACKSLASH, 'u' as int];
    var s := head + rest;
    if At(s, 2) == '{' as int {
      ScannedIsBraced(s);
      assert s[2..] == rest;
    }
    CookOn(head, rest, head);
  }

  lemma ScannedIsBraced(s: Bytes)
    requires |s| > 2 && s[2] == '{' as int
    ensures var d := ScanDigits(s, Digits(3, 0, 0));
            d.count > 0 && d.stop < |s| && s[d.stop] == '}' as int ==> Braced(s[2..], s[3..d.stop])
  {
    hide HexDigit, ScanDigits;
    var d := ScanDigits(s, Digits(3, 0, 0));
    ScanPasses(s, Digits(3, 0, 0));
    if d.stop < |s| && s[d.stop] == '}' as int {
      assert s[2..][..d.stop - 1] == ['{' as int] + s[3..d.stop] + ['}' as int];
    }
  }

  /** A backslash that nothing follows stays. */
  lemma LoneBackslash()
    ensures Cook([BACKSLASH]) == [BACKSLASH]
  {
    var s: Bytes := [BACKSLASH];
    assert HeadPiece(s) == Piece(s, 1) && s[1..] == [];
  }

  // ---- What escapes are written with ----------------------------------------------------------------

  /** The letter of a hex digit, in either case. */
  function Letter(d: nat, upper: bool): Byte
    requires d < 16
  {
    (if upper then "0123456789ABCDEF" else "0123456789abcdef")[d] as int
  }

  lemma LetterIsDigit(d: nat, upper: bool)
    requires d < 16
    ensures HexDigit(Letter(d, upper)) == Some(d) && Letter(d, upper) != '_' as int
  {
  }

  /** Nothing but the letters is a digit. */
  lemma DigitHasLetter(b: Byte)
    ensures HexDigit(b).Some? ==> b in {Letter(HexDigit(b).value, false), Letter(HexDigit(b).value, true)}
  {
  }

  /** Any byte is rendered from its two hex letters, each in either case. */
  lemma ByteFromLetters(b: Byte, upperHi: bool, upperLo: bool, rest: Bytes)
    ensures Cook([BACKSLASH, 'x' as int, Letter(b / 16, upperHi), Letter(b % 16, upperLo)] + rest) == [b] + Cook(rest)
  {
    hide Cook, HexDigit, Letter;
    LetterIsDigit(b / 16, upperHi);
    LetterIsDigit(b % 16, upperLo);
    HexEscape(Letter(b / 16, upperHi), Letter(b % 16, upperLo), rest);
  }

  /** The hex spelling of a number, without leading zeros. */
  function Spelling(n: nat, upper: bool): (r: Bytes)
    ensures r != []
  {
    (if n < 16 then [] else Spelling(n / 16, upper)) + [Letter(n % 16, upper)]
  }

  lemma {:induction false} SpellingSpells(n: nat, upper: bool)
    ensures HexBody(Spelling(n, upper)) && Number(Spelling(n, upper)) == n && DigitCount(Spelling(n, upper)) > 0
  {
    hide HexDigit, Letter;
    LetterIsDigit(n % 16, upper);
    var s := Spelling(n, upper);
    if n >= 16 {
      SpellingSpells(n / 16, upper);
      assert s[..|s| - 1] == Spelling(n / 16, upper);
    } else {
      assert s[..|s| - 1] == [];
    }
  }

  /** Any character is rendered from the braced hex spelling of its codepoint. */
  lemma CharacterFromSpelling(c: Scalar, upper: bool, rest: Bytes)
    ensures Cook([BACKSLASH, 'u' as int, '{' as int] + Spelling(c, upper) + ['}' as int] + rest) == Encode(c) + Cook(rest)
  {
    hide Cook, Encode, Spelling, HexBody, Number, DigitCount;
    SpellingSpells(c, upper);
    UnicodeEscape(Spelling(c, upper), rest);
  }

  /** The one-letter escapes, each with the byte it stands for; any other letter keeps its backslash. */
  lemma LetterEscapes(k: nat, b: Byte, rest: Bytes)
    requires k < 9
    ensures Cook([BACKSLASH, "nrtvbf'\\$"[k] as int] + rest)
            == [[0x0A, 0x0D, 0x09, 0x0B, 0x08, 0x0C, 0x27, 0x5C, 0x24][k]] + Cook(rest)
    ensures b as char !in "nrtvbf'\\$xu" ==> Cook([BACKSLASH, b] + rest) == [BACKSLASH, b] + Cook(rest)
  {
    hide Cook;
    var letter: Byte := "nrtvbf'\\$"[k] as int;
    var head, other: Bytes := [BACKSLASH, letter], [BACKSLASH, b];
    CookOn(head, rest, [[0x0A, 0x0D, 0x09, 0x0B, 0x08, 0x0C, 0x27, 0x5C, 0x24][k]]);
    if b as char !in "nrtvbf'\\$xu" {
      NoLetter(b);
      CookOn(other, rest, other);
    }
  }

  lemma NoLetter(b: Byte)
    requires b as char !in "nrtvbf'\\$xu"
    ensures Simple(b).None? && b != 'x' as int && b != 'u' as int
  {
    var letters := "nrtvbf'\\$xu";
    assert letters[0] == 'n' && letters[1] == 'r' && letters[2] == 't' && letters[3] == 'v' && letters[4] == 'b' && letters[5] == 'f';
    assert letters[6] == '\'' && letters[7] == '\\' && letters[8] == '$' && letters[9] == 'x' && letters[10] == 'u';
  }

  /** The bytes of a character carry its codepoint: seven bits in one byte, or six in each continuation byte and the
      rest in the first, in the shortest form that holds it. */
  lemma EncodeCarries(c: Scalar)
    ensures var e: seq<int> := Encode(c);
            && (forall k :: 1 <= k < |e| ==> 0x80 <= e[k] < 0xC0)
            && match |e|
               case 1 => c == e[0] < 0x80
               case 2 => 0x80 <= c == (e[0] - 0xC0) * 0x40 + (e[1] - 0x80) < 0x800
               case 3 => 0x800 <= c == (e[0] - 0xE0) * 0x1000 + (e[1] - 0x80) * 0x40 + (e[2] - 0x80) < 0x10000
               case 4 => 0x10000 <= c == (e[0] - 0xF0) * 0x40000 + (e[1] - 0x80) * 0x1000 + (e[2] - 0x80) * 0x40 + (e[3] - 0x80)
               case _ => false
  {
    var s, t := c / 0x40, c / 0x1000;
    assert c == s * 0x40 + c % 0x40;
    assert t == s / 0x40 && s == t * 0x40 + s % 0x40;
    assert c / 0x40000 == t / 0x40 && t == t / 0x40 * 0x40 + t % 0x40;
  }
}

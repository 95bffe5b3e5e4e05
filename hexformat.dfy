/** The text `FileContext::hexdump` produces: the `{:016x}` and `{:02x}` renderings it
    uses, the dump built one byte at a time as the loop writes it, and the same dump
    described line by line, sixteen bytes to a line. */
module HexFormat {
  import opened Common

  /** The number of values a 64-bit `usize` can hold; `addr + off` wraps around it. */
  const UsizeModulus: nat := 0x1_0000_0000_0000_0000

  predicate IsHexDigit(c: char) {
    '0' <= c <= '9' || 'a' <= c <= 'f'
  }

  /** The lowercase hex digit for `d`. */
  function HexChar(d: nat): (c: char)
    requires d < 16
    ensures IsHexDigit(c)
  {
    if d < 10 then ('0' as int + d) as char else ('a' as int + d - 10) as char
  }

  /** The value of one lowercase hex digit. */
  function DigitValue(c: char): nat {
    if '0' <= c <= '9' then c as nat - '0' as nat
    else if 'a' <= c <= 'f' then c as nat - 'a' as nat + 10
    else 0
  }

  /** The low `width` hex digits of `v`, most significant first, zero-padded. */
  function HexDigits(v: nat, width: nat): (r: string)
    ensures |r| == width
    ensures forall i :: 0 <= i < width ==> IsHexDigit(r[i])
  {
    if width == 0 then "" else HexDigits(v / 16, width - 1) + [HexChar(v % 16)]
  }

  /** Reads a string of hex digits back as a number. */
  function HexValue(s: string): nat {
    if s == [] then 0 else HexValue(s[..|s| - 1]) * 16 + DigitValue(s[|s| - 1])
  }

  function Pow16(n: nat): (p: nat)
    ensures p > 0
  {
    if n == 0 then 1 else 16 * Pow16(n - 1)
  }

  /** A value that fits in `width` digits is written without loss. */
  lemma {:induction false} HexDigitsRoundTrip(v: nat, width: nat)
    requires v < Pow16(width)
    ensures HexValue(HexDigits(v, width)) == v
  {
    if width > 0 {
      HexDigitsRoundTrip(v / 16, width - 1);
      var r := HexDigits(v, width);
      assert r[..|r| - 1] == HexDigits(v / 16, width - 1);
    }
  }

  /** `{:016x}` of a `usize` address. */
  function Hex16(v: nat): string {
    HexDigits(v % UsizeModulus, 16)
  }

  /** `{:02x}` of a `u8`. */
  function Hex2(b: byte): string {
    HexDigits(b as nat, 2)
  }

  /** Both renderings are two and sixteen hex digits that read back as the byte and
      as the address taken modulo 2^64. */
  lemma HexRenderingsRoundTrip(b: byte, v: nat)
    ensures |Hex2(b)| == 2 && HexValue(Hex2(b)) == b as nat
    ensures |Hex16(v)| == 16 && HexValue(Hex16(v)) == v % UsizeModulus
  {
    assert Pow16(2) == 256;
    HexDigitsRoundTrip(b as nat, 2);
    assert Pow16(16) == UsizeModulus;
    HexDigitsRoundTrip(v % UsizeModulus, 16);
  }

  /** What the loop writes for the byte at offset `k`: at every multiple of 16 a line
      head (a newline first unless it is the first line, then the address and a tab),
      then the byte's two digits and a space. */
  function Cell(addr: nat, k: nat, b: byte): string {
    (if k % 16 == 0 then (if k > 0 then "\n" else "") + Hex16(addr + k) + "\t" else "")
    + Hex2(b) + " "
  }

  /** The cells of `data`, whose first byte sits at offset `k`. */
  function CellsFrom(addr: nat, k: nat, data: seq<byte>): string
    decreases |data|
  {
    if data == [] then "" else Cell(addr, k, data[0]) + CellsFrom(addr, k + 1, data[1..])
  }

  /** The whole output of `hexdump(addr, |data|)` reading `data`: the cells and a final newline. */
  function Dump(addr: nat, data: seq<byte>): string {
    CellsFrom(addr, 0, data) + "\n"
  }

  /** Appending one byte appends its cell: the step of the `for off in 0..size` loop. */
  lemma {:induction false} CellsSnoc(addr: nat, k: nat, data: seq<byte>, b: byte)
    ensures CellsFrom(addr, k, data + [b]) == CellsFrom(addr, k, data) + Cell(addr, k + |data|, b)
    decreases |data|
  {
    if data != [] {
      assert (data + [b])[1..] == data[1..] + [b];
      CellsSnoc(addr, k + 1, data[1..], b);
    } else {
      assert (data + [b])[1..] == [];
    }
  }

  /** Splitting the bytes splits the cells. */
  lemma {:induction false} CellsSplit(addr: nat, k: nat, data: seq<byte>, j: nat)
    requires j <= |data|
    ensures CellsFrom(addr, k, data) == CellsFrom(addr, k, data[..j]) + CellsFrom(addr, k + j, data[j..])
    decreases j
  {
    if j > 0 {
      CellsSplit(addr, k + 1, data[1..], j - 1);
      assert data[1..][..j - 1] == data[..j][1..];
      assert data[1..][j - 1..] == data[j..];
    } else {
      assert data[j..] == data;
    }
  }

  // ---- the reference description: one line per sixteen bytes ----

  /** Each byte as two digits and a space. */
  function HexBytes(chunk: seq<byte>): string
    decreases |chunk|
  {
    if chunk == [] then "" else Hex2(chunk[0]) + " " + HexBytes(chunk[1..])
  }

  /** A line: the address of its first byte, a tab, then its bytes. */
  function Line(a: nat, chunk: seq<byte>): string {
    Hex16(a) + "\t" + HexBytes(chunk)
  }

  /** Lines of at most sixteen bytes, separated by newlines, addresses counting up by 16. */
  function Lines(a: nat, data: seq<byte>): string
    requires |data| > 0
    decreases |data|
  {
    if |data| <= 16 then Line(a, data)
    else Line(a, data[..16]) + "\n" + Lines(a + 16, data[16..])
  }

  /** Inside a line no cell carries a line head. */
  lemma {:induction false} CellsWithinLine(addr: nat, k: nat, data: seq<byte>)
    requires k % 16 != 0 && k % 16 + |data| <= 16
    ensures CellsFrom(addr, k, data) == HexBytes(data)
    decreases |data|
  {
    if data != [] {
      if |data| > 1 {
        CellsWithinLine(addr, k + 1, data[1..]);
      }
    }
  }

  /** The cells of one full or final partial line starting at a multiple of 16. */
  lemma CellsOfLine(addr: nat, k: nat, data: seq<byte>)
    requires k % 16 == 0 && 0 < |data| <= 16
    ensures CellsFrom(addr, k, data) == LineBreak(k) + Line(addr + k, data)
  {
    if |data| > 1 {
      CellsWithinLine(addr, k + 1, data[1..]);
    }
    assert CellsFrom(addr, k + 1, data[1..]) == HexBytes(data[1..]);
    assert HexBytes(data) == Hex2(data[0]) + " " + HexBytes(data[1..]);
  }

  /** A newline before every line but the first. */
  function LineBreak(k: nat): string {
    if k > 0 then "\n" else ""
  }

  /** The byte-at-a-time cells are the line-by-line text. */
  lemma {:induction false} CellsAsLines(addr: nat, k: nat, data: seq<byte>)
    requires k % 16 == 0 && |data| > 0
    ensures CellsFrom(addr, k, data) == LineBreak(k) + Lines(addr + k, data)
    decreases |data|
  {
    if |data| <= 16 {
      CellsOfLine(addr, k, data);
    } else {
      NextLineStart(k);
      CellsAsLines(addr, k + 16, data[16..]);
      CellsLinesStep(addr, k, data);
    }
  }

  /** One full line followed by the rest. */
  lemma CellsLinesStep(addr: nat, k: nat, data: seq<byte>)
    requires k % 16 == 0 && |data| > 16
    requires CellsFrom(addr, k + 16, data[16..]) == "\n" + Lines(addr + k + 16, data[16..])
    ensures CellsFrom(addr, k, data) == LineBreak(k) + Lines(addr + k, data)
  {
    var a, head, rest := addr + k, data[..16], data[16..];
    CellsSplit(addr, k, data, 16);
    CellsOfLine(addr, k, head);
    LinesUnfold(a, data);
    Glue(CellsFrom(addr, k, data), CellsFrom(addr, k, head), CellsFrom(addr, k + 16, rest),
         LineBreak(k), Line(a, head), Lines(a + 16, rest), Lines(a, data));
  }

  lemma LinesUnfold(a: nat, data: seq<byte>)
    requires |data| > 16
    ensures Lines(a, data) == Line(a, data[..16]) + "\n" + Lines(a + 16, data[16..])
  {
  }

  lemma NextLineStart(k: nat)
    requires k % 16 == 0
    ensures (k + 16) % 16 == 0 && LineBreak(k + 16) == "\n"
  {
  }

  lemma Glue(all: string, first: string, others: string, lead: string, line: string, rest: string, lines: string)
    requires all == first + others && first == lead + line && others == "\n" + rest
    requires lines == line + "\n" + rest
    ensures all == lead + lines
  {
  }

  /** `hexdump` output: no bytes give a lone newline; otherwise the sixteen-byte lines,
      separated by newlines, each headed by its 16-digit address and a tab, each byte as
      two lowercase digits and a space, and a newline at the end. */
  lemma DumpAsLines(addr: nat, data: seq<byte>)
    ensures data == [] ==> Dump(addr, data) == "\n"
    ensures data != [] ==> Dump(addr, data) == Lines(addr, data) + "\n"
  {
    if data != [] {
      CellsAsLines(addr, 0, data);
    }
  }
}

/** The envelope increment table: for every SFX speed byte, the amount
    `note_offset` grows per tick so that it approaches 2^24 after that many
    ticks, and the Verilog `initial` block that loads the 256 entries, four
    assignments to a line. */
module NoteOffsetLut {

  /** 2^24: `note_offset` at the end of a note effect. */
  const FullScale: nat := 0x100_0000

  /** Audio samples per SFX tick (22050 Hz over about 120 ticks a second). */
  const SamplesPerTick: nat := 183

  /** Entries in the table, one per speed byte. */
  const TableSize: nat := 256

  /** Assignments on one emitted line. */
  const RowWidth: nat := 4

  /** The value written for speed byte 0, which is never used. */
  const UnusedValue: nat := 0x1_ffff

  /** Every increment fits in the 17 bits of a table entry. */
  const EntryLimit: nat := 0x2_0000

  // ---------------------------------------------------------------------
  // The increments

  /** `calculate_note_offset_inc`: 0 for speed 0, else 2^24 divided by the
      samples of `speed` ticks, rounded down. */
  function NoteOffsetInc(speed: nat): nat {
    if speed == 0 then 0 else FullScale / (SamplesPerTick * speed)
  }

  /** Speed 0 gives 0. */
  lemma IncOfZero()
    ensures NoteOffsetInc(0) == 0
  {
  }

  /** The increment is the largest one that does not overshoot: `speed`
      ticks of it stay within 2^24, one more unit would pass it. */
  lemma IncBracket(speed: nat)
    requires 1 <= speed
    ensures NoteOffsetInc(speed) * (SamplesPerTick * speed) <= FullScale
    ensures FullScale < (NoteOffsetInc(speed) + 1) * (SamplesPerTick * speed)
  {
    var d := SamplesPerTick * speed;
    var q := FullScale / d;
    assert FullScale == q * d + FullScale % d;
    assert (q + 1) * d == q * d + d;
  }

  /** A quotient bound: `q` units of `d` that fit in `n` are at most
      `n / d`. */
  lemma QuotientBound(q: nat, d: nat, n: nat)
    requires 0 < d && q * d <= n
    ensures q <= n / d
  {
    assert n < (n / d + 1) * d by {
      assert n == (n / d) * d + n % d;
    }
    if n / d + 1 <= q {
      MultiplyMonotone(n / d + 1, q, d);
    }
  }

  lemma MultiplyMonotone(a: nat, b: nat, d: nat)
    requires a <= b
    ensures a * d <= b * d
  {
    assert b * d == a * d + (b - a) * d;
  }

  /** A slower speed never gets a larger increment. */
  lemma IncNonIncreasing(s: nat, t: nat)
    requires 1 <= s <= t
    ensures NoteOffsetInc(t) <= NoteOffsetInc(s)
  {
    var ds, dt := SamplesPerTick * s, SamplesPerTick * t;
    IncBracket(t);
    MultiplyMonotone(s, t, SamplesPerTick);
    assert ds <= dt;
    var q := NoteOffsetInc(t);
    assert q * ds <= q * dt by {
      assert q * dt == q * ds + q * (dt - ds);
    }
    QuotientBound(q, ds, FullScale);
  }

  /** Every increment fits in 17 bits, as the `U17F24` entry type says. */
  lemma IncFitsEntry(speed: nat)
    ensures NoteOffsetInc(speed) < EntryLimit
  {
    if speed >= 1 {
      IncNonIncreasing(1, speed);
      assert NoteOffsetInc(1) == 91678;
    }
  }

  /** `entries`: the increment of every speed byte. */
  function Entries(): (e: seq<nat>)
    ensures |e| == TableSize && forall i :: 0 <= i < TableSize ==> e[i] == NoteOffsetInc(i)
  {
    seq(TableSize, i requires 0 <= i < TableSize => NoteOffsetInc(i))
  }

  // ---------------------------------------------------------------------
  // Rows

  /** The speed bytes assigned on the line that starts at `start`: `start`
      and the next three, those below 256. */
  function RowIndices(start: nat): (ix: seq<nat>)
    requires 1 <= start < TableSize
    ensures 1 <= |ix| <= RowWidth && ix[0] == start
    ensures forall k :: 0 <= k < |ix| ==> ix[k] == start + k < TableSize
    ensures start + RowWidth <= TableSize ==> |ix| == RowWidth
    ensures TableSize < start + RowWidth ==> |ix| == TableSize - start
  {
    var n := Shown(start, RowWidth);
    seq(n, k requires 0 <= k < n => start + k)
  }

  /** The first speed byte of line `k` (counting from 0) of the rows. */
  function RowStart(k: nat): nat {
    RowWidth * k + 1
  }

  /** The number of lines the row loop prints. */
  const RowCount: nat := 64

  /** The speed bytes of the first `n` lines, in order. */
  function RowsIndices(n: nat): (ix: seq<nat>)
    requires n <= RowCount
    decreases n
  {
    if n == 0 then [] else RowsIndices(n - 1) + RowIndices(RowStart(n - 1))
  }

  /** The first `n` lines together assign speed bytes 1, 2, ... in order,
      each once. */
  lemma {:induction false} RowsInOrder(n: nat)
    requires n <= RowCount
    ensures var m := if n < RowCount then RowWidth * n else TableSize - 1;
            RowsIndices(n) == seq(m, j requires 0 <= j < m => j + 1)
    decreases n
  {
    if n > 0 {
      var prev := RowsIndices(n - 1);
      var row := RowIndices(RowStart(n - 1));
      assert |prev| == RowWidth * (n - 1) && forall j :: 0 <= j < |prev| ==> prev[j] == j + 1 by {
        RowsInOrder(n - 1);
      }
      assert forall j :: 0 <= j < |row| ==> row[j] == |prev| + 1 + j;
      assert |prev| + |row| == if n < RowCount then RowWidth * n else TableSize - 1;
      assert RowsIndices(n) == prev + row;
      CountingOn(prev, row);
    }
  }

  /** Counting 1, 2, ... and going on from where it stopped is counting. */
  lemma CountingOn(prev: seq<nat>, row: seq<nat>)
    requires forall j :: 0 <= j < |prev| ==> prev[j] == j + 1
    requires forall j :: 0 <= j < |row| ==> row[j] == |prev| + 1 + j
    ensures var m := |prev| + |row|; prev + row == seq(m, j requires 0 <= j < m => j + 1)
  {
  }

  /** All lines together cover speed bytes 1 to 255, each exactly once and
      in increasing order; every line but the last has four, the last has
      253, 254 and 255. */
  lemma RowsCoverTable()
    ensures RowsIndices(RowCount) == seq(TableSize - 1, j requires 0 <= j < TableSize - 1 => j + 1)
    ensures forall k :: 0 <= k < RowCount - 1 ==> |RowIndices(RowStart(k))| == RowWidth
    ensures RowIndices(RowStart(RowCount - 1)) == [253, 254, 255]
  {
    RowsInOrder(RowCount);
  }

  /** Each speed byte from 1 to 255 is on line `(i - 1) / 4` and on no
      other. */
  lemma RowOfIndex(i: nat, k: nat)
    requires 1 <= i < TableSize && k < RowCount
    ensures i in RowIndices(RowStart(k)) <==> k == (i - 1) / RowWidth
  {
    var ix := RowIndices(RowStart(k));
    if k == (i - 1) / RowWidth {
      assert ix[i - RowStart(k)] == i;
    }
  }

  // ---------------------------------------------------------------------
  // Text

  function HexDigit(d: nat): char
    requires d < 16
  {
    if d < 10 then ('0' as int + d) as char else ('a' as int + d - 10) as char
  }

  function HexDigitValue(c: char): nat {
    if '0' <= c <= '9' then (c - '0') as nat
    else if 'a' <= c <= 'f' then (c - 'a') as nat + 10
    else 0
  }

  /** `v` in lower-case hexadecimal, without leading zeros. */
  function Hex(v: nat): (s: string)
    ensures 1 <= |s|
    decreases v
  {
    if v < 16 then [HexDigit(v)] else Hex(v / 16) + [HexDigit(v % 16)]
  }

  /** The number a string of hexadecimal digits stands for. */
  function HexValue(s: string): nat
    decreases |s|
  {
    if s == [] then 0 else HexValue(s[..|s| - 1]) * 16 + HexDigitValue(s[|s| - 1])
  }

  /** `v` in decimal, without leading zeros. */
  function Decimal(v: nat): (s: string)
    ensures 1 <= |s|
    decreases v
  {
    if v < 10 then [HexDigit(v)] else Decimal(v / 10) + [HexDigit(v % 10)]
  }

  /** `s` padded on the left with `fill` to at least `width` characters. */
  function PadLeft(s: string, width: nat, fill: char): (r: string)
    ensures |r| == if |s| < width then width else |s|
    ensures r[|r| - |s|..] == s
    ensures forall k :: 0 <= k < |r| - |s| ==> r[k] == fill
  {
    if |s| < width then seq(width - |s|, _ => fill) + s else s
  }

  /** `{v:05x}`: at least five lower-case hexadecimal digits. */
  function Hex5(v: nat): string {
    PadLeft(Hex(v), 5, '0')
  }

  /** `{i:3d}`: the decimal number right-aligned in three columns. */
  function Decimal3(i: nat): string {
    PadLeft(Decimal(i), 3, ' ')
  }

  /** Reading the hexadecimal text back gives the number. */
  lemma {:induction false} HexRoundTrip(v: nat)
    ensures HexValue(Hex(v)) == v
    decreases v
  {
    if v >= 16 {
      var s := Hex(v);
      assert s[..|s| - 1] == Hex(v / 16);
      HexRoundTrip(v / 16);
    }
  }

  /** Leading zeros do not change the value. */
  lemma {:induction false} LeadingZeros(n: nat, s: string)
    ensures HexValue(seq(n, _ => '0') + s) == HexValue(s)
    decreases |s|
  {
    var z := seq(n, _ => '0');
    if s == [] {
      assert z + s == z;
      ZerosValue(n);
    } else {
      var t := z + s;
      assert t[..|t| - 1] == z + s[..|s| - 1];
      LeadingZeros(n, s[..|s| - 1]);
    }
  }

  lemma {:induction false} ZerosValue(n: nat)
    ensures HexValue(seq(n, _ => '0')) == 0
    decreases n
  {
    if n > 0 {
      var z := seq(n, _ => '0');
      assert z[..n - 1] == seq(n - 1, _ => '0');
      ZerosValue(n - 1);
    }
  }

  /** The five-digit hexadecimal text of an entry reads back as the entry;
      an entry below 2^17 takes exactly five digits. */
  lemma Hex5RoundTrip(v: nat)
    ensures HexValue(Hex5(v)) == v
    ensures v < EntryLimit ==> |Hex5(v)| == 5
  {
    HexRoundTrip(v);
    var h := Hex(v);
    if |h| < 5 {
      assert Hex5(v) == seq(5 - |h|, _ => '0') + h;
      LeadingZeros(5 - |h|, h);
    }
    if v < EntryLimit {
      assert Pow16(2) == 0x100 && Pow16(3) == 0x1000 && Pow16(4) == 0x1_0000;
      assert Pow16(5) == 0x10_0000;
      HexLength(v, 5);
    }
  }

  function Pow16(n: nat): (p: nat)
    ensures p >= 1
  {
    if n == 0 then 1 else 16 * Pow16(n - 1)
  }

  /** A number below 16^n takes at most `n` hexadecimal digits. */
  lemma {:induction false} HexLength(v: nat, n: nat)
    requires 1 <= n && v < Pow16(n)
    ensures |Hex(v)| <= n
    decreases n
  {
    assert Pow16(1) == 16;
    if v >= 16 {
      HexLength(v / 16, n - 1);
    }
  }

  /** One assignment: `note_offset_lut[{i:3d}] = 17'h{v:05x};`. */
  function Assignment(i: nat, v: nat): string {
    "note_offset_lut[" + Decimal3(i) + "] = 17'h" + Hex5(v) + ";"
  }

  /** How many of the `k` speed bytes from `start` on are in the table: all
      of them, or those up to the last entry. */
  function Shown(start: nat, k: nat): (n: nat)
    requires start < TableSize
    ensures n <= k && start + n <= TableSize && (n == k || start + n == TableSize)
    ensures 1 <= k ==> 1 <= n
  {
    if start + k <= TableSize then k else TableSize - start
  }

  /** The line holding the assignments of the `n` speed bytes from `start`
      on: four blanks of indentation, then the assignments three blanks
      apart. */
  function RowText(entries: seq<nat>, start: nat, n: nat): string
    requires |entries| == TableSize && 1 <= n && start + n <= TableSize
  {
    if n == 1 then "    " + Assignment(start, entries[start])
    else RowText(entries, start, n - 1) + "   " + Assignment(start + n - 1, entries[start + n - 1])
  }

  /** The line printed for the row that starts at `start`: the assignments
      of the speed bytes `RowIndices(start)`. */
  function RowLine(entries: seq<nat>, start: nat): string
    requires |entries| == TableSize && 1 <= start < TableSize
  {
    RowText(entries, start, Shown(start, RowWidth))
  }

  /** The trailing comment of the line for speed byte 0. */
  const ZeroComment := "  // Special value, not used"

  /** The assignment printed for speed byte 0, `note_offset_lut[  0] =
      17'h1ffff;`, cut where `Assignment` joins its parts. */
  const ZeroAssignment := "note_offset_lut[" + "  0" + "] = 17'h" + "1ffff" + ";"

  /** The line printed for speed byte 0. */
  const ZeroLine := "    " + ZeroAssignment + ZeroComment

  /** The marker in five hexadecimal digits. */
  lemma UnusedValueText()
    ensures Hex5(UnusedValue) == "1ffff"
  {
    assert HexDigit(1) == '1' && HexDigit(15) == 'f';
    assert Hex(0x1f) == "1f";
    assert Hex(0x1ff) == "1ff";
    assert Hex(0x1fff) == "1fff";
    assert Hex(UnusedValue) == "1ffff";
  }

  /** Speed byte 0 in three columns. */
  lemma ZeroText()
    ensures Decimal3(0) == "  0"
  {
    assert Decimal(0) == [HexDigit(0)] == "0";
  }

  /** Speed byte 0 is assigned the marker 0x1ffff: the literal line the
      table prints for it is the assignment of the marker to index 0. */
  lemma ZeroLineValue()
    ensures Assignment(0, UnusedValue) == ZeroAssignment
    ensures ZeroLine == "    " + Assignment(0, UnusedValue) + ZeroComment
  {
    ZeroText();
    UnusedValueText();
  }

  /** The body of `main`'s row loop: the line for the row starting at `i`,
      with each further assignment appended while its index is below 256. */
  method FormatRow(entries: seq<nat>, i: nat) returns (line: string)
    requires |entries| == TableSize && 1 <= i < TableSize
    ensures line == RowLine(entries, i)
  {
    line := "    " + Assignment(i, entries[i]);
    line := AppendIfInTable(entries, i, 1, line);
    line := AppendIfInTable(entries, i, 2, line);
    line := AppendIfInTable(entries, i, 3, line);
  }

  /** One `if i + k < 256: line += ...` of the row loop: the assignment of
      `start + k` joins the line when that speed byte is in the table. */
  method AppendIfInTable(entries: seq<nat>, start: nat, k: nat, line: string) returns (longer: string)
    requires |entries| == TableSize && 1 <= start < TableSize && 1 <= k
    requires line == RowText(entries, start, Shown(start, k))
    ensures longer == RowText(entries, start, Shown(start, k + 1))
  {
    if start + k < TableSize {
      RowTextGrows(entries, start, k);
      longer := line + "   " + Assignment(start + k, entries[start + k]);
    } else {
      longer := line;
    }
  }

  /** A row shown up to `k` speed bytes, with `start + k` in the table, shows
      one more when the assignment of `start + k` is appended to it. */
  lemma RowTextGrows(entries: seq<nat>, start: nat, k: nat)
    requires |entries| == TableSize && 1 <= start && 1 <= k && start + k < TableSize
    ensures Shown(start, k) == k
    ensures RowText(entries, start, Shown(start, k + 1))
      == RowText(entries, start, k) + "   " + Assignment(start + k, entries[start + k])
  {
    var n := k + 1;
    assert Shown(start, k + 1) == n && n - 1 == k && start + n - 1 == start + k;
  }

  /** The loop of `main` over the rows, `for i in range(1, 256, 4)`. */
  method EmitRows(entries: seq<nat>) returns (lines: seq<string>)
    requires |entries| == TableSize
    ensures |lines| == RowCount
    ensures forall k :: 0 <= k < RowCount ==> lines[k] == RowLine(entries, RowStart(k))
  {
    lines := [];
    var i := 1;
    while i < TableSize
      invariant 1 <= i <= TableSize + RowWidth - 1 && i == RowStart(|lines|)
      invariant forall k :: 0 <= k < |lines| ==> lines[k] == RowLine(entries, RowStart(k))
      decreases TableSize - i
    {
      var line := FormatRow(entries, i);
      RowsGrow(entries, lines, line);
      lines := lines + [line];
      i := i + RowWidth;
    }
  }

  /** The rows printed so far, followed by the next one. */
  lemma RowsGrow(entries: seq<nat>, lines: seq<string>, line: string)
    requires |entries| == TableSize && |lines| < RowCount
    requires forall k :: 0 <= k < |lines| ==> lines[k] == RowLine(entries, RowStart(k))
    requires line == RowLine(entries, RowStart(|lines|))
    ensures forall k :: 0 <= k <= |lines| ==> (lines + [line])[k] == RowLine(entries, RowStart(k))
  {
  }

  /** The lines `main` prints before the rows: four comment lines, the
      register declaration, `initial begin` and the line for speed byte 0. */
  const Header: seq<string> := [
      "// note_offset_lut for U17F24 fixed-point envelope effects",
      "// note_offset increments per tick for each speed_byte value",
      "// increment = 2^24 // (183 * speed_byte) (183 ticks per second at 22050 Hz)",
      "// Top 7 bits are always 0, so we use U17F24 format",
      "reg [16:0] note_offset_lut [0:255];",
      "initial begin",
      ZeroLine
    ]

  /** `main`: the header, the rows, and `end`. */
  method EmitTable() returns (lines: seq<string>)
    ensures |lines| == |Header| + RowCount + 1 && lines[..|Header|] == Header
    ensures forall k :: 0 <= k < RowCount ==> lines[|Header| + k] == RowLine(Entries(), RowStart(k))
    ensures lines[|lines| - 1] == "end"
  {
    var entries := Entries();
    var rows := EmitRows(entries);
    lines := Header + rows + ["end"];
    assert forall k :: 0 <= k < RowCount ==> lines[|Header| + k] == rows[k];
  }
}

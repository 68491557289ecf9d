/** csHexDump: a dump of sixteen bytes a line, built up in bounded character buffers. */
module HexDump {
  import opened Bytes

  const HEX_SIZE: nat := 53
  const CHAR_SIZE: nat := 21
  const LABEL: nat := 5
  const COLUMNS: nat := 49

  // ----- digits -----

  function Digit(d: nat, upper: bool): char
    requires d < 16
  {
    if d < 10 then (d + '0' as int) as char
    else if upper then (d - 10 + 'A' as int) as char
    else (d - 10 + 'a' as int) as char
  }

  /** The value of a hexadecimal digit of either case; 16 for any other character. */
  function DigitValue(c: char): nat {
    if '0' <= c <= '9' then c as int - '0' as int
    else if 'A' <= c <= 'F' then c as int - 'A' as int + 10
    else if 'a' <= c <= 'f' then c as int - 'a' as int + 10
    else 16
  }

  function Power16(k: nat): (p: nat)
    ensures p >= 1
  {
    if k == 0 then 1 else 16 * Power16(k - 1)
  }

  /** The `k` low hexadecimal digits of a number. */
  function Digits(n: nat, k: nat): (s: string)
    ensures |s| == k
  {
    if k == 0 then "" else Digits(n / 16, k - 1) + [Digit(n % 16, false)]
  }

  /** The digits printed for a line address: five, and more only if it takes more. */
  function Width(n: nat): (w: nat)
    ensures w >= LABEL
  {
    if n < Power16(LABEL) then LABEL else 1 + Width(n / 16)
  }

  /** The address field shows the first five characters of the address. */
  function Label(n: nat): string {
    Digits(n, Width(n))[..LABEL]
  }

  function Value(s: string): nat {
    if s == "" then 0 else 16 * Value(s[..|s| - 1]) + DigitValue(s[|s| - 1])
  }

  // ----- the lines, as they are meant -----

  function HexByte(b: byte): (s: string)
    ensures |s| == 3
  {
    [Digit(b / 16, true), Digit(b % 16, true), ' ']
  }

  /** The hex columns: three characters a byte, and a gap after the eighth. */
  function HexColumns(bs: seq<byte>): (s: string)
    ensures |s| == 3 * |bs| + if |bs| >= 8 then 1 else 0
  {
    if bs == [] then "" else
    var n := |bs| - 1;
    HexColumns(bs[..n]) + HexByte(bs[n]) + if n == 7 then " " else ""
  }

  function Printable(b: byte): char {
    if 0x20 <= b <= 0x7e then b as char else '.'
  }

  function CharColumns(bs: seq<byte>): (s: string)
    ensures |s| == |bs|
  {
    if bs == [] then "" else CharColumns(bs[..|bs| - 1]) + [Printable(bs[|bs| - 1])]
  }

  function Spaces(n: nat): (s: string)
    ensures |s| == n && forall i :: 0 <= i < n ==> s[i] == ' '
  {
    if n == 0 then "" else Spaces(n - 1) + " "
  }

  /** Left-justified in the column width, and cut to it. */
  function Justify(s: string): (r: string)
    ensures |r| == COLUMNS
  {
    if |s| >= COLUMNS then s[..COLUMNS] else s + Spaces(COLUMNS - |s|)
  }

  function Line(address: nat, bs: seq<byte>): string {
    Label(address) + ":  " + Justify(HexColumns(bs)) + " " + CharColumns(bs) + "\n"
  }

  function Chunk(bs: seq<byte>): (r: seq<byte>)
    ensures |r| <= |bs| && |r| <= 16 && (bs != [] ==> r != [])
  {
    if |bs| < 16 then bs else bs[..16]
  }

  function Dump(bs: seq<byte>, address: nat): seq<string>
    decreases |bs|
  {
    if bs == [] then [] else [Line(address, Chunk(bs))] + Dump(bs[|Chunk(bs)|..], address + 16)
  }

  // ----- what the dump shows -----

  /** One line for every sixteen bytes or part of them. */
  lemma {:induction false} LineCount(bs: seq<byte>, address: nat)
    ensures |Dump(bs, address)| == (|bs| + 15) / 16
    decreases |bs|
  {
    hide Line;
    if bs != [] { LineCount(bs[|Chunk(bs)|..], address + 16); }
  }

  lemma {:induction false} ValueDigits(n: nat, k: nat)
    requires n < Power16(k)
    ensures Value(Digits(n, k)) == n
    decreases k
  {
    if k > 0 {
      ValueDigits(n / 16, k - 1);
      assert Digits(n, k)[..k - 1] == Digits(n / 16, k - 1);
    }
  }

  lemma {:induction false} ValueBound(s: string)
    requires forall i :: 0 <= i < |s| ==> DigitValue(s[i]) < 16
    ensures Value(s) < Power16(|s|)
    decreases |s|
  {
    if s != "" { ValueBound(s[..|s| - 1]); }
  }

  lemma {:induction false} DigitsAreDigits(n: nat, k: nat)
    ensures forall i :: 0 <= i < k ==> DigitValue(Digits(n, k)[i]) < 16
    decreases k
  {
    if k > 0 { DigitsAreDigits(n / 16, k - 1); }
  }

  /** A line's label reads back as its address exactly if the address is below 2^20. */
  lemma LabelReadsBack(n: nat)
    ensures Value(Label(n)) == n <==> n < 0x10_0000
  {
    hide Value, Power16, Digits;
    FifthPower();
    if n < Power16(LABEL) {
      ValueDigits(n, LABEL);
      assert Digits(n, LABEL)[..LABEL] == Digits(n, LABEL);
    } else {
      DigitsAreDigits(n, Width(n));
      ValueBound(Label(n));
    }
  }

  lemma FifthPower()
    ensures Power16(LABEL) == 0x10_0000
  {
    assert Power16(1) == 16 * Power16(0) && Power16(2) == 16 * Power16(1) && Power16(3) == 16 * Power16(2);
    assert Power16(4) == 16 * Power16(3);
  }

  /** The five leading hexadecimal digits of a number, or all of them if there are fewer. */
  function Leading(n: nat): nat {
    if n < 0x10_0000 then n else Leading(n / 16)
  }

  /** A label shows the leading five digits of its address, in lower case. */
  lemma {:induction false} LabelShowsLeading(n: nat)
    ensures Value(Label(n)) == Leading(n) && Digits(n, Width(n))[..LABEL] == Label(n)
    ensures forall i :: 0 <= i < |Label(n)| ==> Label(n)[i] in "0123456789abcdef"
  {
    hide Value, Power16, Digits;
    FifthPower();
    if n < 0x10_0000 {
      LabelReadsBack(n);
      DigitsShown(n, LABEL);
      assert Digits(n, LABEL)[..LABEL] == Digits(n, LABEL);
    } else {
      LabelShowsLeading(n / 16);
      DigitsInit(n, Width(n));
      var w := Width(n / 16);
      assert Digits(n, w + 1)[..w][..LABEL] == Digits(n, w + 1)[..LABEL];
    }
  }

  lemma DigitsInit(n: nat, k: nat)
    requires k > 0
    ensures Digits(n, k)[..k - 1] == Digits(n / 16, k - 1)
  {
  }

  lemma {:induction false} DigitsShown(n: nat, k: nat)
    ensures forall i :: 0 <= i < k ==> Digits(n, k)[i] in "0123456789abcdef"
    decreases k
  {
    hide Digit;
    if k > 0 {
      DigitsShown(n / 16, k - 1);
      DigitIs(n % 16);
    }
  }

  /** The digits of bytes are in upper case, those of labels in lower case. */
  lemma DigitIs(d: nat)
    requires d < 16
    ensures Digit(d, true) == "0123456789ABCDEF"[d] && Digit(d, false) == "0123456789abcdef"[d]
  {
    assert 'A' as int == 65 && 'a' as int == 97 && '0' as int == 48;
    match d
    case 0 => case 1 => case 2 => case 3 => case 4 => case 5 => case 6 => case 7 =>
    case 8 => case 9 => case 10 => case 11 => case 12 => case 13 => case 14 => case _ =>
  }

  lemma {:induction false} LineAddress(bs: seq<byte>, address: nat, k: nat)
    requires k < |Dump(bs, address)|
    ensures |Dump(bs, address)[k]| > LABEL && Dump(bs, address)[k][..LABEL] == Label(address + 16 * k)
    decreases |bs|
  {
    hide Label, Justify, HexColumns, CharColumns;
    if k == 0 {
      LabelFirst(address, Chunk(bs));
    } else {
      LineAddress(bs[|Chunk(bs)|..], address + 16, k - 1);
    }
  }

  lemma LabelFirst(address: nat, bs: seq<byte>)
    ensures |Line(address, bs)| > LABEL && Line(address, bs)[..LABEL] == Label(address)
  {
  }

  /** Line `k` of a dump carries the address 16k, as long as the dump is no longer than 2^20
      bytes. */
  lemma LabelsAreAddresses(bs: seq<byte>, k: nat)
    requires |bs| <= 0x10_0000 && k < |Dump(bs, 0)|
    ensures |Dump(bs, 0)[k]| > 5 && Value(Dump(bs, 0)[k][..5]) == 16 * k
  {
    hide Dump, Value, Label, Power16;
    LineCount(bs, 0);
    LineAddress(bs, 0, k);
    LabelReadsBack(16 * k);
  }

  // ----- reading the bytes back -----

  /** Where the two digits of byte `j` stand in a line. */
  function Column(j: nat): nat {
    8 + 3 * j + if j >= 8 then 1 else 0
  }

  /** The bytes shown by a line from column `j` on: up to the first column that is blank. */
  function ReadLine(line: string, j: nat): seq<int>
    requires j <= 16
    decreases 16 - j
  {
    var c := Column(j);
    if j == 16 || |line| < c + 2 || DigitValue(line[c]) == 16 || DigitValue(line[c + 1]) == 16 then []
    else [16 * DigitValue(line[c]) + DigitValue(line[c + 1])] + ReadLine(line, j + 1)
  }

  function ReadLines(lines: seq<string>): seq<int> {
    if lines == [] then [] else ReadLine(lines[0], 0) + ReadLines(lines[1..])
  }

  lemma {:induction false} ColumnsHold(bs: seq<byte>, j: nat)
    requires j < |bs|
    ensures var s, c := HexColumns(bs), Column(j) - LABEL - 3;
            c + 2 <= |s| && s[c..c + 2] == HexByte(bs[j])[..2]
    decreases |bs|
  {
    hide HexByte;
    var n := |bs| - 1;
    var init := HexColumns(bs[..n]);
    if j < n {
      ColumnsHold(bs[..n], j);
      var c := Column(j) - LABEL - 3;
      assert HexColumns(bs)[c..c + 2] == init[c..c + 2];
    } else {
      assert HexColumns(bs)[|init|..|init| + 2] == HexByte(bs[n])[..2];
    }
  }

  lemma HexByteValue(b: byte)
    ensures 16 * DigitValue(HexByte(b)[0]) + DigitValue(HexByte(b)[1]) == b
    ensures DigitValue(HexByte(b)[0]) < 16 && DigitValue(HexByte(b)[1]) < 16
  {
  }

  /** The hex part of a line, and what follows the last byte in it. */
  lemma LineColumns(address: nat, bs: seq<byte>, j: nat)
    requires |bs| <= 16 && j < 16
    ensures var line, c := Line(address, bs), Column(j);
            && |line| >= c + 2
            && (j < |bs| ==> line[c] == HexByte(bs[j])[0] && line[c + 1] == HexByte(bs[j])[1])
            && (j == |bs| ==> line[c] == ' ')
  {
    hide Label, CharColumns, HexByte, HexColumns;
    HeadSize(address);
    var h, c := HexColumns(bs), Column(j) - LABEL - 3;
    var head, tail := Label(address) + ":  ", " " + CharColumns(bs) + "\n";
    assert Line(address, bs) == head + (Justify(h) + tail);
    assert Line(address, bs)[Column(j)] == Justify(h)[c] && Line(address, bs)[Column(j) + 1] == Justify(h)[c + 1];
    if j < |bs| {
      ColumnsHold(bs, j);
      assert Justify(h)[c] == h[c..c + 2][0] && Justify(h)[c + 1] == h[c..c + 2][1];
    }
  }

  lemma HeadSize(address: nat)
    ensures |Label(address)| == LABEL
  {
  }

  lemma BlankIsNoDigit()
    ensures DigitValue(' ') == 16
  {
  }

  lemma {:induction false} ReadLineBack(address: nat, bs: seq<byte>, j: nat)
    requires |bs| <= 16 && j <= |bs|
    ensures ReadLine(Line(address, bs), j) == bs[j..]
    decreases 16 - j
  {
    hide Line, HexByte, DigitValue;
    BlankIsNoDigit();
    if j < 16 {
      LineColumns(address, bs, j);
      if j < |bs| {
        HexByteValue(bs[j]);
        ReadLineBack(address, bs, j + 1);
      }
    }
  }

  /** Reading the hex columns of the dump in order gives back the dumped bytes. */
  lemma {:induction false} DumpReadsBack(bs: seq<byte>, address: nat)
    ensures ReadLines(Dump(bs, address)) == bs
    decreases |bs|
  {
    hide Line, ReadLine;
    if bs != [] {
      var chunk := Chunk(bs);
      ReadLineBack(address, chunk, 0);
      assert chunk[0..] == chunk && bs == chunk + bs[|chunk|..];
      DumpReadsBack(bs[|chunk|..], address + 16);
    }
  }

  lemma {:induction false} CharsHold(bs: seq<byte>, j: nat)
    requires j < |bs|
    ensures CharColumns(bs)[j] == if 0x20 <= bs[j] <= 0x7e then bs[j] as char else '.'
    decreases |bs|
  {
    var n := |bs| - 1;
    if j < n { CharsHold(bs[..n], j); }
  }

  /** After the hex columns and a blank, the line shows each byte as its character, or as a
      dot if it has none. */
  lemma TextShown(address: nat, bs: seq<byte>, j: nat)
    requires j < |bs| <= 16
    ensures var line, c := Line(address, bs), 58 + j;
            c < |line| && line[c] == if 0x20 <= bs[j] <= 0x7e then bs[j] as char else '.'
  {
    hide Label, Justify, CharColumns, HexColumns;
    HeadSize(address);
    CharsHold(bs, j);
    var head := Label(address) + ":  " + Justify(HexColumns(bs)) + " ";
    assert Line(address, bs) == head + (CharColumns(bs) + "\n");
  }

  lemma HexByteShown(b: byte)
    ensures HexByte(b) == ["0123456789ABCDEF"[b / 16], "0123456789ABCDEF"[b % 16], ' ']
  {
    hide Digit;
    DigitIs(b / 16);
    DigitIs(b % 16);
  }

  /** The digits of byte `j` in a line, in upper case. */
  lemma ByteShown(address: nat, bs: seq<byte>, j: nat)
    requires j < |bs| <= 16
    ensures var line, c := Line(address, bs), 8 + 3 * j + if j >= 8 then 1 else 0;
            && |line| >= c + 2
            && line[c] == "0123456789ABCDEF"[bs[j] / 16] && line[c + 1] == "0123456789ABCDEF"[bs[j] % 16]
  {
    hide Line, HexByte;
    LineColumns(address, bs, j);
    HexByteShown(bs[j]);
  }

  /** Position `p` of the hex columns is one of the digits of a byte. */
  ghost predicate DigitPosition(n: nat, p: nat) {
    exists j: nat :: j < n && Column(j) <= p + 8 < Column(j) + 2
  }

  lemma {:induction false} ColumnsBlank(bs: seq<byte>, p: nat)
    requires p < |HexColumns(bs)| && !DigitPosition(|bs|, p)
    ensures HexColumns(bs)[p] == ' '
    decreases |bs|
  {
    hide Digit;
    var n := |bs| - 1;
    var init := HexColumns(bs[..n]);
    if p < |init| {
      ColumnsBlank(bs[..n], p);
    } else {
      assert Column(n) == |init| + 8;
    }
  }

  /** The frame of a line: five digits, a colon and two blanks, 49 columns that are blank except
      for the digits of the bytes, a blank, the text and the end of the line. */
  lemma LineFrame(address: nat, bs: seq<byte>, p: nat)
    requires |bs| <= 16
    ensures var line := Line(address, bs);
            && |line| == 59 + |bs| && line[5..8] == ":  " && line[57] == ' ' && line[58 + |bs|] == '\n'
            && (8 <= p < 57 && !DigitPosition(|bs|, p - 8) ==> line[p] == ' ')
  {
    hide Label, HexColumns, CharColumns, DigitPosition;
    HeadSize(address);
    var h := HexColumns(bs);
    var head, tail := Label(address) + ":  ", " " + CharColumns(bs) + "\n";
    var line := Line(address, bs);
    assert line == head + (Justify(h) + tail);
    if 8 <= p < 57 && !DigitPosition(|bs|, p - 8) {
      assert line[p] == Justify(h)[p - 8];
      if p - 8 < |h| { ColumnsBlank(bs, p - 8); }
    }
  }

  // ----- the loop -----

  /** strncat into a buffer of `size` characters, one of them for the final NUL. */
  function Append(buffer: string, text: string, size: nat): string {
    var room := if |buffer| + 1 < size then size - |buffer| - 1 else 0;
    buffer + if |text| <= room then text else text[..room]
  }

  lemma {:induction false} DumpJoin(a: seq<byte>, b: seq<byte>, address: nat)
    requires |a| % 16 == 0
    ensures Dump(a + b, address) == Dump(a, address) + Dump(b, address + |a|)
    decreases |a|
  {
    hide Line;
    if a == [] {
      assert a + b == b;
    } else {
      assert |a| >= 16;
      assert Chunk(a + b) == Chunk(a) == a[..16];
      assert (a + b)[16..] == a[16..] + b;
      DumpJoin(a[16..], b, address + 16);
    }
  }

  lemma DumpOne(bs: seq<byte>, address: nat)
    requires 0 < |bs| <= 16
    ensures Dump(bs, address) == [Line(address, bs)]
  {
    hide Line;
    assert Chunk(bs) == bs;
    assert bs[|bs|..] == [];
  }

  lemma AppendFits(buffer: string, text: string, size: nat)
    requires |buffer| + |text| < size
    ensures Append(buffer, text, size) == buffer + text
  {
  }

  lemma StartLine(data: seq<byte>, n: nat)
    requires n <= |data|
    ensures HexColumns(data[n..n]) == "" && CharColumns(data[n..n]) == ""
  {
  }

  lemma NextColumns(data: seq<byte>, whole: nat, n: nat)
    requires whole <= n < |data|
    ensures HexColumns(data[whole..n + 1])
         == HexColumns(data[whole..n]) + HexByte(data[n]) + if n - whole == 7 then " " else ""
    ensures CharColumns(data[whole..n + 1]) == CharColumns(data[whole..n]) + [Printable(data[n])]
  {
    var c := data[whole..n + 1];
    assert c[..|c| - 1] == data[whole..n] && c[|c| - 1] == data[n];
  }

  lemma FinishLine(data: seq<byte>, whole: nat, n: nat)
    requires whole % 16 == 0 && whole < n <= |data| && n - whole <= 16
    ensures Dump(data[..n], 0) == Dump(data[..whole], 0) + [Line(whole, data[whole..n])]
  {
    hide Line, Dump;
    assert data[..n] == data[..whole] + data[whole..n];
    DumpJoin(data[..whole], data[whole..n], 0);
    DumpOne(data[whole..n], whole);
  }

  lemma DumpNothing(data: seq<byte>)
    ensures Dump(data[..0], 0) == []
  {
  }

  /** Add one byte to the line buffers, and the gap after the eighth. */
  method AddByte(data: seq<byte>, ghost whole: nat, n: nat, hex: string, chars: string)
      returns (hex': string, chars': string)
    requires n < |data| && whole == n - n % 16
    requires hex == HexColumns(data[whole..n]) && chars == CharColumns(data[whole..n])
    ensures hex' == HexColumns(data[whole..n + 1]) && chars' == CharColumns(data[whole..n + 1])
  {
    hide HexColumns, CharColumns, HexByte, Append, Printable;
    NextColumns(data, whole, n);
    AppendFits(hex, HexByte(data[n]), HEX_SIZE);
    AppendFits(chars, [Printable(data[n])], CHAR_SIZE);
    hex' := Append(hex, HexByte(data[n]), HEX_SIZE);
    chars' := Append(chars, [Printable(data[n])], CHAR_SIZE);
    if (n + 1) % 16 != 0 && (n + 1) % 8 == 0 {
      AppendFits(hex', " ", HEX_SIZE);
      hex' := Append(hex', " ", HEX_SIZE);
    }
  }

  /** The dump: no append into a line buffer is ever cut short, and the lines are those of
      Dump. The length is a 32-bit number; at its largest value the loop would not end. */
  method WriteHexDump(data: seq<byte>) returns (lines: seq<string>)
    requires |data| < 0xFFFF_FFFF
    ensures lines == Dump(data, 0)
  {
    hide HexColumns, CharColumns, Label, Justify, Dump;
    lines := [];
    var addr, hex, chars := "", "", "";
    ghost var whole: nat := 0;
    DumpNothing(data);
    StartLine(data, 0);
    var n := 0;
    while n < |data|
      invariant n <= |data| && whole == n - n % 16
      invariant lines == Dump(data[..whole], 0)
      invariant hex == HexColumns(data[whole..n]) && chars == CharColumns(data[whole..n])
      invariant n % 16 != 0 ==> addr == Label(whole)
    {
      if n % 16 == 0 { addr := Label(n); }
      hex, chars := AddByte(data, whole, n, hex, chars);
      n := n + 1;
      if n % 16 == 0 {
        lines := lines + [addr + ":  " + Justify(hex) + " " + chars + "\n"];
        hex, chars := "", "";
        FinishLine(data, whole, n);
        StartLine(data, n);
        whole := n;
      }
    }
    assert data[..n] == data;
    if |hex| > 0 {
      lines := lines + [addr + ":  " + Justify(hex) + " " + chars + "\n"];
      FinishLine(data, whole, n);
    }
  }
}

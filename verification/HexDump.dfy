/** The hex dump of a message in the log: rows of 16 bytes, in hex and as characters, written into a line of 81. */
module HexDump {
  import opened Bytes
  import opened Sequences

  const LINE_SIZE: nat := 81
  const ROW: nat := 16
  /** Where the characters begin, behind the hex columns and two blanks. */
  const TEXT: nat := 49
  const DASH: nat := 23

  const DIGITS: string := "0123456789abcdef"

  function Digit(d: nat): char
    requires d < 16
  {
    DIGITS[d]
  }

  function Value(c: char): nat {
    if '0' <= c <= '9' then (c - '0') as nat
    else if 'a' <= c <= 'f' then (c - 'a') as nat + 10
    else 0
  }

  lemma DigitHasValue(d: nat)
    requires d < 16
    ensures Value(Digit(d)) == d
  {}

  /** "%02x". */
  function Hex(b: byte): string { [Digit((b as int) / 16), Digit((b as int) % 16)] }

  /** A printable character as it is, a dash for anything else. */
  function Text(b: byte): char { if 0x20 <= b < 0x7f then b as char else '-' }

  /** What the hex part has in a column, the dash aside: two digits and a blank for each byte, and blanks. */
  function Column(chunk: seq<byte>, k: nat): char {
    if k % 3 == 2 || k / 3 >= |chunk| then ' ' else Hex(chunk[k / 3])[k % 3]
  }

  /** A row shows these bytes. */
  predicate Shows(row: string, chunk: seq<byte>) {
    && |row| == TEXT + |chunk|
    && (forall k :: 0 <= k < TEXT - 2 ==> row[k] == if k == DASH then '-' else Column(chunk, k))
    && row[TEXT - 2] == row[TEXT - 1] == ' '
    && (forall k :: TEXT <= k < |row| ==> row[k] == Text(chunk[k - TEXT]))
  }

  // ---------------------------------------------------------------- reading a dump

  function ReadByte(row: string, j: nat): byte
    requires 3 * j + 1 < |row|
  {
    var high, low := Value(row[3 * j]), Value(row[3 * j + 1]);
    if high < 16 && low < 16 then 16 * high + low else 0
  }

  /** The bytes of the first n pairs of digits. */
  function ReadBytes(row: string, n: nat): seq<byte>
    requires 3 * n <= |row| + 1
  {
    if n == 0 then [] else ReadBytes(row, n - 1) + [ReadByte(row, n - 1)]
  }

  function ReadRow(row: string): seq<byte> {
    if |row| < TEXT || |row| > TEXT + ROW then [] else ReadBytes(row, |row| - TEXT)
  }

  function ReadRows(rows: seq<string>): seq<byte> {
    if rows == [] then [] else ReadRows(rows[..|rows| - 1]) + ReadRow(rows[|rows| - 1])
  }

  /** The dash is in no digit's column. */
  lemma DigitsAreWhole(row: string, chunk: seq<byte>, j: nat)
    requires Shows(row, chunk) && j < |chunk| <= ROW
    ensures ReadByte(row, j) == chunk[j]
  {
    var b := chunk[j] as int;
    assert (3 * j) % 3 == 0 && (3 * j) / 3 == j && (3 * j + 1) % 3 == 1 && (3 * j + 1) / 3 == j;
    assert row[3 * j] == Digit(b / 16) && row[3 * j + 1] == Digit(b % 16);
    DigitHasValue(b / 16);
    DigitHasValue(b % 16);
  }

  lemma {:induction false} BytesReadBack(row: string, chunk: seq<byte>, n: nat)
    requires n <= |chunk| && 3 * |chunk| <= |row| + 1
    requires forall j {:trigger ReadByte(row, j)} :: 0 <= j < |chunk| ==> ReadByte(row, j) == chunk[j]
    ensures ReadBytes(row, n) == chunk[..n]
  {
    if n == 0 {
    } else {
      BytesReadBack(row, chunk, n - 1);
      assert chunk[..n] == chunk[..n - 1] + [chunk[n - 1]];
    }
  }

  lemma AllWhole(row: string, chunk: seq<byte>)
    requires Shows(row, chunk) && |chunk| <= ROW
    ensures |row| == TEXT + |chunk|
    ensures forall j {:trigger ReadByte(row, j)} :: 0 <= j < |chunk| ==> ReadByte(row, j) == chunk[j]
  {
    forall j | 0 <= j < |chunk| ensures ReadByte(row, j) == chunk[j] {
      DigitsAreWhole(row, chunk, j);
    }
  }

  /** The bytes of a row can be read back from it. */
  lemma RowReadsBack(row: string, chunk: seq<byte>)
    requires Shows(row, chunk) && |chunk| <= ROW
    ensures ReadRow(row) == chunk
  {
    AllWhole(row, chunk);
    WholeReadsBack(row, chunk);
  }

  /** Behind the two blanks a row shows, for each byte from 32 to 126, its character, and a dash for any other. */
  lemma CharactersAreShown(row: string, chunk: seq<byte>, j: nat)
    requires Shows(row, chunk) && j < |chunk|
    ensures row[TEXT + j] as int == if 32 <= chunk[j] <= 126 then chunk[j] as int else 45
    ensures 32 <= chunk[j] <= 126 ==> row[TEXT + j] as int == chunk[j]
  {
    assert row[TEXT + j] == Text(chunk[j]);
  }

  lemma WholeReadsBack(row: string, chunk: seq<byte>)
    requires |row| == TEXT + |chunk| <= TEXT + ROW
    requires forall j {:trigger ReadByte(row, j)} :: 0 <= j < |chunk| ==> ReadByte(row, j) == chunk[j]
    ensures ReadRow(row) == chunk
  {
    BytesReadBack(row, chunk, |chunk|);
    assert chunk[..|chunk|] == chunk;
  }

  // ---------------------------------------------------------------- writing it

  /** vsprintf at an offset of the line: the text, and a NUL behind it. */
  method AppendFmt(line: array<char>, offset: nat, text: string) returns (offset': nat)
    requires offset + |text| < line.Length
    modifies line
    ensures offset' == offset + |text|
    ensures forall k :: 0 <= k < offset ==> line[k] == old(line[k])
    ensures forall k :: offset <= k < offset' ==> line[k] == text[k - offset]
    ensures line[offset'] == '\0'
  {
    forall k | 0 <= k < |text| {
      line[offset + k] := text[k];
    }
    offset' := offset + |text|;
    line[offset'] := '\0';
  }

  lemma ColumnOf(chunk: seq<byte>, j: nat)
    ensures j > 0 ==> Column(chunk, 3 * j - 1) == ' '
    ensures Column(chunk, 3 * j) == if j < |chunk| then Hex(chunk[j])[0] else ' '
    ensures Column(chunk, 3 * j + 1) == if j < |chunk| then Hex(chunk[j])[1] else ' '
  {
    assert (3 * j) % 3 == 0 && (3 * j) / 3 == j && (3 * j + 1) % 3 == 1 && (3 * j + 1) / 3 == j;
    assert j > 0 ==> (3 * j - 1) % 3 == 2;
  }

  /** A blank and the two digits of a byte. */
  method AppendByte(line: array<char>, chunk: seq<byte>, j: nat, offset: nat) returns (offset': nat)
    requires line.Length == LINE_SIZE && 0 < j < |chunk| <= ROW && offset == 3 * j - 1
    requires forall k :: 0 <= k < offset ==> line[k] == Column(chunk, k)
    modifies line
    ensures offset' == 3 * j + 2
    ensures forall k :: 0 <= k < offset' ==> line[k] == Column(chunk, k)
  {
    var text := " " + Hex(chunk[j]);
    ColumnOf(chunk, j);
    offset' := AppendFmt(line, offset, text);
    assert line[offset] == text[0] && line[offset + 1] == text[1] && line[offset + 2] == text[2];
  }

  method WriteBytes(line: array<char>, chunk: seq<byte>) returns (offset: nat)
    requires line.Length == LINE_SIZE && 0 < |chunk| <= ROW
    modifies line
    ensures offset == 3 * |chunk| - 1
    ensures forall k :: 0 <= k < offset ==> line[k] == Column(chunk, k)
  {
    ColumnOf(chunk, 0);
    offset := AppendFmt(line, 0, Hex(chunk[0]));
    var j := 1;
    while j < |chunk|
      invariant 1 <= j <= |chunk| && offset == 3 * j - 1
      invariant forall k :: 0 <= k < offset ==> line[k] == Column(chunk, k)
    {
      offset := AppendByte(line, chunk, j, offset);
      j := j + 1;
    }
  }

  /** The hex part of a row. */
  method WriteHex(line: array<char>, chunk: seq<byte>) returns (offset: nat)
    requires line.Length == LINE_SIZE && 0 < |chunk| <= ROW
    modifies line
    ensures offset == TEXT - 2
    ensures forall k :: 0 <= k < TEXT - 2 ==> line[k] == Column(chunk, k)
  {
    offset := WriteBytes(line, chunk);
    var j := |chunk|;
    while j < ROW
      invariant |chunk| <= j <= ROW && offset == 3 * j - 1
      invariant forall k :: 0 <= k < offset ==> line[k] == Column(chunk, k)
    {
      ColumnOf(chunk, j);
      offset := AppendFmt(line, offset, "   ");
      j := j + 1;
    }
  }

  /** One row of the dump. Its text ends before column 65, and the dash replaces a blank between two bytes. */
  method WriteRow(line: array<char>, chunk: seq<byte>) returns (offset: nat)
    requires line.Length == LINE_SIZE && 0 < |chunk| <= ROW
    modifies line
    ensures offset == TEXT + |chunk| <= 65 && line[offset] == '\0'
    ensures Shows(line[..offset], chunk)
    ensures Column(chunk, DASH) == ' '
  {
    offset := WriteHex(line, chunk);
    line[DASH] := '-';
    offset := AppendFmt(line, offset, "  ");
    var j := 0;
    while j < |chunk|
      invariant 0 <= j <= |chunk| && offset == TEXT + j
      invariant forall k :: 0 <= k < TEXT - 2 ==> line[k] == if k == DASH then '-' else Column(chunk, k)
      invariant line[TEXT - 2] == line[TEXT - 1] == ' '
      invariant forall k :: TEXT <= k < offset ==> line[k] == Text(chunk[k - TEXT])
      invariant line[offset] == '\0'
    {
      offset := AppendFmt(line, offset, [Text(chunk[j])]);
      j := j + 1;
    }
  }

  function Chunk(data: seq<byte>, r: nat): seq<byte>
    requires ROW * r < |data|
  {
    data[ROW * r..Min(|data|, ROW * r + ROW)]
  }

  method MakeRow(data: seq<byte>, r: nat) returns (row: string)
    requires ROW * r < |data|
    ensures Shows(row, Chunk(data, r)) && ReadRow(row) == Chunk(data, r)
  {
    var line := new char[LINE_SIZE];
    var chunk := Chunk(data, r);
    var offset := WriteRow(line, chunk);
    row := line[..offset];
    RowReadsBack(row, chunk);
  }

  lemma ChunkIsNext(data: seq<byte>, r: nat)
    requires ROW * r < |data|
    ensures data[..Min(|data|, ROW * r + ROW)] == data[..ROW * r] + Chunk(data, r)
  {}

  /** Every row shows the chunk at its place. */
  predicate AllShow(rows: seq<string>, data: seq<byte>) {
    ROW * |rows| < |data| + ROW && forall r :: 0 <= r < |rows| ==> Shows(rows[r], Chunk(data, r))
  }

  lemma OneMoreShows(rows: seq<string>, row: string, data: seq<byte>)
    requires AllShow(rows, data) && ROW * |rows| < |data| && Shows(row, Chunk(data, |rows|))
    ensures AllShow(rows + [row], data)
  {
    var t := rows + [row];
    forall r | 0 <= r < |t| ensures Shows(t[r], Chunk(data, r)) {
      assert r < |rows| ==> t[r] == rows[r];
    }
  }

  /** The rows are of the data in order, 16 bytes each but for the last, and from them the data can be read back. */
  method Log(data: seq<byte>) returns (rows: seq<string>)
    ensures |rows| == (|data| + ROW - 1) / ROW
    ensures AllShow(rows, data)
    ensures ReadRows(rows) == data
  {
    rows := [];
    var i := 0;
    while i < |data|
      invariant 0 <= i && |rows| * ROW == i && i < |data| + ROW
      invariant AllShow(rows, data)
      invariant ReadRows(rows) == data[..Min(|data|, i)]
    {
      var row := MakeRow(data, |rows|);
      ChunkIsNext(data, |rows|);
      ReadsOneMore(rows, row);
      OneMoreShows(rows, row, data);
      rows := rows + [row];
      i := i + ROW;
    }
  }

  lemma ReadsOneMore(rows: seq<string>, row: string)
    ensures ReadRows(rows + [row]) == ReadRows(rows) + ReadRow(row)
  {
    assert (rows + [row])[..|rows|] == rows;
  }
}

/** Programs as Intel HEX files: the writer of the assembler and the reader of
    the virtual machine. */
module HexFile {
  import opened Wrappers

  // Bytes as text.

  function HexDigit(n: nat): char
    requires n < 16
  {
    "0123456789ABCDEF"[n]
  }

  /** Anything but a digit counts as 0. */
  function Hex2Bin(c: char): (n: nat)
    ensures n < 16
  {
    if '0' <= c <= '9' then c as nat - '0' as nat
    else if 'a' <= c <= 'f' then 10 + (c as nat - 'a' as nat)
    else if 'A' <= c <= 'F' then 10 + (c as nat - 'A' as nat)
    else 0
  }

  lemma DigitReadsBack(n: nat)
    requires n < 16
    ensures Hex2Bin(HexDigit(n)) == n
  {
  }

  function ByteText(b: nat): string {
    [HexDigit(b / 16 % 16), HexDigit(b % 16)]
  }

  ghost predicate AreBytes(bs: seq<nat>) {
    forall i :: 0 <= i < |bs| ==> bs[i] < 0x100
  }

  function BytesText(bs: seq<nat>): (text: string)
    ensures |text| == 2 * |bs|
  {
    if bs == [] then "" else ByteText(bs[0]) + BytesText(bs[1..])
  }

  function Sum(bs: seq<nat>): nat {
    if bs == [] then 0 else bs[0] + Sum(bs[1..])
  }

  lemma {:induction false} SumAdds(a: seq<nat>, b: seq<nat>)
    ensures Sum(a + b) == Sum(a) + Sum(b)
  {
    if a == [] {
      assert a + b == b;
    } else {
      assert (a + b)[1..] == a[1..] + b;
      SumAdds(a[1..], b);
    }
  }

  // Records.

  datatype Record = Record(kind: nat, addr: nat, bytes: seq<nat>)

  ghost predicate IsRecord(r: Record) {
    r.kind < 0x100 && r.addr < 0x1_0000 && |r.bytes| < 0x100 && AreBytes(r.bytes)
  }

  function Header(r: Record): seq<nat> {
    [|r.bytes|, r.addr / 0x100, r.addr % 0x100, r.kind]
  }

  /** Length, address, type, data, and the byte that makes the sum 0. */
  function RecordBytes(r: Record): (bs: seq<nat>)
    ensures |bs| == 5 + |r.bytes|
  {
    var front := Header(r) + r.bytes;
    front + [(0 - Sum(front)) % 0x100]
  }

  lemma RecordSumsToZero(r: Record)
    ensures Sum(RecordBytes(r)) % 0x100 == 0
  {
    var front := Header(r) + r.bytes;
    SumAdds(front, [(0 - Sum(front)) % 0x100]);
    assert Sum([(0 - Sum(front)) % 0x100]) == (0 - Sum(front)) % 0x100;
  }

  function Line(r: Record): string {
    ":" + BytesText(RecordBytes(r)) + "\n"
  }

  function LinesOf(records: seq<Record>): (lines: seq<string>)
    ensures |lines| == |records|
  {
    if records == [] then [] else [Line(records[0])] + LinesOf(records[1..])
  }

  // The writer.

  /** The records from byte pos on, when the pending ones before it are not
      written yet. */
  function Records(code: seq<nat>, pos: nat, pending: seq<nat>): seq<Record>
    requires |pending| <= pos <= |code|
    decreases |code| - pos
  {
    if pos == |code| then
      (if pending == [] then [] else [Record(0, pos - |pending|, pending)]) + [Record(1, 0, [])]
    else if pos % 16 == 0 then
      [Record(0, pos - |pending|, pending)] + Records(code, pos + 1, [code[pos]])
    else
      Records(code, pos + 1, pending + [code[pos]])
  }

  /** What is pending is the end of what has been seen, and no more than 16
      bytes. */
  ghost predicate Pending(code: seq<nat>, pos: nat, pending: seq<nat>) {
    && |pending| <= pos <= |code|
    && pending == code[pos - |pending|..pos]
    && |pending| <= 1 + (pos + 15) % 16
    && (pos % 16 != 0 ==> 0 < |pending| <= pos % 16)
  }

  lemma PendingNext(code: seq<nat>, pos: nat, pending: seq<nat>)
    requires Pending(code, pos, pending) && pos < |code|
    ensures if pos % 16 == 0 then Pending(code, pos + 1, [code[pos]]) else Pending(code, pos + 1, pending + [code[pos]])
  {
    if pos % 16 == 0 {
      assert code[pos..pos + 1] == [code[pos]];
    } else {
      assert code[pos - |pending|..pos + 1] == pending + [code[pos]];
    }
  }

  /** Writes the code, sixteen bytes to a record, on the boundaries of sixteen. */
  method WriteHex(code: seq<nat>) returns (lines: seq<string>)
    ensures lines == LinesOf(Records(code, 0, []))
  {
    lines := [];
    var pending: seq<nat> := [];
    ghost var goal := LinesOf(Records(code, 0, []));
    for pos := 0 to |code|
      invariant |pending| <= pos && lines + LinesOf(Records(code, pos, pending)) == goal
    {
      if pos % 16 == 0 {
        ghost var rest := Records(code, pos + 1, [code[pos]]);
        FirstLine(Record(0, pos - |pending|, pending), rest, lines);
        lines := lines + [Line(Record(0, pos - |pending|, pending))];
        pending := [];
      }
      pending := pending + [code[pos]];
      assert [] + [code[pos]] == [code[pos]];
    }
    if pending != [] {
      FirstLine(Record(0, |code| - |pending|, pending), [Record(1, 0, [])], lines);
      lines := lines + [Line(Record(0, |code| - |pending|, pending))];
    }
    FirstLine(Record(1, 0, []), [], lines);
    lines := lines + [Line(Record(1, 0, []))];
  }

  lemma FirstLine(r: Record, rest: seq<Record>, before: seq<string>)
    ensures before + LinesOf([r] + rest) == (before + [Line(r)]) + LinesOf(rest)
    ensures rest == [] ==> [r] + rest == [r] && before + LinesOf([r]) == before + [Line(r)]
  {
    assert ([r] + rest)[1..] == rest;
  }

  // The reader.

  /** A byte at p, and the place behind it; 0 at the end of the line. */
  function ByteAt(line: string, p: nat): (nat, nat) {
    if p >= |line| then (0, p)
    else if p + 1 >= |line| then (0, p + 1)
    else (Hex2Bin(line[p]) * 16 + Hex2Bin(line[p + 1]), p + 2)
  }

  function BytesAt(line: string, p: nat, n: nat): (bs: seq<nat>)
    ensures |bs| == n && forall i :: 0 <= i < n ==> bs[i] < 0x100
    decreases n
  {
    if n == 0 then []
    else
      var (b, q) := ByteAt(line, p);
      [b] + BytesAt(line, q, n - 1)
  }

  function PlaceAfter(line: string, p: nat, n: nat): nat
    decreases n
  {
    if n == 0 then p else PlaceAfter(line, ByteAt(line, p).1, n - 1)
  }

  lemma {:induction false} BytesOneMore(line: string, p: nat, n: nat)
    ensures var (b, q) := ByteAt(line, PlaceAfter(line, p, n));
            BytesAt(line, p, n + 1) == BytesAt(line, p, n) + [b] && PlaceAfter(line, p, n + 1) == q
    decreases n
  {
    var (b, q) := ByteAt(line, p);
    if n > 0 {
      BytesOneMore(line, q, n - 1);
    }
  }

  lemma ByteReadsBack(front: string, b: nat, back: string)
    requires b < 0x100
    ensures ByteAt(front + ByteText(b) + back, |front|) == (b, |front| + 2)
  {
    var line := front + ByteText(b) + back;
    assert line[|front|] == ByteText(b)[0] && line[|front| + 1] == ByteText(b)[1];
    DigitReadsBack(b / 16);
    DigitReadsBack(b % 16);
  }

  /** Text written is read back. */
  lemma {:induction false} TextReadsBack(front: string, bs: seq<nat>, back: string)
    requires AreBytes(bs)
    ensures BytesAt(front + BytesText(bs) + back, |front|, |bs|) == bs
    decreases bs
  {
    if bs != [] {
      var line, next := front + BytesText(bs) + back, front + ByteText(bs[0]);
      assert line == front + ByteText(bs[0]) + (BytesText(bs[1..]) + back);
      ByteReadsBack(front, bs[0], BytesText(bs[1..]) + back);
      assert line == next + BytesText(bs[1..]) + back;
      TextReadsBack(next, bs[1..], back);
    }
  }

  function Spaces(line: string, p: nat): (q: nat)
    requires p <= |line|
    ensures p <= q <= |line|
    decreases |line| - p
  {
    if p < |line| && line[p] == ' ' then Spaces(line, p + 1) else p
  }

  datatype Load = Load(buffer: seq<nat>, maxAddr: nat, completed: bool, error: bool)

  function Max(a: nat, b: nat): nat { if a > b then a else b }

  /** The bytes of the record on a line, as many as its first byte says. */
  function RecordOn(line: string): (r: Option<seq<nat>>)
    ensures r.Some? ==> |r.value| >= 5 && |r.value| == 5 + r.value[0]
    ensures r.Some? ==> forall i :: 0 <= i < |r.value| ==> r.value[i] < 0x100
  {
    var p := Spaces(line, 0);
    if p >= |line| || line[p] != ':' then None
    else Some(BytesAt(line, p + 1, 5 + ByteAt(line, p + 1).0))
  }

  /** The bytes written over the buffer from addr on. */
  function Patch(buffer: seq<nat>, addr: nat, bytes: seq<nat>): (r: seq<nat>)
    requires addr + |bytes| <= |buffer|
    ensures |r| == |buffer|
  {
    buffer[..addr] + bytes + buffer[addr + |bytes|..]
  }

  lemma PatchMore(buffer: seq<nat>, addr: nat, bytes: seq<nat>, b: nat)
    requires addr + |bytes| < |buffer|
    ensures Patch(buffer, addr, bytes)[addr + |bytes| := b] == Patch(buffer, addr, bytes + [b])
  {
  }

  /** Addresses are 16 bits wide. */
  function Wrap(addr: nat): nat { addr % 0x1_0000 }

  function Address(bs: seq<nat>): nat
    requires |bs| >= 5
  {
    bs[1] * 0x100 + bs[2]
  }

  /** What a record does. The sum is taken over all its bytes; a record that does
      not fit the buffer is an error. */
  function Store(l: Load, bs: seq<nat>): (l': Load)
    requires |bs| >= 5
    ensures |l'.buffer| == |l.buffer|
  {
    var n, addr := |bs| - 5, Address(bs);
    if bs[3] != 0 then Load(l.buffer, Max(l.maxAddr, addr), bs[3] == 1, Sum(bs) % 0x100 != 0)
    else if addr + n > |l.buffer| then l.(error := true)
    else Load(Patch(l.buffer, addr, bs[4..4 + n]), Max(l.maxAddr, Wrap(addr + n)), false, Sum(bs) % 0x100 != 0)
  }

  function ReadLine(l: Load, line: string): (l': Load)
    ensures |l'.buffer| == |l.buffer|
  {
    match RecordOn(line)
    case None => l
    case Some(bs) => Store(l, bs)
  }

  function ReadLines(l: Load, lines: seq<string>): (l': Load)
    ensures |l'.buffer| == |l.buffer|
    decreases |lines|
  {
    if l.completed || l.error then l
    else if lines == [] then l.(error := true)
    else ReadLines(ReadLine(l, lines[0]), lines[1..])
  }

  /** How many lines are read, up to the end record or the first error. */
  function LinesUsed(l: Load, lines: seq<string>): (n: nat)
    ensures n <= |lines|
    decreases |lines|
  {
    if l.completed || l.error || lines == [] then 0 else 1 + LinesUsed(ReadLine(l, lines[0]), lines[1..])
  }

  /** The lines of an accepted file all sum to 0 where they are records. */
  ghost predicate SumToZero(lines: seq<string>, n: nat)
    requires n <= |lines|
  {
    forall k :: 0 <= k < n && RecordOn(lines[k]).Some? ==> Sum(RecordOn(lines[k]).value) % 0x100 == 0
  }

  lemma {:induction false} AcceptedSumsToZero(l: Load, lines: seq<string>)
    requires !ReadLines(l, lines).error
    ensures SumToZero(lines, LinesUsed(l, lines))
    decreases |lines|
  {
    if !l.completed && !l.error && lines != [] {
      AcceptedSumsToZero(ReadLine(l, lines[0]), lines[1..]);
      OnceAnErrorAlways(ReadLine(l, lines[0]), lines[1..]);
      forall k | 0 <= k < LinesUsed(l, lines) && RecordOn(lines[k]).Some?
        ensures Sum(RecordOn(lines[k]).value) % 0x100 == 0
      {
        if k > 0 {
          assert lines[1..][k - 1] == lines[k];
        }
      }
    }
  }

  lemma OnceAnErrorAlways(l: Load, lines: seq<string>)
    ensures l.error ==> ReadLines(l, lines) == l
  {
  }

  // Reading back what was written.

  /** What a written record does. */
  function Apply(l: Load, r: Record): Load {
    if r.kind == 0 && r.addr + |r.bytes| <= |l.buffer| then
      Load(Patch(l.buffer, r.addr, r.bytes), Max(l.maxAddr, Wrap(r.addr + |r.bytes|)), false, false)
    else
      Load(l.buffer, Max(l.maxAddr, r.addr), r.kind == 1, false)
  }

  lemma FirstByteText(bs: seq<nat>)
    requires bs != []
    ensures BytesText(bs) == ByteText(bs[0]) + BytesText(bs[1..])
  {
  }

  lemma Regroup(a: string, b: string, c: string, d: string)
    ensures a + (b + c) + d == a + b + (c + d)
  {
  }

  /** A line with a colon in front is a record of as many bytes as its first byte
      says. */
  lemma RecordFound(line: string, bs: seq<nat>)
    requires line != [] && line[0] == ':' && |bs| >= 5 && ByteAt(line, 1).0 == |bs| - 5 && BytesAt(line, 1, |bs|) == bs
    ensures RecordOn(line) == Some(bs)
  {
    assert Spaces(line, 0) == 0;
  }

  lemma TextOnLine(bs: seq<nat>)
    requires AreBytes(bs) && |bs| >= 5
    ensures var line := ":" + BytesText(bs) + "\n";
            line[0] == ':' && BytesAt(line, 1, |bs|) == bs && ByteAt(line, 1).0 == bs[0]
  {
    FirstByteText(bs);
    hide BytesText, BytesAt, ByteAt, ByteText;
    TextReadsBack(":", bs, "\n");
    Regroup(":", ByteText(bs[0]), BytesText(bs[1..]), "\n");
    ByteReadsBack(":", bs[0], BytesText(bs[1..]) + "\n");
  }

  lemma RecordOnLine(r: Record)
    requires IsRecord(r)
    ensures RecordOn(Line(r)) == Some(RecordBytes(r))
  {
    var bs := RecordBytes(r);
    RecordBytesAreBytes(r);
    assert bs[0] == |r.bytes|;
    TextOnLine(bs);
    RecordFound(Line(r), bs);
  }

  lemma RecordBytesAreBytes(r: Record)
    requires IsRecord(r)
    ensures AreBytes(RecordBytes(r))
  {
    assert AreBytes(Header(r));
  }

  /** A written record is accepted and does what it says. */
  lemma RecordReadsBack(l: Load, r: Record)
    requires IsRecord(r) && r.kind <= 1 && (r.kind == 0 ==> r.addr + |r.bytes| <= |l.buffer|)
    ensures ReadLine(l, Line(r)) == Apply(l, r)
  {
    hide RecordOn, RecordBytes, Line, Sum, Patch, Address, Wrap, IsRecord;
    RecordOnLine(r);
    RecordSumsToZero(r);
    FieldsOf(r);
  }

  lemma FieldsOf(r: Record)
    ensures var bs := RecordBytes(r); Address(bs) == r.addr && bs[3] == r.kind && bs[4..4 + |r.bytes|] == r.bytes
  {
    var bs := RecordBytes(r);
    assert bs[..4] == Header(r);
    assert bs[1] == bs[..4][1] && bs[2] == bs[..4][2] && bs[3] == bs[..4][3];
  }

  function ApplyAll(l: Load, records: seq<Record>): Load
    decreases |records|
  {
    if l.completed || records == [] then l else ApplyAll(Apply(l, records[0]), records[1..])
  }

  /** Only data that fits a buffer of this size, and ends. */
  ghost predicate AllFit(records: seq<Record>, size: nat) {
    forall k :: 0 <= k < |records| ==>
      IsRecord(records[k]) && records[k].kind <= 1 && (records[k].kind == 0 ==>
        records[k].addr + |records[k].bytes| <= size)
  }

  ghost predicate EndsTheFile(records: seq<Record>) {
    records != [] && records[|records| - 1].kind == 1
  }

  lemma {:induction false} LinesReadBack(l: Load, records: seq<Record>)
    requires !l.error && (l.completed || EndsTheFile(records)) && AllFit(records, |l.buffer|)
    ensures ReadLines(l, LinesOf(records)) == ApplyAll(l, records)
    decreases |records|
  {
    if !l.completed {
      RecordReadsBack(l, records[0]);
      assert LinesOf(records)[1..] == LinesOf(records[1..]);
      LinesReadBack(Apply(l, records[0]), records[1..]);
    }
  }

  /** The records are in range, and the last one ends the file. */
  lemma {:induction false} RecordsInRange(code: seq<nat>, pos: nat, pending: seq<nat>, size: nat)
    requires AreBytes(code) && |code| < 0x1_0000 && |code| <= size && Pending(code, pos, pending)
    ensures EndsTheFile(Records(code, pos, pending)) && AllFit(Records(code, pos, pending), size)
    decreases |code| - pos
  {
    var r := Record(0, pos - |pending|, pending);
    if pos == |code| {
      assert AllFit([Record(1, 0, [])], size);
      OneMoreFits(r, [Record(1, 0, [])], size);
    } else {
      PendingNext(code, pos, pending);
      var next := if pos % 16 == 0 then [code[pos]] else pending + [code[pos]];
      RecordsInRange(code, pos + 1, next, size);
      OneMoreFits(r, Records(code, pos + 1, next), size);
    }
  }

  lemma OneMoreFits(r: Record, rest: seq<Record>, size: nat)
    requires IsRecord(r) && r.kind <= 1 && (r.kind == 0 ==> r.addr + |r.bytes| <= size)
    requires AllFit(rest, size) && EndsTheFile(rest)
    ensures AllFit([r] + rest, size) && EndsTheFile([r] + rest)
  {
  }

  lemma PendingApplied(code: seq<nat>, pos: nat, pending: seq<nat>, l: Load)
    requires Pending(code, pos, pending) && |code| <= |l.buffer| && |code| < 0x1_0000
    requires var start := pos - |pending|; l.buffer[..start] == code[..start] && l.maxAddr == start
    ensures var l' := Apply(l, Record(0, pos - |pending|, pending));
            l'.buffer[..pos] == code[..pos] && l'.buffer[|code|..] == l.buffer[|code|..] && l'.maxAddr == pos
              && |l'.buffer| == |l.buffer|
  {
    var start := pos - |pending|;
    assert code[..pos] == code[..start] + pending;
  }

  lemma {:induction false} RecordsApplied(code: seq<nat>, pos: nat, pending: seq<nat>, l: Load)
    requires |code| <= |l.buffer| && |code| < 0x1_0000 && Pending(code, pos, pending) && !l.completed && !l.error
    requires var start := pos - |pending|; l.buffer[..start] == code[..start] && l.maxAddr == start
    ensures ApplyAll(l, Records(code, pos, pending)) == Load(code + l.buffer[|code|..], |code|, true, false)
    decreases |code| - pos
  {
    hide ApplyAll, Patch, Wrap;
    PendingApplied(code, pos, pending, l);
    var next := Apply(l, Record(0, pos - |pending|, pending));
    if pos == |code| {
      LastApplied(code, pending, l, next);
    } else {
      PendingNext(code, pos, pending);
      if pos % 16 == 0 {
        FirstApplied(l, Record(0, pos - |pending|, pending), Records(code, pos + 1, [code[pos]]));
        RecordsApplied(code, pos + 1, [code[pos]], next);
      } else {
        RecordsApplied(code, pos + 1, pending + [code[pos]], l);
      }
    }
  }

  lemma FirstApplied(l: Load, r: Record, rest: seq<Record>)
    requires !l.completed
    ensures ApplyAll(l, [r] + rest) == ApplyAll(Apply(l, r), rest)
  {
    assert ([r] + rest)[1..] == rest;
  }

  lemma LastApplied(code: seq<nat>, pending: seq<nat>, l: Load, next: Load)
    requires |pending| <= |code| <= |l.buffer| == |next.buffer| && !l.completed && !l.error
             && l.maxAddr == |code| - |pending|
    requires next == Apply(l, Record(0, |code| - |pending|, pending))
    requires next.buffer[..|code|] == code && next.buffer[|code|..] == l.buffer[|code|..] && next.maxAddr == |code|
    requires pending == [] ==> l.buffer[..|code|] == code
    ensures ApplyAll(l, Records(code, |code|, pending)) == Load(code + l.buffer[|code|..], |code|, true, false)
  {
    var end := Record(1, 0, []);
    assert next.buffer == code + l.buffer[|code|..];
    FirstApplied(next, end, []);
    if pending == [] {
      assert l.buffer == code + l.buffer[|code|..];
      FirstApplied(l, end, []);
      assert Records(code, |code|, pending) == [end] + [];
    } else {
      FirstApplied(l, Record(0, |code| - |pending|, pending), [end]);
      assert [end] == [end] + [];
    }
  }

  /** A program of up to 65535 bytes is loaded as it was written. */
  lemma ProgramReadsBack(code: seq<nat>, buffer: seq<nat>)
    requires AreBytes(code) && |code| < 0x1_0000 && |code| <= |buffer|
    ensures ReadLines(Load(buffer, 0, false, false), LinesOf(Records(code, 0, []))) ==
            Load(code + buffer[|code|..], |code|, true, false)
  {
    hide ReadLines, ApplyAll, Records, LinesOf, AllFit, EndsTheFile;
    var l := Load(buffer, 0, false, false);
    RecordsInRange(code, 0, [], |buffer|);
    LinesReadBack(l, Records(code, 0, []));
    RecordsApplied(code, 0, [], l);
  }

  /** Reads a byte and adds it to the 8-bit sum. */
  method Hex2Byte(line: string, p: nat, checksum: nat) returns (val: nat, q: nat, checksum': nat)
    requires checksum < 0x100
    ensures (val, q) == ByteAt(line, p) && checksum' == (checksum + val) % 0x100
  {
    val, q, checksum' := 0, p, checksum;
    if q >= |line| {
      return;
    }
    val, q := Hex2Bin(line[q]), q + 1;
    if q >= |line| {
      val := 0;
      return;
    }
    val, q := val * 16 + Hex2Bin(line[q]), q + 1;
    checksum' := (checksum + val) % 0x100;
  }

  lemma ByteCounted(line: string, p: nat, n: nat)
    ensures var (b, q) := ByteAt(line, PlaceAfter(line, p, n));
            && BytesAt(line, p, n + 1) == BytesAt(line, p, n) + [b] && PlaceAfter(line, p, n + 1) == q
            && Sum(BytesAt(line, p, n + 1)) % 0x100 == (Sum(BytesAt(line, p, n)) % 0x100 + b) % 0x100
  {
    hide ByteAt, BytesAt, PlaceAfter;
    BytesOneMore(line, p, n);
    SumAdds(BytesAt(line, p, n), [ByteAt(line, PlaceAfter(line, p, n)).0]);
  }

  /** The reader has read n bytes of the record that starts at start. */
  ghost predicate HasRead(line: string, start: nat, n: nat, bs: seq<nat>, p: nat, checksum: nat) {
    bs == BytesAt(line, start, n) && p == PlaceAfter(line, start, n) && checksum == Sum(bs) % 0x100
  }

  /** One more byte. */
  method NextByte(line: string, p0: nat, checksum0: nat, ghost start: nat, ghost bs0: seq<nat>)
      returns (val: nat, p: nat, checksum: nat, ghost bs: seq<nat>)
    requires HasRead(line, start, |bs0|, bs0, p0, checksum0)
    ensures bs == bs0 + [val] && val < 0x100 && HasRead(line, start, |bs|, bs, p, checksum)
  {
    ByteCounted(line, start, |bs0|);
    val, p, checksum := Hex2Byte(line, p0, checksum0);
    bs := bs0 + [val];
  }

  /** Length, address and type. */
  method ReadHeader(line: string, start: nat) returns (len: nat, addr: nat, kind: nat, p: nat, checksum: nat,
      ghost bs: seq<nat>)
    ensures HasRead(line, start, 4, bs, p, checksum) && len < 0x100 && len == ByteAt(line, start).0
    ensures |bs| == 4 && len == bs[0] && addr == bs[1] * 0x100 + bs[2] && kind == bs[3] && addr < 0x1_0000
  {
    var hi, lo;
    bs := [];
    assert ByteAt(line, start).0 == BytesAt(line, start, 1)[0];
    len, p, checksum, bs := NextByte(line, start, 0, start, bs);
    hi, p, checksum, bs := NextByte(line, p, checksum, start, bs);
    lo, p, checksum, bs := NextByte(line, p, checksum, start, bs);
    kind, p, checksum, bs := NextByte(line, p, checksum, start, bs);
    addr := hi * 0x100 + lo;
  }

  method StoreByte(buffer: array<nat>, addr: nat, b: nat) returns (addr': nat)
    requires addr < buffer.Length <= 0x1_0000
    modifies buffer
    ensures buffer[..] == old(buffer[..])[addr := b] && addr' == Wrap(addr + 1)
  {
    buffer[addr] := b;
    addr' := Wrap(addr + 1);
  }

  lemma NothingYet(buffer: seq<nat>, addr: nat)
    ensures addr <= |buffer| ==> Patch(buffer, addr, []) == buffer
    ensures addr < 0x1_0000 ==> Wrap(addr) == addr
  {
  }

  /** The data of a record: stored, or only read. */
  method ReadData(line: string, len: nat, addr0: nat, kind: nat, p0: nat, checksum0: nat, buffer: array<nat>,
      ghost start: nat, ghost bs0: seq<nat>)
    returns (addr: nat, p: nat, checksum: nat, ghost data: seq<nat>)
    requires HasRead(line, start, |bs0|, bs0, p0, checksum0) && (kind == 0 ==> addr0 + len <= buffer.Length)
    requires addr0 < 0x1_0000 && buffer.Length <= 0x1_0000
    modifies buffer
    ensures |data| == len && HasRead(line, start, |bs0| + len, bs0 + data, p, checksum)
    ensures addr == if kind == 0 then Wrap(addr0 + len) else addr0
    ensures buffer[..] == if kind == 0 then Patch(old(buffer[..]), addr0, data) else old(buffer[..])
  {
    hide HasRead, Patch, Wrap;
    ghost var before, bs := buffer[..], bs0;
    addr, p, checksum, data := addr0, p0, checksum0, [];
    assert bs0 + [] == bs0;
    NothingYet(before, addr0);
    for i := 0 to len
      invariant |data| == i && bs == bs0 + data && HasRead(line, start, |bs|, bs, p, checksum)
      invariant addr == if kind == 0 then Wrap(addr0 + i) else addr0
      invariant buffer[..] == if kind == 0 then Patch(before, addr0, data) else before
    {
      var b;
      b, p, checksum, bs := NextByte(line, p, checksum, start, bs);
      if kind == 0 {
        PatchMore(before, addr0, data, b);
        addr := StoreByte(buffer, addr0 + i, b);
      }
      assert bs0 + (data + [b]) == (bs0 + data) + [b];
      data := data + [b];
    }
  }

  /** Reads one line into the buffer. */
  method LoadLine(line: string, buffer: array<nat>, maxAddr0: nat) returns (maxAddr: nat, completed: bool, error: bool)
    requires buffer.Length <= 0x1_0000
    modifies buffer
    ensures var l := ReadLine(Load(old(buffer[..]), maxAddr0, false, false), line);
            l == Load(buffer[..], maxAddr, completed, error)
  {
    maxAddr, completed, error := maxAddr0, false, false;
    var p: nat := 0;
    while p < |line| && line[p] == ' '
      invariant p <= |line| && Spaces(line, p) == Spaces(line, 0)
    {
      p := p + 1;
    }
    if p < |line| && line[p] == ':' {
      maxAddr, completed, error := LoadRecord(line, p + 1, buffer, maxAddr0);
    }
  }

  /** A record of which all bytes but the last have been read and its data stored. */
  method CloseRecord(line: string, len: nat, addr: nat, kind: nat, p: nat, checksum0: nat, maxAddr0: nat,
      ghost start: nat, ghost bs0: seq<nat>, ghost before: seq<nat>, ghost after: seq<nat>)
    returns (maxAddr: nat, completed: bool, error: bool)
    requires HasRead(line, start, 4 + len, bs0, p, checksum0) && kind == bs0[3]
    requires if kind == 0 then
               Address(bs0 + [0]) + len <= |before| && after == Patch(before, Address(bs0 + [0]), bs0[4..])
                 && addr == Wrap(Address(bs0 + [0]) + len)
             else after == before && addr == Address(bs0 + [0])
    ensures Store(Load(before, maxAddr0, false, false), BytesAt(line, start, 5 + len)) ==
            Load(after, maxAddr, completed, error)
  {
    var b, checksum, q;
    ghost var bs;
    b, q, checksum, bs := NextByte(line, p, checksum0, start, bs0);
    assert bs[4..4 + len] == bs0[4..];
    maxAddr, completed, error := if addr > maxAddr0 then addr else maxAddr0, kind == 1, checksum != 0;
  }

  method LoadRecord(line: string, start: nat, buffer: array<nat>, maxAddr0: nat)
      returns (maxAddr: nat, completed: bool, error: bool)
    requires buffer.Length <= 0x1_0000
    modifies buffer
    ensures Store(Load(old(buffer[..]), maxAddr0, false, false), BytesAt(line, start, 5 + ByteAt(line, start).0)) ==
              Load(buffer[..], maxAddr, completed, error)
  {
    ghost var data;
    var len, addr, kind, p, checksum, head := ReadHeader(line, start);
    HeadIsPrefix(line, start, len, head);
    if kind == 0 && addr + len > buffer.Length {
      return maxAddr0, false, true;
    }
    addr, p, checksum, data := ReadData(line, len, addr, kind, p, checksum, buffer, start, head);
    assert (head + data)[4..] == data;
    maxAddr, completed, error := CloseRecord(line, len, addr, kind, p, checksum, maxAddr0, start, head + data,
      old(buffer[..]), buffer[..]);
  }

  lemma HeadIsPrefix(line: string, start: nat, n: nat, head: seq<nat>)
    requires head == BytesAt(line, start, 4)
    ensures var bs := BytesAt(line, start, 5 + n); bs[1] == head[1] && bs[2] == head[2] && bs[3] == head[3]
  {
    PrefixOfBytes(line, start, 4, 5 + n);
    var bs := BytesAt(line, start, 5 + n);
    assert bs[..4][1] == bs[1] && bs[..4][2] == bs[2] && bs[..4][3] == bs[3];
  }

  lemma {:induction false} PrefixOfBytes(line: string, p: nat, k: nat, n: nat)
    requires k <= n
    ensures BytesAt(line, p, n)[..k] == BytesAt(line, p, k)
    decreases k
  {
    if k > 0 {
      PrefixOfBytes(line, ByteAt(line, p).1, k - 1, n - 1);
    }
  }

  /** Reads a file up to its end record. A program must start with its two
      marker bytes. */
  method ReadHexFile(lines: seq<string>, buffer: array<nat>) returns (ok: bool, maxAddr: nat)
    requires 2 <= buffer.Length <= 0x1_0000
    modifies buffer
    ensures var l := ReadLines(Load(old(buffer[..]), 0, false, false), lines);
            && ok == (!l.error && l.buffer[0] == 0xD7 && l.buffer[1] == 0xFB)
            && (ok ==> buffer[..] == l.buffer && maxAddr == l.maxAddr)
    ensures ok ==> SumToZero(lines, LinesUsed(Load(old(buffer[..]), 0, false, false), lines))
  {
    ghost var goal := ReadLines(Load(buffer[..], 0, false, false), lines);
    var completed, error := false, false;
    maxAddr := 0;
    var k := 0;
    assert lines[0..] == lines;
    while !completed && !error
      invariant k <= |lines|
      invariant goal == ReadLines(Load(buffer[..], maxAddr, completed, error), lines[k..])
      decreases |lines| - k, !completed && !error
    {
      if k == |lines| {
        return false, maxAddr;
      }
      ghost var l := Load(buffer[..], maxAddr, false, false);
      maxAddr, completed, error := LoadLine(lines[k], buffer, maxAddr);
      assert ReadLines(l, lines[k..]) == ReadLines(ReadLine(l, lines[k]), lines[k + 1..]) by {
        assert lines[k..][1..] == lines[k + 1..];
      }
      k := k + 1;
    }
    ok := !error && buffer[0] == 0xD7 && buffer[1] == 0xFB;
    if ok {
      AcceptedSumsToZero(Load(old(buffer[..]), 0, false, false), lines);
    }
  }
}

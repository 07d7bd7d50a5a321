/**
 The alert log file (alertlog/alertlog.go:22-149, 156-247).

 The last record of a database is found by reading the file backward in fixed-size chunks, byte by
 byte. The main results equate that scan, for every file and chunk size, with splitting the file into
 lines and walking them from the end, and relate it to the append that writes records.
 */
module AlertLog {
  import opened Common

  newtype byte = x: int | 0 <= x < 256

  type Bytes = seq<byte>

  const NEWLINE: byte := 10
  const CARRIAGE_RETURN: byte := 13

  datatype LogRecord = LogRecord(timestamp: string, database: string, moduleId: string, ecid: string, message: string)

  datatype ScanError = LineTooLong | Unparsable

  /** No record of the database is Ok(None): the caller starts from the default record. */
  type ScanResult = Result<Option<LogRecord>, ScanError>

  /**
   What a scan is given: white-space trimming and JSON decoding as unknown functions, whose record is
   wanted, whether the file holds one database only, and the line limit.
   */
  datatype Reader = Reader(
    trim: Bytes -> Bytes,
    parse: Bytes -> Option<LogRecord>,
    database: string,
    perDatabaseFile: bool,
    limit: nat)

  predicate IsBreak(b: byte) {
    b == NEWLINE || b == CARRIAGE_RETURN
  }

  ghost predicate Unbroken(s: Bytes) {
    forall i | 0 <= i < |s| :: !IsBreak(s[i])
  }

  // ---- The simple specification ----

  /** The file split at every newline and carriage return; never empty. */
  function Lines(file: Bytes): (lines: seq<Bytes>)
    ensures |lines| > 0
  {
    if file == [] then [[]]
    else
      var front, b := Lines(file[..|file| - 1]), file[|file| - 1];
      if IsBreak(b) then front + [[]] else front[|front| - 1 := front[|front| - 1] + [b]]
  }

  /** What one line of acceptable length contributes: nothing, a record, or an error. */
  function Judge(line: Bytes, r: Reader): ScanResult {
    if line == [] || r.trim(line) == [] then Ok(None)
    else
      match r.parse(r.trim(line))
      case None => Err(Unparsable)
      case Some(record) => if !r.perDatabaseFile && record.database != r.database then Ok(None) else Ok(Some(record))
  }

  /** Lines taken from the last: an over-long or unparsable one ends the walk, as does a match. */
  function Walk(lines: seq<Bytes>, r: Reader): ScanResult {
    if lines == [] then Ok(None)
    else
      var line := lines[|lines| - 1];
      if |line| > r.limit then Err(LineTooLong)
      else if Judge(line, r) != Ok(None) then Judge(line, r)
      else Walk(lines[..|lines| - 1], r)
  }

  function LastRecord(file: Bytes, r: Reader): ScanResult {
    Walk(Lines(file), r)
  }

  // ---- The chunked scan ----

  ghost function Reversed(s: Bytes): Bytes {
    seq(|s|, i requires 0 <= i < |s| => s[|s| - 1 - i])
  }

  /**
   The `flushLine` closure on the accumulated line: a line that trims to nothing is skipped, as is, in a file shared
   by databases, another's record; a file of one database gives back whatever record it holds.
   */
  method FlushLine(currentReversed: Bytes, r: Reader, ghost line: Bytes) returns (result: ScanResult)
    requires currentReversed == Reversed(line)
    ensures result == Judge(line, r)
    ensures line == [] || r.trim(line) == [] ==> result == Ok(None)
    ensures line != [] && r.trim(line) != [] ==>
      && (r.parse(r.trim(line)) == None ==> result == Err(Unparsable))
      && forall record | r.parse(r.trim(line)) == Some(record) ::
           && (r.perDatabaseFile || record.database == r.database ==> result == Ok(Some(record)))
           && (!r.perDatabaseFile && record.database != r.database ==> result == Ok(None))
  {
    if |currentReversed| == 0 {
      return Ok(None);
    }
    var buffer := new byte[|currentReversed|];
    for i := 0 to |currentReversed|
      invariant forall j | |currentReversed| - i <= j < |currentReversed| :: buffer[j] == line[j]
    {
      buffer[|currentReversed| - 1 - i] := currentReversed[i];
    }
    var lineBytes := buffer[..];
    assert lineBytes == line;
    lineBytes := r.trim(lineBytes);
    if |lineBytes| == 0 {
      return Ok(None);
    }
    var record := r.parse(lineBytes);
    if record.None? {
      return Err(Unparsable);
    }
    if !r.perDatabaseFile && record.value.database != r.database {
      return Ok(None);
    }
    return Ok(record);
  }

  /** `ReadAt`, on a file whose reads succeed. */
  method ReadAt(file: Bytes, buffer: array<byte>, size: nat, start: nat)
    requires size <= buffer.Length && start + size <= |file|
    modifies buffer
    ensures buffer[..size] == file[start..start + size]
  {
    for j := 0 to size
      invariant buffer[..j] == file[start..start + j]
    {
      buffer[j] := file[start + j];
    }
  }

  /** How far a scan has come: it has stopped with a result, or is still gathering a line. */
  datatype Progress = Stopped(result: ScanResult) | Gathering(currentReversed: Bytes)

  /** The body of the inner loop: byte `b` of the file, at `at`, is taken in. */
  method ScanByte(b: byte, currentReversed: Bytes, r: Reader, ghost file: Bytes, ghost at: nat, ghost end: nat)
    returns (progress: Progress, ghost end': nat)
    requires at < end <= |file| && b == file[at] && Gathered(file, at + 1, end, currentReversed, r)
    ensures progress.Stopped? ==> progress.result == LastRecord(file, r)
    ensures progress.Gathering? ==> at <= end' <= |file| && Gathered(file, at, end', progress.currentReversed, r)
  {
    end' := end;
    if IsBreak(b) {
      var result := FlushLine(currentReversed, r, file[at + 1..end]);
      LineEnds(file, at, end, currentReversed, r);
      end' := at;
      progress := if result != Ok(None) then Stopped(result) else Gathering([]);
    } else {
      GatherOne(file, at, end, currentReversed, r);
      var appended := currentReversed + [b];
      progress := if |appended| > r.limit then Stopped(Err(LineTooLong)) else Gathering(appended);
    }
  }

  /** The inner loop of `readLastMatchingLogRecord`: one chunk, from its last byte to its first. */
  method ScanChunk(buffer: array<byte>, size: nat, gathered: Bytes, r: Reader, ghost file: Bytes, ghost start: nat, ghost end: nat)
    returns (progress: Progress, ghost end': nat)
    requires size <= buffer.Length && start + size <= end <= |file|
    requires buffer[..size] == file[start..start + size]
    requires Gathered(file, start + size, end, gathered, r)
    ensures progress.Stopped? ==> progress.result == LastRecord(file, r)
    ensures progress.Gathering? ==> start <= end' <= |file| && Gathered(file, start, end', progress.currentReversed, r)
  {
    progress, end' := Gathering(gathered), end;
    var i := size - 1;
    while i >= 0
      invariant -1 <= i < size && start + i + 1 <= end' <= |file|
      invariant progress.Gathering? && Gathered(file, start + i + 1, end', progress.currentReversed, r)
    {
      assert buffer[i] == buffer[..size][i] == file[start + i];
      progress, end' := ScanByte(buffer[i], progress.currentReversed, r, file, start + i, end');
      if progress.Stopped? {
        return;
      }
      i := i - 1;
    }
  }

  /** `readLastMatchingLogRecord`. */
  method ReadLastMatchingLogRecord(file: Bytes, chunk: nat, r: Reader) returns (result: ScanResult)
    requires chunk > 0
    ensures result == LastRecord(file, r)
  {
    if |file| == 0 {
      OnlyLine(file, r);
      return Ok(None);
    }
    var progress := Gathering([]);
    var buffer := new byte[chunk];
    var offset := |file|;
    ghost var end := |file|;
    assert file[..end] == file;
    while offset > 0
      invariant 0 <= offset <= end <= |file|
      invariant progress.Gathering? && Gathered(file, offset, end, progress.currentReversed, r)
    {
      var start := if offset - chunk > 0 then offset - chunk else 0;
      ReadAt(file, buffer, offset - start, start);
      progress, end := ScanChunk(buffer, offset - start, progress.currentReversed, r, file, start, end);
      if progress.Stopped? {
        return progress.result;
      }
      offset := start;
    }
    result := FlushLine(progress.currentReversed, r, file[..end]);
    OnlyLine(file[..end], r);
  }

  lemma OnlyLine(line: Bytes, r: Reader)
    requires Unbroken(line)
    ensures LastRecord(line, r) == if |line| > r.limit then Err(LineTooLong) else Judge(line, r)
  {
    FirstLine(line);
    WalkOne([], line, r);
    assert [] + [line] == [line];
  }

  lemma WalkOne(front: seq<Bytes>, line: Bytes, r: Reader)
    ensures Walk(front + [line], r) ==
            if |line| > r.limit then Err(LineTooLong)
            else if Judge(line, r) != Ok(None) then Judge(line, r) else Walk(front, r)
  {
    assert (front + [line])[..|front|] == front;
  }

  /**
   Where a scan stands: bytes from `at` on are done, `file[at..end]` is the line being gathered, and
   what lies after `end` has been walked past without deciding anything.
   */
  ghost predicate Gathered(file: Bytes, at: nat, end: nat, currentReversed: Bytes, r: Reader)
    requires at <= end <= |file|
  {
    && LastRecord(file, r) == LastRecord(file[..end], r)
    && Unbroken(file[at..end])
    && currentReversed == Reversed(file[at..end])
    && |currentReversed| <= r.limit
  }

  lemma {:induction false} LastLine(a: Bytes, tail: Bytes)
    requires Unbroken(tail)
    ensures Lines(a + tail) == Lines(a)[|Lines(a)| - 1 := Lines(a)[|Lines(a)| - 1] + tail]
  {
    if tail == [] {
      assert a + tail == a;
      assert Lines(a)[|Lines(a)| - 1] + [] == Lines(a)[|Lines(a)| - 1];
    } else {
      var front, b := tail[..|tail| - 1], tail[|tail| - 1];
      assert (a + tail)[..|a + tail| - 1] == a + front;
      LastLine(a, front);
      assert Lines(a)[|Lines(a)| - 1] + front + [b] == Lines(a)[|Lines(a)| - 1] + tail;
    }
  }

  lemma FirstLine(file: Bytes)
    requires Unbroken(file)
    ensures Lines(file) == [file]
  {
    LastLine([], file);
    assert [] + file == file;
  }

  /** A break followed by an unbroken tail starts one more line, which is that tail. */
  lemma BreakStartsLine(a: Bytes, b: byte, tail: Bytes)
    requires IsBreak(b) && Unbroken(tail)
    ensures Lines(a + [b] + tail) == Lines(a) + [tail]
  {
    assert (a + [b])[..|a|] == a;
    LastLine(a + [b], tail);
    assert [] + tail == tail;
  }

  lemma LineEnds(file: Bytes, at: nat, end: nat, currentReversed: Bytes, r: Reader)
    requires at < end <= |file| && IsBreak(file[at])
    requires Gathered(file, at + 1, end, currentReversed, r)
    ensures LastRecord(file, r) ==
            var judged := Judge(file[at + 1..end], r);
            if judged != Ok(None) then judged else LastRecord(file[..at], r)
    ensures Judge(file[at + 1..end], r) == Ok(None) ==> Gathered(file, at, at, [], r)
  {
    assert file[..end] == file[..at] + [file[at]] + file[at + 1..end];
    BreakStartsLine(file[..at], file[at], file[at + 1..end]);
    WalkOne(Lines(file[..at]), file[at + 1..end], r);
  }

  lemma GatherOne(file: Bytes, at: nat, end: nat, currentReversed: Bytes, r: Reader)
    requires at < end <= |file| && !IsBreak(file[at])
    requires Gathered(file, at + 1, end, currentReversed, r)
    ensures if |currentReversed| + 1 > r.limit then LastRecord(file, r) == Err(LineTooLong)
            else Gathered(file, at, end, currentReversed + [file[at]], r)
  {
    assert file[at..end] == [file[at]] + file[at + 1..end];
    assert Reversed(file[at..end]) == currentReversed + [file[at]];
    if |currentReversed| + 1 > r.limit {
      assert file[..end] == file[..at] + file[at..end];
      LastLine(file[..at], file[at..end]);
    }
  }

  /** Lines are broken by newlines, byte 10, and carriage returns, byte 13, and by nothing else. */
  lemma BreakBytes(b: byte)
    ensures IsBreak(b) <==> b as int == 10 || b as int == 13
  {
  }

  /** So there is one line more than there are such bytes. */
  lemma {:induction false} EachBreakStartsALine(file: Bytes)
    ensures |Lines(file)| == 1 + multiset(file)[10 as byte] + multiset(file)[13 as byte]
  {
    if file != [] {
      var front, b := file[..|file| - 1], file[|file| - 1];
      assert file == front + [b];
      EachBreakStartsALine(front);
      BreakBytes(b);
    }
  }

  /** Splitting loses nothing but the breaks: each line is unbroken, and their lengths add up. */
  lemma {:induction false} LinesPartitionTheFile(file: Bytes)
    ensures forall line | line in Lines(file) :: Unbroken(line)
    ensures TotalLength(Lines(file)) + |Lines(file)| - 1 == |file|
  {
    if file != [] {
      var front, b := file[..|file| - 1], file[|file| - 1];
      LinesPartitionTheFile(front);
      var lines := Lines(front);
      assert lines == lines[..|lines| - 1] + [lines[|lines| - 1]];
      if IsBreak(b) {
        assert (lines + [[]])[..|lines|] == lines;
      } else {
        assert lines[|lines| - 1] in lines;
        assert Lines(file)[..|lines| - 1] == lines[..|lines| - 1];
        forall line | line in Lines(file)
          ensures Unbroken(line)
        {
          assert line in lines[..|lines| - 1] || line == lines[|lines| - 1] + [b];
        }
      }
    }
  }

  function TotalLength(lines: seq<Bytes>): nat {
    if lines == [] then 0 else TotalLength(lines[..|lines| - 1]) + |lines[|lines| - 1]|
  }

  // ---- Reading back what was appended ----

  /** Nothing before the end of the file is left without its line break. */
  predicate Terminated(file: Bytes) {
    file == [] || IsBreak(file[|file| - 1])
  }

  /** A record's line: unbroken, not blank, and decoded to the record. */
  ghost predicate Encodes(line: Bytes, record: LogRecord, r: Reader) {
    Unbroken(line) && line != [] && r.trim(line) != [] && r.parse(r.trim(line)) == Some(record)
  }

  /** One record as `UpdateLog` writes it. */
  function Append(file: Bytes, line: Bytes): Bytes {
    file + line + [NEWLINE]
  }

  /** Appending a whole line to a terminated file adds exactly that line before the final empty one. */
  lemma AppendAddsLine(file: Bytes, line: Bytes, r: Reader)
    requires Terminated(file) && Unbroken(line)
    ensures Terminated(Append(file, line)) && Append(file, line) == file + line + [10]
    ensures LastRecord(Append(file, line), r) ==
            if |line| > r.limit then Err(LineTooLong)
            else if Judge(line, r) != Ok(None) then Judge(line, r) else LastRecord(file, r)
  {
    BreakStartsLine(file + line, NEWLINE, []);
    assert file + line + [NEWLINE] + [] == file + line + [NEWLINE];
    WalkOne(Lines(file + line), [], r);
    if file == [] {
      assert file + line == line;
      OnlyLine(line, r);
      OnlyLine([], r);
    } else {
      var body, b := file[..|file| - 1], file[|file| - 1];
      assert file == body + [b] && file == body + [b] + [];
      BreakStartsLine(body, b, line);
      BreakStartsLine(body, b, []);
      WalkOne(Lines(body), line, r);
      WalkOne(Lines(body), [], r);
    }
  }

  /** The file after `UpdateLog` has written a batch of records. */
  function AppendAll(file: Bytes, records: seq<LogRecord>, encode: LogRecord -> Bytes): Bytes {
    if records == [] then file
    else Append(AppendAll(file, records[..|records| - 1], encode), encode(records[|records| - 1]))
  }

  /** The write loop of `UpdateLog`, which stops after `written` records when an error interrupts it. */
  method WriteRecords(file: Bytes, records: seq<LogRecord>, encode: LogRecord -> Bytes, written: nat)
    returns (file': Bytes)
    requires written <= |records|
    ensures file' == AppendAll(file, records[..written], encode)
  {
    file' := file;
    for i := 0 to written
      invariant file' == AppendAll(file, records[..i], encode)
    {
      assert records[..i + 1][..i] == records[..i];
      file' := file' + encode(records[i]) + [NEWLINE];
    }
  }

  /**
   Reading after writing. On a terminated file, records of the reader's database within the limit are
   read back as the last of them; if none was written, the answer is what it was.
   */
  lemma {:induction false} ReadsBackLastWritten(file: Bytes, records: seq<LogRecord>, encode: LogRecord -> Bytes, r: Reader)
    requires Terminated(file)
    requires forall record | record in records ::
      Encodes(encode(record), record, r) && record.database == r.database && |encode(record)| <= r.limit
    ensures Terminated(AppendAll(file, records, encode))
    ensures LastRecord(AppendAll(file, records, encode), r) ==
            if records == [] then LastRecord(file, r) else Ok(Some(records[|records| - 1]))
  {
    if records != [] {
      var front, last := records[..|records| - 1], records[|records| - 1];
      assert forall record | record in front :: record in records;
      assert last in records;
      ReadsBackLastWritten(file, front, encode, r);
      AppendAddsLine(AppendAll(file, front, encode), encode(last), r);
    }
  }

  /** In a shared file, what other databases write within the limit never changes this one's answer. */
  lemma {:induction false} OtherDatabasesDoNotMatter(
    file: Bytes, records: seq<LogRecord>, encode: LogRecord -> Bytes, r: Reader)
    requires Terminated(file) && !r.perDatabaseFile
    requires forall record | record in records ::
      Encodes(encode(record), record, r) && record.database != r.database && |encode(record)| <= r.limit
    ensures Terminated(AppendAll(file, records, encode))
    ensures LastRecord(AppendAll(file, records, encode), r) == LastRecord(file, r)
  {
    if records != [] {
      var front, last := records[..|records| - 1], records[|records| - 1];
      assert forall record | record in front :: record in records;
      assert last in records;
      OtherDatabasesDoNotMatter(file, front, encode, r);
      AppendAddsLine(AppendAll(file, front, encode), encode(last), r);
    }
  }

  /** A record is read back exactly if its line is within the limit; past it, every database's scan fails. */
  lemma ReadsBackIffWithinLimit(file: Bytes, record: LogRecord, line: Bytes, r: Reader)
    requires Terminated(file) && Encodes(line, record, r)
    ensures record.database == r.database ==>
      (LastRecord(Append(file, line), r) == Ok(Some(record)) <==> |line| <= r.limit)
    ensures |line| > r.limit ==> LastRecord(Append(file, line), r) == Err(LineTooLong)
  {
    AppendAddsLine(file, line, r);
  }

  /** What follows the last break of a file: nothing, if it is terminated. */
  function Tail(file: Bytes): Bytes {
    if Terminated(file) then [] else Tail(file[..|file| - 1]) + [file[|file| - 1]]
  }

  function Body(file: Bytes): Bytes {
    if Terminated(file) then file else Body(file[..|file| - 1])
  }

  lemma TailGrows(body: Bytes, tail: Bytes, b: byte)
    requires Unbroken(tail) && !IsBreak(b)
    ensures body + tail + [b] == body + (tail + [b]) && Unbroken(tail + [b])
  {
  }

  lemma {:induction false} BodyAndTail(file: Bytes)
    ensures file == Body(file) + Tail(file) && Terminated(Body(file)) && Unbroken(Tail(file))
  {
    if Terminated(file) {
      assert file + [] == file;
    } else {
      var front, b := file[..|file| - 1], file[|file| - 1];
      BodyAndTail(front);
      TailGrows(Body(front), Tail(front), b);
      assert file == front + [b] && Tail(file) == Tail(front) + [b];
    }
  }

  /** On any file, what is appended is judged together with the file's tail, and after it what came before the tail. */
  lemma AppendedIsJudgedWithTail(file: Bytes, line: Bytes, r: Reader)
    requires Unbroken(line)
    ensures var glued := Tail(file) + line;
            LastRecord(Append(file, line), r) ==
            if |glued| > r.limit then Err(LineTooLong)
            else if Judge(glued, r) != Ok(None) then Judge(glued, r) else LastRecord(Body(file), r)
  {
    BodyAndTail(file);
    assert file + line == Body(file) + (Tail(file) + line);
    AppendAddsLine(Body(file), Tail(file) + line, r);
  }

  /**
   On any file, a record is what is read after its line is appended, exactly if tail and line together are within the
   limit and either decode to the record or are to be skipped, and then it was what was read before the tail.
   */
  lemma ReadsBackIff(file: Bytes, line: Bytes, record: LogRecord, r: Reader)
    requires Unbroken(line)
    ensures var glued := Tail(file) + line;
            LastRecord(Append(file, line), r) == Ok(Some(record)) <==>
            && |glued| <= r.limit
            && (Judge(glued, r) == Ok(Some(record))
                || (Judge(glued, r) == Ok(None) && LastRecord(Body(file), r) == Ok(Some(record))))
  {
    AppendedIsJudgedWithTail(file, line, r);
  }

  /**
   On a file left with an unterminated tail, the appended record is glued to that tail: the scan
   judges the two together, so a tail that spoils the parse makes every later read of the file fail.
   */
  lemma UnterminatedTailSwallowsRecord(body: Bytes, tail: Bytes, line: Bytes, r: Reader)
    requires Terminated(body) && Unbroken(tail) && Unbroken(line)
    ensures LastRecord(Append(body + tail, line), r) == LastRecord(Append(body, tail + line), r)
    ensures |tail + line| <= r.limit && r.trim(tail + line) != [] && r.parse(r.trim(tail + line)).None? && tail != [] ==>
      LastRecord(Append(body + tail, line), r) == Err(Unparsable)
  {
    assert body + tail + line == body + (tail + line);
    AppendAddsLine(body, tail + line, r);
  }
}

// Reading a JSONL transcript from its end (daemon/claude-jsonls/jsonl.go).
//
// The readers look at doubling windows that end at EOF and walk the lines of each window backwards.
// The reference they are proved against splits the whole file at newlines and folds forwards.

module TailReader {
  import opened Options
  import opened Counting
  import opened Splitting

  newtype byte = b: int | 0 <= b < 256

  const NL: byte := 10
  const CR: byte := 13

  const INITIAL_TAIL_WINDOW: nat := 64 * 1024
  const MAX_TAIL_WINDOW: nat := 4 * 1024 * 1024
  const MAX_LINE_BYTES: nat := 1024 * 1024

  datatype Record = Record(kind: string, cwd: Option<string>, customTitle: Option<string>, agentName: Option<string>)

  /** JSON decoding is a parameter: None is a line that does not parse. */
  type Json = seq<byte> -> Option<Record>

  datatype Decoded = Blank | Malformed | Parsed(record: Record)

  /** The line without the line ends at its end. */
  ghost predicate IsBody(line: seq<byte>, body: seq<byte>) {
    && body <= line && (forall k :: |body| <= k < |line| ==> line[k] in {CR, NL})
    && (body != [] ==> body[|body| - 1] !in {CR, NL})
  }

  function TrimRight(line: seq<byte>): (body: seq<byte>)
    ensures IsBody(line, body)
  {
    if line != [] && line[|line| - 1] in {CR, NL} then TrimRight(line[..|line| - 1]) else line
  }

  function DecodeRecord(json: Json, line: seq<byte>): Decoded {
    var body := TrimRight(line);
    if body == [] then Blank
    else match json(body) case None => Malformed case Some(r) => Parsed(r)
  }

  /** The three things a tail scan looks for. */
  datatype Field = Title | Agent | Cwd

  function NonEmpty(v: Option<string>): Option<string> {
    if v.Some? && v.value == "" then None else v
  }

  function FieldOf(r: Record, f: Field): Option<string> {
    match f
    case Title => if r.kind == "custom-title" then NonEmpty(r.customTitle) else None
    case Agent => if r.kind == "agent-name" then NonEmpty(r.agentName) else None
    case Cwd => NonEmpty(r.cwd)
  }

  function ReadField(json: Json, f: Field, line: seq<byte>): Option<string> {
    match DecodeRecord(json, line)
    case Parsed(r) => FieldOf(r, f)
    case _ => None
  }

  // ---- the reference: one forward fold over all lines ---------------------------------------

  ghost function FoldLines(json: Json, f: Field, lines: seq<seq<byte>>, acc: Option<string>): Option<string> {
    if lines == [] then acc
    else FoldLines(json, f, lines[1..], OrElse(ReadField(json, f, lines[0]), acc))
  }

  /** The last value a single pass over the lines of text leaves behind. */
  ghost function Latest(json: Json, f: Field, text: seq<byte>): Option<string> {
    FoldLines(json, f, Split(text, NL), None)
  }

  // ---- what such a pass finds ---------------------------------------------------------------

  /** The line decodes to this record. */
  ghost predicate RecordOf(json: Json, line: seq<byte>, r: Record) {
    exists body :: IsBody(line, body) && body != [] && json(body) == Some(r)
  }

  ghost predicate SaysTitle(json: Json, line: seq<byte>, v: string) {
    v != "" && exists r :: RecordOf(json, line, r) && r.kind == "custom-title" && r.customTitle == Some(v)
  }

  ghost predicate SaysAgent(json: Json, line: seq<byte>, v: string) {
    v != "" && exists r :: RecordOf(json, line, r) && r.kind == "agent-name" && r.agentName == Some(v)
  }

  ghost predicate SaysCwd(json: Json, line: seq<byte>, v: string) {
    v != "" && exists r :: RecordOf(json, line, r) && r.cwd == Some(v)
  }

  type Says = (seq<byte>, string) -> bool

  /** v is what the last of the lines that says anything says, None when none does. */
  ghost predicate LastSaid(says: Says, lines: seq<seq<byte>>, v: Option<string>) {
    match v
    case Some(x) => exists i :: 0 <= i < |lines| && says(lines[i], x) && forall j, y :: i < j < |lines| ==> !says(lines[j], y)
    case None => forall j, y :: 0 <= j < |lines| ==> !says(lines[j], y)
  }

  ghost function SaysOf(json: Json, f: Field): Says {
    match f
    case Title => (line, v) => SaysTitle(json, line, v)
    case Agent => (line, v) => SaysAgent(json, line, v)
    case Cwd => (line, v) => SaysCwd(json, line, v)
  }

  lemma BodyIsUnique(line: seq<byte>, body: seq<byte>)
    requires IsBody(line, body)
    ensures body == TrimRight(line)
  {
    var other := TrimRight(line);
    assert |body| == |other|;
  }

  lemma ReadsRecord(json: Json, line: seq<byte>, r: Record)
    ensures RecordOf(json, line, r) <==> DecodeRecord(json, line) == Parsed(r)
  {
    hide TrimRight;
    if body :| IsBody(line, body) && body != [] && json(body) == Some(r) {
      BodyIsUnique(line, body);
    }
  }

  lemma ReadsWhatIsSaid(json: Json, f: Field, line: seq<byte>, v: string)
    ensures SaysOf(json, f)(line, v) <==> ReadField(json, f, line) == Some(v)
  {
    hide RecordOf, DecodeRecord;
    match DecodeRecord(json, line) {
      case Parsed(r) => ReadsRecord(json, line, r);
      case _ =>
    }
    forall r | RecordOf(json, line, r)
      ensures DecodeRecord(json, line) == Parsed(r)
    {
      ReadsRecord(json, line, r);
    }
  }

  lemma {:induction false} FoldIsLastSaid(json: Json, f: Field, lines: seq<seq<byte>>)
    ensures LastSaid(SaysOf(json, f), lines, FoldLines(json, f, lines, None))
  {
    hide SaysOf, ReadField;
    if lines != [] {
      var n := |lines| - 1;
      assert lines == lines[..n] + [lines[n]];
      FoldIsLastSaid(json, f, lines[..n]);
      var before := FoldLines(json, f, lines[..n], None);
      FoldConcat(json, f, lines[..n], [lines[n]], None);
      assert [lines[n]][1..] == [];
      assert FoldLines(json, f, lines, None) == OrElse(ReadField(json, f, lines[n]), before);
      forall v
        ensures SaysOf(json, f)(lines[n], v) <==> ReadField(json, f, lines[n]) == Some(v)
      {
        ReadsWhatIsSaid(json, f, lines[n], v);
      }
      LastSaidSnoc(SaysOf(json, f), lines[..n], lines[n], before, ReadField(json, f, lines[n]));
    }
  }

  lemma LastSaidSnoc(says: Says, lines: seq<seq<byte>>, line: seq<byte>, before: Option<string>, now: Option<string>)
    requires LastSaid(says, lines, before)
    requires forall v :: says(line, v) <==> now == Some(v)
    ensures LastSaid(says, lines + [line], OrElse(now, before))
  {
    var all := lines + [line];
    assert all[|lines|] == line && forall i :: 0 <= i < |lines| ==> all[i] == lines[i];
    if now.None? && before.Some? {
      var i :| 0 <= i < |lines| && says(lines[i], before.value) && forall j, y :: i < j < |lines| ==> !says(lines[j], y);
      assert says(all[i], before.value);
    }
  }

  /** The last value the pass leaves behind is the one the last line that has one says. */
  lemma LatestIsLastSaid(json: Json, f: Field, text: seq<byte>)
    ensures LastSaid(SaysOf(json, f), Split(text, NL), Latest(json, f, text))
  {
    FoldIsLastSaid(json, f, Split(text, NL));
  }

  lemma {:induction false} FoldConcat(json: Json, f: Field, a: seq<seq<byte>>, b: seq<seq<byte>>, acc: Option<string>)
    ensures FoldLines(json, f, a + b, acc) == FoldLines(json, f, b, FoldLines(json, f, a, acc))
    decreases |a|
  {
    if a == [] {
      assert a + b == b;
    } else {
      assert (a + b)[1..] == a[1..] + b;
      FoldConcat(json, f, a[1..], b, OrElse(ReadField(json, f, a[0]), acc));
    }
  }

  lemma {:induction false} FoldAcc(json: Json, f: Field, lines: seq<seq<byte>>, acc: Option<string>)
    ensures FoldLines(json, f, lines, acc) == OrElse(FoldLines(json, f, lines, None), acc)
    decreases |lines|
  {
    if lines != [] {
      FoldAcc(json, f, lines[1..], OrElse(ReadField(json, f, lines[0]), acc));
      FoldAcc(json, f, lines[1..], OrElse(ReadField(json, f, lines[0]), None));
    }
  }

  /** The latest value of a text cut at a newline: the right part's, failing that the left part's. */
  lemma LatestCut(json: Json, f: Field, a: seq<byte>, b: seq<byte>)
    ensures Latest(json, f, a + [NL] + b) == OrElse(Latest(json, f, b), Latest(json, f, a))
  {
    SplitAt(a, NL, b);
    FoldConcat(json, f, Split(a, NL), Split(b, NL), None);
    FoldAcc(json, f, Split(b, NL), Latest(json, f, a));
  }

  lemma LatestOneLine(json: Json, f: Field, line: seq<byte>)
    requires NL !in line
    ensures Latest(json, f, line) == ReadField(json, f, line)
  {
    SplitNone(line, NL);
    assert [line][1..] == [];
    assert FoldLines(json, f, [line][1..], ReadField(json, f, line)) == ReadField(json, f, line);
  }

  // ---- byte searches ------------------------------------------------------------------------

  method LastNewline(buf: seq<byte>, end: nat) returns (i: int)
    requires end <= |buf|
    ensures -1 <= i < end && (i >= 0 ==> buf[i] == NL)
    ensures forall k :: i < k < end ==> buf[k] != NL
  {
    i := end - 1;
    while i >= 0 && buf[i] != NL
      invariant -1 <= i < end
      invariant forall k :: i < k < end ==> buf[k] != NL
    {
      i := i - 1;
    }
  }

  method FirstNewline(buf: seq<byte>) returns (i: int)
    ensures -1 <= i < |buf| && (i >= 0 ==> buf[i] == NL)
    ensures forall k :: 0 <= k < (if i < 0 then |buf| else i) ==> buf[k] != NL
  {
    i := 0;
    while i < |buf|
      invariant 0 <= i <= |buf|
      invariant forall k :: 0 <= k < i ==> buf[k] != NL
    {
      if buf[i] == NL {
        return;
      }
      i := i + 1;
    }
    i := -1;
  }

  // ---- one window, backwards ----------------------------------------------------------------

  function Found(found: map<Field, string>, f: Field): Option<string> {
    if f in found then Some(found[f]) else None
  }

  /** Taking the last line off buf[start..end]: what is left ends right after the newline before it. */
  lemma PeelLine(json: Json, f: Field, buf: seq<byte>, start: nat, end: nat, e: nat, lineStart: int)
    requires start < end <= |buf|
    requires e == if buf[end - 1] == NL then end - 1 else end
    requires start - 1 <= lineStart < e && (lineStart >= start ==> buf[lineStart] == NL)
    requires forall k :: lineStart < k < e ==> buf[k] != NL
    ensures Latest(json, f, buf[start..end])
         == OrElse(ReadField(json, f, buf[lineStart + 1..e]), Latest(json, f, buf[start..lineStart + 1]))
  {
    hide Latest, ReadField;
    PeelBody(json, f, buf, start, e, lineStart);
    if e < end {
      assert buf[start..end] == buf[start..e] + [NL];
      LatestOfTerminated(json, f, buf[start..e]);
    }
  }

  /** A newline at the end adds nothing. */
  lemma LatestOfTerminated(json: Json, f: Field, text: seq<byte>)
    ensures Latest(json, f, text + [NL]) == Latest(json, f, text)
  {
    NoFieldInNothing(json, f);
    hide Latest, ReadField;
    LatestOneLine(json, f, []);
    LatestCut(json, f, text, []);
    assert text + [NL] + [] == text + [NL];
  }

  lemma PeelBody(json: Json, f: Field, buf: seq<byte>, start: nat, e: nat, lineStart: int)
    requires start <= e <= |buf|
    requires start - 1 <= lineStart < e && (lineStart >= start ==> buf[lineStart] == NL)
    requires forall k :: lineStart < k < e ==> buf[k] != NL
    ensures Latest(json, f, buf[start..e])
         == OrElse(ReadField(json, f, buf[lineStart + 1..e]), Latest(json, f, buf[start..lineStart + 1]))
  {
    var line := buf[lineStart + 1..e];
    NoFieldInNothing(json, f);
    hide Latest, ReadField;
    LatestOneLine(json, f, line);
    if lineStart < start {
      LatestOneLine(json, f, []);
      assert buf[start..lineStart + 1] == [];
      assert line == buf[start..e];
    } else {
      assert buf[start..e] == buf[start..lineStart] + [NL] + line;
      LatestCut(json, f, buf[start..lineStart], line);
      assert buf[start..lineStart + 1] == buf[start..lineStart] + [NL];
      LatestOfTerminated(json, f, buf[start..lineStart]);
    }
  }

  /** The inner loop of readLatestMarkers and readLatestCwd: fill in what is still missing from the
      lines of buf[start..], last line first, and stop once everything wanted is there. */
  method ScanWindow(json: Json, buf: seq<byte>, start: nat, want: set<Field>, found0: map<Field, string>)
    returns (found: map<Field, string>)
    requires start <= |buf|
    ensures forall f :: f in want ==>
              Found(found, f) == OrElse(Found(found0, f), Latest(json, f, buf[start..]))
  {
    hide *;
    found := found0;
    var end := |buf|;
    assert buf[start..end] == buf[start..];
    NothingScanned(json, want, found, buf[start..]);
    while end > start
      invariant start <= end <= |buf|
      invariant Scanned(json, want, found, buf[start..end], found0, buf[start..])
      decreases end
    {
      var e := end;
      if buf[e - 1] == NL {
        e := e - 1;
      }
      var lineStart := LastNewline(buf, e);
      if lineStart < start - 1 {
        lineStart := start - 1;
      }
      var line := buf[lineStart + 1..e];
      LinePeeled(json, want, found, buf, start, end, e, lineStart, found0);
      end := lineStart + 1;
      var rec := DecodeRecord(json, line);
      if rec.Parsed? {
        found := Merge(found, rec.record, want);
        if want <= found.Keys {
          AllFound(json, want, found, buf[start..end], found0, buf[start..]);
          return;
        }
      }
    }
    NothingLeft(json, want, found, buf[start..end], found0, buf[start..]);
  }

  /** What is found, and else what rest still holds, is what was found before and else what all holds. */
  ghost predicate Scanned(json: Json, want: set<Field>, found: map<Field, string>, rest: seq<byte>,
                          found0: map<Field, string>, all: seq<byte>)
  {
    forall f :: f in want ==> OrElse(Found(found, f), Latest(json, f, rest)) == OrElse(Found(found0, f), Latest(json, f, all))
  }

  lemma NothingScanned(json: Json, want: set<Field>, found: map<Field, string>, all: seq<byte>)
    ensures Scanned(json, want, found, all, found, all)
  {
    hide Found, Latest;
  }

  /** One line taken off the end and merged. */
  lemma LinePeeled(json: Json, want: set<Field>, found: map<Field, string>, buf: seq<byte>, start: nat, end: nat, e: nat,
                   lineStart: int, found0: map<Field, string>)
    requires start < end <= |buf|
    requires e == if buf[end - 1] == NL then end - 1 else end
    requires start - 1 <= lineStart < e && (lineStart >= start ==> buf[lineStart] == NL)
    requires forall k :: lineStart < k < e ==> buf[k] != NL
    requires Scanned(json, want, found, buf[start..end], found0, buf[start..])
    ensures var rec := DecodeRecord(json, buf[lineStart + 1..e]);
            Scanned(json, want, if rec.Parsed? then Merge(found, rec.record, want) else found,
                    buf[start..lineStart + 1], found0, buf[start..])
  {
    hide Found, Latest, ReadField, DecodeRecord, Merge;
    forall f | f in want
      ensures Latest(json, f, buf[start..end])
              == OrElse(ReadField(json, f, buf[lineStart + 1..e]), Latest(json, f, buf[start..lineStart + 1]))
    {
      PeelLine(json, f, buf, start, end, e, lineStart);
    }
    LineMerged(json, buf[lineStart + 1..e], found, want);
  }

  lemma AllFound(json: Json, want: set<Field>, found: map<Field, string>, rest: seq<byte>, found0: map<Field, string>, all: seq<byte>)
    requires Scanned(json, want, found, rest, found0, all) && want <= found.Keys
    ensures forall f :: f in want ==> Found(found, f) == OrElse(Found(found0, f), Latest(json, f, all))
  {
    hide Latest;
  }

  lemma NothingLeft(json: Json, want: set<Field>, found: map<Field, string>, rest: seq<byte>, found0: map<Field, string>, all: seq<byte>)
    requires Scanned(json, want, found, rest, found0, all) && rest == []
    ensures forall f :: f in want ==> Found(found, f) == OrElse(Found(found0, f), Latest(json, f, all))
  {
    hide Found, Latest, ReadField;
    forall f | f in want
      ensures Latest(json, f, rest) == None
    {
      LatestOneLine(json, f, []);
      NoFieldInNothing(json, f);
    }
  }

  lemma NoFieldInNothing(json: Json, f: Field)
    ensures ReadField(json, f, []) == None
  {
  }

  /** What one line adds. */
  lemma LineMerged(json: Json, line: seq<byte>, found: map<Field, string>, want: set<Field>)
    ensures var rec := DecodeRecord(json, line);
            forall f :: f in want ==>
              OrElse(Found(found, f), ReadField(json, f, line)) == Found(if rec.Parsed? then Merge(found, rec.record, want) else found, f)
  {
  }

  /** Adds the record's wanted fields that are still missing. */
  function Merge(found: map<Field, string>, r: Record, want: set<Field>): (merged: map<Field, string>)
    ensures forall f :: f in want ==> Found(merged, f) == OrElse(Found(found, f), FieldOf(r, f))
  {
    map f | f in want + found.Keys && (f in found || FieldOf(r, f).Some?) ::
      if f in found then found[f] else FieldOf(r, f).value
  }

  // ---- doubling windows ---------------------------------------------------------------------

  /** Where the first complete line at or after i starts; |file| when there is none. */
  function LineAfter(file: seq<byte>, i: nat): (j: nat)
    requires i <= |file|
    ensures i <= j <= |file| && (j < |file| ==> i < j)
    ensures i < j ==> forall k :: i <= k < j - 1 ==> file[k] != NL
    ensures (i < j && file[j - 1] == NL) || (j == |file| && forall k :: i <= k < j ==> file[k] != NL)
    decreases |file| - i
  {
    if i == |file| then i else if file[i] == NL then i + 1 else LineAfter(file, i + 1)
  }

  /** What the tail scans answer for: everything, or for a file past the cap the complete lines of
      its final 4 MiB. */
  function Region(file: seq<byte>): seq<byte> {
    if |file| <= MAX_TAIL_WINDOW then file
    else file[LineAfter(file, |file| - MAX_TAIL_WINDOW)..]
  }

  /** The window sizes the doubling passes through. */
  predicate TailChunk(chunk: nat) {
    chunk in {65536, 131072, 262144, 524288, 1048576, 2097152, 4194304}
  }

  lemma EmptyTail(file: seq<byte>)
    ensures file[|file|..] == []
  {
  }

  /** Lines read from a later start never contradict the region: where they have an answer, it is its answer. */
  lemma WindowAgrees(json: Json, f: Field, file: seq<byte>, chunk: nat, start: nat)
    requires chunk <= |file| && chunk <= MAX_TAIL_WINDOW
    requires start == if chunk == |file| then 0 else LineAfter(file, |file| - chunk)
    requires Latest(json, f, file[start..]).Some?
    ensures Latest(json, f, file[start..]) == Latest(json, f, Region(file))
  {
    LatestOneLine(json, f, []);
    if start == |file| {
      EmptyTail(file);
      assert false;
    }
    var r := if |file| <= MAX_TAIL_WINDOW then 0 else LineAfter(file, |file| - MAX_TAIL_WINDOW);
    assert file[0..] == file;
    if r != start {
      assert r < start && file[start - 1] == NL;
      assert file[r..] == file[r..start - 1] + [NL] + file[start..];
      LatestCut(json, f, file[r..start - 1], file[start..]);
    }
  }

  /** What is found so far is what the region has. */
  ghost predicate FoundInRegion(json: Json, file: seq<byte>, want: set<Field>, found: map<Field, string>) {
    forall f :: f in want && f in found ==> Found(found, f) == Latest(json, f, Region(file))
  }

  /** And nothing is missing. */
  ghost predicate FoundAll(json: Json, file: seq<byte>, want: set<Field>, found: map<Field, string>) {
    forall f :: f in want ==> Found(found, f) == Latest(json, f, Region(file))
  }

  /** One window: scan the complete lines of the last chunk bytes, unless not one starts in them. */
  method ReadWindow(json: Json, file: seq<byte>, want: set<Field>, chunk: nat, found0: map<Field, string>)
    returns (found: map<Field, string>, anyLine: bool)
    requires chunk <= |file| && chunk <= MAX_TAIL_WINDOW && FoundInRegion(json, file, want, found0)
    ensures FoundInRegion(json, file, want, found)
    ensures anyLine && (chunk == |file| || chunk == MAX_TAIL_WINDOW) ==> FoundAll(json, file, want, found)
    ensures !anyLine ==> found == found0 && chunk < |file| && forall k :: |file| - chunk <= k < |file| ==> file[k] != NL
  {
    found := found0;
    var off := |file| - chunk;
    var buf := file[off..];
    var start := 0;
    if off > 0 {
      var i := FirstNewline(buf);
      if i < 0 {
        forall k | off <= k < |file|
          ensures file[k] != NL
        {
          assert buf[k - off] != NL;
        }
        return found0, false;
      }
      start := i + 1;
      forall k | off <= k < off + i
        ensures file[k] != NL
      {
        assert buf[k - off] != NL;
      }
      StartIsLineAfter(file, off, start);
    }
    found := ScanWindow(json, buf, start, want, found);
    assert buf[start..] == file[off + start..];
    WindowMerged(json, file, want, chunk, off + start, found0, found);
    anyLine := true;
  }

  lemma WindowMerged(json: Json, file: seq<byte>, want: set<Field>, chunk: nat, start: nat,
                     found0: map<Field, string>, found: map<Field, string>)
    requires chunk <= |file| && chunk <= MAX_TAIL_WINDOW && FoundInRegion(json, file, want, found0)
    requires start == if chunk == |file| then 0 else LineAfter(file, |file| - chunk)
    requires forall f :: f in want ==> Found(found, f) == OrElse(Found(found0, f), Latest(json, f, file[start..]))
    ensures FoundInRegion(json, file, want, found)
    ensures chunk == |file| || chunk == MAX_TAIL_WINDOW ==> FoundAll(json, file, want, found)
  {
    assert file[0..] == file;
    hide Latest, LineAfter;
    forall f | f in want
      ensures f in found ==> Found(found, f) == Latest(json, f, Region(file))
      ensures chunk == |file| || chunk == MAX_TAIL_WINDOW ==> Found(found, f) == Latest(json, f, Region(file))
    {
      if f !in found0 && f in found {
        WindowAgrees(json, f, file, chunk, start);
      }
      if chunk == |file| || chunk == MAX_TAIL_WINDOW {
        assert file[start..] == Region(file);
      }
    }
  }

  method ReadTail(json: Json, file: seq<byte>, want: set<Field>) returns (found: map<Field, string>)
    ensures FoundAll(json, file, want, found)
  {
    found := map[];
    var size := |file|;
    if size == 0 {
      EmptyFileHasNothing(json, file, want);
      return;
    }
    var chunk, sawHead := INITIAL_TAIL_WINDOW, false;
    assert FoundInRegion(json, file, want, found);
    hide FoundInRegion;
    while true
      invariant TailChunk(chunk) && !sawHead && FoundInRegion(json, file, want, found)
      decreases 2 * MAX_TAIL_WINDOW - chunk
    {
      if chunk > size {
        chunk, sawHead := size, true;
      }
      var anyLine;
      found, anyLine := ReadWindow(json, file, want, chunk, found);
      if !anyLine {
        if chunk >= MAX_TAIL_WINDOW || sawHead {
          NothingThere(json, file, want, found);
          return;
        }
        chunk := chunk * 2;
        continue;
      }
      if want <= found.Keys {
        AllKeysFound(json, file, want, found);
        return;
      }
      if sawHead || chunk >= MAX_TAIL_WINDOW {
        return;
      }
      chunk := chunk * 2;
    }
  }

  lemma AllKeysFound(json: Json, file: seq<byte>, want: set<Field>, found: map<Field, string>)
    requires FoundInRegion(json, file, want, found) && want <= found.Keys
    ensures FoundAll(json, file, want, found)
  {
  }

  lemma EmptyFileHasNothing(json: Json, file: seq<byte>, want: set<Field>)
    requires file == []
    ensures FoundAll(json, file, want, map[])
  {
    forall f | f in want ensures Latest(json, f, Region(file)) == None {
      LatestOneLine(json, f, []);
    }
  }

  lemma StartIsLineAfter(file: seq<byte>, off: nat, start: nat)
    requires off + start <= |file| && 0 < start && file[off + start - 1] == NL
    requires forall k :: off <= k < off + start - 1 ==> file[k] != NL
    ensures LineAfter(file, off) == off + start
  {
  }

  lemma NothingThere(json: Json, file: seq<byte>, want: set<Field>, found: map<Field, string>)
    requires |file| > MAX_TAIL_WINDOW && forall k :: |file| - MAX_TAIL_WINDOW <= k < |file| ==> file[k] != NL
    requires FoundInRegion(json, file, want, found)
    ensures Region(file) == [] && FoundAll(json, file, want, found)
  {
    forall f | f in want ensures Latest(json, f, []) == None {
      LatestOneLine(json, f, []);
    }
  }

  /** The newest title and agent name a forward pass over the region would end with. */
  method ReadLatestMarkers(json: Json, file: seq<byte>) returns (title: Option<string>, agent: Option<string>)
    ensures title == Latest(json, Title, Region(file))
    ensures agent == Latest(json, Agent, Region(file))
    ensures LastSaid((line, v) => SaysTitle(json, line, v), Split(Region(file), NL), title)
    ensures LastSaid((line, v) => SaysAgent(json, line, v), Split(Region(file), NL), agent)
  {
    LatestIsLastSaid(json, Title, Region(file));
    LatestIsLastSaid(json, Agent, Region(file));
    hide LastSaid, SaysTitle, SaysAgent, Region, Latest;
    var found := ReadTail(json, file, {Title, Agent});
    title, agent := Found(found, Title), Found(found, Agent);
  }

  method ReadLatestCwd(json: Json, file: seq<byte>) returns (cwd: Option<string>)
    ensures cwd == Latest(json, Cwd, Region(file))
    ensures LastSaid((line, v) => SaysCwd(json, line, v), Split(Region(file), NL), cwd)
  {
    LatestIsLastSaid(json, Cwd, Region(file));
    hide LastSaid, SaysCwd, Region, Latest;
    var found := ReadTail(json, file, {Cwd});
    cwd := Found(found, Cwd);
  }

  // ---- the last record ----------------------------------------------------------------------

  /** The last line of file that a newline ends. */
  ghost function LastTerminated(file: seq<byte>): Option<seq<byte>> {
    var lines := Split(file, NL);
    if |lines| == 1 then None else Some(lines[|lines| - 2])
  }

  lemma LastTerminatedIs(file: seq<byte>, lo: nat, end: nat)
    requires lo <= end < |file| && file[end] == NL && (lo == 0 || file[lo - 1] == NL)
    requires forall k :: lo <= k < |file| && k != end ==> file[k] != NL
    ensures LastTerminated(file) == Some(file[lo..end])
  {
    var line, rest := file[lo..end], file[end + 1..];
    SplitNone(line, NL);
    SplitNone(rest, NL);
    SplitAt(line, NL, rest);
    assert file[lo..] == line + [NL] + rest;
    if lo > 0 {
      SplitAt(file[..lo - 1], NL, file[lo..]);
      assert file == file[..lo - 1] + [NL] + file[lo..];
    } else {
      assert file[lo..] == file;
    }
  }

  ghost predicate NewlineAt(file: seq<byte>, i: int) { 0 <= i < |file| && file[i] == NL }

  /** The tail shows the last terminated line whole: the file has one and fits the cap, or two
      newlines lie in its final 4 MiB. */
  ghost predicate LastLineInTail(file: seq<byte>) {
    if |file| <= MAX_TAIL_WINDOW then NL in file
    else exists i, j :: |file| - MAX_TAIL_WINDOW <= i < j && NewlineAt(file, i) && NewlineAt(file, j)
  }

  /** readLastRecord, up to decoding: the body it hands to decodeRecord, None for its nil results. */
  method LastRecordBody(file: seq<byte>) returns (body: Option<seq<byte>>)
    ensures body.Some? ==> body == LastTerminated(file)
    ensures body.Some? <==> LastLineInTail(file)
  {
    var size := |file|;
    if size == 0 {
      return None;
    }
    var chunk := INITIAL_TAIL_WINDOW;
    while true
      invariant TailChunk(chunk)
      decreases MAX_TAIL_WINDOW - chunk
    {
      if chunk > size {
        chunk := size;
      }
      var off := size - chunk;
      var buf := file[off..];
      var end := |buf|;
      if end > 0 && buf[end - 1] == NL {
        end := end - 1;
      } else {
        var lastNL := LastNewline(buf, end);
        if lastNL < 0 {
          if off == 0 || chunk >= MAX_TAIL_WINDOW {
            NoLineInTail(file, off, |buf|);
            return None;
          }
          chunk := chunk * 2;
          continue;
        }
        end := lastNL;
      }
      var lastInternal := LastNewline(buf, end);
      if lastInternal < 0 && off > 0 {
        if chunk >= MAX_TAIL_WINDOW {
          NoLineInTail(file, off, end);
          return None;
        }
        chunk := chunk * 2;
        continue;
      }
      LastTerminatedIn(file, off, lastInternal, end);
      return Some(buf[lastInternal + 1..end]);
    }
  }

  lemma NoLineInTail(file: seq<byte>, off: nat, end: nat)
    requires off + end <= |file|
    requires off == 0 || |file| - off >= MAX_TAIL_WINDOW
    requires off == 0 ==> off + end == |file|
    requires forall k :: 0 <= k < |file[off..]| && k != end ==> file[off..][k] != NL
    ensures !LastLineInTail(file)
  {
    assert forall i :: off <= i < |file| ==> file[i] == file[off..][i - off];
  }

  lemma LastTerminatedIn(file: seq<byte>, off: nat, inner: int, end: nat)
    requires off + end < |file| && file[off..][end] == NL && |file| - off <= MAX_TAIL_WINDOW
    requires -1 <= inner < end && (if inner < 0 then off == 0 else file[off..][inner] == NL)
    requires forall k :: inner < k < |file[off..]| && k != end ==> file[off..][k] != NL
    ensures LastTerminated(file) == Some(file[off..][inner + 1..end])
    ensures LastLineInTail(file)
  {
    assert forall i :: off <= i < |file| ==> file[i] == file[off..][i - off];
    LastTerminatedIs(file, off + inner + 1, off + end);
    assert file[off..][inner + 1..end] == file[off + inner + 1..off + end];
    assert NewlineAt(file, off + end);
    if inner >= 0 {
      assert NewlineAt(file, off + inner);
    }
  }

  // ---- the first record ---------------------------------------------------------------------

  datatype BoundedLine = Line(body: seq<byte>) | TooLong | AtEof(partial: seq<byte>)

  method ReadBoundedLine(file: seq<byte>, limit: nat) returns (r: BoundedLine, next: nat)
    ensures next <= |file|
    ensures r.Line? ==> NL !in r.body && |r.body| < limit && r.body + [NL] == file[..next]
    ensures r.AtEof? ==> r.partial == file && NL !in file && |file| < limit && next == |file|
    ensures r.TooLong? ==> limit <= |file| && NL !in file[..limit] && limit <= next
    ensures r.TooLong? && next < |file| ==> 0 < next && file[next - 1] == NL
  {
    var out: seq<byte> := [];
    next := 0;
    while true
      invariant next == |out| <= |file| && out == file[..next] && NL !in out && next <= limit
      decreases |file| - next
    {
      if |out| >= limit {
        while next < |file|
          invariant limit <= next <= |file|
        {
          next := next + 1;
          if file[next - 1] == NL {
            return TooLong, next;
          }
        }
        return TooLong, next;
      }
      if next == |file| {
        return AtEof(out), next;
      }
      next := next + 1;
      if file[next - 1] == NL {
        return Line(out), next;
      }
      out := out + [file[next - 1]];
    }
  }

  datatype FirstRead = NoRecord | ReadError | Decode(body: seq<byte>)

  /** readFirstRecord, up to decoding. */
  method FirstRecordBody(file: seq<byte>) returns (r: FirstRead)
    ensures r.Decode? <==> NL in file && |Split(file, NL)[0]| < MAX_LINE_BYTES
    ensures r.Decode? ==> r.body == Split(file, NL)[0]
    ensures r.ReadError? <==> file != [] && NL !in file && |file| < MAX_LINE_BYTES
  {
    var line, next := ReadBoundedLine(file, MAX_LINE_BYTES);
    match line
    case AtEof(partial) =>
      r := if partial == [] then NoRecord else ReadError;
    case TooLong =>
      FirstPieceIsLong(file, MAX_LINE_BYTES);
      r := NoRecord;
    case Line(body) =>
      SplitNone(body, NL);
      SplitAt(body, NL, file[next..]);
      assert file == body + [NL] + file[next..];
      r := Decode(body);
  }

  lemma {:induction false} FirstPieceIsLong(file: seq<byte>, n: nat)
    requires n <= |file| && NL !in file[..n]
    ensures |Split(file, NL)[0]| >= n
    decreases n
  {
    if n > 0 {
      assert file[..n][0] == file[0];
      assert file[1..][..n - 1] == file[..n][1..];
      FirstPieceIsLong(file[1..], n - 1);
    }
  }

  // ---- the record count ---------------------------------------------------------------------

  lemma {:induction false} PiecesAreNewlines(file: seq<byte>)
    ensures |Split(file, NL)| == Count(file, (b: byte) => b == NL) + 1
  {
    if file != [] {
      var n, p := |file| - 1, (b: byte) => b == NL;
      PiecesAreNewlines(file[1..]);
      assert file == [file[0]] + file[1..];
      CountConcat([file[0]], file[1..], p);
    }
  }

  /** The streamed count is the number of terminated lines, however the reads chop the file up. */
  method CountNewlines(chunks: seq<seq<byte>>) returns (count: nat)
    ensures count == |Split(Flatten(chunks), NL)| - 1
  {
    ghost var p := (b: byte) => b == NL;
    count := 0;
    for i := 0 to |chunks|
      invariant count == Count(Flatten(chunks[..i]), p)
    {
      assert chunks[..i + 1][..i] == chunks[..i];
      ghost var before := Flatten(chunks[..i]);
      var buf := chunks[i];
      ghost var count0 := count;
      for k := 0 to |buf|
        invariant count == count0 + Count(buf[..k], p)
      {
        assert buf[..k + 1][..k] == buf[..k];
        if buf[k] == NL {
          count := count + 1;
        }
      }
      assert buf[..|buf|] == buf;
      CountConcat(before, buf, p);
    }
    assert chunks[..|chunks|] == chunks;
    PiecesAreNewlines(Flatten(chunks));
  }

  ghost function Flatten(chunks: seq<seq<byte>>): seq<byte> {
    if chunks == [] then [] else Flatten(chunks[..|chunks| - 1]) + chunks[|chunks| - 1]
  }
}

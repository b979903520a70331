/**
 The double-buffered logger as a protocol: any number of producers append lines to the current
 buffer under a mutex; one backend thread swaps the full buffers out, writes them, and recycles two.
 Each locked region is one step.
 */
module AsyncState {

  import opened Options

  type Line = string

  /** A `FixedBuffer<kLargeBuffer>` by the lines in it. */
  type LogBuffer = seq<Line>

  const K_LARGE_BUFFER: nat := 4_000_000
  const MAX_BATCH: nat := 25

  function Length(b: LogBuffer): nat {
    if b == [] then 0 else Length(b[..|b| - 1]) + |b[|b| - 1]|
  }

  /** `FixedBuffer::append` takes a line only if room is left after it. */
  predicate HasRoom(b: LogBuffer, line: Line) {
    Length(b) + |line| < K_LARGE_BUFFER
  }

  function AppendTo(b: LogBuffer, line: Line): LogBuffer {
    if HasRoom(b, line) then b + [line] else b
  }

  /** What goes to the log file: the contents of a buffer, or the notice that buffers were dropped. */
  datatype Item = Chunk(lines: LogBuffer) | DropNotice(count: nat)

  datatype Pc = NotStarted | AtTop | Waiting | Swapped | Writing(written: nat) | Exited

  /** Histories: `appended`, the lines that entered a buffer; `batches`, the buffer lists swapped out. */
  datatype State = State(
    current: LogBuffer,
    next: Option<LogBuffer>,
    buffers: seq<LogBuffer>,
    running: bool,
    pc: Pc,
    spare1: Option<LogBuffer>,
    spare2: Option<LogBuffer>,
    toWrite: seq<LogBuffer>,
    output: seq<Item>,
    appended: seq<Line>,
    batches: seq<seq<LogBuffer>>)

  function Init(): State {
    State([], Some([]), [], false, NotStarted, None, None, [], [], [], [])
  }

  datatype Step =
    | Append(line: Line)
    | Start
    | Stop
    | Check
    | Swap
    | DropExcess
    | WriteOne
    | Recycle

  predicate Enabled(s: State, step: Step) {
    match step
    case Append(_) => true
    case Start => s.pc.NotStarted?
    case Stop => true
    case Check => s.pc.AtTop?
    case Swap => s.pc.Waiting? && s.spare1.Some? && (s.next.Some? || s.spare2.Some?)
    case DropExcess => s.pc.Swapped?
    case WriteOne => s.pc.Writing? && s.pc.written < |s.toWrite|
    case Recycle => s.pc.Writing? && s.pc.written == |s.toWrite| && Needed(s) <= |s.toWrite|
  }

  /** How many spare buffers the backend has to recover. */
  function Needed(s: State): nat {
    (if s.spare1.None? then 1 else 0) + (if s.spare2.None? then 1 else 0)
  }

  // ---------- The operations ----------

  function AppendLine(s: State, line: Line): State {
    if HasRoom(s.current, line) then
      s.(current := s.current + [line], appended := s.appended + [line])
    else
      var emptied := if s.next.Some? then s.next.value else [];
      s.(buffers := s.buffers + [s.current], next := None,
         current := AppendTo(emptied, line),
         appended := if HasRoom(emptied, line) then s.appended + [line] else s.appended)
  }

  function SwapBuffers(s: State): State
    requires Enabled(s, Swap)
  {
    var taken := s.buffers + [s.current];
    s.(current := s.spare1.value, spare1 := None, buffers := [],
       toWrite := taken, batches := s.batches + [taken],
       next := if s.next.None? then s.spare2 else s.next,
       spare2 := if s.next.None? then None else s.spare2,
       pc := Swapped)
  }

  function DropBuffers(s: State): State {
    if |s.toWrite| > MAX_BATCH then
      s.(output := s.output + [DropNotice(|s.toWrite| - 2)], toWrite := s.toWrite[..2], pc := Writing(0))
    else s.(pc := Writing(0))
  }

  /** The last of the first two buffers, then the one before it, become the spares again, emptied. */
  function RecycleBuffers(s: State): State {
    s.(spare1 := if s.spare1.None? then Some([]) else s.spare1,
       spare2 := if s.spare2.None? then Some([]) else s.spare2,
       toWrite := [], pc := AtTop)
  }

  function Apply(s: State, step: Step): State {
    if !Enabled(s, step) then s
    else
      match step
      case Append(line) => AppendLine(s, line)
      case Start => s.(running := true, pc := AtTop, spare1 := Some([]), spare2 := Some([]))
      case Stop => s.(running := false)
      case Check => s.(pc := if s.running then Waiting else Exited)
      case Swap => SwapBuffers(s)
      case DropExcess => DropBuffers(s)
      case WriteOne =>
        s.(output := s.output + [Chunk(s.toWrite[s.pc.written])], pc := Writing(s.pc.written + 1))
      case Recycle => RecycleBuffers(s)
  }

  function Run(s: State, steps: seq<Step>): State
    decreases |steps|
  {
    if steps == [] then s else Run(Apply(s, steps[0]), steps[1..])
  }

  lemma {:induction false} RunConcat(s: State, a: seq<Step>, b: seq<Step>)
    ensures Run(s, a + b) == Run(Run(s, a), b)
    decreases |a|
  {
    if a == [] {
      assert a + b == b;
    } else {
      assert (a + b)[1..] == a[1..] + b;
      RunConcat(Apply(s, a[0]), a[1..], b);
    }
  }

  // ---------- Invariants ----------

  function Flat(bs: seq<LogBuffer>): seq<Line> {
    if bs == [] then [] else Flat(bs[..|bs| - 1]) + bs[|bs| - 1]
  }

  function FlatBatches(batches: seq<seq<LogBuffer>>): seq<Line> {
    if batches == [] then [] else FlatBatches(batches[..|batches| - 1]) + Flat(batches[|batches| - 1])
  }

  function Chunks(bs: seq<LogBuffer>): seq<Item> {
    if bs == [] then [] else Chunks(bs[..|bs| - 1]) + [Chunk(bs[|bs| - 1])]
  }

  /** The buffers of a batch that are written. */
  function Kept(batch: seq<LogBuffer>): seq<LogBuffer> {
    if |batch| > MAX_BATCH then batch[..2] else batch
  }

  function Notice(batch: seq<LogBuffer>): seq<Item> {
    if |batch| > MAX_BATCH then [DropNotice(|batch| - 2)] else []
  }

  /** What the file holds once these batches are written. */
  function EmitAll(batches: seq<seq<LogBuffer>>): seq<Item> {
    if batches == [] then []
    else
      var last := batches[|batches| - 1];
      EmitAll(batches[..|batches| - 1]) + Notice(last) + Chunks(Kept(last))
  }

  /** Each appended line is in a batch, a full buffer or the current buffer, once and in order. */
  predicate Conserved(s: State) {
    FlatBatches(s.batches) + Flat(s.buffers) + s.current == s.appended
  }

  /** The file holds the batches done, and the part of the one in hand already written. */
  predicate Filed(s: State) {
    match s.pc
    case Swapped => s.batches != [] && s.toWrite == s.batches[|s.batches| - 1]
                    && s.output == EmitAll(s.batches[..|s.batches| - 1])
    case Writing(i) =>
      && s.batches != [] && i <= |s.toWrite|
      && s.toWrite == Kept(s.batches[|s.batches| - 1])
      && s.output == EmitAll(s.batches[..|s.batches| - 1]) + Notice(s.batches[|s.batches| - 1]) + Chunks(s.toWrite[..i])
    case _ => s.toWrite == [] && s.output == EmitAll(s.batches)
  }

  /** The buffers: a missing next buffer means a full one waits; the spares are two, empty, when they are needed. */
  predicate Spares(s: State) {
    && (s.next.None? ==> s.buffers != [])
    && (s.next.Some? ==> s.next.value == [])
    && (s.spare1.Some? ==> s.spare1.value == [])
    && (s.spare2.Some? ==> s.spare2.value == [])
    && (s.pc.AtTop? || s.pc.Waiting? ==> s.spare1.Some? && s.spare2.Some?)
    && (s.pc.Swapped? || s.pc.Writing? ==> s.spare1.None? && Needed(s) <= |s.toWrite|)
    && Length(s.current) < K_LARGE_BUFFER
  }

  predicate Inv(s: State) {
    Conserved(s) && Filed(s) && Spares(s)
  }

  /** Producers do not touch what the backend holds. */
  lemma SameFile(s: State, s': State)
    requires Filed(s)
    requires s'.pc == s.pc && s'.toWrite == s.toWrite && s'.batches == s.batches && s'.output == s.output
    ensures Filed(s')
  {
    hide EmitAll, Chunks, Notice, Kept;
  }

  /** The backend's unlocked part does not touch what the producers share. */
  lemma SameLines(s: State, s': State)
    requires Conserved(s)
    requires s'.batches == s.batches && s'.buffers == s.buffers && s'.current == s.current && s'.appended == s.appended
    ensures Conserved(s')
  {
    hide Flat, FlatBatches;
  }

  lemma FlatSnoc(bs: seq<LogBuffer>, b: LogBuffer)
    ensures Flat(bs + [b]) == Flat(bs) + b
  {
    assert (bs + [b])[..|bs|] == bs;
  }

  lemma LengthSnoc(b: LogBuffer, line: Line)
    ensures Length(b + [line]) == Length(b) + |line|
  {
    assert (b + [line])[..|b|] == b;
  }

  lemma AppendConserved(s: State, line: Line)
    requires Conserved(s) && (s.next.Some? ==> s.next.value == [])
    ensures Conserved(AppendLine(s, line))
  {
    hide Flat, FlatBatches, HasRoom, AppendTo;
    var done := FlatBatches(s.batches);
    var emptied := if s.next.Some? then s.next.value else [];
    if HasRoom(s.current, line) {
      Regroup(done + Flat(s.buffers), s.current, [line]);
    } else {
      FlatSnoc(s.buffers, s.current);
      Regroup(done, Flat(s.buffers), s.current);
      AppendToNone(line);
      assert emptied == [] && s.appended + [] == s.appended;
    }
  }

  lemma Regroup(a: seq<Line>, b: seq<Line>, c: seq<Line>)
    ensures a + (b + c) == a + b + c
  {
  }

  lemma AppendToNone(line: Line)
    ensures AppendTo([], line) == if HasRoom([], line) then [line] else []
  {
    hide HasRoom;
    assert [] + [line] == [line];
  }

  /** A buffer never gets full to its last byte. */
  lemma AppendToFits(b: LogBuffer, line: Line)
    requires Length(b) < K_LARGE_BUFFER
    ensures Length(AppendTo(b, line)) < K_LARGE_BUFFER
  {
    LengthSnoc(b, line);
    hide Length;
  }

  lemma EmptyHasRoom(line: Line)
    ensures Length([]) == 0
    ensures HasRoom([], line) <==> |line| < 4_000_000
  {
  }

  lemma AppendCurrentFits(s: State, line: Line)
    requires Spares(s)
    ensures Length(AppendLine(s, line).current) < K_LARGE_BUFFER
  {
    AppendToFits(s.current, line);
    AppendToFits([], line);
    hide Length;
    EmptyHasRoom(line);
    hide HasRoom;
  }

  lemma AppendSpares(s: State, line: Line)
    requires Spares(s)
    ensures Spares(AppendLine(s, line))
  {
    AppendCurrentFits(s, line);
    hide Length, HasRoom, AppendTo;
  }

  lemma AppendAccepts(s: State, line: Line)
    requires Spares(s)
    ensures AppendLine(s, line).appended == if |line| < 4_000_000 then s.appended + [line] else s.appended
  {
    EmptyHasRoom(line);
    assert HasRoom(s.current, line) ==> |line| < 4_000_000;
    hide Length, HasRoom;
  }

  lemma AppendInv(s: State, line: Line)
    requires Inv(s)
    ensures Inv(AppendLine(s, line))
    ensures AppendLine(s, line).appended == if |line| < 4_000_000 then s.appended + [line] else s.appended
  {
    AppendConserved(s, line);
    AppendSpares(s, line);
    AppendAccepts(s, line);
    SameFile(s, AppendLine(s, line));
    hide Conserved, Filed, Spares, HasRoom;
  }

  lemma SwapInv(s: State)
    requires Inv(s) && Enabled(s, Swap)
    ensures Inv(SwapBuffers(s))
  {
    var taken := s.buffers + [s.current];
    FlatSnoc(s.buffers, s.current);
    assert (s.batches + [taken])[..|s.batches|] == s.batches;
    assert FlatBatches(s.batches + [taken]) == FlatBatches(s.batches) + Flat(taken);
    assert FlatBatches(s.batches) + (Flat(s.buffers) + s.current)
        == FlatBatches(s.batches) + Flat(s.buffers) + s.current;
    hide EmitAll, FlatBatches;
    assert s.appended + [] + [] == s.appended;
  }

  lemma DropInv(s: State)
    requires Inv(s) && s.pc.Swapped?
    ensures Inv(DropBuffers(s))
  {
    SameLines(s, DropBuffers(s));
    hide Conserved, EmitAll, Length;
    assert DropBuffers(s).toWrite[..0] == [];
    assert EmitAll(s.batches[..|s.batches| - 1]) + [] + [] == s.output;
  }

  lemma WriteOneInv(s: State)
    requires Inv(s) && Enabled(s, WriteOne)
    ensures Inv(Apply(s, WriteOne))
  {
    hide Conserved, EmitAll, Length, Chunks, Kept, Notice;
    var s', i := Apply(s, WriteOne), s.pc.written;
    SameLines(s, s');
    ChunksNext(s.toWrite, i);
    var last := s.batches[|s.batches| - 1];
    RegroupItems(EmitAll(s.batches[..|s.batches| - 1]) + Notice(last), Chunks(s.toWrite[..i]), [Chunk(s.toWrite[i])]);
  }

  lemma RegroupItems(a: seq<Item>, b: seq<Item>, c: seq<Item>)
    ensures a + (b + c) == a + b + c
  {
  }

  lemma ChunksNext(bs: seq<LogBuffer>, i: nat)
    requires i < |bs|
    ensures Chunks(bs[..i + 1]) == Chunks(bs[..i]) + [Chunk(bs[i])]
  {
    assert bs[..i + 1][..i] == bs[..i];
  }

  lemma RecycleInv(s: State)
    requires Inv(s) && Enabled(s, Recycle)
    ensures Inv(RecycleBuffers(s))
  {
    SameLines(s, RecycleBuffers(s));
    assert s.toWrite[..|s.toWrite|] == s.toWrite;
    assert EmitAll(s.batches) == s.output;
    hide Conserved, EmitAll, Length, Chunks, Kept, Notice;
  }

  lemma StepInv(s: State, step: Step)
    requires Inv(s)
    ensures Inv(Apply(s, step))
  {
    if Enabled(s, step) {
      match step
      case Append(line) => AppendInv(s, line);
      case Swap => SwapInv(s);
      case DropExcess => DropInv(s);
      case WriteOne => WriteOneInv(s);
      case Recycle => RecycleInv(s);
      case _ =>
    }
  }

  lemma InitInv()
    ensures Inv(Init())
  {
  }

  lemma {:induction false} RunInv(s: State, steps: seq<Step>)
    requires Inv(s)
    ensures Inv(Run(s, steps))
    decreases |steps|
  {
    if steps != [] {
      StepInv(s, steps[0]);
      RunInv(Apply(s, steps[0]), steps[1..]);
    }
  }

  // ---------- Results ----------

  /** In every reachable state, the batches, the full buffers and the current one hold the appended lines in order. */
  lemma LogConservation(steps: seq<Step>)
    ensures var s := Run(Init(), steps);
            && FlatBatches(s.batches) + Flat(s.buffers) + s.current == s.appended
            && (s.pc.AtTop? || s.pc.Exited? ==> s.output == EmitAll(s.batches))
  {
    InitInv();
    RunInv(Init(), steps);
  }

  /** A line is logged exactly when it is shorter than a whole buffer, whatever the buffers hold. */
  lemma AcceptedIffShorter(steps: seq<Step>, line: Line)
    ensures var s := Run(Init(), steps);
            Apply(s, Append(line)).appended == s.appended + [line] <==> |line| < 4_000_000
  {
    InitInv();
    RunInv(Init(), steps);
    var s := Run(Init(), steps);
    AppendInv(s, line);
    assert |s.appended + [line]| != |s.appended|;
  }

  function LinesOf(items: seq<Item>): seq<Line> {
    if items == [] then []
    else LinesOf(items[..|items| - 1]) + ItemLines(items[|items| - 1])
  }

  function ItemLines(item: Item): seq<Line> {
    match item case Chunk(b) => b case DropNotice(_) => []
  }

  lemma LinesOfSnoc(items: seq<Item>, item: Item)
    ensures LinesOf(items + [item]) == LinesOf(items) + ItemLines(item)
  {
    assert (items + [item])[..|items|] == items;
  }

  lemma LinesOfConcatSnoc(a: seq<Item>, b: seq<Item>, item: Item)
    requires LinesOf(a + b) == LinesOf(a) + LinesOf(b)
    ensures LinesOf(a + (b + [item])) == LinesOf(a) + LinesOf(b + [item])
  {
    LinesOfSnoc(a + b, item);
    LinesOfSnoc(b, item);
    hide LinesOf, ItemLines;
    assert a + (b + [item]) == (a + b) + [item];
  }

  lemma {:induction false} LinesOfConcat(a: seq<Item>, b: seq<Item>)
    ensures LinesOf(a + b) == LinesOf(a) + LinesOf(b)
    decreases |b|
  {
    if b == [] {
      assert a + b == a;
    } else {
      var init, last := b[..|b| - 1], b[|b| - 1];
      assert b == init + [last];
      LinesOfConcat(a, init);
      LinesOfConcatSnoc(a, init, last);
      hide LinesOf;
    }
  }

  lemma {:induction false} LinesOfChunks(bs: seq<LogBuffer>)
    ensures LinesOf(Chunks(bs)) == Flat(bs)
    decreases |bs|
  {
    if bs != [] {
      var init := Chunks(bs[..|bs| - 1]);
      LinesOfChunks(bs[..|bs| - 1]);
      assert Chunks(bs)[..|init|] == init;
    }
  }

  /** The lines kept from the batches, in order: of a batch longer than 25 those of its first two buffers. */
  function KeptLines(batches: seq<seq<LogBuffer>>): seq<Line> {
    if batches == [] then []
    else
      var last := batches[|batches| - 1];
      KeptLines(batches[..|batches| - 1]) + if |last| > 25 then last[0] + last[1] else Flat(last)
  }

  /** The file's lines are those of the batches, except the buffers after the second of a batch longer than 25. */
  lemma {:induction false} FileLines(batches: seq<seq<LogBuffer>>)
    ensures LinesOf(EmitAll(batches)) == KeptLines(batches)
    decreases |batches|
  {
    if batches != [] {
      FileLines(batches[..|batches| - 1]);
      BatchLines(EmitAll(batches[..|batches| - 1]), batches[|batches| - 1]);
      hide LinesOf;
    }
  }

  lemma BatchLines(before: seq<Item>, batch: seq<LogBuffer>)
    ensures LinesOf(before + Notice(batch) + Chunks(Kept(batch)))
         == LinesOf(before) + if |batch| > 25 then batch[0] + batch[1] else Flat(batch)
  {
    LinesOfConcat(before + Notice(batch), Chunks(Kept(batch)));
    LinesOfConcat(before, Notice(batch));
    LinesOfChunks(Kept(batch));
    NoticeHasNoLines(batch);
    KeptBuffers(batch);
    hide LinesOf, Chunks, Kept, Flat, Notice;
    assert LinesOf(before) + [] == LinesOf(before);
  }

  lemma KeptBuffers(batch: seq<LogBuffer>)
    ensures Flat(Kept(batch)) == if |batch| > 25 then batch[0] + batch[1] else Flat(batch)
  {
    if |batch| > 25 {
      var a, b := batch[0], batch[1];
      assert batch[..2] == [a] + [b] && [a] == [] + [a];
      FlatSnoc([a], b);
      FlatSnoc([], a);
      assert [] + a == a;
    }
  }

  lemma NoticeHasNoLines(batch: seq<LogBuffer>)
    ensures LinesOf(Notice(batch)) == []
  {
    assert |Notice(batch)| == 1 ==> Notice(batch)[..0] == [];
  }

  /** A batch longer than 25 adds to the file a notice that counts all but two, and its first two buffers. */
  lemma LongBatch(before: seq<seq<LogBuffer>>, a: LogBuffer, b: LogBuffer, rest: seq<LogBuffer>)
    requires |rest| >= 24
    ensures EmitAll(before + [[a, b] + rest]) == EmitAll(before) + [DropNotice(|rest|), Chunk(a), Chunk(b)]
  {
    var batch := [a, b] + rest;
    EmitOne(before, batch);
    assert Kept(batch) == [a, b] && Notice(batch) == [DropNotice(|rest|)];
    ChunksAt([a, b]);
    hide EmitAll, Chunks, Kept, Notice;
    assert Chunks([a, b]) == [Chunk(a), Chunk(b)];
    assert [DropNotice(|rest|)] + [Chunk(a), Chunk(b)] == [DropNotice(|rest|), Chunk(a), Chunk(b)];
  }

  /** Any other batch adds each of its buffers in turn. */
  lemma ShortBatch(before: seq<seq<LogBuffer>>, batch: seq<LogBuffer>)
    requires |batch| <= 25
    ensures EmitAll(before + [batch]) == EmitAll(before) + seq(|batch|, i requires 0 <= i < |batch| => Chunk(batch[i]))
  {
    EmitOne(before, batch);
    assert Kept(batch) == batch && Notice(batch) == [];
    ChunksAt(batch);
    hide EmitAll, Chunks, Kept, Notice;
    assert Chunks(batch) == seq(|batch|, i requires 0 <= i < |batch| => Chunk(batch[i]));
    assert [] + Chunks(batch) == Chunks(batch);
  }

  lemma EmitOne(before: seq<seq<LogBuffer>>, batch: seq<LogBuffer>)
    ensures EmitAll(before + [batch]) == EmitAll(before) + (Notice(batch) + Chunks(Kept(batch)))
  {
    assert (before + [batch])[..|before|] == before;
    hide Notice, Chunks, Kept;
    RegroupItems(EmitAll(before), Notice(batch), Chunks(Kept(batch)));
  }

  lemma {:induction false} ChunksAt(bs: seq<LogBuffer>)
    ensures |Chunks(bs)| == |bs| && forall i :: 0 <= i < |bs| ==> Chunks(bs)[i] == Chunk(bs[i])
    decreases |bs|
  {
    if bs != [] {
      ChunksAt(bs[..|bs| - 1]);
    }
  }

  lemma {:induction false} KeptAll(batches: seq<seq<LogBuffer>>)
    requires forall b :: b in batches ==> |b| <= 25
    ensures KeptLines(batches) == FlatBatches(batches)
    decreases |batches|
  {
    if batches != [] {
      KeptAll(batches[..|batches| - 1]);
      assert batches[|batches| - 1] in batches;
    }
  }

  /** When no batch overflowed, the backend at rest has written every line but those still in buffers. */
  lemma NothingDropped(steps: seq<Step>)
    ensures var s := Run(Init(), steps);
            (s.pc.AtTop? || s.pc.Exited?) && (forall b :: b in s.batches ==> |b| <= 25)
            ==> LinesOf(s.output) + (Flat(s.buffers) + s.current) == s.appended
  {
    LogConservation(steps);
    var s := Run(Init(), steps);
    FileLines(s.batches);
    hide Run, LinesOf, EmitAll, KeptLines, Flat;
    if forall b :: b in s.batches ==> |b| <= 25 {
      KeptAll(s.batches);
      hide FlatBatches;
      assert FlatBatches(s.batches) + Flat(s.buffers) + s.current
          == FlatBatches(s.batches) + (Flat(s.buffers) + s.current);
    }
  }

  predicate AllShort(batches: seq<seq<LogBuffer>>) {
    forall b <- batches :: |b| <= 25
  }

  /** These lines are in the file, or will be in it by the time the stopped backend ends. */
  predicate Secured(lines: seq<Line>, s: State) {
    && !s.running && !s.pc.NotStarted?
    && (if s.pc.Waiting? then lines <= s.appended else lines <= FlatBatches(s.batches))
  }

  lemma StepSecured(lines: seq<Line>, s: State, step: Step)
    requires Inv(s) && Secured(lines, s)
    ensures Secured(lines, Apply(s, step))
  {
    hide FlatBatches, Inv;
    if step.Append? {
      AppendGrows(s, step.line);
    } else if step.Swap? && Enabled(s, step) {
      SwappedOut(s);
    }
    hide AppendLine;
  }

  lemma AppendGrows(s: State, line: Line)
    ensures var s' := AppendLine(s, line);
            s.appended <= s'.appended && s'.batches == s.batches && s'.pc == s.pc && s'.running == s.running
  {
    hide HasRoom;
  }

  /** What is swapped out, with the batches before it, is everything appended. */
  lemma SwappedOut(s: State)
    requires Inv(s) && Enabled(s, Swap)
    ensures FlatBatches(SwapBuffers(s).batches) == s.appended
  {
    var s' := SwapBuffers(s);
    SwapInv(s);
    assert s'.current == [] && s'.buffers == [] && Flat([]) == [];
    hide FlatBatches, Flat, Filed, Spares;
    assert FlatBatches(s'.batches) + [] + [] == FlatBatches(s'.batches);
  }

  lemma {:induction false} RunSecured(lines: seq<Line>, s: State, steps: seq<Step>)
    requires Inv(s) && Secured(lines, s)
    ensures Secured(lines, Run(s, steps))
    decreases |steps|
  {
    if steps != [] {
      StepInv(s, steps[0]);
      StepSecured(lines, s, steps[0]);
      hide Inv, Secured, Apply;
      RunSecured(lines, Apply(s, steps[0]), steps[1..]);
    }
  }

  /** The steps of its pass that a backend past its wait has still to take. */
  function StepsLeft(s: State): nat {
    match s.pc
    case Swapped => 3 + |s.toWrite|
    case Writing(i) => 2 + if i <= |s.toWrite| then |s.toWrite| - i else 0
    case AtTop => 1
    case _ => 0
  }

  function BackendStep(s: State): Step {
    match s.pc
    case AtTop => Check
    case Swapped => DropExcess
    case _ => if s.pc.Writing? && s.pc.written < |s.toWrite| then WriteOne else Recycle
  }

  lemma BackendMoves(s: State)
    requires Filed(s) && Spares(s) && !s.running && (s.pc.AtTop? || s.pc.Swapped? || s.pc.Writing?)
    ensures var s' := Apply(s, BackendStep(s));
            && !s'.running && s'.batches == s.batches && StepsLeft(s') < StepsLeft(s)
            && !s'.pc.NotStarted? && !s'.pc.Waiting?
  {
    hide EmitAll, Chunks, Notice, Kept, Length;
  }

  /** A stopped backend that is past its wait ends its pass and takes no other batch. */
  lemma {:induction false} Ends(s: State) returns (more: seq<Step>)
    requires Inv(s) && !s.running && !s.pc.NotStarted? && !s.pc.Waiting?
    ensures Run(s, more).pc.Exited? && Run(s, more).batches == s.batches
    decreases StepsLeft(s)
  {
    more := [];
    if !s.pc.Exited? {
      BackendMoves(s);
      StepInv(s, BackendStep(s));
      hide Inv, Apply, StepsLeft, BackendStep;
      var rest := Ends(Apply(s, BackendStep(s)));
      more := [BackendStep(s)] + rest;
      assert more[1..] == rest;
    }
  }

  /** At rest, a file that dropped nothing holds the lines of the batches. */
  lemma FileOfShort(s: State)
    requires Inv(s) && s.pc.Exited? && AllShort(s.batches)
    ensures LinesOf(s.output) == FlatBatches(s.batches)
  {
    FileLines(s.batches);
    hide FlatBatches, EmitAll, LinesOf, KeptLines;
    assert forall b :: b in s.batches ==> |b| <= 25;
    KeptAll(s.batches);
  }

  /**
   `stop`, on a running logger that dropped nothing: whatever follows, the file of the ended backend holds
   everything appended before `stop`, if no batch overflows, exactly when the backend was waiting, so that
   one more swap was to come, or the buffers held nothing.
   */
  lemma StopIsComplete(steps: seq<Step>)
    requires Run(Init(), steps).running && AllShort(Run(Init(), steps).batches)
    ensures var s := Run(Init(), steps);
            (forall more :: Completed(Run(Apply(s, Stop), more)) ==>
                              s.appended <= LinesOf(Run(Apply(s, Stop), more).output))
            <==> s.pc.Waiting? || Flat(s.buffers) + s.current == []
  {
    InitInv();
    RunInv(Init(), steps);
    RunningStarted(steps);
    var s := Run(Init(), steps);
    hide Run, AllShort;
    StopIff(s);
  }

  predicate Completed(s: State) {
    s.pc.Exited? && AllShort(s.batches)
  }

  lemma StopIff(s: State)
    requires Inv(s) && !s.pc.NotStarted? && AllShort(s.batches)
    ensures (forall more :: Completed(Run(Apply(s, Stop), more)) ==>
                              s.appended <= LinesOf(Run(Apply(s, Stop), more).output))
       <==> s.pc.Waiting? || Flat(s.buffers) + s.current == []
  {
    if s.pc.Waiting? || Flat(s.buffers) + s.current == [] {
      forall more | Completed(Run(Apply(s, Stop), more))
        ensures s.appended <= LinesOf(Run(Apply(s, Stop), more).output)
      {
        WrittenAfterStop(s, more);
      }
    } else {
      var more := LostAfterStop(s);
    }
  }

  lemma NotInBatches(s: State)
    requires Conserved(s)
    ensures FlatBatches(s.batches) + (Flat(s.buffers) + s.current) == s.appended
  {
    hide Flat, FlatBatches;
    assert FlatBatches(s.batches) + Flat(s.buffers) + s.current
        == FlatBatches(s.batches) + (Flat(s.buffers) + s.current);
  }

  lemma WrittenAfterStop(s: State, more: seq<Step>)
    requires Inv(s) && !s.pc.NotStarted? && (s.pc.Waiting? || Flat(s.buffers) + s.current == [])
    requires Completed(Run(Apply(s, Stop), more))
    ensures s.appended <= LinesOf(Run(Apply(s, Stop), more).output)
  {
    var s1 := Apply(s, Stop);
    StepInv(s, Stop);
    NotInBatches(s);
    hide Flat, FlatBatches, LinesOf, Inv;
    assert FlatBatches(s.batches) + [] == FlatBatches(s.batches);
    assert Secured(s.appended, s1);
    hide Apply;
    RunInv(s1, more);
    RunSecured(s.appended, s1, more);
    FileOfShort(Run(s1, more));
  }

  lemma LostAfterStop(s: State) returns (more: seq<Step>)
    requires Inv(s) && !s.pc.NotStarted? && AllShort(s.batches)
    requires !s.pc.Waiting? && Flat(s.buffers) + s.current != []
    ensures Completed(Run(Apply(s, Stop), more)) && !(s.appended <= LinesOf(Run(Apply(s, Stop), more).output))
  {
    var s1 := Apply(s, Stop);
    StepInv(s, Stop);
    NotInBatches(s);
    hide Flat, FlatBatches, LinesOf, Inv, AllShort;
    more := Ends(s1);
    RunInv(s1, more);
    FileOfShort(Run(s1, more));
    assert |s.appended| > |LinesOf(Run(s1, more).output)|;
  }

  lemma RunningStarted(steps: seq<Step>)
    ensures Run(Init(), steps).running ==> !Run(Init(), steps).pc.NotStarted?
  {
    KeepsStarted(Init(), steps);
  }

  lemma {:induction false} KeepsStarted(s: State, steps: seq<Step>)
    requires s.running ==> !s.pc.NotStarted?
    ensures Run(s, steps).running ==> !Run(s, steps).pc.NotStarted?
    decreases |steps|
  {
    if steps != [] {
      KeepsStarted(Apply(s, steps[0]), steps[1..]);
    }
  }

  /** A line appended just before `stop` is lost. */
  lemma StopLosesLine(line: Line)
    requires |line| < 4_000_000
    ensures var s := Run(Init(), [Start, Append(line), Stop, Check]);
            s.pc.Exited? && s.output == [] && s.appended == [line]
  {
    var a, b, c, d := Start, Append(line), Stop, Check;
    var s1 := Apply(Init(), a);
    assert Length([]) == 0;
    var s2 := Apply(s1, b);
    assert s2.appended == [] + [line] == [line];
    var s3 := Apply(s2, c);
    assert [a, b, c, d][1..] == [b, c, d] && [b, c, d][1..] == [c, d] && [c, d][1..] == [d] && [d][1..] == [];
    assert Run(s3, [d]) == Run(Apply(s3, d), []);
    assert Run(s1, [b, c, d]) == Run(s2, [c, d]) == Run(s3, [d]);
  }

  /**
   Buffers recycle: in every run the next buffer is missing only while a full one waits, the backend
   always swaps with two empty spares, and can always recover them from what it took.
   */
  lemma BuffersRecycle(steps: seq<Step>)
    ensures var s := Run(Init(), steps);
            && (s.next.None? ==> s.buffers != [])
            && (s.pc.AtTop? || s.pc.Waiting? ==> s.spare1 == Some([]) && s.spare2 == Some([]) && s.toWrite == [])
            && (s.pc.Swapped? || s.pc.Writing? ==> Needed(s) <= |s.toWrite|)
  {
    InitInv();
    RunInv(Init(), steps);
  }
}

/**
 A delta stream uploaded while another process still writes it. The writer only appends and creates the
 done file behind its last write; between any two looks of the uploader at the disk it may do more.
 */
module StreamingUpload {
  import opened Varint
  import opened Modulo

  datatype Chunk = Chunk(index: nat, offset: nat, data: seq<Byte>)

  /** Where the upload loop is: looking at the size, sending, looking for the done file, comparing sizes, or over. */
  datatype Phase = Looking | Sending(chunk: seq<Byte>) | AskingDone | Comparing | Finalized(finalSize: nat) | Missing

  datatype State = State(file: seq<Byte>, present: bool, done: bool, offset: nat, index: nat, sent: seq<Chunk>,
                         phase: Phase)

  datatype Event =
    | Append(bytes: seq<Byte>)
    | CreateDone
    | UploaderMoves

  function Min(a: nat, b: nat): nat { if a <= b then a else b }

  /** The uploader's next step. */
  function Move(s: State, chunkSize: nat): State {
    match s.phase
    case Looking =>
      if s.present && |s.file| > s.offset
      then s.(phase := Sending(s.file[s.offset..s.offset + Min(chunkSize, |s.file| - s.offset)]))
      else s.(phase := AskingDone)
    case Sending(chunk) =>
      if chunk == [] then s.(phase := AskingDone)
      else s.(sent := s.sent + [Chunk(s.index, s.offset, chunk)], offset := s.offset + |chunk|, index := s.index + 1,
              phase := Looking)
    case AskingDone => s.(phase := if s.done then Comparing else Looking)
    case Comparing =>
      s.(phase := if s.offset < |s.file| then Looking else if s.present then Finalized(|s.file|) else Missing)
    case Finalized(_) => s
    case Missing => s
  }

  /** Nothing is written once the done file exists. */
  function Next(s: State, chunkSize: nat, event: Event): State {
    match event
    case Append(bytes) => if s.done then s else s.(file := s.file + bytes, present := true)
    case CreateDone => s.(done := true)
    case UploaderMoves => Move(s, chunkSize)
  }

  function Start(): State {
    State([], false, false, 0, 0, [], Looking)
  }

  function Run(chunkSize: nat, events: seq<Event>): State {
    if events == [] then Start()
    else Next(Run(chunkSize, events[..|events| - 1]), chunkSize, events[|events| - 1])
  }

  function Content(sent: seq<Chunk>): seq<Byte> {
    if sent == [] then [] else Content(sent[..|sent| - 1]) + sent[|sent| - 1].data
  }

  /** Chunks are numbered, contiguous, not empty and not too large. */
  predicate Contiguous(sent: seq<Chunk>, chunkSize: nat) {
    forall k :: 0 <= k < |sent| ==>
      && sent[k].index == k
      && sent[k].offset == |Content(sent[..k])|
      && 1 <= |sent[k].data| <= chunkSize
  }

  /** What was sent is the file up to the offset. */
  ghost predicate SentSoFar(sent: seq<Chunk>, index: nat, offset: nat, file: seq<Byte>, chunkSize: nat) {
    && Contiguous(sent, chunkSize) && index == |sent|
    && offset == |Content(sent)| && Content(sent) <= file
  }

  ghost predicate PhaseFits(s: State, chunkSize: nat) {
    && s.offset <= |s.file|
    && (s.phase.Sending? ==>
          && |s.phase.chunk| <= chunkSize && s.offset + |s.phase.chunk| <= |s.file|
          && s.phase.chunk == s.file[s.offset..s.offset + |s.phase.chunk|])
    && (s.phase.Comparing? ==> s.done)
    && (s.phase.Finalized? ==> s.done && s.offset == |s.file| == s.phase.finalSize)
  }

  ghost predicate Inv(s: State, chunkSize: nat) {
    SentSoFar(s.sent, s.index, s.offset, s.file, chunkSize) && PhaseFits(s, chunkSize)
  }

  lemma SentOneMore(s: State, chunkSize: nat, chunk: seq<Byte>)
    requires Inv(s, chunkSize) && s.phase == Sending(chunk) && chunk != []
    ensures Inv(Move(s, chunkSize), chunkSize)
  {
    var next := Move(s, chunkSize);
    assert next.sent[..|s.sent|] == s.sent;
    forall k | 0 <= k < |s.sent| ensures next.sent[..k] == s.sent[..k] {
    }
    assert Content(next.sent) == s.file[..s.offset] + chunk;
  }

  lemma StepKeepsInv(s: State, chunkSize: nat, event: Event)
    requires Inv(s, chunkSize)
    ensures Inv(Next(s, chunkSize, event), chunkSize)
  {
    match event
    case Append(bytes) => AppendKeepsInv(s, chunkSize, bytes);
    case CreateDone =>
    case UploaderMoves =>
      if s.phase.Sending? && s.phase.chunk != [] {
        SentOneMore(s, chunkSize, s.phase.chunk);
      } else {
        LookKeepsInv(s, chunkSize);
      }
  }

  lemma AppendKeepsInv(s: State, chunkSize: nat, bytes: seq<Byte>)
    requires Inv(s, chunkSize)
    ensures Inv(Next(s, chunkSize, Append(bytes)), chunkSize)
  {
    if s.phase.Sending? {
      SameBelow(s.file, bytes, s.offset, s.offset + |s.phase.chunk|);
    }
  }

  lemma SameBelow(file: seq<Byte>, bytes: seq<Byte>, from: nat, to: nat)
    requires from <= to <= |file|
    ensures (file + bytes)[from..to] == file[from..to]
  {
  }

  lemma LookKeepsInv(s: State, chunkSize: nat)
    requires PhaseFits(s, chunkSize) && (s.phase.Sending? ==> s.phase.chunk == [])
    ensures var next := Move(s, chunkSize);
      && PhaseFits(next, chunkSize)
      && next.sent == s.sent && next.index == s.index && next.offset == s.offset && next.file == s.file
  {
  }

  lemma {:induction false} RunKeepsInv(chunkSize: nat, events: seq<Event>)
    ensures Inv(Run(chunkSize, events), chunkSize)
  {
    if events != [] {
      RunKeepsInv(chunkSize, events[..|events| - 1]);
      StepKeepsInv(Run(chunkSize, events[..|events| - 1]), chunkSize, events[|events| - 1]);
    }
  }

  /** Whatever the interleaving, at finalize the contiguous chunks are exactly the finished file. */
  lemma UploadIsTheFile(chunkSize: nat, events: seq<Event>)
    requires Run(chunkSize, events).phase.Finalized?
    ensures var s := Run(chunkSize, events);
      && s.done && Contiguous(s.sent, chunkSize)
      && Content(s.sent) == s.file && s.phase.finalSize == |s.file|
  {
    RunKeepsInv(chunkSize, events);
  }

  /* ---------- It ends ---------- */

  /** Bytes not sent yet. */
  function Rest(s: State): nat {
    if s.offset <= |s.file| then |s.file| - s.offset else 0
  }

  function Ceiling(bytes: nat, chunkSize: nat): nat
    requires chunkSize >= 1
  {
    (bytes + chunkSize - 1) / chunkSize
  }

  lemma OneChunkLess(bytes: nat, chunkSize: nat)
    requires chunkSize >= 1
    ensures Ceiling(0, chunkSize) == 0
    ensures bytes > 0 ==> Ceiling(bytes, chunkSize) == Ceiling(bytes - Min(chunkSize, bytes), chunkSize) + 1
  {
    UniqueRemainder(chunkSize - 1, chunkSize, 0, chunkSize - 1);
    if 0 < bytes <= chunkSize {
      UniqueRemainder(bytes + chunkSize - 1, chunkSize, 1, bytes - 1);
    } else if bytes > chunkSize {
      var q, r := (bytes - 1) / chunkSize, (bytes - 1) % chunkSize;
      OneMore(q, chunkSize);
      UniqueRemainder(bytes + chunkSize - 1, chunkSize, q + 1, r);
    }
  }

  /** Chunks still to come once nothing is written any more: one that is under way, and one for each chunkSize bytes. */
  function ChunksLeft(s: State, chunkSize: nat): nat
    requires chunkSize >= 1
  {
    match s.phase
    case Sending(chunk) =>
      if chunk != [] && |chunk| <= Rest(s) then 1 + Ceiling(Rest(s) - |chunk|, chunkSize)
      else Ceiling(Rest(s), chunkSize)
    case _ => Ceiling(Rest(s), chunkSize)
  }

  /** Moves from looking at the size to the end: two a chunk, then looking, asking and comparing. */
  function MovesFromLooking(bytes: nat, chunkSize: nat): nat
    requires chunkSize >= 1
  {
    2 * Ceiling(bytes, chunkSize) + 3
  }

  function MovesLeft(s: State, chunkSize: nat): nat
    requires chunkSize >= 1
  {
    var rest := Rest(s);
    match s.phase
    case Looking => MovesFromLooking(rest, chunkSize)
    case Sending(chunk) =>
      if chunk != [] && |chunk| <= rest then 1 + MovesFromLooking(rest - |chunk|, chunkSize)
      else if rest == 0 then 3 else 3 + MovesFromLooking(rest, chunkSize)
    case AskingDone => if rest == 0 then 2 else 2 + MovesFromLooking(rest, chunkSize)
    case Comparing => if rest == 0 then 1 else 1 + MovesFromLooking(rest, chunkSize)
    case Finalized(_) => 0
    case Missing => 0
  }

  /** A file with bytes exists; the end tells whether there is one, and comes behind the done file. */
  ghost predicate Honest(s: State) {
    && (s.file != [] ==> s.present)
    && (s.phase.Comparing? || s.phase.Finalized? || s.phase.Missing? ==> s.done)
    && (s.phase.Finalized? ==> s.present && s.phase.finalSize == |s.file|)
    && (s.phase.Missing? ==> !s.present)
  }

  lemma {:induction false} RunIsHonest(chunkSize: nat, events: seq<Event>)
    ensures Honest(Run(chunkSize, events))
  {
    if events != [] {
      RunIsHonest(chunkSize, events[..|events| - 1]);
      RunKeepsInv(chunkSize, events[..|events| - 1]);
    }
  }

  lemma MoveCounts(s: State, chunkSize: nat)
    requires chunkSize >= 1 && PhaseFits(s, chunkSize) && Honest(s) && s.done && MovesLeft(s, chunkSize) > 0
    ensures var next := Move(s, chunkSize);
      && MovesLeft(next, chunkSize) == MovesLeft(s, chunkSize) - 1
      && |next.sent| + ChunksLeft(next, chunkSize) == |s.sent| + ChunksLeft(s, chunkSize)
  {
    OneChunkLess(Rest(s), chunkSize);
  }

  function MovesIn(events: seq<Event>): nat {
    if events == [] then 0
    else MovesIn(events[..|events| - 1]) + if events[|events| - 1] == UploaderMoves then 1 else 0
  }

  /** t is s after some more moves, with nothing written in between. */
  ghost predicate Further(s: State, t: State, moves: nat, chunkSize: nat)
    requires chunkSize >= 1
  {
    && t.done && t.file == s.file && t.present == s.present
    && MovesLeft(t, chunkSize) == (if moves < MovesLeft(s, chunkSize) then MovesLeft(s, chunkSize) - moves else 0)
    && |t.sent| + ChunksLeft(t, chunkSize) == |s.sent| + ChunksLeft(s, chunkSize)
  }

  lemma NextCounts(s: State, chunkSize: nat, event: Event)
    requires chunkSize >= 1 && PhaseFits(s, chunkSize) && Honest(s) && s.done
    ensures Further(s, Next(s, chunkSize, event), if event == UploaderMoves then 1 else 0, chunkSize)
  {
    if event == UploaderMoves && MovesLeft(s, chunkSize) > 0 {
      MoveCounts(s, chunkSize);
    }
  }

  lemma FurtherYet(s: State, t: State, u: State, m: nat, n: nat, chunkSize: nat)
    requires chunkSize >= 1 && Further(s, t, m, chunkSize) && Further(t, u, n, chunkSize)
    ensures Further(s, u, m + n, chunkSize)
  {
  }

  lemma {:induction false} MovesCount(chunkSize: nat, events: seq<Event>, more: seq<Event>)
    requires chunkSize >= 1 && Run(chunkSize, events).done
    ensures Further(Run(chunkSize, events), Run(chunkSize, events + more), MovesIn(more), chunkSize)
    decreases |more|
  {
    if more == [] {
      assert events + more == events;
    } else {
      var front, last := more[..|more| - 1], more[|more| - 1];
      MovesCount(chunkSize, events, front);
      assert (events + more)[..|events + more| - 1] == events + front;
      var before := Run(chunkSize, events + front);
      RunKeepsInv(chunkSize, events + front);
      RunIsHonest(chunkSize, events + front);
      NextCounts(before, chunkSize, last);
      FurtherYet(Run(chunkSize, events), before, Next(before, chunkSize, last), MovesIn(front),
                 if last == UploaderMoves then 1 else 0, chunkSize);
    }
  }

  /**
   Once the done file is there, the upload ends whatever else happens: after so many more moves of the uploader it
   is finalized, unless there is no file at all, and it has sent one chunk for each chunkSize bytes that were left
   and at most one, which was under way, besides.
   */
  lemma UploadEnds(chunkSize: nat, events: seq<Event>, more: seq<Event>)
    requires chunkSize >= 1 && Run(chunkSize, events).done
    requires MovesIn(more) >= MovesLeft(Run(chunkSize, events), chunkSize)
    ensures var s, t := Run(chunkSize, events), Run(chunkSize, events + more);
      && t.phase == (if s.present then Finalized(|s.file|) else Missing)
      && |t.sent| == |s.sent| + ChunksLeft(s, chunkSize)
  {
    MovesCount(chunkSize, events, more);
    RunKeepsInv(chunkSize, events + more);
    RunIsHonest(chunkSize, events + more);
    OneChunkLess(0, chunkSize);
  }

  lemma {:induction false} FewerBytesFewerChunks(a: nat, b: nat, chunkSize: nat)
    requires chunkSize >= 1 && a <= b
    ensures Ceiling(a, chunkSize) <= Ceiling(b, chunkSize)
    decreases b
  {
    OneChunkLess(a, chunkSize);
    OneChunkLess(b, chunkSize);
    if a > 0 {
      FewerBytesFewerChunks(a - Min(chunkSize, a), b - Min(chunkSize, b), chunkSize);
    }
  }

  /** A chunk under way may be smaller than it could be now, which costs at most one chunk. */
  lemma ChunkUnderWay(bytes: nat, chunk: nat, chunkSize: nat)
    requires chunkSize >= 1 && chunk <= bytes && chunk <= chunkSize
    ensures Ceiling(bytes, chunkSize) <= 1 + Ceiling(bytes - chunk, chunkSize) <= Ceiling(bytes, chunkSize) + 1
  {
    OneChunkLess(bytes, chunkSize);
    FewerBytesFewerChunks(bytes - chunk, bytes, chunkSize);
    FewerBytesFewerChunks(bytes - Min(chunkSize, bytes), bytes - chunk, chunkSize);
  }

  /** How soon that is. */
  lemma EndsSoon(chunkSize: nat, events: seq<Event>)
    requires chunkSize >= 1
    ensures var s := Run(chunkSize, events);
      var chunks := Ceiling(Rest(s), chunkSize);
      && chunks <= ChunksLeft(s, chunkSize) <= chunks + 1
      && (!s.phase.Sending? ==> ChunksLeft(s, chunkSize) == chunks)
      && MovesLeft(s, chunkSize) <= 2 * chunks + 6
  {
    var s := Run(chunkSize, events);
    RunKeepsInv(chunkSize, events);
    if s.phase.Sending? {
      ChunkUnderWay(Rest(s), |s.phase.chunk|, chunkSize);
    }
  }
}

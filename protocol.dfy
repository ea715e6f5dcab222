/**
 * One websocket session of the load-test client (MyClientProtocol) and the
 * factory state all sessions share (MyClientFactory): the results map, the
 * completion counters and the semaphore that bounds concurrent sessions.
 * Each callback of the client is a method; clock readings are parameters.
 */
module Protocol {
  import opened Types
  import Chunker
  import AudioSource
  import Analysis

  /** asyncio.Semaphore, reduced to its permit count. */
  class Semaphore {
    var permits: int
    /** How many acquire() and release() calls the semaphore has served. */
    ghost var acquired: nat
    ghost var released: nat

    constructor (value: nat)
      ensures permits == value && acquired == 0 && released == 0
    {
      permits := value;
      acquired, released := 0, 0;
    }

    /** acquire() once a permit is free; waiting for one is the caller's loop. */
    method Acquire()
      requires permits > 0
      modifies this
      ensures permits == old(permits) - 1
      ensures acquired == old(acquired) + 1 && released == old(released)
    {
      permits := permits - 1;
      acquired := acquired + 1;
    }

    method Release()
      modifies this
      ensures permits == old(permits) + 1
      ensures acquired == old(acquired) && released == old(released) + 1
    {
      permits := permits + 1;
      released := released + 1;
    }
  }

  /** The state shared by every session of one run. */
  class Factory {
    const sem: Semaphore
    const byteRate: int
    const chunkSize: int
    /** The results dictionary, and the order in which its keys were inserted. */
    var results: map<Id, Record>
    var order: seq<Id>
    /** Identifiers not yet handed out (the client draws uuid4 values). */
    var nextId: nat
    var finishedSessions: nat
    var finishedSessionsCloseError: nat

    /** The key order lists every key once, identifiers are fresh, and no
        more sessions closed with an error than closed at all. */
    ghost predicate Valid()
      reads this
    {
      && (forall i, j :: 0 <= i < j < |order| ==> order[i] != order[j])
      && (forall k :: k in results <==> k in order)
      && (forall k :: k in results ==> k < nextId)
      && finishedSessionsCloseError <= finishedSessions
    }

    /** Every record in the insertion order has an "audio_file" key, as the
        post-run sort reads it. */
    ghost predicate KeysComplete()
      reads this
    {
      Analysis.HasAudioKeys(order, results)
    }

    constructor (sem: Semaphore, byteRate: int, chunkSize: int)
      ensures this.sem == sem && this.byteRate == byteRate && this.chunkSize == chunkSize
      ensures results == map[] && order == [] && finishedSessions == 0 && finishedSessionsCloseError == 0
      ensures Valid() && KeysComplete()
    {
      this.sem := sem;
      this.byteRate := byteRate;
      this.chunkSize := chunkSize;
      results := map[];
      order := [];
      nextId := 0;
      finishedSessions := 0;
      finishedSessionsCloseError := 0;
    }

    /** A new value for a key already in the results; the key order is
        unchanged. */
    method Update(id: Id, r: Record)
      requires id in results
      modifies this`results
      ensures results == old(results)[id := r]
      ensures old(Valid()) ==> Valid()
      ensures old(KeysComplete()) && r.audioFile != Missing ==> KeysComplete()
    {
      results := results[id := r];
    }

    /** A fresh uuid, and a record stored under it at the end of the key
        order. */
    method Insert(r: Record) returns (id: Id)
      requires Valid()
      modifies this`results, this`order, this`nextId
      ensures Valid() && (old(KeysComplete()) && r.audioFile != Missing ==> KeysComplete())
      ensures id == old(nextId) && id !in old(results)
      ensures results == old(results)[id := r] && order == old(order) + [id]
    {
      id := nextId;
      assert id !in results && id !in order;
      nextId := nextId + 1;
      results := results[id := r];
      order := order + [id];
    }
  }

  /** The pacing rule: a chunk may go out only while the bytes already sent
      are below byte_rate * elapsed seconds (elapsed given in ticks). */
  predicate MaySend(bytesSent: int, byteRate: int, elapsed: int)
  {
    bytesSent * TicksPerSecond < byteRate * elapsed
  }

  function AudioFrames(cs: seq<seq<Byte>>): (fs: seq<Frame>)
  {
    seq(|cs|, i requires 0 <= i < |cs| => Audio(cs[i]))
  }

  /** Ticks spent inside the delivered sends of a run of send results. */
  function TransferTicks(rs: seq<SendResult>): int
  {
    if rs == [] then 0
    else TransferTicks(rs[..|rs| - 1]) + (if rs[|rs| - 1].Delivered? then rs[|rs| - 1].duration else 0)
  }

  /** How a send_audio_data task ended. */
  datatype PacerOutcome =
    | SourceFailed   // next() on the audio source raised
    | FileError      // opening or reading the audio file raised at the first next(g)
    | Aborted        // a chunk send raised; the task returned without stop
    | StopFailed     // sending the stop message raised
    | Finished       // every chunk and then the stop message went out
    | Pending        // the clock or send observations ended while streaming

  /** The part of a session that onMessage reads and writes. */
  datatype MessageState = MessageState(counter: int, record: Record, closeSentTime: int, sent: seq<Frame>)

  predicate IsListening(msg: Inbound)
  {
    msg.Text? && msg.state == Some("listening")
  }

  /** onMessage: the first "listening" state only marks the server ready;
      any later one records the recognition, stamps time_stt and requests a
      successful close; a "results" message replaces the transcripts. */
  function HandleMessage(s: MessageState, msg: Inbound, now: int, timeOnOpen: int): MessageState
  {
    if IsListening(msg) then
      if s.counter == 0 then s.(counter := s.counter + 1)
      else s.(record := s.record.(timeStt := Val(now - timeOnOpen), recoResults := Some(true)),
              sent := s.sent + [Close(SuccessfulClose)],
              closeSentTime := now)
    else if msg.Text? && !msg.results.Missing? then
      s.(record := s.record.(transcripts := msg.results))
    else s
  }

  datatype TimedMessage = TimedMessage(msg: Inbound, at: int)

  /** The state after a session has handled `msgs` in delivery order. */
  function Replay(s: MessageState, msgs: seq<TimedMessage>, timeOnOpen: int): MessageState
  {
    if msgs == [] then s
    else HandleMessage(Replay(s, msgs[..|msgs| - 1], timeOnOpen), msgs[|msgs| - 1].msg, msgs[|msgs| - 1].at, timeOnOpen)
  }

  function Listenings(msgs: seq<TimedMessage>): nat
  {
    if msgs == [] then 0
    else Listenings(msgs[..|msgs| - 1]) + (if IsListening(msgs[|msgs| - 1].msg) then 1 else 0)
  }

  /** The "results" value of the last message among `msgs` that has the
      key, if any. */
  function LastPayload(msgs: seq<TimedMessage>): Option<Field<Payload>>
  {
    if msgs == [] then None
    else
      var m := msgs[|msgs| - 1].msg;
      if !IsListening(m) && m.Text? && !m.results.Missing? then Some(m.results)
      else LastPayload(msgs[..|msgs| - 1])
  }

  function CloseRequests(n: nat): seq<Frame>
  {
    seq(n, _ => Close(SuccessfulClose))
  }

  /** Over any run of messages from a fresh listening counter: the counter
      ends at 0 or 1, one successful-close request goes out per "listening"
      after the first, the session counts as recognised iff at least two
      "listening" states arrived, the transcripts are the last "results"
      payload, and no other key of the record changes. */
  lemma {:induction false} ListeningRule(s: MessageState, msgs: seq<TimedMessage>, timeOnOpen: int)
    requires s.counter == 0
    ensures var e := Replay(s, msgs, timeOnOpen);
            var n := Listenings(msgs);
            && e.counter == (if n == 0 then 0 else 1)
            && e.sent == s.sent + CloseRequests(if n == 0 then 0 else n - 1)
            && e.record.recoResults == (if n >= 2 then Some(true) else s.record.recoResults)
            && (n < 2 ==> e.closeSentTime == s.closeSentTime && e.record.timeStt == s.record.timeStt)
            && e.record.transcripts == (if LastPayload(msgs).Some? then LastPayload(msgs).value else s.record.transcripts)
            && e.record == s.record.(recoResults := e.record.recoResults, transcripts := e.record.transcripts, timeStt := e.record.timeStt)
  {
    if msgs != [] {
      var init := msgs[..|msgs| - 1];
      ListeningRule(s, init, timeOnOpen);
      var n := Listenings(init);
      var last := msgs[|msgs| - 1].msg;
      if IsListening(last) && n >= 1 {
        assert CloseRequests(n - 1) + [Close(SuccessfulClose)] == CloseRequests(n);
      }
    }
  }

  /** The inner wait of send_audio_data: read the clock, starting at reading
      `poll`, until the session is behind schedule. Returns whether it got
      there before the readings ran out, the elapsed time that passed the
      test, and the next unread reading. */
  method AwaitSchedule(bytesSent: int, byteRate: int, timeOnOpen: int, clock: seq<int>, poll: nat)
    returns (ready: bool, elapsed: int, next: nat)
    requires poll <= |clock|
    ensures poll <= next <= |clock|
    ensures ready ==> next > poll && elapsed == clock[next - 1] - timeOnOpen && MaySend(bytesSent, byteRate, elapsed)
    ensures !ready ==> next == |clock|
    ensures forall t :: poll <= t < next - (if ready then 1 else 0) ==> !MaySend(bytesSent, byteRate, clock[t] - timeOnOpen)
  {
    ready, elapsed, next := false, 0, poll;
    while !ready && next < |clock|
      invariant poll <= next <= |clock|
      invariant ready ==> next > poll && elapsed == clock[next - 1] - timeOnOpen && MaySend(bytesSent, byteRate, elapsed)
      invariant forall t :: poll <= t < next - (if ready then 1 else 0) ==> !MaySend(bytesSent, byteRate, clock[t] - timeOnOpen)
      decreases |clock| - next
    {
      elapsed := clock[next] - timeOnOpen;
      next := next + 1;
      ready := MaySend(bytesSent, byteRate, elapsed);
    }
  }

  /** The first clock reading wait number `j` may look at: the one after
      the reading at which wait j - 1 passed. */
  function WaitStart(at: seq<nat>, j: nat): nat
    requires j <= |at|
  {
    if j == 0 then 0 else at[j - 1] + 1
  }

  /** Wait number `j` of the pacing loop (the one before the j-th next(g),
      with j chunks behind it) passed at reading `at[j]`: that reading lets
      j * chunk_size bytes through, it comes after the reading at which
      wait j - 1 passed, and no reading in between lets them through. */
  predicate PassedAt(at: seq<nat>, j: nat, clock: seq<int>, timeOnOpen: int, chunkSize: int, byteRate: int)
    requires j < |at|
  {
    && WaitStart(at, j) <= at[j] < |clock|
    && MaySend(j * chunkSize, byteRate, clock[at[j]] - timeOnOpen)
    && forall t :: WaitStart(at, j) <= t < at[j] ==> !MaySend(j * chunkSize, byteRate, clock[t] - timeOnOpen)
  }

  /** `at` lists, in order, the clock readings at which the successive waits
      of the pacing loop passed. */
  predicate Schedule(at: seq<nat>, clock: seq<int>, timeOnOpen: int, chunkSize: int, byteRate: int)
  {
    forall j :: 0 <= j < |at| ==> PassedAt(at, j, clock, timeOnOpen, chunkSize, byteRate)
  }

  /** The wait after the last pass in `at` used up the clock: no reading
      left lets |at| * chunk_size bytes through. */
  predicate WaitedOut(at: seq<nat>, clock: seq<int>, timeOnOpen: int, chunkSize: int, byteRate: int)
  {
    forall t :: WaitStart(at, |at|) <= t < |clock| ==> !MaySend(|at| * chunkSize, byteRate, clock[t] - timeOnOpen)
  }

  /** The readings in a schedule strictly increase. */
  lemma {:induction false} ScheduleIncreases(at: seq<nat>, clock: seq<int>, timeOnOpen: int, chunkSize: int, byteRate: int, i: nat, j: nat)
    requires Schedule(at, clock, timeOnOpen, chunkSize, byteRate)
    requires i < j < |at|
    ensures at[i] < at[j]
    decreases j - i
  {
    assert PassedAt(at, j, clock, timeOnOpen, chunkSize, byteRate);
    if i < j - 1 {
      ScheduleIncreases(at, clock, timeOnOpen, chunkSize, byteRate, i, j - 1);
    }
  }

  /** Right after the chunk that wait j let through went out, the bytes
      sent exceed what the byte rate allows by less than one chunk. */
  lemma AheadByLessThanAChunk(at: seq<nat>, clock: seq<int>, timeOnOpen: int, chunkSize: int, byteRate: int, j: nat)
    requires Schedule(at, clock, timeOnOpen, chunkSize, byteRate)
    requires j < |at|
    ensures at[j] < |clock|
    ensures (j + 1) * chunkSize * TicksPerSecond < byteRate * (clock[at[j]] - timeOnOpen) + chunkSize * TicksPerSecond
  {
    assert PassedAt(at, j, clock, timeOnOpen, chunkSize, byteRate);
  }

  /** A wait that passes extends the schedule. */
  lemma ScheduleExtend(at: seq<nat>, x: nat, clock: seq<int>, timeOnOpen: int, chunkSize: int, byteRate: int)
    requires Schedule(at, clock, timeOnOpen, chunkSize, byteRate)
    requires WaitStart(at, |at|) <= x < |clock|
    requires MaySend(|at| * chunkSize, byteRate, clock[x] - timeOnOpen)
    requires forall t :: WaitStart(at, |at|) <= t < x ==> !MaySend(|at| * chunkSize, byteRate, clock[t] - timeOnOpen)
    ensures Schedule(at + [x], clock, timeOnOpen, chunkSize, byteRate)
  {
    var at' := at + [x];
    forall j | 0 <= j < |at'|
      ensures PassedAt(at', j, clock, timeOnOpen, chunkSize, byteRate)
    {
      if j < |at| {
        assert PassedAt(at, j, clock, timeOnOpen, chunkSize, byteRate);
        assert WaitStart(at', j) == WaitStart(at, j);
      }
    }
  }

  /** Everything one run of the pacing loop of send_audio_data does, given
      whether the file opens, its bytes, the clock readings and the outcome
      of each send. `at` holds the reading at which each wait passed,
      `chunksSent` counts the chunks delivered, `ticks` the time spent
      in their sends:
      - one wait precedes every next(g); the loop takes as many items as
        waits passed, and it takes no further item only when the clock ran
        out in the wait after the last pass;
      - the first `chunksSent` chunks were sent and delivered, in order;
      - a file that does not open, or a chunk size the reader rejects,
        raises at the first next(g);
      - a raising chunk send returns from send_audio_data without a stop;
        after the last chunk the stop is sent, and the run finishes iff
        that send delivers. */
  predicate PacerRun(found: bool, data: seq<Byte>, chunkSize: int, byteRate: int, timeOnOpen: int,
                     clock: seq<int>, sends: seq<SendResult>,
                     outcome: PacerOutcome, frames: seq<Frame>, at: seq<nat>, chunksSent: nat, ticks: int)
  {
    var readable := found && Chunker.ReadAccepts(chunkSize);
    var chunks := if readable then Chunker.Chunks(data, chunkSize) else [];
    && outcome != SourceFailed
    && Schedule(at, clock, timeOnOpen, chunkSize, byteRate)
    && (|at| == chunksSent || |at| == chunksSent + 1)
    && (|at| == chunksSent ==> outcome == Pending && WaitedOut(at, clock, timeOnOpen, chunkSize, byteRate))
    && chunksSent <= |sends| && chunksSent <= |chunks|
    && (forall j :: 0 <= j < chunksSent ==> sends[j].Delivered?)
    && ticks == TransferTicks(sends[..chunksSent])
    && frames == AudioFrames(chunks[..chunksSent]) + (if outcome == Finished then [Stop] else [])
    && (outcome == FileError <==> !readable && |at| == 1)
    && (!readable ==> outcome in {FileError, Pending})
    && (outcome in {Finished, StopFailed} ==> readable && chunksSent == |chunks|)
    && (outcome == Aborted ==> readable && chunksSent < |chunks|)
    && (outcome in {Aborted, StopFailed} ==> chunksSent < |sends| && sends[chunksSent] == Broken)
    && (outcome == Finished ==> chunksSent < |sends| && sends[chunksSent].Delivered?)
    && (outcome == Pending && |at| == chunksSent + 1 ==> readable && chunksSent == |sends|)
  }

  /** The pacing loop of send_audio_data, on one audio file: before each
      chunk, poll the clock until MaySend holds, then take the generator's
      next item; on the sentinel send stop, otherwise send the chunk and add
      chunk_size to bytes_sent. A raising chunk send ends the task with no
      stop. `found` says whether the file opens; it is opened and first
      read lazily, at the first next(g), after the first wait. */
  method Pace(found: bool, data: seq<Byte>, chunkSize: int, byteRate: int, timeOnOpen: int,
              clock: seq<int>, sends: seq<SendResult>)
    returns (outcome: PacerOutcome, frames: seq<Frame>, at: seq<nat>, chunksSent: nat, ticks: int)
    ensures PacerRun(found, data, chunkSize, byteRate, timeOnOpen, clock, sends, outcome, frames, at, chunksSent, ticks)
  {
    if found {
      var raised, stream := Chunker.ChunkFile(data, chunkSize);
      if !raised {
        outcome, frames, at, chunksSent, ticks := PaceChunks(data, chunkSize, byteRate, timeOnOpen, clock, sends, stream);
        return;
      }
    }
    // the first next(g) raises: the file does not open, or its first read
    // rejects the chunk size
    var ready, elapsed, next := AwaitSchedule(0, byteRate, timeOnOpen, clock, 0);
    if ready {
      ScheduleExtend([], next - 1, clock, timeOnOpen, chunkSize, byteRate);
      outcome, at := FileError, [next - 1];
    } else {
      outcome, at := Pending, [];
    }
    frames, chunksSent, ticks := [], 0, 0;
  }

  /** How the pacing loop over a file that opened ends, from the state it
      keeps: the first `chunksSent` chunks went out and were delivered, and
      the run ended either with the clock used up in a wait, or after a
      wait passed, because the sends ran out, a chunk send raised, or the
      stream ended and the stop was sent. */
  lemma PacerExit(data: seq<Byte>, chunkSize: int, byteRate: int, timeOnOpen: int,
                  clock: seq<int>, sends: seq<SendResult>,
                  outcome: PacerOutcome, audio: seq<Frame>, at: seq<nat>, chunksSent: nat, ticks: int)
    requires Chunker.ReadAccepts(chunkSize)
    requires var chunks := Chunker.Chunks(data, chunkSize);
             && Schedule(at, clock, timeOnOpen, chunkSize, byteRate)
             && chunksSent <= |sends| && chunksSent <= |chunks|
             && (forall j :: 0 <= j < chunksSent ==> sends[j].Delivered?)
             && ticks == TransferTicks(sends[..chunksSent])
             && |audio| == chunksSent && (forall j :: 0 <= j < chunksSent ==> audio[j] == Audio(chunks[j]))
             && (|at| == chunksSent ==> outcome == Pending && WaitedOut(at, clock, timeOnOpen, chunkSize, byteRate))
             && (|at| == chunksSent + 1 ==>
                   if chunksSent < |chunks| then
                     if chunksSent == |sends| then outcome == Pending else sends[chunksSent].Broken? && outcome == Aborted
                   else
                     outcome == (if chunksSent == |sends| then Pending else if sends[chunksSent].Broken? then StopFailed else Finished))
             && (|at| == chunksSent || |at| == chunksSent + 1)
    ensures PacerRun(true, data, chunkSize, byteRate, timeOnOpen, clock, sends, outcome,
                     audio + (if outcome == Finished then [Stop] else []), at, chunksSent, ticks)
  {
    assert audio == AudioFrames(Chunker.Chunks(data, chunkSize)[..chunksSent]);
  }

  /** The pacing loop over the stream of yields of a file that opened and
      whose reads the reader accepts. */
  method PaceChunks(data: seq<Byte>, chunkSize: int, byteRate: int, timeOnOpen: int,
                    clock: seq<int>, sends: seq<SendResult>, stream: seq<Option<seq<Byte>>>)
    returns (outcome: PacerOutcome, frames: seq<Frame>, at: seq<nat>, chunksSent: nat, ticks: int)
    requires Chunker.ReadAccepts(chunkSize) && stream == Chunker.Stream(data, chunkSize)
    ensures PacerRun(true, data, chunkSize, byteRate, timeOnOpen, clock, sends, outcome, frames, at, chunksSent, ticks)
  {
    ghost var chunks := Chunker.Chunks(data, chunkSize);
    at, frames, ticks := [], [], 0;
    var bytesSent := 0;
    var poll := 0;
    chunksSent := 0;
    while true
      invariant |at| == chunksSent && poll == WaitStart(at, |at|) <= |clock|
      invariant Schedule(at, clock, timeOnOpen, chunkSize, byteRate)
      invariant chunksSent <= |sends| && chunksSent <= |chunks|
      invariant bytesSent == chunksSent * chunkSize
      invariant forall j :: 0 <= j < chunksSent ==> sends[j].Delivered?
      invariant ticks == TransferTicks(sends[..chunksSent])
      invariant |frames| == chunksSent && forall j :: 0 <= j < chunksSent ==> frames[j] == Audio(chunks[j])
      decreases |clock| - poll
    {
      var ready, elapsed, next := AwaitSchedule(bytesSent, byteRate, timeOnOpen, clock, poll);
      if !ready {
        outcome := Pending;
        PacerExit(data, chunkSize, byteRate, timeOnOpen, clock, sends, outcome, frames, at, chunksSent, ticks);
        return;
      }
      ScheduleExtend(at, next - 1, clock, timeOnOpen, chunkSize, byteRate);
      at, poll := at + [next - 1], next;
      var chunk := stream[chunksSent];
      if chunk.None? {
        break;
      }
      if chunksSent == |sends| || sends[chunksSent].Broken? {
        outcome := if chunksSent == |sends| then Pending else Aborted;
        PacerExit(data, chunkSize, byteRate, timeOnOpen, clock, sends, outcome, frames, at, chunksSent, ticks);
        return;
      }
      assert chunk.value == chunks[chunksSent];
      assert sends[..chunksSent + 1][..chunksSent] == sends[..chunksSent];
      frames := frames + [Audio(chunk.value)];
      ticks := ticks + sends[chunksSent].duration;
      assert bytesSent + chunkSize == (chunksSent + 1) * chunkSize;
      bytesSent := bytesSent + chunkSize;
      chunksSent := chunksSent + 1;
    }
    // signal end of audio
    if chunksSent == |sends| {
      outcome := Pending;
    } else if sends[chunksSent].Broken? {
      outcome := StopFailed;
    } else {
      outcome := Finished;
    }
    PacerExit(data, chunkSize, byteRate, timeOnOpen, clock, sends, outcome, frames, at, chunksSent, ticks);
    if outcome == Finished {
      frames := frames + [Stop];
    }
  }

  /** The timers of a session that onClose reads, and whether onConnecting
      set them. */
  datatype Timers = Timers(connected: bool, transferTime: int, closeSentTime: int, timeBeforeHandshake: int)

  /** The record onClose leaves behind: the close timestamp, code and
      reason; for a session that went through onConnecting also the
      transfer time, the elapsed time and, when a close was requested (a
      non-zero close_sent_time), the time since that request. */
  function ClosedRecord(base: Record, code: int, reason: Option<string>, wallClock: int, now: int, t: Timers): Record
  {
    var r := base.(timestamp := Some(wallClock), code := Some(code), reason := reason);
    if !t.connected then r
    else
      var r' := r.(transferTime := Some(t.transferTime), elapsedTime := Some(now - t.timeBeforeHandshake));
      if t.closeSentTime != 0 then r'.(closeTime := Some(now - t.closeSentTime)) else r'
  }

  class Session {
    const factory: Factory
    var uuid: Option<Id>
    /** onConnecting has run, so transfer_time, close_sent_time and
        time_before_handshake exist on the session. */
    var connected: bool
    var transferTime: int
    var closeSentTime: int
    var timeBeforeHandshake: int
    var timeOnOpen: int
    var listeningCounter: int
    /** Every frame handed to sendMessage or sendClose, in order. */
    var sent: seq<Frame>

    /** A session before any callback: uuid is None (the class default). */
    constructor (factory: Factory)
      ensures this.factory == factory && uuid == None && !connected && sent == []
    {
      this.factory := factory;
      uuid := None;
      connected := false;
      transferTime := 0;
      closeSentTime := 0;
      timeBeforeHandshake := 0;
      timeOnOpen := 0;
      listeningCounter := 0;
      sent := [];
    }

    /** Until it closes, a session has a uuid exactly when onConnecting has
        run, and its record is in the results map. */
    ghost predicate Bound()
      reads this, factory
    {
      (uuid.Some? <==> connected) && (uuid.Some? ==> uuid.value in factory.results)
    }

    /** onConnecting: a fresh uuid, zeroed timers and an all-None record. */
    method OnConnecting(now: int)
      requires factory.Valid()
      modifies this`uuid, this`connected, this`transferTime, this`closeSentTime, this`timeBeforeHandshake
      modifies factory`results, factory`order, factory`nextId
      ensures factory.Valid() && (old(factory.KeysComplete()) ==> factory.KeysComplete()) && Bound()
      ensures uuid == Some(old(factory.nextId)) && uuid.value !in old(factory.results)
      ensures transferTime == 0 && closeSentTime == 0 && timeBeforeHandshake == now
      ensures factory.results == old(factory.results)[uuid.value := ConnectingRecord]
      ensures factory.order == old(factory.order) + [uuid.value]
    {
      var id := factory.Insert(ConnectingRecord);
      uuid := Some(id);
      connected := true;
      transferTime := 0;
      closeSentTime := 0;
      timeBeforeHandshake := now;
    }

    /** onConnect: the transaction id header (or its placeholder) and the
        handshake time since onConnecting. */
    method OnConnect(headers: map<string, string>, now: int)
      requires connected && uuid.Some? && uuid.value in factory.results
      modifies factory`results
      ensures factory.results == old(factory.results)[uuid.value := old(factory.results[uuid.value]).(
                transactionId := Some(if TransactionIdHeader in headers then headers[TransactionIdHeader] else NoTransactionId),
                handshakeTime := Some(now - timeBeforeHandshake))]
      ensures old(factory.Valid()) ==> factory.Valid()
      ensures old(factory.KeysComplete()) ==> factory.KeysComplete()
    {
      var id := uuid.value;
      var tid := if TransactionIdHeader in headers then headers[TransactionIdHeader] else NoTransactionId;
      factory.Update(id, factory.results[id].(transactionId := Some(tid), handshakeTime := Some(now - timeBeforeHandshake)));
    }

    /** onOpen: remember the open time, reset the listening counter and send
        the start message. The streaming task is SendAudioData. */
    method OnOpen(now: int)
      modifies this`timeOnOpen, this`listeningCounter, this`sent
      ensures timeOnOpen == now && listeningCounter == 0 && sent == old(sent) + [Start]
    {
      timeOnOpen := now;
      listeningCounter := 0;
      sent := sent + [Start];
    }

    /** send_audio_data: draw the session's audio file, record it in the
        session's record, and stream it through the pacing loop (Pace).
        `clock` holds the successive clock readings of the pacing loop,
        `sends` the outcome of each sendMessage call; `at` is the reading at
        which each wait passed and `chunksSent` the number of chunks
        delivered. */
    method SendAudioData(source: AudioSource.Generator, files: map<string, seq<Byte>>, clock: seq<int>, sends: seq<SendResult>)
      returns (outcome: PacerOutcome, drawn: Option<string>, at: seq<nat>, chunksSent: nat)
      requires connected && uuid.Some? && uuid.value in factory.results
      modifies this`sent, this`transferTime, factory`results, source
      ensures source.calls == old(source.calls) + 1
      ensures drawn.None? <==> outcome == SourceFailed
      ensures drawn.None? <==> !source.mode.Fixed? && source.mode.entries == []
      ensures drawn.Some? ==> AudioSource.Drawable(source.mode, old(source.calls), drawn.value)
      ensures drawn.None? ==> factory.results == old(factory.results)
      ensures drawn.Some? ==>
                factory.results == old(factory.results)[uuid.value := old(factory.results[uuid.value]).(audioFile := Val(drawn.value))]
      ensures drawn.None? ==> at == [] && chunksSent == 0 && sent == old(sent) && transferTime == old(transferTime)
      ensures drawn.Some? ==>
                && |old(sent)| <= |sent|
                && PacerRun(drawn.value in files, if drawn.value in files then files[drawn.value] else [],
                            factory.chunkSize, factory.byteRate, timeOnOpen, clock, sends,
                            outcome, sent[|old(sent)|..], at, chunksSent, transferTime - old(transferTime))
                && sent == old(sent) + sent[|old(sent)|..]
      ensures old(factory.Valid()) ==> factory.Valid()
      ensures old(factory.KeysComplete()) ==> factory.KeysComplete()
    {
      var r := source.Next();
      if r.Failure? {
        outcome, drawn, at, chunksSent := SourceFailed, None, [], 0;
        return;
      }
      drawn := Some(r.value);
      var id := uuid.value;
      factory.Update(id, factory.results[id].(audioFile := Val(r.value)));
      var found := r.value in files;
      var frames, ticks;
      outcome, frames, at, chunksSent, ticks := Pace(found, if found then files[r.value] else [], factory.chunkSize, factory.byteRate, timeOnOpen, clock, sends);
      sent := sent + frames;
      assert sent[|old(sent)|..] == frames;
      transferTime := transferTime + ticks;
    }

    /** onMessage, as HandleMessage on this session's state and record. */
    method OnMessage(msg: Inbound, now: int)
      requires uuid.Some? && uuid.value in factory.results && 0 <= listeningCounter <= 1
      modifies this`listeningCounter, this`sent, this`closeSentTime, factory`results
      ensures var after := HandleMessage(
                MessageState(old(listeningCounter), old(factory.results[uuid.value]), old(closeSentTime), old(sent)),
                msg, now, timeOnOpen);
              && listeningCounter == after.counter
              && closeSentTime == after.closeSentTime
              && sent == after.sent
              && factory.results == old(factory.results)[uuid.value := after.record]
      ensures 0 <= listeningCounter <= 1
      ensures old(factory.Valid()) ==> factory.Valid()
      ensures old(factory.KeysComplete()) ==> factory.KeysComplete()
    {
      var id := uuid.value;
      if msg.Binary? {
        // binary frames are only logged
      } else if msg.state == Some("listening") {
        if listeningCounter == 0 {
          listeningCounter := listeningCounter + 1;
        } else {
          factory.Update(id, factory.results[id].(timeStt := Val(now - timeOnOpen), recoResults := Some(true)));
          sent := sent + [Close(SuccessfulClose)];
          closeSentTime := now;
        }
      } else if !msg.results.Missing? {
        factory.Update(id, factory.results[id].(transcripts := msg.results));
      }
    }

    /** update_session_stats: one more finished session, and one more close
        error unless the code is the successful close code. */
    method UpdateSessionStats(code: int)
      modifies factory`finishedSessions, factory`finishedSessionsCloseError
      ensures factory.finishedSessions == old(factory.finishedSessions) + 1
      ensures factory.finishedSessionsCloseError
                == old(factory.finishedSessionsCloseError) + (if code != SuccessfulClose then 1 else 0)
      ensures old(factory.Valid()) ==> factory.Valid()
    {
      factory.finishedSessions := factory.finishedSessions + 1;
      if code != SuccessfulClose {
        factory.finishedSessionsCloseError := factory.finishedSessionsCloseError + 1;
      }
    }

    /** onClose, with the synthesised record of a never-connected session
        given every key and without reading the timers onConnecting never
        set, so that the slot is always released. */
    method OnClose(code: int, reason: Option<string>, wallClock: int, now: int)
      requires factory.Valid() && Bound()
      modifies this`uuid, factory`results, factory`order, factory`nextId
      modifies factory`finishedSessions, factory`finishedSessionsCloseError, factory.sem
      ensures factory.Valid() && (old(factory.KeysComplete()) ==> factory.KeysComplete())
      ensures factory.finishedSessions == old(factory.finishedSessions) + 1
      ensures factory.finishedSessionsCloseError
                == old(factory.finishedSessionsCloseError) + (if code != SuccessfulClose then 1 else 0)
      ensures factory.sem.permits == old(factory.sem.permits) + 1
      ensures factory.sem.released == old(factory.sem.released) + 1 && factory.sem.acquired == old(factory.sem.acquired)
      ensures old(uuid).Some? ==> uuid == old(uuid) && factory.order == old(factory.order)
      ensures old(uuid).None? ==> uuid == Some(old(factory.nextId)) && uuid.value !in old(factory.results)
                                  && factory.order == old(factory.order) + [uuid.value]
      ensures uuid.Some? && factory.results == old(factory.results)[uuid.value :=
                ClosedRecord(if old(uuid).Some? then old(factory.results[uuid.value]) else SynthesizedRecord,
                             code, reason, wallClock, now, Timers(connected, transferTime, closeSentTime, timeBeforeHandshake))]
    {
      UpdateSessionStats(code);
      var timers := Timers(connected, transferTime, closeSentTime, timeBeforeHandshake);
      if uuid.None? {
        var id := factory.Insert(ClosedRecord(SynthesizedRecord, code, reason, wallClock, now, timers));
        uuid := Some(id);
      } else {
        var id := uuid.value;
        factory.Update(id, ClosedRecord(factory.results[id], code, reason, wallClock, now, timers));
      }
      factory.sem.Release();
    }

    /** onClose as the client writes it. For a session that never reached
        onConnecting it synthesises a record without an "audio_file" key,
        then reads transfer_time, which only onConnecting assigns: the
        AttributeError (`raised`) ends the callback before sem.release(). */
    method OnCloseAsWritten(code: int, reason: Option<string>, wallClock: int, now: int) returns (raised: bool)
      requires factory.Valid() && Bound()
      modifies this`uuid, factory`results, factory`order, factory`nextId
      modifies factory`finishedSessions, factory`finishedSessionsCloseError, factory.sem
      ensures factory.Valid()
      ensures raised <==> old(uuid).None?
      ensures factory.finishedSessions == old(factory.finishedSessions) + 1
      ensures factory.finishedSessionsCloseError
                == old(factory.finishedSessionsCloseError) + (if code != SuccessfulClose then 1 else 0)
      ensures factory.sem.permits == old(factory.sem.permits) + (if raised then 0 else 1)
      ensures factory.sem.released == old(factory.sem.released) + (if raised then 0 else 1)
      ensures factory.sem.acquired == old(factory.sem.acquired)
      ensures raised ==> uuid == Some(old(factory.nextId)) && factory.order == old(factory.order) + [uuid.value]
      ensures raised ==> uuid.Some? && factory.results == old(factory.results)[uuid.value :=
                SynthesizedRecordAsWritten.(timestamp := Some(wallClock), code := Some(code), reason := reason)]
      ensures !raised ==> uuid == old(uuid) && factory.results == old(factory.results)[uuid.value :=
                ClosedRecord(old(factory.results[uuid.value]), code, reason, wallClock, now, Timers(connected, transferTime, closeSentTime, timeBeforeHandshake))]
    {
      UpdateSessionStats(code);
      var timers := Timers(connected, transferTime, closeSentTime, timeBeforeHandshake);
      // timestamp, code and reason are stored before the transfer_time read
      if uuid.None? {
        var id := factory.Insert(ClosedRecord(SynthesizedRecordAsWritten, code, reason, wallClock, now, timers));
        uuid := Some(id);
      } else {
        var id := uuid.value;
        factory.Update(id, ClosedRecord(factory.results[id], code, reason, wallClock, now, timers));
      }
      raised := !connected;
      if !raised {
        factory.sem.Release();
      }
    }
  }
}

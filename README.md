# Speech-to-text websocket load-test client, modelled in Dafny

The client in `dani.py` opens many websocket sessions against a
speech-to-text service. For each session it:

- draws an audio file from a fixed name or a database list;
- streams the file in `chunk_size` pieces, paced to a target byte rate;
- listens for the server's `listening` and `results` messages, closes
  once the recognition is done, and records timings in one shared
  results dictionary.

A worker loop bounds the number of concurrent sessions with a semaphore,
spaces out the first launches, and at the end takes back every slot.
After the run, the client sorts the records into database order and
prints a summary: recognitions, successful closes, failures grouped by
close code and reason, and a histogram of handshake times in seconds.

The model follows the client's structure.

| file | module | what it holds |
|---|---|---|
| `types.dfy` | `Types` | The per-session record. It distinguishes an absent key, a null value and a value. Also frames, inbound messages and the constants. |
| `chunker.dfy` | `Chunker` | `get_chunk_from_file`. The chunks are a function of the file bytes, and the generator is a loop proved equal to it. |
| `audio_source.dfy` | `AudioSource` | `get_next_audio_file`, as a class that counts its calls. |
| `protocol.dfy` | `Protocol` | The semaphore, the factory's shared state, the pacing loop of `send_audio_data`, and each session callback as a method of `Session`. |
| `admission.dfy` | `Admission` | The `worker` loop. |
| `analysis.dfy` | `Analysis` | `sort_results` and the summary loop of `print_results`. |
| `findings.dfy` | `Findings` | Runs of a session that closes before `onConnecting`, as written and corrected. |

Modelling choices:

- **Time.** Time is integer ticks, with `TicksPerSecond == 1000`. The
  pacing test `bytes_sent < byte_rate * elapsed` becomes
  `bytes_sent * 1000 < byte_rate * elapsed_ticks`.
- **Session ids.** `uuid4()` becomes a counter in the factory. The
  factory's invariant keeps every issued id fresh.
- **Dictionary order.** The insertion order of the results dictionary is
  kept as a sequence of keys beside the map.
- **Clocks and send outcomes.** Clock readings and the outcomes of
  `sendMessage` are parameters: finite traces of observations. A trace
  that runs out ends the task as `Pending`.
- **Pacing schedule.** The pacing loop reports the index of the clock
  reading at which each of its waits passed. Its contract (`PacerRun`)
  relates those indices to the clock trace itself.
- **Slot events.** The worker reports a trace of slot events: it takes a
  slot, gives one back, or leaves one to a session it launched, and a
  session closes. The semaphore counts its own acquisitions and
  releases, and the worker's contract ties the trace to those counts.
- **Nondeterministic choices.** The following are nondeterministic, and
  every contract holds for every choice:
  - `random.choice`;
  - whether a connection comes up before its timeout;
  - which in-flight sessions close while the worker waits.

## Model

| member | source | states |
|---|---|---|
| Chunker.ChunkSizes | dani.py:65-71 | For a chunk size the reader accepts (at least -1), every chunk read before the first empty read is non-empty and, for a positive chunk size, at most `chunk_size` bytes. A zero chunk size yields no chunk. |
| Chunker.Stream | dani.py:65-72 | For a chunk size the reader accepts, the generator yields the chunks in order, then `None` exactly once, as its last item. |
| Chunker.ChunksConcat | dani.py:65-71 | Joining the chunks gives back the whole file, for a positive chunk size and for -1 (every size the reader accepts except zero). |
| Chunker.ZeroChunkSizeYieldsOnlySentinel | dani.py:67-68 | With `chunk_size == 0`, the first read is empty, so only the sentinel is yielded. |
| Chunker.ChunkFile | dani.py:65-72 | The generator raises at its first read exactly when the chunk size is below -1 (a binary buffered reader rejects it with ValueError), and then yields nothing. Otherwise the read loop yields exactly `Stream(data, n)`. |
| AudioSource.Generator.constructor | dani.py:250-262 | A non-empty audio file name selects the fixed source. Otherwise the database lines are used, shuffled or cyclic. |
| AudioSource.Generator.Next | dani.py:250-262 | The fixed source always returns its file. The k-th cyclic draw is `entries[k mod n]`. A random draw is a database line. An empty database makes every draw fail. |
| AudioSource.CyclicRoundReplaysDatabase | dani.py:259-262 | Each round of n consecutive cyclic draws returns the database lines in file order. |
| AudioSource.CyclicWindowCoversDatabase | dani.py:259-262 | Any n consecutive cyclic draws return every database line. |
| Protocol.Semaphore.constructor | dani.py:361 | A semaphore starts with `value` permits and no acquisitions or releases counted. |
| Protocol.Semaphore.Acquire | dani.py:408 | Taking a slot needs a free permit and uses one. It counts one more acquisition. |
| Protocol.Semaphore.Release | dani.py:162 | Releasing a slot adds one permit. It counts one more release. |
| Protocol.Factory.constructor | dani.py:169-178 | A factory starts with no records and both session counters at zero. It satisfies the key-order and fresh-id invariant. |
| Protocol.Factory.Insert | dani.py:44-48 | A fresh uuid gets a new record, stored at the end of the key order. The invariants are kept. |
| Protocol.Factory.Update | dani.py:59-62 | Storing into an existing record changes only that key. It keeps the invariants and, when the stored record has "audio_file", key completeness. |
| Protocol.Session.constructor | dani.py:166-167 | A new session has no uuid until `onConnecting`. |
| Protocol.Session.OnConnecting | dani.py:39-51 | Gives the session a fresh id and zeroes its timers. Inserts an all-None record, with "audio_file" None and no "time_stt" key, at the end of the key order. |
| Protocol.Session.OnConnect | dani.py:53-62 | Sets "transaction_id" to the response header when there is one, and to "no-transaction-id-available" otherwise. Sets "handshake_time" to the time since `onConnecting`. Nothing else changes. |
| Protocol.Session.OnOpen | dani.py:106-114 | Stamps the open time, resets the listening counter and sends the start message. |
| Protocol.AwaitSchedule | dani.py:82-86 | Polls the clock from a given reading until the pacing test passes. It returns the first reading that passes, and every earlier reading fails the test. If none passes, it has read the whole clock. |
| Protocol.ScheduleExtend | dani.py:82-86 | A wait that passes at the first passing reading after the previous pass extends the schedule of passes. |
| Protocol.ScheduleIncreases | dani.py:81-86 | The clock readings at which successive waits pass strictly increase. |
| Protocol.AheadByLessThanAChunk | dani.py:84-101 | Right after the chunk let through by wait j goes out, `(j+1) * chunk_size` bytes are sent, which is less than `byte_rate * elapsed + chunk_size` at the reading where the wait passed. |
| Protocol.PacerExit | dani.py:88-103 | From the state the pacing loop keeps, each way it can end satisfies `PacerRun`: the clock used up in a wait, the sends used up, a raising chunk send, or the stop after the last chunk. |
| Protocol.PaceChunks | dani.py:80-103 | The pacing loop over an opened file whose reads the reader accepts satisfies `PacerRun` (see `Pace`). |
| Protocol.Pace | dani.py:79-103 | `PacerRun` holds. Wait j (before the j-th `next(g)`, with j chunks sent) passes at clock reading `at[j]`. That reading satisfies `j * chunk_size < byte_rate * elapsed`. It is the first such reading after the reading where wait j-1 passed, and so every reading in between fails. The loop takes one item per passed wait, and it stops taking them only when the clock runs out in a wait, with every later reading failing. The frames are the file's chunks in order. "stop" follows only after every chunk was sent. A raising chunk send returns from `send_audio_data` without "stop". `transfer_time` sums the delivered sends. A file that does not open, or a chunk size below -1 that the first read rejects, raises at the first `next(g)`, after the first wait: the outcome is `FileError`, with no frame and no "stop". |
| Protocol.Session.SendAudioData | dani.py:73-103 | The draw from the audio source is stored as the record's "audio_file". The frames appended to the session's output, the clock indices at which the waits passed, the chunks sent and the growth of `transfer_time` satisfy `PacerRun`, as in `Pace`. A failing draw sends nothing. |
| Protocol.Session.OnMessage | dani.py:119-139 | The new session state is `HandleMessage` of the old one. The listening counter stays 0 or 1. |
| Protocol.ListeningRule | dani.py:126-139 | Over any run of messages from a fresh counter, the counter ends at 0 or 1. Each "listening" after the first requests one close with code 1000. The record counts as recognised iff at least two "listening" messages arrived; with fewer, "time_stt" and `close_sent_time` stay unchanged. "transcripts" holds the last "results" value. No other key changes. |
| Protocol.Session.UpdateSessionStats | dani.py:141-145 | `finished_sessions` grows by one. `finished_sessions_close_error` grows by one iff the code is not 1000, so it never exceeds `finished_sessions`. |
| Protocol.Session.OnClose | dani.py:147-162 | The corrected `onClose` (see Findings). It updates the counters and stamps the timestamp, code and reason. A session without a uuid first gets a fresh id and a synthesised record with "reco_results" False. A connected session also gets transfer and elapsed times. "close_time" is set only when a close was requested. The slot is always released. The key invariants are kept. It differs from the source only for a session closed before `onConnecting`: there is no AttributeError; the synthesised record also has "audio_file": None and "transcripts": None; and it gets no "transfer_time", "elapsed_time" or "close_time". |
| Protocol.Session.OnCloseAsWritten | dani.py:147-162 | As the client writes it, a session closed before `onConnecting` raises at the `transfer_time` read. Its slot is not released, and its record lacks "audio_file". |
| Admission.InFlightBound | dani.py:361 | Along a trace of slot events in which no count goes negative, at most `concurrent` sessions are ever in flight. |
| Admission.Append | dani.py:408-416 | One more slot event adds one to its own count only. The trace stays sound on every prefix if its new end is sound. |
| Admission.WorkerCounts | dani.py:405-430 | If the worker's own steps are those of its attempts followed by a drain of `d` slots, then it took `|attempts| + d` slots, gave back one per timed-out attempt and launched one session per connected attempt. |
| Admission.Drained | dani.py:428-430 | Once the worker holds every slot, none is free, no session is in flight, and every launched session has closed. |
| Admission.SessionsClose | dani.py:162 | Sessions in flight close and each returns exactly one permit, recorded as a close event. With `someMust`, at least one does. The worker's own steps and holdings do not change. |
| Admission.AcquireSlot | dani.py:408 | Waits while no permit is free, meanwhile letting sessions close. Then it takes one permit: the semaphore counts one more acquisition and the trace one more take. |
| Admission.GiveSlotBack | dani.py:416 | After a timeout, the worker's slot goes back to the semaphore. |
| Admission.LaunchSession | dani.py:411-412 | A connected session keeps the worker's slot. |
| Admission.OneAttempt | dani.py:408-426 | One pass takes a slot, then either gives it back (timeout) or launches a session. Ramp-up happens exactly when the attempt connected, ramp-up is on and the index is below `concurrent`. |
| Admission.AttemptLoop | dani.py:406-427 | Exactly `total` attempts, in order, with the ramp-up rule for each. |
| Admission.Drain | dani.py:428-430 | Takes `concurrent` more slots, so the worker ends holding all of them. |
| Admission.Worker | dani.py:405-430 | The semaphore's own counters show `total + concurrent` acquisitions, one per attempt plus the drain. Its releases equal one per timed-out attempt plus one per launched session. The worker's steps are, per attempt, a take followed by a launch or a give-back, then `concurrent` takes. No count of slots goes negative on any prefix, so at most `concurrent` sessions are in flight (`InFlightBound`). Ramp-up follows exactly the attempts that connected with index below `concurrent`. The run ends with no free permit and no session in flight. |
| Analysis.AudioIndex | dani.py:275-277 | Every record's audio file has an entry in the audio-to-id map, and every entry points at a record of the run. |
| Analysis.AudioIndexSound | dani.py:275-277 | The entry for an audio file points at a record that names that file. |
| Analysis.AudioIndexLastWins | dani.py:275-277 | When several records name one audio file, the map keeps the last of them in insertion order. |
| Analysis.SortResults | dani.py:265-286 | Fails (KeyError) iff some record lacks "audio_file", naming the first such record. Otherwise the result is the record picked for each database line, in database order. |
| Analysis.Kept | dani.py:281-284 | The lines that contribute a record are database lines that have an entry in the map. There are at most as many as database lines. |
| Analysis.PickFollowsDatabase | dani.py:280-286 | The k-th sorted record's "audio_file" is the k-th database line that has a record. So the output is no longer than the database and follows its order. |
| Analysis.PickFromResults | dani.py:285 | Every sorted record is a record of the run. |
| Analysis.SortedKeepsEveryListedRecord | dani.py:265-286 | When no two records name the same file, every record whose file is a database line appears in the sorted output. |
| Analysis.Histogram | dani.py:200 | The histogram has 100 buckets. |
| Analysis.Summarize | dani.py:196-217 | Fails at the first record that makes the loop raise, and only at one. Otherwise it returns the recognition count, successful-close count, failure groups, histogram and total "time_stt" of the records. |
| Analysis.ClosesAddUp | dani.py:206-217 | The successful closes plus the sum of all failure-group counts equal the number of records. |
| Analysis.HistogramAddsUp | dani.py:206-209 | The histogram counts sum to the number of successful closes. |
| Analysis.HistogramCountsSlots | dani.py:206-209 | Bucket b counts exactly the successful closes whose `Slot` is b: the floor of the handshake time in seconds, where a floor from -100 to -1 wraps to the end of the list (so bucket b also counts floors of b-100). |
| Analysis.SlotIsWholeSeconds | dani.py:208-209 | A handshake time in [0, 100) seconds lands in the bucket of its whole seconds, `[b, b+1)`. |
| Findings.EarlyCloseRun | dani.py:147-162 | A one-slot run whose only session gets `onClose` before `onConnecting`. As written, no permit is left and the record has no "audio_file" key. Corrected, the permit comes back and every record has the key. |
| Findings.LostSlotAsWritten | dani.py:150-162 | As written, the early close leaves the slot taken. |
| Findings.LostSlotCorrected | dani.py:150-162 | Corrected, the early close gives the slot back. |
| Findings.SortAfterEarlyCloseAsWritten | dani.py:152-154 | As written, sorting a run with an early close fails on the missing "audio_file" key. |
| Findings.SortAfterEarlyClose | dani.py:152-154 | Corrected, sorting such a run succeeds. |

Some behaviours of the code differ from what its names, comments and help
text suggest. The model follows the code as written:

- **Ramp-up.** The delay applies after each attempt that connects while
  its attempt index `i` is below `concurrent` (dani.py:422). This is not
  "the first `concurrent` successful launches": an early timeout uses up
  one of those indices. The comment and help text at dani.py:340-345
  speak of a wait after each of the first `concurrent` requests.
- **Timed-out attempts.** A timed-out attempt leaves no record
  (dani.py:413-421). The results map can therefore hold fewer than
  `total` records.
- **Sorting.** Sorting keeps only the last record per audio file
  (dani.py:277). A database line that appears twice contributes its
  record twice. The sorted list equals the set of records only when audio
  files are distinct, as `SortedKeepsEveryListedRecord` states.
- **Transcripts.** Each "results" message overwrites "transcripts"
  (dani.py:137); results are not accumulated. The record keeps the last
  "results" payload, as `ListeningRule` states.
- **Error count.** The summary prints errors as `total - successful_close`
  using the configured `total` (dani.py:221), not the number of failed
  records.

## Left out

- Autobahn transport, `loop.create_connection` and `asyncio.wait_for` are
  left out. Connecting is a nondeterministic boolean, and session closes
  are nondeterministic releases of permits.
- `asyncio.Semaphore` is reduced to its permit count. Fair waking order
  is not modelled.
- Interleaving inside one session is not modelled. The pacing task of
  `send_audio_data` runs as one atomic loop over its clock and send
  traces, so a message handled while it sleeps is not interleaved with
  it.
- `json.loads` is left out. Inbound text is a datatype with an optional
  "state" and a "results" member that may be absent, null or a payload.
  Malformed JSON is not modelled.
- `time.perf_counter`, `time.time` and `datetime` floats become integer
  ticks that the caller supplies.
- The wall-clock "timestamp" is an integer parameter.
- Printing, the JSON-lines output file and the final summary lines that
  only print (dani.py:218-230) are left out. So is `progress_updates`,
  which only reads the counters.
- Argument parsing, YAML profiles, URL and header assembly,
  authentication and TLS set-up (dani.py:292-402) are left out.
- Reading the database file becomes its list of lines.
- `sort_results` with an empty database file name leaves
  `database_entries` as None and raises. This is not modelled. The
  caller passes any name that is not None (dani.py:439), so `-d ""`
  reaches this path.
- The unsorted path at dani.py:439 (no database) is a plain list of the
  values in insertion order and is not modelled separately.
- Admission.Worker: the drain ends only because `AcquireSlot` assumes
  that, while the worker waits on an empty semaphore, some session in
  flight closes and releases its slot, as the corrected `onClose` always
  does. With `onClose` as written (a session closed before
  `onConnecting` keeps its slot) or a session that never closes, the
  drain blocks forever. That run is not modelled.
- A connection attempt that fails other than by timeout (for example
  ConnectionRefusedError from `create_connection`) is not caught by
  dani.py:413, so it ends the worker with an exception. Only success and
  timeout are modelled.
- Admission.Worker: requires `total >= 1` and `concurrent >= 1`. With
  `total <= 0` the source loop never reaches `i == total`, and with a
  zero semaphore the first acquire never returns. Those non-terminating
  runs are outside the model.
- Protocol.Pace: a non-positive byte rate never lets a chunk out. The
  model ends such a run as `Pending` when the clock trace runs out,
  instead of polling forever.
- Protocol.Session.SendAudioData: an exception while opening the audio
  file, or the ValueError of a first read with a chunk size below -1, is
  modelled as the outcome `FileError`. The record keeps the
  drawn "audio_file".

## Findings

| source | as written | input that shows it | evidently intended | confidence | as-written member | corrected member |
|---|---|---|---|---|---|---|
| dani.py:150-162 | When `onClose` runs before `onConnecting`, it reads `self.transfer_time`, which only `onConnecting` assigns. The AttributeError skips `self.sem.release()`. | Any `onClose` delivered before `onConnecting`, the case dani.py:150 and dani.py:167 guard against, with one slot. After `onClose` no permit is left, so the final drain of `concurrent` slots waits forever. Whether the websocket library delivers such a close is not part of this model. | Every closed session releases its slot. | not executed | Findings.LostSlotAsWritten | Findings.LostSlotCorrected |
| dani.py:152-154 | The record synthesised for a session without a uuid has no "audio_file" key, so `sort_results` (dani.py:277) raises KeyError. | The same early close, followed by sorting against any database. As written the run first hangs in the drain (row above, dani.py:428-430), before `sort_results` is reached (dani.py:439); the KeyError shows once the slot is released. | The synthesised record carries "audio_file": None, like the one from `onConnecting`. | not executed | Findings.SortAfterEarlyCloseAsWritten | Findings.SortAfterEarlyClose |

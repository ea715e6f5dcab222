/**
 * Shared vocabulary of the load-test client: the wrappers used for error
 * paths, the per-session record the protocol handler fills in, the frames a
 * session sends and the messages it receives, and the client's constants.
 */
module Types {

  datatype Option<+T> = None | Some(value: T)

  datatype Result<+T, +E> = Success(value: T) | Failure(error: E)

  /** One entry of a record dictionary: the key may be absent, present with
      the value None, or present with a value. */
  datatype Field<+T> = Missing | Null | Val(value: T)

  /** Session identifiers (uuid4 strings in the client), drawn fresh per run. */
  type Id = nat

  type Byte = bv8

  /** WS_SUCCESSFUL_CLOSE: the close code of a session that ended normally. */
  const SuccessfulClose: int := 1000

  /** Clock readings are integer ticks; this many ticks make one second. */
  const TicksPerSecond: int := 1000

  /** The handshake response header that carries the transaction id. */
  const TransactionIdHeader: string := "x-global-transaction-id"

  /** Recorded when the handshake response has no transaction id header. */
  const NoTransactionId: string := "no-transaction-id-available"

  /** One element of the "results" array of a recognition message. */
  datatype Alternative = Alternative(transcript: string)
  datatype RecognitionResult = RecognitionResult(final: bool, alternatives: seq<Alternative>)
  type Payload = seq<RecognitionResult>

  /** The dictionary kept in the shared results map for one session.
      Times are in ticks; `timestamp` is the wall clock at close. */
  datatype Record = Record(
    audioFile: Field<string>,
    timestamp: Option<int>,
    recoResults: Option<bool>,
    code: Option<int>,
    reason: Option<string>,
    transactionId: Option<string>,
    elapsedTime: Option<int>,
    handshakeTime: Option<int>,
    closeTime: Option<int>,
    transferTime: Option<int>,
    transcripts: Field<Payload>,
    timeStt: Field<int>)

  /** The record onConnecting stores: every key None, no "time_stt" key. */
  const ConnectingRecord: Record :=
    Record(Null, None, None, None, None, None, None, None, None, None, Null, Missing)

  /** The record onClose synthesises for a session that never reached
      onConnecting, as the client writes it: "reco_results" is False and the
      "audio_file" and "transcripts" keys are absent. */
  const SynthesizedRecordAsWritten: Record :=
    Record(Missing, None, Some(false), None, None, None, None, None, None, None, Missing, Null)

  /** The same record with every key of ConnectingRecord present, so that the
      post-run analysis can read "audio_file" from every record. */
  const SynthesizedRecord: Record :=
    Record(Null, None, Some(false), None, None, None, None, None, None, None, Null, Null)

  /** What a session hands to the transport. */
  datatype Frame =
    | Start              // {"action":"start","inactivity_timeout":-1}
    | Audio(chunk: seq<Byte>)
    | Stop               // {"action":"stop"}
    | Close(code: int)   // sendClose(code)

  /** A message from the server: a binary frame, or a text frame whose JSON
      object may carry a "state" and a "results" member ("results" may be
      absent, null, or a list). */
  datatype Inbound =
    | Binary(size: nat)
    | Text(state: Option<string>, results: Field<Payload>)

  /** The outcome of one sendMessage call: delivered, taking `duration`
      ticks, or raised because the transport is broken. */
  datatype SendResult = Delivered(duration: nat) | Broken
}

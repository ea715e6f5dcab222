/**
 * Two runs of the client, each delivering onClose to a session before its
 * onConnecting: the case the client's guard on a missing uuid is there
 * for. Whether the websocket library delivers such a close is outside
 * this model. One run goes through onClose as the client writes it, the
 * other through the corrected onClose.
 */
module Findings {
  import opened Types
  import Protocol
  import Analysis

  /** A run with one slot whose only session closes before onConnecting.
      Returns the free permits after the close, and the state the sort
      finds. */
  method EarlyCloseRun(asWritten: bool) returns (permits: int, order: seq<Id>, results: map<Id, Record>)
    ensures asWritten ==> permits == 0 && |order| == 1 && order[0] in results
                          && results[order[0]].audioFile == Missing
    ensures !asWritten ==> permits == 1 && (forall k :: k in order ==> k in results && results[k].audioFile != Missing)
  {
    var sem := new Protocol.Semaphore(1);
    var factory := new Protocol.Factory(sem, 16000, 2000);
    sem.Acquire();
    var session := new Protocol.Session(factory);
    if asWritten {
      var raised := session.OnCloseAsWritten(1006, Some("abnormal closure"), 0, 0);
    } else {
      session.OnClose(1006, Some("abnormal closure"), 0, 0);
    }
    permits, order, results := sem.permits, factory.order, factory.results;
  }

  /** As written, the slot of the early-closed session is never released:
      the worker's final drain, which takes back all `concurrent` slots,
      waits forever. */
  method LostSlotAsWritten() returns (permits: int)
    ensures permits == 0
  {
    var order, results;
    permits, order, results := EarlyCloseRun(true);
  }

  /** Corrected, every session returns its slot, so the drain completes. */
  method LostSlotCorrected() returns (permits: int)
    ensures permits == 1
  {
    var order, results;
    permits, order, results := EarlyCloseRun(false);
  }

  /** As written, the record synthesised for the early-closed session has
      no "audio_file" key, so sorting by a database raises KeyError. */
  method SortAfterEarlyCloseAsWritten(database: seq<string>) returns (r: Result<seq<Record>, Analysis.SortError>)
    ensures r.Failure?
  {
    var permits, order, results := EarlyCloseRun(true);
    r := Analysis.SortResults(order, results, database);
  }

  /** Corrected, the synthesised record names no audio file (None), and the
      sort succeeds. */
  method SortAfterEarlyClose(database: seq<string>) returns (r: Result<seq<Record>, Analysis.SortError>)
    ensures r.Success?
  {
    var permits, order, results := EarlyCloseRun(false);
    r := Analysis.SortResults(order, results, database);
  }
}

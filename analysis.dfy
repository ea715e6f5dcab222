/**
 * The post-run pass of the load-test client: sort_results puts the session
 * records in database-file order, and the summary part of print_results
 * counts recognitions and successful closes, groups the other closes by
 * code and reason, and builds the one-second handshake-time histogram.
 */
module Analysis {
  import opened Types

  // ---------------------------------------------------------------------
  // sort_results

  datatype SortError = MissingAudioKey(id: Id)

  /** The key a record gets in audio2id: its "audio_file" value (None for a
      session that never drew a file). */
  function AudioKey(r: Record): Option<string>
    requires r.audioFile != Missing
  {
    if r.audioFile.Val? then Some(r.audioFile.value) else None
  }

  predicate HasAudioKeys(order: seq<Id>, results: map<Id, Record>)
  {
    forall k :: k in order ==> k in results && results[k].audioFile != Missing
  }

  /** No key after position i names the same audio file as order[i]. */
  predicate LastFor(order: seq<Id>, results: map<Id, Record>, i: nat)
    requires HasAudioKeys(order, results) && i < |order|
  {
    forall j :: i < j < |order| ==> AudioKey(results[order[j]]) != AudioKey(results[order[i]])
  }

  /** audio2id as the first loop of sort_results leaves it: keys are visited
      in insertion order, so a later record overwrites an earlier one with
      the same audio file. */
  function AudioIndex(order: seq<Id>, results: map<Id, Record>): (index: map<Option<string>, Id>)
    requires HasAudioKeys(order, results)
    ensures forall k :: k in order ==> AudioKey(results[k]) in index
    ensures forall a :: a in index ==> index[a] in results
  {
    if order == [] then map[]
    else
      var init := order[..|order| - 1];
      var last := order[|order| - 1];
      assert forall k :: k in init ==> k in order;
      assert forall k :: k in order && k != last ==> k in init;
      AudioIndex(init, results)[AudioKey(results[last]) := last]
  }

  lemma PrefixHasAudioKeys(order: seq<Id>, results: map<Id, Record>, n: nat)
    requires HasAudioKeys(order, results) && n <= |order|
    ensures HasAudioKeys(order[..n], results)
  {
    assert forall k :: k in order[..n] ==> k in order;
  }

  /** Every entry of audio2id points to a record that names that audio
      file. */
  lemma {:induction false} AudioIndexSound(order: seq<Id>, results: map<Id, Record>)
    requires HasAudioKeys(order, results)
    ensures forall a :: a in AudioIndex(order, results) ==>
              AudioIndex(order, results)[a] in order && AudioKey(results[AudioIndex(order, results)[a]]) == a
  {
    if order != [] {
      PrefixHasAudioKeys(order, results, |order| - 1);
      AudioIndexSound(order[..|order| - 1], results);
      assert forall k :: k in order[..|order| - 1] ==> k in order;
    }
  }

  /** The last record to name an audio file is the one audio2id keeps. */
  lemma {:induction false} AudioIndexLastWins(order: seq<Id>, results: map<Id, Record>, i: nat)
    requires HasAudioKeys(order, results) && i < |order| && LastFor(order, results, i)
    ensures AudioIndex(order, results)[AudioKey(results[order[i]])] == order[i]
  {
    if i < |order| - 1 {
      var init := order[..|order| - 1];
      PrefixHasAudioKeys(order, results, |order| - 1);
      assert LastFor(init, results, i) by {
        forall j | i < j < |init|
          ensures AudioKey(results[init[j]]) != AudioKey(results[init[i]])
        {
          assert init[j] == order[j] && init[i] == order[i];
        }
      }
      AudioIndexLastWins(init, results, i);
      assert AudioKey(results[order[|order| - 1]]) != AudioKey(results[order[i]]);
    }
  }

  /** The database lines that name a record, in database order. */
  function Kept(database: seq<string>, index: map<Option<string>, Id>): (kept: seq<string>)
    ensures |kept| <= |database|
    ensures forall e :: e in kept ==> e in database && Some(e) in index
  {
    if database == [] then []
    else
      var e := database[|database| - 1];
      Kept(database[..|database| - 1], index) + (if Some(e) in index then [e] else [])
  }

  /** The list the second loop of sort_results builds: for each database
      line with an entry in audio2id, the record it names. */
  function Pick(database: seq<string>, index: map<Option<string>, Id>, results: map<Id, Record>): seq<Record>
    requires forall a :: a in index ==> index[a] in results
  {
    if database == [] then []
    else
      var e := database[|database| - 1];
      Pick(database[..|database| - 1], index, results) + (if Some(e) in index then [results[index[Some(e)]]] else [])
  }

  /** sort_results. Reading "audio_file" from a record that lacks the key
      raises KeyError at the first such record in insertion order. */
  method SortResults(order: seq<Id>, results: map<Id, Record>, database: seq<string>)
    returns (r: Result<seq<Record>, SortError>)
    requires forall k :: k in order ==> k in results
    ensures r.Failure? <==> exists i :: 0 <= i < |order| && results[order[i]].audioFile == Missing
    ensures r.Failure? ==> exists i :: 0 <= i < |order| && order[i] == r.error.id
                                       && results[order[i]].audioFile == Missing
                                       && HasAudioKeys(order[..i], results)
    ensures r.Success? ==> HasAudioKeys(order, results)
                           && r.value == Pick(database, AudioIndex(order, results), results)
  {
    var audio2id: map<Option<string>, Id> := map[];
    var i := 0;
    while i < |order|
      invariant i <= |order|
      invariant HasAudioKeys(order[..i], results)
      invariant audio2id == AudioIndex(order[..i], results)
    {
      var key := order[i];
      if results[key].audioFile == Missing {
        return Failure(MissingAudioKey(key));
      }
      assert order[..i + 1][..i] == order[..i];
      audio2id := audio2id[AudioKey(results[key]) := key];
      i := i + 1;
    }
    assert order[..i] == order;
    var sorted: seq<Record> := [];
    var j := 0;
    while j < |database|
      invariant j <= |database|
      invariant sorted == Pick(database[..j], audio2id, results)
    {
      var entry := database[j];
      assert database[..j + 1][..j] == database[..j];
      if Some(entry) in audio2id {
        sorted := sorted + [results[audio2id[Some(entry)]]];
      }
      j := j + 1;
    }
    assert database[..j] == database;
    return Success(sorted);
  }

  /** The sorted list follows the database: its k-th record is the one
      named by the k-th database line that has a record, so it is no longer
      than the database and lines without a record are skipped. */
  lemma {:induction false} PickFollowsDatabase(database: seq<string>, index: map<Option<string>, Id>, results: map<Id, Record>)
    requires forall a :: a in index ==> index[a] in results
    requires forall a :: a in index ==> results[index[a]].audioFile != Missing && AudioKey(results[index[a]]) == a
    ensures |Pick(database, index, results)| == |Kept(database, index)| <= |database|
    ensures forall k :: 0 <= k < |Kept(database, index)| ==>
              Pick(database, index, results)[k].audioFile == Val(Kept(database, index)[k])
  {
    if database != [] {
      PickFollowsDatabase(database[..|database| - 1], index, results);
    }
  }

  /** Every record in the sorted list is a record of the run. */
  lemma {:induction false} PickFromResults(database: seq<string>, index: map<Option<string>, Id>, results: map<Id, Record>)
    requires forall a :: a in index ==> index[a] in results
    ensures forall x :: x in Pick(database, index, results) ==> exists a :: a in index && x == results[index[a]]
  {
    if database != [] {
      PickFromResults(database[..|database| - 1], index, results);
    }
  }

  /** When no two records name the same audio file, sorting loses nothing:
      every record whose audio file is a database line is in the output. */
  lemma SortedKeepsEveryListedRecord(order: seq<Id>, results: map<Id, Record>, database: seq<string>, i: nat)
    requires HasAudioKeys(order, results) && i < |order|
    requires forall p, q :: 0 <= p < q < |order| ==> AudioKey(results[order[p]]) != AudioKey(results[order[q]])
    requires results[order[i]].audioFile.Val? && results[order[i]].audioFile.value in database
    ensures results[order[i]] in Pick(database, AudioIndex(order, results), results)
  {
    var index := AudioIndex(order, results);
    AudioIndexSound(order, results);
    AudioIndexLastWins(order, results, i);
    var e := results[order[i]].audioFile.value;
    assert index[Some(e)] == order[i];
    PickContains(database, index, results, e);
  }

  lemma {:induction false} PickContains(database: seq<string>, index: map<Option<string>, Id>, results: map<Id, Record>, e: string)
    requires forall a :: a in index ==> index[a] in results
    requires e in database && Some(e) in index
    ensures results[index[Some(e)]] in Pick(database, index, results)
  {
    var init := database[..|database| - 1];
    if database[|database| - 1] != e {
      assert e in init;
      PickContains(init, index, results, e);
    }
  }

  // ---------------------------------------------------------------------
  // summary of print_results

  /** A failure group: print_results keys it by str(code) + " " + reason;
      str(code) holds no space, so the pair determines the string. */
  datatype FailKey = FailKey(code: Option<int>, reason: string)

  datatype Summary = Summary(
    recognitions: nat,
    successfulClose: nat,
    failed: map<FailKey, nat>,
    histogram: seq<nat>,
    totalTimeStt: int)

  /** What makes the summary loop raise on a record. */
  datatype SummaryFault =
    | TimeSttMissing          // recognised, but no "time_stt" key (KeyError)
    | TimeSttNone             // recognised, "time_stt" is None (TypeError)
    | HandshakeTimeNone       // closed successfully, "handshake_time" is None (TypeError)
    | HandshakeTimeOutOfRange // its floor indexes outside the 100 buckets (IndexError)
    | ReasonNone              // failed, "reason" is None (TypeError)

  datatype SummaryError = SummaryError(index: nat, fault: SummaryFault)

  const Buckets: nat := 100

  predicate Recognized(e: Record)
  {
    e.recoResults == Some(true)
  }

  predicate ClosedOk(e: Record)
  {
    e.code == Some(SuccessfulClose)
  }

  /** The histogram index a handshake time goes to: the floor of its value
      in seconds, where an index from -100 to -1 counts from the end of the
      list. */
  function Slot(handshakeTime: int): int
  {
    var b := handshakeTime / TicksPerSecond;
    if b < 0 then b + Buckets else b
  }

  function Fault(e: Record): Option<SummaryFault>
  {
    if Recognized(e) && !e.timeStt.Val? then
      Some(if e.timeStt.Missing? then TimeSttMissing else TimeSttNone)
    else if ClosedOk(e) then
      if e.handshakeTime.None? then Some(HandshakeTimeNone)
      else if !(0 <= Slot(e.handshakeTime.value) < Buckets) then Some(HandshakeTimeOutOfRange)
      else None
    else if e.reason.None? then Some(ReasonNone)
    else None
  }

  predicate Summarizable(rs: seq<Record>)
  {
    forall i :: 0 <= i < |rs| ==> Fault(rs[i]).None?
  }

  function Recognitions(rs: seq<Record>): nat
  {
    if rs == [] then 0 else Recognitions(rs[..|rs| - 1]) + (if Recognized(rs[|rs| - 1]) then 1 else 0)
  }

  function SuccessfulCloses(rs: seq<Record>): nat
  {
    if rs == [] then 0 else SuccessfulCloses(rs[..|rs| - 1]) + (if ClosedOk(rs[|rs| - 1]) then 1 else 0)
  }

  function TotalTimeStt(rs: seq<Record>): int
    requires Summarizable(rs)
  {
    if rs == [] then 0
    else
      var e := rs[|rs| - 1];
      TotalTimeStt(rs[..|rs| - 1]) + (if Recognized(e) then e.timeStt.value else 0)
  }

  function Key(e: Record): FailKey
    requires e.reason.Some?
  {
    FailKey(e.code, e.reason.value)
  }

  function Failures(rs: seq<Record>): map<FailKey, nat>
    requires Summarizable(rs)
  {
    if rs == [] then map[]
    else
      var e := rs[|rs| - 1];
      var m := Failures(rs[..|rs| - 1]);
      if ClosedOk(e) then m
      else m[Key(e) := if Key(e) in m then m[Key(e)] + 1 else 1]
  }

  function Histogram(rs: seq<Record>): (h: seq<nat>)
    requires Summarizable(rs)
    ensures |h| == Buckets
  {
    if rs == [] then seq(Buckets, _ => 0)
    else
      var e := rs[|rs| - 1];
      var h := Histogram(rs[..|rs| - 1]);
      if ClosedOk(e) then
        var s := Slot(e.handshakeTime.value);
        h[s := h[s] + 1]
      else h
  }

  /** The summary loop of print_results over the records. It stops at the
      first record that makes it raise. */
  method Summarize(rs: seq<Record>) returns (r: Result<Summary, SummaryError>)
    ensures r.Failure? <==> !Summarizable(rs)
    ensures r.Failure? ==> r.error.index < |rs| && Fault(rs[r.error.index]) == Some(r.error.fault)
                           && Summarizable(rs[..r.error.index])
    ensures r.Success? ==>
              Summarizable(rs) &&
              r.value == Summary(Recognitions(rs), SuccessfulCloses(rs), Failures(rs), Histogram(rs), TotalTimeStt(rs))
  {
    var successfulRecognition := 0;
    var successfulClose := 0;
    var failed: map<FailKey, nat> := map[];
    var histo := new nat[Buckets](_ => 0);
    var totalTimeStt := 0;
    var i := 0;
    while i < |rs|
      invariant i <= |rs| && Summarizable(rs[..i])
      invariant successfulRecognition == Recognitions(rs[..i])
      invariant successfulClose == SuccessfulCloses(rs[..i])
      invariant failed == Failures(rs[..i])
      invariant histo.Length == Buckets && histo[..] == Histogram(rs[..i])
      invariant totalTimeStt == TotalTimeStt(rs[..i])
    {
      var entry := rs[i];
      assert rs[..i + 1][..i] == rs[..i];
      if Fault(entry).Some? {
        return Failure(SummaryError(i, Fault(entry).value));
      }
      assert Summarizable(rs[..i + 1]);
      if entry.recoResults == Some(true) {
        successfulRecognition := successfulRecognition + 1;
        totalTimeStt := totalTimeStt + entry.timeStt.value;
      }
      if entry.code == Some(SuccessfulClose) {
        successfulClose := successfulClose + 1;
        var floor := Slot(entry.handshakeTime.value);
        histo[floor] := histo[floor] + 1;
      } else {
        var strError := FailKey(entry.code, entry.reason.value);
        if strError !in failed {
          failed := failed[strError := 1];
        } else {
          failed := failed[strError := failed[strError] + 1];
        }
      }
      i := i + 1;
    }
    assert rs[..i] == rs;
    return Success(Summary(successfulRecognition, successfulClose, failed, histo[..], totalTimeStt));
  }

  // ---------------------------------------------------------------------
  // properties of the summary

  function Sum(s: seq<nat>): nat
  {
    if s == [] then 0 else s[0] + Sum(s[1..])
  }

  ghost function MapSum<K>(m: map<K, nat>): nat
    decreases |m|
  {
    if m == map[] then 0
    else
      var k :| k in m;
      assert |m - {k}| < |m| by { assert (m - {k}).Keys == m.Keys - {k}; }
      m[k] + MapSum(m - {k})
  }

  /** MapSum does not depend on which key it takes apart first. */
  lemma {:induction false} MapSumTakeApart<K>(m: map<K, nat>, k: K)
    requires k in m
    ensures MapSum(m) == m[k] + MapSum(m - {k})
    decreases |m|
  {
    var j :| j in m && MapSum(m) == m[j] + MapSum(m - {j});
    if j != k {
      assert (m - {j}).Keys == m.Keys - {j};
      assert (m - {k}).Keys == m.Keys - {k};
      MapSumTakeApart(m - {j}, k);
      MapSumTakeApart(m - {k}, j);
      assert m - {j} - {k} == m - {k} - {j};
    }
  }

  lemma MapSumBump<K>(m: map<K, nat>, k: K)
    ensures MapSum(m[k := if k in m then m[k] + 1 else 1]) == MapSum(m) + 1
  {
    var m' := m[k := if k in m then m[k] + 1 else 1];
    MapSumTakeApart(m', k);
    assert m' - {k} == m - {k};
    if k in m {
      MapSumTakeApart(m, k);
    } else {
      assert m - {k} == m;
    }
  }

  lemma {:induction false} SumBump(h: seq<nat>, b: nat)
    requires b < |h|
    ensures Sum(h[b := h[b] + 1]) == Sum(h) + 1
  {
    if b == 0 {
      assert h[b := h[b] + 1][1..] == h[1..];
    } else {
      SumBump(h[1..], b - 1);
      assert h[b := h[b] + 1][1..] == h[1..][b - 1 := h[b] + 1];
    }
  }

  lemma ZeroSum(n: nat)
    ensures Sum(seq(n, _ => 0)) == 0
  {
    if n > 0 {
      assert seq(n, _ => 0)[1..] == seq(n - 1, _ => 0);
      ZeroSum(n - 1);
    }
  }

  /** Every record is either a successful close or counted in exactly one
      failure group. */
  lemma {:induction false} ClosesAddUp(rs: seq<Record>)
    requires Summarizable(rs)
    ensures SuccessfulCloses(rs) + MapSum(Failures(rs)) == |rs|
  {
    if rs != [] {
      var init := rs[..|rs| - 1];
      assert Summarizable(init) by {
        forall i | 0 <= i < |init| ensures Fault(init[i]).None? { assert init[i] == rs[i]; }
      }
      ClosesAddUp(init);
      var e := rs[|rs| - 1];
      if !ClosedOk(e) {
        assert Fault(rs[|rs| - 1]).None?;
        MapSumBump(Failures(init), Key(e));
      }
    }
  }

  /** The histogram holds one count per successful close. */
  lemma {:induction false} HistogramAddsUp(rs: seq<Record>)
    requires Summarizable(rs)
    ensures Sum(Histogram(rs)) == SuccessfulCloses(rs)
  {
    if rs == [] {
      ZeroSum(Buckets);
    } else {
      var init := rs[..|rs| - 1];
      assert Summarizable(init) by {
        forall i | 0 <= i < |init| ensures Fault(init[i]).None? { assert init[i] == rs[i]; }
      }
      HistogramAddsUp(init);
      var e := rs[|rs| - 1];
      if ClosedOk(e) {
        assert Fault(rs[|rs| - 1]).None?;
        SumBump(Histogram(init), Slot(e.handshakeTime.value));
      }
    }
  }

  /** Bucket b counts the successful closes whose `Slot` is b: handshake
      times in [b, b+1) seconds, and, through the negative-index wrap, also
      those in [b-100, b-99) seconds. */
  function InSlot(rs: seq<Record>, b: int): nat
  {
    if rs == [] then 0
    else
      var e := rs[|rs| - 1];
      InSlot(rs[..|rs| - 1], b) + (if ClosedOk(e) && e.handshakeTime.Some? && Slot(e.handshakeTime.value) == b then 1 else 0)
  }

  lemma {:induction false} HistogramCountsSlots(rs: seq<Record>, b: nat)
    requires Summarizable(rs) && b < Buckets
    ensures Histogram(rs)[b] == InSlot(rs, b)
  {
    if rs != [] {
      var init := rs[..|rs| - 1];
      assert Summarizable(init) by {
        forall i | 0 <= i < |init| ensures Fault(init[i]).None? { assert init[i] == rs[i]; }
      }
      HistogramCountsSlots(init, b);
      assert Fault(rs[|rs| - 1]).None?;
    }
  }

  /** A handshake time from 0 up to 100 seconds lands in the bucket of its
      whole seconds. */
  lemma SlotIsWholeSeconds(handshakeTime: int)
    requires 0 <= handshakeTime < Buckets * TicksPerSecond
    ensures Slot(handshakeTime) == handshakeTime / TicksPerSecond
    ensures 0 <= Slot(handshakeTime) < Buckets
    ensures Slot(handshakeTime) * TicksPerSecond <= handshakeTime < (Slot(handshakeTime) + 1) * TicksPerSecond
  {
  }
}

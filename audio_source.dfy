/**
 * The audio source shared by all sessions (get_next_audio_file): a
 * generator that yields one fixed file forever, or walks the lines of the
 * database file cyclically, or draws them at random.
 */
module AudioSource {
  import opened Types

  datatype Mode =
    | Fixed(file: string)              // an audio file was given
    | Cyclic(entries: seq<string>)     // database lines, in a cycle
    | Shuffled(entries: seq<string>)   // database lines, random.choice

  /** The branch the generator takes: a non-empty audio file name wins (an
      empty name is false in the client's test), else the database lines. */
  function SelectMode(audio: Option<string>, entries: seq<string>, randomize: bool): Mode
  {
    if audio.Some? && audio.value != "" then Fixed(audio.value)
    else if randomize then Shuffled(entries)
    else Cyclic(entries)
  }

  /** The k-th draw of a cyclic source. */
  function CyclicDraw(entries: seq<string>, k: nat): string
    requires entries != []
  {
    entries[k % |entries|]
  }

  /** Whether the k-th draw of a source may return `file`. */
  predicate Drawable(m: Mode, k: nat, file: string)
  {
    match m
    case Fixed(f) => file == f
    case Cyclic(entries) => entries != [] && file == CyclicDraw(entries, k)
    case Shuffled(entries) => file in entries
  }

  datatype SourceError = EmptyDatabase

  class Generator {
    const mode: Mode
    /** How many times next() has been called on the generator. */
    var calls: nat

    constructor (audio: Option<string>, entries: seq<string>, randomize: bool)
      ensures mode == SelectMode(audio, entries, randomize) && calls == 0
    {
      mode := SelectMode(audio, entries, randomize);
      calls := 0;
    }

    /** next(generator). An empty database makes itertools.cycle stop and
        random.choice raise, so every draw from it fails. */
    method Next() returns (r: Result<string, SourceError>)
      modifies this
      ensures calls == old(calls) + 1
      ensures mode.Fixed? ==> r == Success(mode.file)
      ensures !mode.Fixed? ==> (r.Failure? <==> mode.entries == [])
      ensures mode.Cyclic? && mode.entries != [] ==> r == Success(CyclicDraw(mode.entries, old(calls)))
      ensures mode.Shuffled? && r.Success? ==> r.value in mode.entries
      ensures r.Success? ==> Drawable(mode, old(calls), r.value)
    {
      match mode {
      case Fixed(file) =>
        r := Success(file);
      case Cyclic(entries) =>
        if entries == [] {
          r := Failure(EmptyDatabase);
        } else {
          r := Success(entries[calls % |entries|]);
        }
      case Shuffled(entries) =>
        if entries == [] {
          r := Failure(EmptyDatabase);
        } else {
          assert entries[0] in entries;
          var e :| e in entries;
          r := Success(e);
        }
      }
      calls := calls + 1;
    }
  }

  /** Every round of |entries| consecutive cyclic draws replays the database
      in file order: draws round*n .. round*n + n - 1 are exactly the lines. */
  lemma CyclicRoundReplaysDatabase(entries: seq<string>, round: nat)
    requires entries != []
    ensures seq(|entries|, i requires 0 <= i < |entries| => CyclicDraw(entries, round * |entries| + i)) == entries
  {
    var n := |entries|;
    forall i | 0 <= i < n
      ensures CyclicDraw(entries, round * n + i) == entries[i]
    {
      ModUnique(round * n + i, n, round, i);
    }
  }

  /** Any |entries| consecutive cyclic draws, starting anywhere, return every
      line of the database. */
  lemma CyclicWindowCoversDatabase(entries: seq<string>, start: nat, j: nat)
    requires j < |entries|
    ensures exists t :: start <= t < start + |entries| && CyclicDraw(entries, t) == entries[j]
  {
    var n := |entries|;
    var q, r := start / n, start % n;
    var q' := if r <= j then q else q + 1;
    var t := q' * n + j;
    assert q' * n == q * n + (if r <= j then 0 else n);
    ModUnique(t, n, q', j);
    assert start <= t < start + n && CyclicDraw(entries, t) == entries[j];
  }

  /** Euclidean division has one remainder: x == q*n + r with 0 <= r < n
      makes r the value of x % n. */
  lemma ModUnique(x: int, n: int, q: int, r: int)
    requires n > 0 && 0 <= r < n && x == q * n + r
    ensures x % n == r
  {
    var q', r' := x / n, x % n;
    assert (q - q') * n == r' - r;
    if q > q' {
      AtLeastOnce(q - q', n);
    } else if q < q' {
      AtLeastOnce(q' - q, n);
    }
  }

  lemma AtLeastOnce(a: int, n: int)
    requires a >= 1 && n > 0
    ensures a * n >= n
  {
  }
}

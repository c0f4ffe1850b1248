// The checkpoint file: a version word (1), a count, then each checkpoint as
// GameState::write lays it out.  Loading checks the version, then reads
// `count` records whether or not the file holds that many; records read past
// the end come back as default states.
module SaveFile {
  import opened State
  import opened Pod
  import opened StateCodec

  /** SAVE_FILE_VERSION. */
  const Version: int := 1

  /** The records of `cps`, in order. */
  function AllWords(cps: seq<GameState>): (w: seq<Word>)
    ensures |w| == 27 * |cps|
  {
    if |cps| == 0 then [] else AllWords(cps[..|cps| - 1]) + GameWords(cps[|cps| - 1])
  }

  /** saveCheckpointFile: what the file holds afterwards. */
  function FileWords(cps: seq<GameState>): seq<Word> {
    [Int(Version), Int(|cps|)] + AllWords(cps)
  }

  /** `n` records read one after another by `read`; none for a count of zero
      or less. */
  function TakeRecords(c: Cursor, n: int, read: Cursor -> (GameState, Cursor)): (seq<GameState>, Cursor)
    decreases n, 1
  {
    if n <= 0 then ([], c) else OneMore(c, n, read)
  }

  /** The first `n - 1` records and then one more. */
  function OneMore(c: Cursor, n: int, read: Cursor -> (GameState, Cursor)): (seq<GameState>, Cursor)
    requires n > 0
    decreases n, 0
  {
    var (rs, c1) := TakeRecords(c, n - 1, read);
    var (g, c2) := read(c1);
    (rs + [g], c2)
  }

  /** loadCheckpointFile: the records appended to the checkpoints, each read
      by `read` (GameState(std::istream&), that is TakeGame).  An unreadable
      version reads as 0 and so never matches. */
  function FileRecords(data: seq<Word>, read: Cursor -> (GameState, Cursor)): seq<GameState> {
    var (version, c1) := TakeInt(Cursor(data, 0, false), 0);
    if version != Version then []
    else
      var (count, c2) := TakeInt(c1, 0);
      TakeRecords(c2, count, read).0
  }

  /** What loading gives back for each saved checkpoint. */
  function LoadedAll(cps: seq<GameState>): (r: seq<GameState>)
    ensures |r| == |cps| && forall i :: 0 <= i < |cps| ==> r[i] == Loaded(cps[i])
  {
    seq(|cps|, i requires 0 <= i < |cps| => Loaded(cps[i]))
  }

  /** `read` gives back each of `cps` from where it was written, 27 words
      apart from `c` on. */
  ghost predicate ReadsBack(c: Cursor, cps: seq<GameState>, read: Cursor -> (GameState, Cursor)) {
    forall k :: 0 <= k < |cps| ==>
      read(c.(pos := c.pos + 27 * k)) == (Loaded(cps[k]), c.(pos := c.pos + 27 * (k + 1)))
  }

  /** Records read back one by one are read back as a run. */
  lemma {:induction false} RecordsReadBack(c: Cursor, cps: seq<GameState>, read: Cursor -> (GameState, Cursor))
    requires ReadsBack(c, cps, read)
    ensures TakeRecords(c, |cps|, read) == (LoadedAll(cps), c.(pos := c.pos + 27 * |cps|))
  {
    if |cps| > 0 {
      var n := |cps|;
      var init := cps[..n - 1];
      assert ReadsBack(c, init, read) by {
        forall k | 0 <= k < |init|
          ensures read(c.(pos := c.pos + 27 * k)) == (Loaded(init[k]), c.(pos := c.pos + 27 * (k + 1)))
        {
          assert init[k] == cps[k];
        }
      }
      RecordsReadBack(c, init, read);
      assert read(c.(pos := c.pos + 27 * (n - 1))) == (Loaded(cps[n - 1]), c.(pos := c.pos + 27 * n));
      assert LoadedAll(init) + [Loaded(cps[n - 1])] == LoadedAll(cps);
    }
  }

  /** Reading records where records were written gives them back. */
  lemma RecordsRoundTrip(c: Cursor, cps: seq<GameState>)
    requires !c.failed && WordsAt(c.data, c.pos, AllWords(cps))
    ensures TakeRecords(c, |cps|, TakeGame) == (LoadedAll(cps), c.(pos := c.pos + 27 * |cps|))
  {
    forall k | 0 <= k < |cps|
      ensures TakeGame(c.(pos := c.pos + 27 * k)) == (Loaded(cps[k]), c.(pos := c.pos + 27 * (k + 1)))
    {
      RecordWordsAt(c, cps, k);
      GameRoundTrip(c.(pos := c.pos + 27 * k), cps[k]);
    }
    RecordsReadBack(c, cps, TakeGame);
  }

  /** The `k`th record sits 27 words after the one before it. */
  lemma {:induction false} RecordWordsAt(c: Cursor, cps: seq<GameState>, k: nat)
    requires k < |cps| && WordsAt(c.data, c.pos, AllWords(cps))
    ensures WordsAt(c.data, c.pos + 27 * k, GameWords(cps[k]))
    decreases |cps|
  {
    var n := |cps|;
    WordsAtSplit(c.data, c.pos, AllWords(cps[..n - 1]), GameWords(cps[n - 1]));
    if k < n - 1 {
      RecordWordsAt(c, cps[..n - 1], k);
    }
  }

  /** A saved file loads back every checkpoint, in order. */
  lemma FileRoundTrip(cps: seq<GameState>)
    ensures FileRecords(FileWords(cps), TakeGame) == LoadedAll(cps)
  {
    var c2 := Cursor(FileWords(cps), 2, false);
    FileHeader(cps, TakeGame);
    FileBody(cps);
    RecordsRoundTrip(c2, cps);
  }

  /** The header of a saved file passes the version check and gives the
      count; the records follow it. */
  lemma FileHeader(cps: seq<GameState>, read: Cursor -> (GameState, Cursor))
    ensures FileRecords(FileWords(cps), read) == TakeRecords(Cursor(FileWords(cps), 2, false), |cps|, read).0
  {
    assert FileWords(cps)[0] == Int(Version) && FileWords(cps)[1] == Int(|cps|);
    HeaderRead(FileWords(cps), read, |cps|);
  }

  /** A file that starts with the version and a count reads that many
      records after them. */
  lemma HeaderRead(data: seq<Word>, read: Cursor -> (GameState, Cursor), n: int)
    requires |data| >= 2 && data[0] == Int(Version) && data[1] == Int(n)
    ensures FileRecords(data, read) == TakeRecords(Cursor(data, 2, false), n, read).0
  {
  }

  lemma FileBody(cps: seq<GameState>)
    ensures WordsAt(FileWords(cps), 2, AllWords(cps))
  {
    WordsAtAfter([Int(Version), Int(|cps|)], AllWords(cps));
  }

  /** A file whose first word is not the version loads nothing. */
  lemma WrongVersion(data: seq<Word>)
    requires |data| == 0 || data[0] != Int(Version)
    ensures FileRecords(data, TakeGame) == []
  {
  }

  /** Loading appends exactly `count` records ... */
  lemma {:induction false} RecordsCount(c: Cursor, n: int, read: Cursor -> (GameState, Cursor))
    ensures |TakeRecords(c, n, read).0| == if n <= 0 then 0 else n
    decreases n
  {
    if n > 0 {
      RecordsCount(c, n - 1, read);
    }
  }

  /** ... and once the stream has failed, a reader that then yields the
      default state (as GameState(std::istream&) does, GameFromNothing) gives
      nothing but default states and leaves the stream where it is. */
  lemma {:induction false} RecordsPastEnd(c: Cursor, n: int, read: Cursor -> (GameState, Cursor))
    requires read(c) == (DefaultGame(), c)
    ensures TakeRecords(c, n, read).1 == c
    ensures forall g :: g in TakeRecords(c, n, read).0 ==> g == DefaultGame()
    decreases n
  {
    if n > 0 {
      RecordsPastEnd(c, n - 1, read);
    }
  }

  /** One more record read after a run of them. */
  lemma RecordsStep(c: Cursor, n: nat, read: Cursor -> (GameState, Cursor), rs: seq<GameState>, c1: Cursor,
                    g: GameState, c2: Cursor)
    requires TakeRecords(c, n, read) == (rs, c1) && read(c1) == (g, c2)
    ensures TakeRecords(c, n + 1, read) == (rs + [g], c2)
  {
  }

  /** A loop that stops at `count`, or at once for a count of zero or less,
      has read the whole run. */
  lemma RecordsDone(c: Cursor, i: int, count: int, read: Cursor -> (GameState, Cursor))
    requires 0 <= i && (i == 0 || i <= count) && !(i < count)
    ensures TakeRecords(c, i, read) == TakeRecords(c, count, read)
  {
  }

  /** A failed stream loads only default states. */
  lemma LoadPastEnd(c: Cursor, n: int)
    requires c.failed
    ensures TakeRecords(c, n, TakeGame).1 == c
    ensures forall g :: g in TakeRecords(c, n, TakeGame).0 ==> g == DefaultGame()
  {
    GameFromNothing(c);
    RecordsPastEnd(c, n, TakeGame);
  }

  // ---------------------------------------------------------------------
  // The stream loops.

  lemma AllWordsSnoc(cps: seq<GameState>, i: nat)
    requires i < |cps|
    ensures AllWords(cps[..i + 1]) == AllWords(cps[..i]) + GameWords(cps[i])
  {
    assert cps[..i + 1][..i] == cps[..i];
  }

  lemma AllWordsAfter(prefix: seq<Word>, cps: seq<GameState>, i: nat)
    requires i < |cps|
    ensures prefix + AllWords(cps[..i]) + GameWords(cps[i]) == prefix + AllWords(cps[..i + 1])
  {
    AllWordsSnoc(cps, i);
  }

  /** The loop of saveCheckpointFile: every checkpoint, in order. */
  method WriteGames(out: OutStream, cps: seq<GameState>)
    modifies out
    ensures out.words == old(out.words) + AllWords(cps)
  {
    for i := 0 to |cps|
      invariant out.words == old(out.words) + AllWords(cps[..i])
    {
      WriteGame(out, cps[i]);
      AllWordsAfter(old(out.words), cps, i);
    }
    assert cps[..|cps|] == cps;
  }

  lemma FileWordsAfter(prefix: seq<Word>, cps: seq<GameState>)
    ensures prefix + [Int(Version)] + [Int(|cps|)] + AllWords(cps) == prefix + FileWords(cps)
  {
    Regroup(prefix, Int(Version), Int(|cps|), AllWords(cps));
  }

  lemma Regroup<T>(prefix: seq<T>, a: T, b: T, rest: seq<T>)
    ensures prefix + [a] + [b] + rest == prefix + ([a, b] + rest)
  {
  }

  /** The body of saveCheckpointFile. */
  method WriteCheckpoints(out: OutStream, cps: seq<GameState>)
    modifies out
    ensures out.words == old(out.words) + FileWords(cps)
  {
    out.WriteInt(Version);
    out.WriteInt(|cps|);
    WriteGames(out, cps);
    FileWordsAfter(old(out.words), cps);
  }

  /** The header read by loadCheckpointFile: the version word, then the
      count of records that follow. */
  lemma LoadHeader(data: seq<Word>, read: Cursor -> (GameState, Cursor), version: int, count: int, c2: Cursor)
    requires TakeInt(Cursor(data, 0, false), 0).0 == version == Version
    requires TakeInt(TakeInt(Cursor(data, 0, false), 0).1, 0) == (count, c2)
    ensures FileRecords(data, read) == TakeRecords(c2, count, read).0
  {
  }

  /** The body of loadCheckpointFile, returning the records it appends. */
  method ReadCheckpoints(inp: InStream) returns (records: seq<GameState>)
    requires inp.At() == Cursor(inp.data, 0, false)
    modifies inp
    ensures records == FileRecords(inp.data, TakeGame)
  {
    var version := inp.ReadInt(0);
    if version != Version {
      return [];
    }
    var count := inp.ReadInt(0);
    ghost var start := inp.At();
    records := ReadRecords(inp, count);
    LoadHeader(inp.data, TakeGame, version, count, start);
  }

  /** One pass of the loop in loadCheckpointFile: one more record read and
      appended. */
  method AppendRecord(inp: InStream, records: seq<GameState>, ghost start: Cursor, ghost n: nat)
    returns (more: seq<GameState>)
    requires (records, inp.At()) == TakeRecords(start, n, TakeGame)
    modifies inp
    ensures (more, inp.At()) == TakeRecords(start, n + 1, TakeGame)
  {
    ghost var before := inp.At();
    var g := ReadGame(inp);
    RecordsStep(start, n, TakeGame, records, before, g, inp.At());
    more := records + [g];
  }

  /** The loop of loadCheckpointFile: `count` records read in turn. */
  method ReadRecords(inp: InStream, count: int) returns (records: seq<GameState>)
    modifies inp
    ensures (records, inp.At()) == TakeRecords(old(inp.At()), count, TakeGame)
  {
    ghost var start := inp.At();
    records := [];
    var i := 0;
    while i < count
      invariant 0 <= i && (i == 0 || i <= count)
      invariant (records, inp.At()) == TakeRecords(start, i, TakeGame)
    {
      records := AppendRecord(inp, records, start, i);
      i := i + 1;
    }
    RecordsDone(start, i, count, TakeGame);
  }
}

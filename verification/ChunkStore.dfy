/**
Time chunks and their verdicts: two tables with the same key, written by the
collector, the analyzer and the alert manager, and read twice, once to count the
chunks eligible for a reference build and once to stream them into it.
*/
module ChunkStore {
  import opened Options

  const SECOND := 1_000_000_000

  datatype Key = Key(service: int, indicator: int, second: int)

  datatype Analysis = PendingAnalysis | Baseline | Good | Bad | FailedAnalysis

  datatype Chunk = Chunk(body: seq<int>, generation: int)

  datatype Verdict = Verdict(analysis: Analysis, override: Option<bool>, generation: int)

  datatype Tables = Tables(chunks: map<Key, Chunk>, verdicts: map<Key, Verdict>)

  datatype Write =
    | WriteChunk(key: Key, generation: int, body: seq<int>)
    | WriteVerdict(key: Key, generation: int, good: bool)
    | RecordAnalysis(key: Key, analysis: Analysis)
    | Review(key: Key, accept: bool)

  function KeyAt(service: int, indicator: int, timestamp: int): Key {
    Key(service, indicator, timestamp - timestamp % SECOND)
  }

  /** The verdict upsert of a chunk write: only a newer generation resets it. */
  function ResetVerdict(verdicts: map<Key, Verdict>, k: Key, generation: int): map<Key, Verdict> {
    if k in verdicts && generation <= verdicts[k].generation then verdicts
    else verdicts[k := Verdict(PendingAnalysis, None, generation)]
  }

  function Apply(t: Tables, w: Write): Tables {
    match w
    case WriteChunk(k, generation, body) =>
      if k in t.chunks && t.chunks[k].generation > generation then t
      else Tables(t.chunks[k := Chunk(body, generation)], ResetVerdict(t.verdicts, k, generation))
    case WriteVerdict(k, generation, good) =>
      if k !in t.verdicts || t.verdicts[k].generation != generation then t
      else t.(verdicts := t.verdicts[k := t.verdicts[k].(analysis := if good then Good else Bad)])
    case RecordAnalysis(k, analysis) =>
      // The alert manager's upsert: without a verdict it inserts generation 1, and the
      // foreign key turns it away when there is no chunk either.
      if k in t.verdicts then t.(verdicts := t.verdicts[k := t.verdicts[k].(analysis := analysis)])
      else if k in t.chunks then t.(verdicts := t.verdicts[k := Verdict(analysis, None, 1)])
      else t
    case Review(k, accept) =>
      if k !in t.verdicts then t
      else t.(verdicts := t.verdicts[k := t.verdicts[k].(override := Some(accept))])
  }

  const NO_ROWS := Tables(map[], map[])

  function After(writes: seq<Write>): Tables {
    if writes == [] then NO_ROWS else Apply(After(writes[..|writes| - 1]), writes[|writes| - 1])
  }

  predicate Eligible(v: Verdict) {
    v.analysis == Baseline || v.analysis == Good || (v.analysis == Bad && v.override == Some(true))
  }

  /** The verdict rows that CountEligibleChunks counts. */
  function Counted(t: Tables, service: int, indicator: int, generation: int): set<Key> {
    set k | k in t.verdicts && k.service == service && k.indicator == indicator
            && t.verdicts[k].generation == generation && Eligible(t.verdicts[k])
  }

  /** The chunk rows that ScanGoodChunks streams; its verdict lookup ignores the generation. */
  function Scanned(t: Tables, service: int, indicator: int, generation: int): set<Key> {
    set k | k in t.chunks && k.service == service && k.indicator == indicator
            && t.chunks[k].generation == generation && k in t.verdicts && Eligible(t.verdicts[k])
  }

  ghost predicate Agree(t: Tables) {
    && t.chunks.Keys == t.verdicts.Keys
    && forall k :: k in t.chunks ==> t.chunks[k].generation == t.verdicts[k].generation
  }

  lemma {:induction false} TablesAgree(writes: seq<Write>)
    ensures Agree(After(writes))
  {
    if writes != [] { TablesAgree(writes[..|writes| - 1]); }
  }

  /** After any writes, the count and the scan are about the same chunks. */
  lemma CountMatchesScan(writes: seq<Write>, service: int, indicator: int, generation: int)
    ensures Counted(After(writes), service, indicator, generation) ==
            Scanned(After(writes), service, indicator, generation)
    ensures forall k :: k in Counted(After(writes), service, indicator, generation) <==>
              && k in After(writes).verdicts && k.service == service && k.indicator == indicator
              && var v := After(writes).verdicts[k];
                 v.generation == generation
                 && (v.analysis in {Baseline, Good} || (v.analysis == Bad && v.override == Some(true)))
  {
    TablesAgree(writes);
  }

  lemma {:induction false} GenerationsNeverFall(writes: seq<Write>, later: seq<Write>, k: Key)
    requires k in After(writes).chunks
    ensures k in After(writes + later).chunks
    ensures After(writes).chunks[k].generation <= After(writes + later).chunks[k].generation
  {
    if later == [] {
      assert writes + later == writes;
    } else {
      var n := |later| - 1;
      GenerationsNeverFall(writes, later[..n], k);
      assert (writes + later)[..|writes + later| - 1] == writes + later[..n];
    }
  }

  /** Once a chunk of some generation has been stored, a late write for an older one
      leaves chunk, verdict and review as they are, whatever happened in between. */
  lemma LateWritesChangeNothing(writes: seq<Write>, later: seq<Write>, k: Key, g: int, body: seq<int>, good: bool)
    requires k in After(writes).chunks && g < After(writes).chunks[k].generation
    ensures Apply(After(writes + later), WriteChunk(k, g, body)) == After(writes + later)
    ensures Apply(After(writes + later), WriteVerdict(k, g, good)) == After(writes + later)
  {
    GenerationsNeverFall(writes, later, k);
    TablesAgree(writes + later);
  }

  /** A review names no generation. One of a chunk that has since been replaced acts on the newer chunk:
      accepting it makes that one count, in its own generation, exactly if it has been judged at all. */
  lemma LateReviewActsOnNewerChunk(writes: seq<Write>, later: seq<Write>, k: Key)
    requires k in After(writes).chunks && k in After(writes + later).chunks
    requires After(writes).chunks[k].generation < After(writes + later).chunks[k].generation
    ensures var t, g := After(writes + later), After(writes + later).chunks[k].generation;
            && k in t.verdicts
            && (k in Counted(After(writes + later + [Review(k, true)]), k.service, k.indicator, g) <==>
                  t.verdicts[k].analysis in {Baseline, Good, Bad})
            && (t.verdicts[k].analysis == Bad ==>
                  k !in Counted(After(writes + later + [Review(k, false)]), k.service, k.indicator, g))
  {
    TablesAgree(writes + later);
    forall accept: bool
      ensures After(writes + later + [Review(k, accept)]) == Apply(After(writes + later), Review(k, accept))
    {
      assert (writes + later + [Review(k, accept)])[..|writes + later|] == writes + later;
    }
  }

  // ---------------------------------------------------------------- what a chunk's writes come to

  /** The last write of the chunk that was accepted; one of an older generation is turned away. */
  function Latest(writes: seq<Write>, k: Key): Option<Chunk> {
    if writes == [] then None
    else
      var before, w := Latest(writes[..|writes| - 1], k), writes[|writes| - 1];
      if w.WriteChunk? && w.key == k && (before.None? || before.value.generation <= w.generation)
        then Some(Chunk(w.body, w.generation)) else before
  }

  /** The write stores the chunk anew, in a generation above the stored one. */
  predicate Renews(latest: Option<Chunk>, w: Write, k: Key) {
    w.WriteChunk? && w.key == k && (latest.None? || latest.value.generation < w.generation)
  }

  /** The last judgement since then: the analyzer's for that generation, or the alert manager's for any. */
  function Judgement(writes: seq<Write>, k: Key): Analysis {
    if writes == [] then PendingAnalysis
    else
      var before, w := writes[..|writes| - 1], writes[|writes| - 1];
      var latest := Latest(before, k);
      if Renews(latest, w, k) then PendingAnalysis
      else if latest.None? then PendingAnalysis
      else
        match w
        case WriteVerdict(key, generation, good) =>
          if key == k && generation == latest.value.generation then if good then Good else Bad
          else Judgement(before, k)
        case RecordAnalysis(key, analysis) => if key == k then analysis else Judgement(before, k)
        case _ => Judgement(before, k)
  }

  /** The last review since then. */
  function LastReview(writes: seq<Write>, k: Key): Option<bool> {
    if writes == [] then None
    else
      var before, w := writes[..|writes| - 1], writes[|writes| - 1];
      var latest := Latest(before, k);
      if Renews(latest, w, k) || latest.None? then None
      else if w.Review? && w.key == k then Some(w.accept)
      else LastReview(before, k)
  }

  lemma {:induction false} RowsAreHistory(writes: seq<Write>, k: Key)
    ensures var t, latest := After(writes), Latest(writes, k);
            && (k in t.chunks <==> latest.Some?) && (k in t.verdicts <==> latest.Some?)
            && (latest.Some? ==>
                  && t.chunks[k] == latest.value && t.verdicts[k].generation == latest.value.generation
                  && t.verdicts[k].analysis == Judgement(writes, k) && t.verdicts[k].override == LastReview(writes, k))
  {
    if writes != [] { RowsAreHistory(writes[..|writes| - 1], k); }
  }

  /** After any writes, a chunk is scanned for the generation of its last accepted write, with that write's body:
      judged good or as baseline whatever the reviews say, judged bad exactly if the last review accepted it,
      and not at all while its analysis is pending or has failed. */
  lemma ScannedByHistory(writes: seq<Write>, k: Key, generation: int)
    ensures var latest := Latest(writes, k);
            k in Scanned(After(writes), k.service, k.indicator, generation) <==>
              && latest.Some? && latest.value.generation == generation
              && match Judgement(writes, k)
                 case Baseline => true
                 case Good => true
                 case Bad => LastReview(writes, k) == Some(true)
                 case PendingAnalysis => false
                 case FailedAnalysis => false
    ensures k in Scanned(After(writes), k.service, k.indicator, generation) ==>
              After(writes).chunks[k] == Latest(writes, k).value
  {
    RowsAreHistory(writes, k);
  }

  /** Only chunks of the service and the indicator are scanned or counted. */
  lemma ScansItsOwn(t: Tables, service: int, indicator: int, generation: int)
    ensures forall k :: k in Scanned(t, service, indicator, generation) + Counted(t, service, indicator, generation) ==>
              k.service == service && k.indicator == indicator
  {
  }

  class Store {
    var chunks: map<Key, Chunk>
    var verdicts: map<Key, Verdict>

    ghost function View(): Tables
      reads this
    {
      Tables(chunks, verdicts)
    }

    method WriteChunk(service: int, indicator: int, generation: int, timestamp: int, body: seq<int>)
      modifies this
      ensures var k := KeyAt(service, indicator, timestamp);
              && k.second <= timestamp < k.second + SECOND && k.second % SECOND == 0
              && (forall j :: j != k ==> (j in chunks <==> j in old(chunks)) && (j in verdicts <==> j in old(verdicts)))
              && (forall j :: j in chunks && j != k ==> chunks[j] == old(chunks)[j])
              && (forall j :: j in verdicts && j != k ==> verdicts[j] == old(verdicts)[j])
              && k in chunks
              && if k in old(chunks) && generation < old(chunks)[k].generation
                 then chunks == old(chunks) && verdicts == old(verdicts)
                 else
                   && chunks[k] == Chunk(body, generation) && k in verdicts
                   && verdicts[k] == if k in old(verdicts) && old(verdicts)[k].generation >= generation
                                     then old(verdicts)[k] else Verdict(PendingAnalysis, None, generation)
      ensures View() == Apply(old(View()), Write.WriteChunk(KeyAt(service, indicator, timestamp), generation, body))
    {
      var k := KeyAt(service, indicator, timestamp);
      var written := k !in chunks || chunks[k].generation <= generation;
      if written { chunks := chunks[k := Chunk(body, generation)]; }
      if !written { return; }
      if k !in verdicts || verdicts[k].generation < generation {
        verdicts := verdicts[k := Verdict(PendingAnalysis, None, generation)];
      }
    }

    method WriteVerdict(service: int, indicator: int, generation: int, timestamp: int, good: bool)
      modifies this
      ensures chunks == old(chunks) && verdicts.Keys == old(verdicts).Keys
      ensures var k := KeyAt(service, indicator, timestamp);
              && (forall j :: j in verdicts && j != k ==> verdicts[j] == old(verdicts)[j])
              && (k in verdicts ==>
                    var before := old(verdicts)[k];
                    && verdicts[k].generation == before.generation && verdicts[k].override == before.override
                    && verdicts[k].analysis == if before.generation != generation then before.analysis
                                               else if good then Good else Bad)
      ensures View() == Apply(old(View()), Write.WriteVerdict(KeyAt(service, indicator, timestamp), generation, good))
    {
      var k := KeyAt(service, indicator, timestamp);
      if k in verdicts && verdicts[k].generation == generation {
        verdicts := verdicts[k := verdicts[k].(analysis := if good then Good else Bad)];
      }
    }
  }
}

/**
 * Playback URLs through the stream proxy: collect them, ask the proxy in chunks, and put each
 * answer back where its URL came from. A failing chunk gives all URLs back unchanged.
 */
module StreamProxy {
  import opened Wrappers
  import Decimal

  const CHUNK_SIZE: nat := 50

  /** `other` stands for the fields that are passed on. */
  datatype Stream = Stream(url: Option<string>, other: string)

  datatype Video = Video(streams: Option<seq<Stream>>, other: string)

  datatype Meta = Meta(videos: Option<seq<Video>>, other: string)

  datatype Source = Source(url: string, filename: string)

  /**
   * `proxiable` accepts http and https URLs; `filename` is read off a URL; `resolve` follows the
   * redirects of the URL at a position; `reply` is the proxy's answer to the chunk of that number,
   * `None` when the request fails. Equal questions may be answered differently.
   */
  datatype Service = Service(
    proxiable: string -> bool, filename: string -> string, resolve: (nat, string) -> string,
    reply: (nat, seq<Source>) -> Option<seq<string>>)

  // Asking in chunks

  function Chunks(sources: seq<Source>): seq<seq<Source>> {
    if |sources| <= CHUNK_SIZE then (if sources == [] then [] else [sources])
    else [sources[..CHUNK_SIZE]] + Chunks(sources[CHUNK_SIZE..])
  }

  /** An answer of another length than the question counts as a failure. */
  function Answer(s: Service, n: nat, chunk: seq<Source>): (answer: Option<seq<string>>)
    ensures answer.Some? ==> |answer.value| == |chunk|
  {
    match s.reply(n, chunk)
    case Some(urls) => if |urls| == |chunk| then Some(urls) else None
    case None => None
  }

  /** All the answers in a row, or nothing when one of them is missing; the chunks are numbered from `n`. */
  function AskAll(s: Service, n: nat, chunks: seq<seq<Source>>): Option<seq<string>>
    decreases |chunks|
  {
    if chunks == [] then Some([])
    else match (Answer(s, n, chunks[0]), AskAll(s, n + 1, chunks[1..]))
      case (Some(a), Some(rest)) => Some(a + rest)
      case _ => None
  }

  function Resolved(s: Service, sources: seq<Source>): (r: seq<Source>)
    ensures |r| == |sources|
  {
    seq(|sources|, k requires 0 <= k < |sources| => Source(s.resolve(k, sources[k].url), sources[k].filename))
  }

  function UrlsOf(sources: seq<Source>): (urls: seq<string>)
    ensures |urls| == |sources|
  {
    seq(|sources|, k requires 0 <= k < |sources| => sources[k].url)
  }

  function Fetched(s: Service, sources: seq<Source>): seq<string> {
    match AskAll(s, 0, Chunks(Resolved(s, sources)))
    case Some(answers) => answers
    case None => UrlsOf(sources)
  }

  /** The sources from `50 * n` on, fifty of them or what is left. */
  function ChunkAt(sources: seq<Source>, n: nat): seq<Source>
    requires 50 * n < |sources|
  {
    sources[50 * n..if 50 * n + 50 <= |sources| then 50 * n + 50 else |sources|]
  }

  lemma LaterChunk(sources: seq<Source>, n: nat)
    requires n > 0 && 50 * n < |sources|
    ensures ChunkAt(sources, n) == ChunkAt(sources[50..], n - 1)
  {
    var m := 50 * n;
    var end := if m + 50 <= |sources| then m + 50 else |sources|;
    assert sources[m..end] == sources[50..][m - 50..end - 50];
  }

  lemma {:induction false} ChunksAre(sources: seq<Source>, n: nat)
    ensures n < |Chunks(sources)| <==> 50 * n < |sources|
    ensures 50 * n < |sources| ==> Chunks(sources)[n] == ChunkAt(sources, n)
    decreases |sources|
  {
    if |sources| <= CHUNK_SIZE {
      if |sources| > 0 && n == 0 {
        assert sources[0..|sources|] == sources;
      }
    } else if n > 0 {
      hide ChunkAt;
      ChunksAre(sources[CHUNK_SIZE..], n - 1);
      if 50 * n < |sources| {
        LaterChunk(sources, n);
      }
    } else {
      assert sources[0..50] == sources[..50];
    }
  }

  ghost predicate AllAnswered(s: Service, n: nat, chunks: seq<seq<Source>>) {
    forall i :: 0 <= i < |chunks| ==> Answer(s, n + i, chunks[i]).Some?
  }

  lemma {:induction false} AskAllIff(s: Service, n: nat, chunks: seq<seq<Source>>)
    ensures AskAll(s, n, chunks).Some? <==> AllAnswered(s, n, chunks)
    decreases |chunks|
  {
    if chunks == [] {
    } else {
      AskAllIff(s, n + 1, chunks[1..]);
      assert forall i :: 0 < i < |chunks| ==> chunks[i] == chunks[1..][i - 1];
      assert forall i :: 0 <= i < |chunks| - 1 ==> chunks[1..][i] == chunks[i + 1] && n + 1 + i == n + (i + 1);
    }
  }

  /** The proxy's word on source `k`: entry `k % 50` of its answer to chunk `k / 50`. */
  ghost predicate IsAnswerTo(s: Service, n: nat, sources: seq<Source>, k: nat, url: string)
    requires k < |sources|
  {
    && k / CHUNK_SIZE < |Chunks(sources)|
    && var answer := Answer(s, n + k / CHUNK_SIZE, Chunks(sources)[k / CHUNK_SIZE]);
       answer.Some? && k % CHUNK_SIZE < |answer.value| && url == answer.value[k % CHUNK_SIZE]
  }

  ghost predicate InPlace(s: Service, n: nat, sources: seq<Source>, answers: seq<string>) {
    |answers| == |sources| && forall k :: 0 <= k < |sources| ==> IsAnswerTo(s, n, sources, k, answers[k])
  }

  /** Chunking, asking and flattening answers every source in its place, or nothing when a chunk fails. */
  lemma {:induction false} AskAllOrNothing(s: Service, n: nat, sources: seq<Source>)
    ensures var answers := AskAll(s, n, Chunks(sources));
            && (answers.Some? <==> AllAnswered(s, n, Chunks(sources)))
            && (answers.Some? ==> InPlace(s, n, sources, answers.value))
    decreases |sources|
  {
    AskAllIff(s, n, Chunks(sources));
    if sources == [] {
    } else if |sources| <= CHUNK_SIZE {
      AskOne(s, n, sources);
    } else {
      hide AllAnswered, InPlace, Chunks, AskAll;
      AskAllOrNothing(s, n + 1, sources[CHUNK_SIZE..]);
      AskMore(s, n, sources);
    }
  }

  lemma AskOne(s: Service, n: nat, sources: seq<Source>)
    requires 0 < |sources| <= CHUNK_SIZE
    ensures Chunks(sources) == [sources] && AskAll(s, n, [sources]) == Answer(s, n, sources)
    ensures Answer(s, n, sources).Some? ==> InPlace(s, n, sources, Answer(s, n, sources).value)
  {
    assert [sources][1..] == [];
    assert AskAll(s, n + 1, []) == Some([]);
    if Answer(s, n, sources).Some? {
      assert Answer(s, n, sources).value + [] == Answer(s, n, sources).value;
      assert forall k :: 0 <= k < |sources| ==> k / CHUNK_SIZE == 0 && k % CHUNK_SIZE == k;
    }
  }

  lemma AskMore(s: Service, n: nat, sources: seq<Source>)
    requires |sources| > CHUNK_SIZE
    requires var rest := AskAll(s, n + 1, Chunks(sources[CHUNK_SIZE..]));
             rest.Some? ==> InPlace(s, n + 1, sources[CHUNK_SIZE..], rest.value)
    ensures var answers := AskAll(s, n, Chunks(sources)); answers.Some? ==> InPlace(s, n, sources, answers.value)
  {
    hide Answer, IsAnswerTo;
    var first, rest := sources[..CHUNK_SIZE], sources[CHUNK_SIZE..];
    ChunkedOff(sources);
    var answers := AskAll(s, n, Chunks(sources));
    if answers.Some? {
      var own, others := Answer(s, n, first).value, AskAll(s, n + 1, Chunks(rest)).value;
      assert answers.value == own + others;
      forall k | 0 <= k < |sources|
        ensures IsAnswerTo(s, n, sources, k, answers.value[k])
      {
        if k < CHUNK_SIZE {
          FirstInPlace(s, n, sources, k);
        } else {
          assert IsAnswerTo(s, n + 1, rest, k - CHUNK_SIZE, others[k - CHUNK_SIZE]);
          RestInPlace(s, n, sources, k, answers.value[k]);
        }
      }
    }
  }

  lemma ChunkedOff(sources: seq<Source>)
    requires |sources| > CHUNK_SIZE
    ensures Chunks(sources) != [] && Chunks(sources)[0] == sources[..CHUNK_SIZE]
    ensures Chunks(sources)[1..] == Chunks(sources[CHUNK_SIZE..])
  {
  }

  lemma FirstInPlace(s: Service, n: nat, sources: seq<Source>, k: nat)
    requires k < CHUNK_SIZE < |sources| && Answer(s, n, sources[..CHUNK_SIZE]).Some?
    ensures |Answer(s, n, sources[..CHUNK_SIZE]).value| == CHUNK_SIZE
    ensures IsAnswerTo(s, n, sources, k, Answer(s, n, sources[..CHUNK_SIZE]).value[k])
  {
    ChunkedOff(sources);
    assert k / CHUNK_SIZE == 0 && k % CHUNK_SIZE == k;
  }

  lemma RestInPlace(s: Service, n: nat, sources: seq<Source>, k: nat, url: string)
    requires CHUNK_SIZE < |sources| && CHUNK_SIZE <= k < |sources|
    requires IsAnswerTo(s, n + 1, sources[CHUNK_SIZE..], k - CHUNK_SIZE, url)
    ensures IsAnswerTo(s, n, sources, k, url)
  {
    hide Chunks, Answer;
    ChunkedOff(sources);
    assert (k - CHUNK_SIZE) / CHUNK_SIZE == k / CHUNK_SIZE - 1 && (k - CHUNK_SIZE) % CHUNK_SIZE == k % CHUNK_SIZE;
    assert Chunks(sources)[k / CHUNK_SIZE] == Chunks(sources)[1..][k / CHUNK_SIZE - 1];
  }

  /** The proxy's reply to chunk `n` has an entry for each of its sources. */
  ghost predicate RepliedTo(s: Service, asked: seq<Source>, n: nat)
    requires 50 * n < |asked|
  {
    s.reply(n, ChunkAt(asked, n)).Some? && |s.reply(n, ChunkAt(asked, n)).value| == |ChunkAt(asked, n)|
  }

  ghost predicate RepliedToAll(s: Service, asked: seq<Source>) {
    forall n: nat | 50 * n < |asked| :: RepliedTo(s, asked, n)
  }

  lemma AllAnsweredIff(s: Service, asked: seq<Source>)
    ensures AllAnswered(s, 0, Chunks(asked)) <==> RepliedToAll(s, asked)
  {
    hide Chunks, ChunkAt;
    forall n: nat
      ensures n < |Chunks(asked)| <==> 50 * n < |asked|
      ensures 50 * n < |asked| ==> (Answer(s, 0 + n, Chunks(asked)[n]).Some? <==> RepliedTo(s, asked, n))
    {
      ChunksAre(asked, n);
    }
  }

  lemma AnswerIsInReply(s: Service, asked: seq<Source>, k: nat, url: string)
    requires k < |asked| && IsAnswerTo(s, 0, asked, k, url) && RepliedTo(s, asked, k / 50)
    ensures url == s.reply(k / 50, ChunkAt(asked, k / 50)).value[k % 50]
  {
    ChunksAre(asked, k / 50);
  }

  /** One URL for each source, in place: the proxy's answer to it, or after any failure its own. */
  lemma FetchedInPlace(s: Service, sources: seq<Source>)
    ensures |Fetched(s, sources)| == |sources|
    ensures var asked := Resolved(s, sources);
            forall k :: 0 <= k < |sources| ==>
              if RepliedToAll(s, asked) then
                && RepliedTo(s, asked, k / 50)
                && Fetched(s, sources)[k] == s.reply(k / 50, ChunkAt(asked, k / 50)).value[k % 50]
              else Fetched(s, sources)[k] == sources[k].url
  {
    hide IsAnswerTo, AllAnswered, AskAll, Chunks, Answer;
    var asked := Resolved(s, sources);
    AskAllOrNothing(s, 0, asked);
    AllAnsweredIff(s, asked);
    if RepliedToAll(s, asked) {
      forall k | 0 <= k < |sources|
        ensures RepliedTo(s, asked, k / 50)
        ensures Fetched(s, sources)[k] == s.reply(k / 50, ChunkAt(asked, k / 50)).value[k % 50]
      {
        AnswerIsInReply(s, asked, k, Fetched(s, sources)[k]);
      }
    }
  }

  // One list of streams

  predicate Proxiable(s: Service, x: Stream) {
    x.url.Some? && x.url.value != "" && s.proxiable(x.url.value)
  }

  /** An empty answer leaves the stream as it is. */
  function WithUrl(x: Stream, url: string): Stream {
    if url == "" then x else x.(url := Some(url))
  }

  /** A map filled from a list of keys and a list of answers. */
  function ByKey<K>(keys: seq<K>, answers: seq<string>): map<K, string>
    requires |keys| == |answers|
  {
    if keys == [] then map[]
    else ByKey(keys[..|keys| - 1], answers[..|keys| - 1])[keys[|keys| - 1] := answers[|keys| - 1]]
  }

  lemma {:induction false} ByKeyHolds<K>(keys: seq<K>, answers: seq<string>, k: nat)
    requires |keys| == |answers| && k < |keys|
    requires forall i, j :: 0 <= i < j < |keys| ==> keys[i] != keys[j]
    ensures keys[k] in ByKey(keys, answers) && ByKey(keys, answers)[keys[k]] == answers[k]
  {
    if k < |keys| - 1 {
      ByKeyHolds(keys[..|keys| - 1], answers[..|keys| - 1], k);
    }
  }

  lemma {:induction false} ByKeyOnly<K>(keys: seq<K>, answers: seq<string>, key: K)
    requires |keys| == |answers| && key !in keys
    ensures key !in ByKey(keys, answers)
  {
    if keys == [] {
    } else {
      ByKeyOnly(keys[..|keys| - 1], answers[..|keys| - 1], key);
    }
  }

  datatype Collected = Collected(video: nat, stream: nat, url: string)

  /** The place comes later in reading order. */
  predicate Before(c: Collected, d: Collected) {
    c.video < d.video || (c.video == d.video && c.stream < d.stream)
  }

  ghost predicate InOrder(cs: seq<Collected>) {
    forall k, l :: 0 <= k < l < |cs| ==> Before(cs[k], cs[l])
  }

  /** The entries collected from the first `n` streams of video `v`. */
  ghost function FromStreams(s: Service, v: nat, xs: seq<Stream>, n: nat): seq<Collected>
    requires n <= |xs|
  {
    if n == 0 then []
    else if Proxiable(s, xs[n - 1]) then FromStreams(s, v, xs, n - 1) + [Collected(v, n - 1, xs[n - 1].url.value)]
    else FromStreams(s, v, xs, n - 1)
  }

  function StreamsOf(video: Video): seq<Stream> {
    video.streams.GetOr([])
  }

  ghost function FromVideos(s: Service, videos: seq<Video>, n: nat): seq<Collected>
    requires n <= |videos|
  {
    if n == 0 then []
    else
      var xs := StreamsOf(videos[n - 1]);
      FromVideos(s, videos, n - 1) + FromStreams(s, n - 1, xs, |xs|)
  }

  lemma {:induction false} StreamsInOrder(s: Service, v: nat, xs: seq<Stream>, n: nat)
    requires n <= |xs|
    ensures InOrder(FromStreams(s, v, xs, n))
    ensures forall k :: 0 <= k < |FromStreams(s, v, xs, n)| ==>
              FromStreams(s, v, xs, n)[k].video == v && FromStreams(s, v, xs, n)[k].stream < n
  {
    if n == 0 {
    } else {
      StreamsInOrder(s, v, xs, n - 1);
    }
  }

  lemma {:induction false} VideosInOrder(s: Service, videos: seq<Video>, n: nat)
    requires n <= |videos|
    ensures InOrder(FromVideos(s, videos, n))
    ensures forall k :: 0 <= k < |FromVideos(s, videos, n)| ==> FromVideos(s, videos, n)[k].video < n
  {
    if n == 0 {
    } else {
      VideosInOrder(s, videos, n - 1);
      StreamsInOrder(s, n - 1, StreamsOf(videos[n - 1]), |StreamsOf(videos[n - 1])|);
    }
  }

  /** Stream `i` is collected, if it is proxiable, after those collected from the streams before it. */
  lemma {:induction false} CollectedAtItsRank(s: Service, v: nat, xs: seq<Stream>, i: nat, n: nat)
    requires i < n <= |xs| && Proxiable(s, xs[i])
    ensures var rank := |FromStreams(s, v, xs, i)|;
            rank < |FromStreams(s, v, xs, n)| && FromStreams(s, v, xs, n)[rank] == Collected(v, i, xs[i].url.value)
  {
    if i == n - 1 {
    } else {
      CollectedAtItsRank(s, v, xs, i, n - 1);
    }
  }

  lemma {:induction false} CollectedAtItsPlace(s: Service, videos: seq<Video>, v: nat, i: nat, n: nat)
    requires v < n <= |videos| && i < |StreamsOf(videos[v])| && Proxiable(s, StreamsOf(videos[v])[i])
    ensures var rank := |FromVideos(s, videos, v)| + |FromStreams(s, v, StreamsOf(videos[v]), i)|;
            rank < |FromVideos(s, videos, n)|
            && FromVideos(s, videos, n)[rank] == Collected(v, i, StreamsOf(videos[v])[i].url.value)
  {
    hide FromStreams;
    if v == n - 1 {
      CollectedAtItsRank(s, v, StreamsOf(videos[v]), i, |StreamsOf(videos[v])|);
    } else {
      CollectedAtItsPlace(s, videos, v, i, n - 1);
    }
  }

  lemma {:induction false} StreamIsCollected(s: Service, v: nat, xs: seq<Stream>, n: nat, c: Collected)
    requires n <= |xs|
    ensures c in FromStreams(s, v, xs, n) <==>
              c.video == v && c.stream < n && xs[c.stream].url == Some(c.url) && c.url != "" && s.proxiable(c.url)
  {
    if n == 0 {
    } else {
      StreamIsCollected(s, v, xs, n - 1, c);
    }
  }

  /** Every proxiable stream is collected under its own place, and nothing else is. */
  lemma {:induction false} VideoIsCollected(s: Service, videos: seq<Video>, n: nat, c: Collected)
    requires n <= |videos|
    ensures c in FromVideos(s, videos, n) <==>
              && c.video < n && c.stream < |StreamsOf(videos[c.video])|
              && StreamsOf(videos[c.video])[c.stream].url == Some(c.url) && c.url != "" && s.proxiable(c.url)
  {
    if n == 0 {
    } else {
      VideoIsCollected(s, videos, n - 1, c);
      StreamIsCollected(s, n - 1, StreamsOf(videos[n - 1]), |StreamsOf(videos[n - 1])|, c);
    }
  }

  method CollectFromStreams(s: Service, xs: seq<Stream>, v: nat) returns (cs: seq<Collected>)
    ensures cs == FromStreams(s, v, xs, |xs|)
  {
    cs := [];
    for i := 0 to |xs|
      invariant cs == FromStreams(s, v, xs, i)
    {
      if !Proxiable(s, xs[i]) {
        continue;
      }
      cs := cs + [Collected(v, i, xs[i].url.value)];
    }
  }

  method CollectFromMeta(s: Service, meta: Meta) returns (cs: seq<Collected>)
    ensures cs == FromVideos(s, meta.videos.GetOr([]), |meta.videos.GetOr([])|)
  {
    cs := [];
    if meta.videos.None? {
      return;
    }
    var videos := meta.videos.value;
    for v := 0 to |videos|
      invariant cs == FromVideos(s, videos, v)
    {
      if videos[v].streams.None? {
        assert FromStreams(s, v, StreamsOf(videos[v]), 0) == [];
        continue;
      }
      var own := CollectFromStreams(s, videos[v].streams.value, v);
      cs := cs + own;
    }
  }

  function Sources(s: Service, cs: seq<Collected>): (sources: seq<Source>)
    ensures |sources| == |cs|
  {
    seq(|cs|, k requires 0 <= k < |cs| => Source(cs[k].url, s.filename(cs[k].url)))
  }

  /** The questions as they are sent, redirects followed. */
  function Asked(s: Service, cs: seq<Collected>): (asked: seq<Source>)
    ensures |asked| == |cs|
  {
    Resolved(s, Sources(s, cs))
  }

  /**
   * What becomes of a stream that is number `k` of those asked about: an http URL is replaced by
   * the proxy's answer to it when every chunk was answered and the answer is not empty.
   */
  ghost predicate BecomesAt(s: Service, asked: seq<Source>, k: nat, before: Stream, after: Stream) {
    if before.url.Some? && before.url.value != "" && s.proxiable(before.url.value) && RepliedToAll(s, asked) then
      && k < |asked| && asked[k] == Source(s.resolve(k, before.url.value), s.filename(before.url.value))
      && RepliedTo(s, asked, k / 50)
      && var url := s.reply(k / 50, ChunkAt(asked, k / 50)).value[k % 50];
         && (url != "" ==> after.url == Some(url) && after.other == before.other)
         && (url == "" ==> after == before)
    else after == before
  }

  lemma BecomesItsAnswer(s: Service, cs: seq<Collected>, k: nat, x: Stream)
    requires k < |cs| && Proxiable(s, x) && cs[k].url == x.url.value
    ensures |Fetched(s, Sources(s, cs))| == |cs|
    ensures BecomesAt(s, Asked(s, cs), k, x, WithUrl(x, Fetched(s, Sources(s, cs))[k]))
  {
    hide Fetched, ChunkAt;
    FetchedInPlace(s, Sources(s, cs));
    if RepliedToAll(s, Asked(s, cs)) {
      assert RepliedTo(s, Asked(s, cs), k / 50);
    }
  }

  // One list of streams

  function Indices(cs: seq<Collected>): seq<nat> {
    seq(|cs|, k requires 0 <= k < |cs| => cs[k].stream)
  }

  function ApplyToStreams(xs: seq<Stream>, byIndex: map<nat, string>): seq<Stream> {
    seq(|xs|, i requires 0 <= i < |xs| => if i in byIndex then WithUrl(xs[i], byIndex[i]) else xs[i])
  }

  lemma StreamGetsItsOwnUrl(s: Service, xs: seq<Stream>, i: nat)
    requires i < |xs|
    ensures var cs := FromStreams(s, 0, xs, |xs|);
            |Fetched(s, Sources(s, cs))| == |cs|
            && BecomesAt(s, Asked(s, cs), |FromStreams(s, 0, xs, i)|, xs[i],
                         ApplyToStreams(xs, ByKey(Indices(cs), Fetched(s, Sources(s, cs))))[i])
  {
    hide ByKey, Fetched, BecomesAt, FromStreams;
    var cs := FromStreams(s, 0, xs, |xs|);
    var answers := Fetched(s, Sources(s, cs));
    FetchedInPlace(s, Sources(s, cs));
    StreamsInOrder(s, 0, xs, |xs|);
    if Proxiable(s, xs[i]) {
      var k := |FromStreams(s, 0, xs, i)|;
      CollectedAtItsRank(s, 0, xs, i, |xs|);
      ByKeyHolds(Indices(cs), answers, k);
      BecomesItsAnswer(s, cs, k, xs[i]);
    } else {
      forall k | 0 <= k < |cs|
        ensures Indices(cs)[k] != i
      {
        StreamIsCollected(s, 0, xs, |xs|, cs[k]);
      }
      ByKeyOnly(Indices(cs), answers, i);
      StaysAsItIs(s, Asked(s, cs), |FromStreams(s, 0, xs, i)|, xs[i]);
    }
  }

  lemma StaysAsItIs(s: Service, asked: seq<Source>, k: nat, x: Stream)
    requires !Proxiable(s, x)
    ensures BecomesAt(s, asked, k, x, x)
  {
  }

  /** Each stream becomes what the proxy answered to its own URL; their number and order stay. */
  method ProxyStreams(s: Service, xs: seq<Stream>) returns (ys: seq<Stream>)
    ensures |ys| == |xs|
    ensures var asked := Asked(s, FromStreams(s, 0, xs, |xs|));
            forall i :: 0 <= i < |xs| ==> BecomesAt(s, asked, |FromStreams(s, 0, xs, i)|, xs[i], ys[i])
  {
    hide Fetched, FromStreams, BecomesAt;
    var cs := CollectFromStreams(s, xs, 0);
    forall i | 0 <= i < |xs|
      ensures |Fetched(s, Sources(s, cs))| == |cs|
      ensures BecomesAt(s, Asked(s, cs), |FromStreams(s, 0, xs, i)|, xs[i],
                        ApplyToStreams(xs, ByKey(Indices(cs), Fetched(s, Sources(s, cs))))[i])
    {
      StreamGetsItsOwnUrl(s, xs, i);
    }
    var answers := Fetched(s, Sources(s, cs));
    FetchedInPlace(s, Sources(s, cs));
    if cs == [] {
      assert Indices(cs) == [] && answers == [];
      assert ApplyToStreams(xs, map[]) == xs;
      return xs;
    }
    var byIndex: map<nat, string> := map[];
    for k := 0 to |cs|
      invariant byIndex == ByKey(Indices(cs)[..k], answers[..k])
    {
      assert Indices(cs)[..k + 1][..k] == Indices(cs)[..k] && answers[..k + 1][..k] == answers[..k];
      byIndex := byIndex[cs[k].stream := answers[k]];
    }
    assert Indices(cs)[..|cs|] == Indices(cs) && answers[..|cs|] == answers;
    ys := ApplyToStreams(xs, byIndex);
  }

  // Streams inside videos

  function Key(video: nat, stream: nat): string {
    Decimal.Print(video) + [':'] + Decimal.Print(stream)
  }

  /** No two places of a meta share a key. */
  lemma KeyInjective(v: nat, i: nat, w: nat, j: nat)
    requires Key(v, i) == Key(w, j)
    ensures v == w && i == j
  {
    Decimal.SplitLastNumeral(Decimal.Print(v), i, Decimal.Print(w), j, ':');
    Decimal.PrintInjective(v, w);
  }

  function MetaKeys(cs: seq<Collected>): seq<string> {
    seq(|cs|, k requires 0 <= k < |cs| => Key(cs[k].video, cs[k].stream))
  }

  function ApplyToVideoStreams(v: nat, xs: seq<Stream>, byKey: map<string, string>): seq<Stream> {
    seq(|xs|, i requires 0 <= i < |xs| => if Key(v, i) in byKey then WithUrl(xs[i], byKey[Key(v, i)]) else xs[i])
  }

  function ApplyToVideo(v: nat, video: Video, byKey: map<string, string>): Video {
    match video.streams
    case Some(xs) => video.(streams := Some(ApplyToVideoStreams(v, xs, byKey)))
    case None => video
  }

  function ApplyToMeta(meta: Meta, byKey: map<string, string>): Meta {
    match meta.videos
    case Some(videos) =>
      meta.(videos := Some(seq(|videos|, v requires 0 <= v < |videos| => ApplyToVideo(v, videos[v], byKey))))
    case None => meta
  }

  lemma KeysDiffer(cs: seq<Collected>)
    requires InOrder(cs)
    ensures forall i, j :: 0 <= i < j < |MetaKeys(cs)| ==> MetaKeys(cs)[i] != MetaKeys(cs)[j]
  {
    forall i, j | 0 <= i < j < |cs|
      ensures MetaKeys(cs)[i] != MetaKeys(cs)[j]
    {
      assert Before(cs[i], cs[j]);
      if MetaKeys(cs)[i] == MetaKeys(cs)[j] {
        KeyInjective(cs[i].video, cs[i].stream, cs[j].video, cs[j].stream);
      }
    }
  }

  /** Where the stream at a place stands among all that are collected. */
  ghost function Rank(s: Service, videos: seq<Video>, v: nat, i: nat): nat
    requires v < |videos| && i < |StreamsOf(videos[v])|
  {
    |FromVideos(s, videos, v)| + |FromStreams(s, v, StreamsOf(videos[v]), i)|
  }

  /** The stream at a place of a meta gets the answer to its own URL. */
  lemma MetaStreamGetsItsOwnUrl(s: Service, videos: seq<Video>, v: nat, i: nat)
    requires v < |videos| && i < |StreamsOf(videos[v])|
    ensures var cs := FromVideos(s, videos, |videos|);
            |Fetched(s, Sources(s, cs))| == |cs|
            && BecomesAt(s, Asked(s, cs), Rank(s, videos, v, i), StreamsOf(videos[v])[i],
                         ApplyToVideoStreams(v, StreamsOf(videos[v]), ByKey(MetaKeys(cs), Fetched(s, Sources(s, cs))))[i])
  {
    hide ByKey, Fetched, FromVideos, FromStreams, Key, BecomesAt;
    var cs := FromVideos(s, videos, |videos|);
    var answers, x := Fetched(s, Sources(s, cs)), StreamsOf(videos[v])[i];
    FetchedInPlace(s, Sources(s, cs));
    VideosInOrder(s, videos, |videos|);
    if Proxiable(s, x) {
      CollectedAtItsPlace(s, videos, v, i, |videos|);
      KeysDiffer(cs);
      ByKeyHolds(MetaKeys(cs), answers, Rank(s, videos, v, i));
      BecomesItsAnswer(s, cs, Rank(s, videos, v, i), x);
    } else {
      forall k | 0 <= k < |cs|
        ensures MetaKeys(cs)[k] != Key(v, i)
      {
        VideoIsCollected(s, videos, |videos|, cs[k]);
        assert cs[k] in cs;
        if MetaKeys(cs)[k] == Key(v, i) {
          KeyInjective(cs[k].video, cs[k].stream, v, i);
        }
      }
      ByKeyOnly(MetaKeys(cs), answers, Key(v, i));
      StaysAsItIs(s, Asked(s, cs), Rank(s, videos, v, i), x);
    }
  }

  /** Each stream of each video becomes what the proxy answered to its own URL; all else stays. */
  method ProxyMeta(s: Service, meta: Meta) returns (r: Meta)
    ensures r.other == meta.other && r.videos.Some? == meta.videos.Some?
    ensures var videos := meta.videos.GetOr([]);
            var asked := Asked(s, FromVideos(s, videos, |videos|));
            meta.videos.Some? ==>
              && |r.videos.value| == |videos|
              && forall v :: 0 <= v < |videos| ==>
                   var before, after := videos[v], r.videos.value[v];
                   && after.other == before.other && after.streams.Some? == before.streams.Some?
                   && |StreamsOf(after)| == |StreamsOf(before)|
                   && forall i :: 0 <= i < |StreamsOf(before)| ==>
                        BecomesAt(s, asked, Rank(s, videos, v, i), StreamsOf(before)[i], StreamsOf(after)[i])
  {
    hide Fetched, FromVideos, FromStreams, BecomesAt, Key, Rank;
    var cs := CollectFromMeta(s, meta);
    ghost var videos := meta.videos.GetOr([]);
    forall v, i | 0 <= v < |videos| && 0 <= i < |StreamsOf(videos[v])|
      ensures |Fetched(s, Sources(s, cs))| == |cs|
      ensures BecomesAt(s, Asked(s, cs), Rank(s, videos, v, i), StreamsOf(videos[v])[i],
                        ApplyToVideoStreams(v, StreamsOf(videos[v]), ByKey(MetaKeys(cs), Fetched(s, Sources(s, cs))))[i])
    {
      MetaStreamGetsItsOwnUrl(s, videos, v, i);
    }
    var answers := Fetched(s, Sources(s, cs));
    FetchedInPlace(s, Sources(s, cs));
    if cs == [] {
      assert MetaKeys(cs) == [] && answers == [];
      ApplyNothing(meta);
      return meta;
    }
    var byKey: map<string, string> := map[];
    for k := 0 to |cs|
      invariant byKey == ByKey(MetaKeys(cs)[..k], answers[..k])
    {
      assert MetaKeys(cs)[..k + 1][..k] == MetaKeys(cs)[..k] && answers[..k + 1][..k] == answers[..k];
      byKey := byKey[Key(cs[k].video, cs[k].stream) := answers[k]];
    }
    assert MetaKeys(cs)[..|cs|] == MetaKeys(cs) && answers[..|cs|] == answers;
    r := ApplyToMeta(meta, byKey);
  }

  lemma ApplyNothing(meta: Meta)
    ensures meta.videos.Some? ==> forall v :: 0 <= v < |meta.videos.value| ==>
              ApplyToVideoStreams(v, StreamsOf(meta.videos.value[v]), map[]) == StreamsOf(meta.videos.value[v])
  {
  }
}

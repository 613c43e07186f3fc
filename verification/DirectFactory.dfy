/**
 * The direct catalog factory: one pass over the parsed entries with a register of category
 * names for each section, a map of series and a set of episode keys. It builds `CatalogOf`.
 */
module DirectFactory {
  import opened Wrappers
  import opened FirstOccurrences
  import opened Playlist
  import opened DirectCatalog

  datatype Resolution = Existing(id: nat) | New(name: string, id: nat)

  /** The category a label belongs to; reads the register only. */
  function Resolve(orderLength: nat, index: map<string, nat>, text: string): Resolution {
    var name := CategoryName(text);
    if name in index then Existing(index[name]) else New(name, orderLength + 1)
  }

  ghost function IndexMap(labels: seq<string>): map<string, nat> {
    map name | name in labels :: CategoryId(labels, name)
  }

  /** A section's register: names in order of first use, and each name's number. */
  ghost predicate Registered(order: seq<string>, index: map<string, nat>, labels: seq<string>) {
    order == Distinct(labels) && index == IndexMap(labels)
  }

  lemma RegisterOneMore(labels: seq<string>, text: string, name: string)
    requires name in labels
    ensures CategoryId(labels + [text], name) == CategoryId(labels, name)
  {
    DistinctSnoc(labels, text);
    IndexOfExtends(Distinct(labels), name, [text]);
  }

  lemma RegisterNew(labels: seq<string>, text: string)
    requires text !in labels
    ensures CategoryId(labels + [text], text) == |Distinct(labels)| + 1
  {
    DistinctSnoc(labels, text);
    IndexOfNew(Distinct(labels), text);
  }

  lemma IndexMapSnoc(labels: seq<string>, text: string)
    ensures IndexMap(labels + [text]) ==
              if text in labels then IndexMap(labels) else IndexMap(labels)[text := |Distinct(labels)| + 1]
  {
    forall name | name in labels
      ensures CategoryId(labels + [text], name) == CategoryId(labels, name)
    {
      RegisterOneMore(labels, text, name);
    }
    if text !in labels {
      RegisterNew(labels, text);
    }
  }

  method CommitCategory(order: seq<string>, index: map<string, nat>, text: string, ghost labels: seq<string>)
      returns (order': seq<string>, index': map<string, nat>, id: nat)
    requires Registered(order, index, labels) && CategoryName(text) == text
    ensures Registered(order', index', labels + [text])
    ensures id == CategoryId(labels + [text], text)
  {
    var resolution := Resolve(|order|, index, text);
    order', index', id := order, index, resolution.id;
    DistinctSnoc(labels, text);
    IndexMapSnoc(labels, text);
    assert id == IndexMap(labels + [text])[text];
    if resolution.New? {
      order', index' := order + [resolution.name], index[resolution.name := resolution.id];
    }
  }

  method CategoriesFromOrder(order: seq<string>, ghost labels: seq<string>) returns (cats: seq<Category>)
    requires order == Distinct(labels)
    ensures cats == Categories(labels)
  {
    cats := seq(|order|, i requires 0 <= i < |order| => Category(order[i], i + 1));
  }

  // What one more entry does to a section

  lemma SelectSnoc(c: Classifiers, parsed: seq<Entry>, e: Entry)
    ensures Select(c, parsed + [e], KindOf(c, e)) == Select(c, parsed, KindOf(c, e)) + [e]
    ensures KindOf(c, e) != Live ==> Select(c, parsed + [e], Live) == Select(c, parsed, Live)
    ensures KindOf(c, e) != Movie ==> Select(c, parsed + [e], Movie) == Select(c, parsed, Movie)
    ensures SelectMarked(c, parsed + [e]) ==
              match c.marker(e.displayTitle)
              case Some(m) => SelectMarked(c, parsed) + [Marked(e, m)]
              case None => SelectMarked(c, parsed)
  {
    assert (parsed + [e])[..|parsed|] == parsed;
  }

  lemma LabelsSnoc(es: seq<Entry>, e: Entry, kind: Kind)
    ensures Labels(es + [e], kind) == Labels(es, kind) + [Label(e, kind)]
  {
  }

  lemma StreamsSnoc(c: Classifiers, es: seq<Entry>, e: Entry, kind: Kind)
    ensures Streams(c, es + [e], kind) == Streams(c, es, kind) + [StreamOf(c, es + [e], kind, |es|)]
  {
    hide Labels, Distinct;
    LabelsSnoc(es, e, kind);
    forall i | 0 <= i < |es|
      ensures StreamOf(c, es + [e], kind, i) == StreamOf(c, es, kind, i)
    {
      RegisterOneMore(Labels(es, kind), Label(e, kind), Labels(es, kind)[i]);
    }
  }

  lemma MarkedSnoc(ms: seq<Marked>, m: Marked)
    ensures SeriesLabels(ms + [m]) == SeriesLabels(ms) + [Label(m.entry, Series)]
    ensures Keys(ms + [m]) == Keys(ms) + [KeyOf(m)]
    ensures Identities(ms + [m]) == Identities(ms) + [IdentityOf(m)]
  {
  }

  lemma EpisodesSnoc(ms: seq<Marked>, m: Marked)
    ensures Episodes(ms + [m]) ==
              if IdentityOf(m) in Identities(ms) then Episodes(ms) else Episodes(ms) + [EpisodeOf(m)]
  {
    hide Distinct, IndexOf, Identities;
    MarkedSnoc(ms, m);
    var ids, id := Identities(ms), IdentityOf(m);
    DistinctSnoc(ids, id);
    forall i | 0 <= i < |Distinct(ids)|
      ensures Episodes(ms + [m])[i] == Episodes(ms)[i]
    {
      IndexOfExtends(ids, Distinct(ids)[i], [id]);
    }
    if id !in ids {
      IndexOfNew(ids, id);
    }
  }

  // The series section's working state

  datatype Accumulator = Accumulator(categoryId: nat, displayName: string, logo: Option<string>)

  function AsSeries(key: string, a: Accumulator, streamId: nat): SeriesStream {
    SeriesStream(key, Stream(streamId, a.displayName, a.logo, a.categoryId, None, None))
  }

  /** What the map holds for a key: the first entry's category, title and logo. */
  ghost function AccumulatorOf(ms: seq<Marked>, key: string): Accumulator
    requires key in Keys(ms)
  {
    var first := IndexOf(Keys(ms), key);
    Accumulator(CategoryId(SeriesLabels(ms), SeriesLabels(ms)[first]),
                SeriesTitle(ms[first].entry, ms[first].marker), ms[first].entry.logo)
  }

  /** The map after the entries `ms`: the first entry with a key makes its accumulator. */
  ghost function AccumMap(ms: seq<Marked>): map<string, Accumulator> {
    if ms == [] then map[]
    else
      var rest, m := ms[..|ms| - 1], ms[|ms| - 1];
      assert SeriesLabels(ms)[|ms| - 1] == Label(m.entry, Series);
      if KeyOf(m) in AccumMap(rest) then AccumMap(rest)
      else AccumMap(rest)[KeyOf(m) := Accumulator(CategoryId(SeriesLabels(ms), Label(m.entry, Series)),
                                                  SeriesTitle(m.entry, m.marker), m.entry.logo)]
  }

  function KeyOfIdentity(id: Identity): string {
    EpisodeKey(id.groupKey, id.season, id.episode)
  }

  ghost function DedupeSet(ms: seq<Marked>): set<string> {
    set id | id in Identities(ms) :: KeyOfIdentity(id)
  }

  /** A further entry leaves the series found so far as they are. */
  lemma AccumulatorKept(ms: seq<Marked>, m: Marked, key: string)
    requires key in Keys(ms)
    ensures key in Keys(ms + [m]) && AccumulatorOf(ms + [m], key) == AccumulatorOf(ms, key)
  {
    MarkedSnoc(ms, m);
    IndexOfExtends(Keys(ms), key, [KeyOf(m)]);
    RegisterOneMore(SeriesLabels(ms), Label(m.entry, Series), SeriesLabels(ms)[IndexOf(Keys(ms), key)]);
  }

  lemma AccumulatorNew(ms: seq<Marked>, m: Marked)
    requires KeyOf(m) !in Keys(ms)
    ensures KeyOf(m) in Keys(ms + [m]) && Label(m.entry, Series) in SeriesLabels(ms + [m])
    ensures AccumulatorOf(ms + [m], KeyOf(m)) ==
              Accumulator(CategoryId(SeriesLabels(ms + [m]), Label(m.entry, Series)),
                          SeriesTitle(m.entry, m.marker), m.entry.logo)
  {
    MarkedSnoc(ms, m);
    IndexOfNew(Keys(ms), KeyOf(m));
    assert SeriesLabels(ms + [m])[|ms|] == Label(m.entry, Series);
  }

  lemma AccumMapSnoc(ms: seq<Marked>, m: Marked)
    ensures Label(m.entry, Series) in SeriesLabels(ms + [m])
    ensures AccumMap(ms + [m]) ==
              if KeyOf(m) in AccumMap(ms) then AccumMap(ms)
              else AccumMap(ms)[KeyOf(m) := Accumulator(CategoryId(SeriesLabels(ms + [m]), Label(m.entry, Series)),
                                                        SeriesTitle(m.entry, m.marker), m.entry.logo)]
  {
    assert (ms + [m])[..|ms|] == ms;
    assert SeriesLabels(ms + [m])[|ms|] == Label(m.entry, Series);
  }

  lemma {:induction false} AccumMapKeys(ms: seq<Marked>, key: string)
    ensures key in AccumMap(ms) <==> key in Keys(ms)
  {
    if ms == [] {
    } else {
      hide *;
      var rest, m := ms[..|ms| - 1], ms[|ms| - 1];
      assert ms == rest + [m];
      AccumMapKeys(rest, key);
      AccumMapKeys(rest, KeyOf(m));
      AccumMapSnoc(rest, m);
      MarkedSnoc(rest, m);
    }
  }

  /** Later entries with a key change nothing about it. */
  lemma {:induction false} AccumMapHolds(ms: seq<Marked>, key: string)
    requires key in Keys(ms)
    ensures key in AccumMap(ms) && AccumMap(ms)[key] == AccumulatorOf(ms, key)
  {
    var rest, m := ms[..|ms| - 1], ms[|ms| - 1];
    assert ms == rest + [m];
    MarkedSnoc(rest, m);
    AccumMapKeys(rest, key);
    AccumMapSnoc(rest, m);
    if key in Keys(rest) {
      AccumMapHolds(rest, key);
      AccumulatorKept(rest, m, key);
    } else {
      AccumulatorNew(rest, m);
    }
  }

  lemma SeriesFromAccumulator(ms: seq<Marked>, i: nat)
    requires i < |Distinct(Keys(ms))|
    ensures var key := Distinct(Keys(ms))[i];
            key in AccumMap(ms) && AsSeries(key, AccumMap(ms)[key], i + 1) == SeriesOf(ms, i)
  {
    assert Distinct(Keys(ms))[i] in Distinct(Keys(ms));
    AccumMapHolds(ms, Distinct(Keys(ms))[i]);
  }

  lemma SeriesFromAccumulators(ms: seq<Marked>)
    ensures forall i :: 0 <= i < |Distinct(Keys(ms))| ==>
              var key := Distinct(Keys(ms))[i];
              key in AccumMap(ms) && AsSeries(key, AccumMap(ms)[key], i + 1) == SeriesOf(ms, i)
  {
    forall i | 0 <= i < |Distinct(Keys(ms))|
      ensures var key := Distinct(Keys(ms))[i];
              key in AccumMap(ms) && AsSeries(key, AccumMap(ms)[key], i + 1) == SeriesOf(ms, i)
    {
      SeriesFromAccumulator(ms, i);
    }
  }

  lemma DedupeSnoc(ms: seq<Marked>, m: Marked)
    ensures DedupeSet(ms + [m]) == DedupeSet(ms) + {KeyOfIdentity(IdentityOf(m))}
  {
    MarkedSnoc(ms, m);
    var ids, own := Identities(ms), IdentityOf(m);
    assert own in ids + [own];
    assert forall id :: id in ids + [own] <==> id in ids || id == own;
  }

  lemma DedupeFinds(ms: seq<Marked>, m: Marked)
    ensures KeyOfIdentity(IdentityOf(m)) in DedupeSet(ms) <==> IdentityOf(m) in Identities(ms)
  {
    var own := IdentityOf(m);
    forall id: Identity | KeyOfIdentity(id) == KeyOfIdentity(own)
      ensures id == own
    {
      EpisodeKeyInjective(id.groupKey, id.season, id.episode, own.groupKey, own.season, own.episode);
    }
  }

  /**
   * The factory's working state, each section with its own part. `Live`, `Movies` and `Series`
   * say which entries the sections hold.
   */
  class CatalogBuilder {
    const c: Classifiers
    var liveOrder: seq<string>
    var liveIndex: map<string, nat>
    var liveStreams: seq<Stream>
    var nextLiveStreamId: nat
    var movieOrder: seq<string>
    var movieIndex: map<string, nat>
    var movieStreams: seq<Stream>
    var nextMovieStreamId: nat
    var seriesOrder: seq<string>
    var seriesIndex: map<string, nat>
    var accumOrder: seq<string>
    var accum: map<string, Accumulator>
    var episodeDedupe: set<string>
    var seriesEpisodes: seq<Episode>

    ghost predicate LiveHolds(es: seq<Entry>)
      reads `liveOrder, `liveIndex, `liveStreams, `nextLiveStreamId
    {
      && Registered(liveOrder, liveIndex, Labels(es, Live))
      && liveStreams == Streams(c, es, Live) && nextLiveStreamId == |es| + 1
    }

    ghost predicate MoviesHold(es: seq<Entry>)
      reads `movieOrder, `movieIndex, `movieStreams, `nextMovieStreamId
    {
      && Registered(movieOrder, movieIndex, Labels(es, Movie))
      && movieStreams == Streams(c, es, Movie) && nextMovieStreamId == |es| + 1
    }

    ghost predicate SeriesHold(ms: seq<Marked>)
      reads `seriesOrder, `seriesIndex, `accumOrder, `accum
    {
      Registered(seriesOrder, seriesIndex, SeriesLabels(ms)) && accumOrder == Distinct(Keys(ms)) && accum == AccumMap(ms)
    }

    ghost predicate EpisodesHold(ms: seq<Marked>)
      reads `episodeDedupe, `seriesEpisodes
    {
      episodeDedupe == DedupeSet(ms) && seriesEpisodes == Episodes(ms)
    }

    constructor (classifiers: Classifiers)
      ensures c == classifiers && Holds([])
    {
      c := classifiers;
      liveOrder, liveIndex, liveStreams, nextLiveStreamId := [], map[], [], 1;
      movieOrder, movieIndex, movieStreams, nextMovieStreamId := [], map[], [], 1;
      seriesOrder, seriesIndex, accumOrder, accum := [], map[], [], map[];
      episodeDedupe, seriesEpisodes := {}, [];
    }

    method AddLive(entry: Entry, ghost es: seq<Entry>)
      requires LiveHolds(es)
      modifies `liveOrder, `liveIndex, `liveStreams, `nextLiveStreamId
      ensures LiveHolds(es + [entry])
    {
      var id: nat;
      LabelIsCategoryName(entry, Live);
      LabelsSnoc(es, entry, Live);
      StreamsSnoc(c, es, entry, Live);
      liveOrder, liveIndex, id := CommitCategory(liveOrder, liveIndex, Label(entry, Live), Labels(es, Live));
      liveStreams := liveStreams
        + [Stream(nextLiveStreamId, entry.displayTitle, entry.logo, id, c.extension(entry.url), None)];
      nextLiveStreamId := nextLiveStreamId + 1;
    }

    method AddMovie(entry: Entry, ghost es: seq<Entry>)
      requires MoviesHold(es)
      modifies `movieOrder, `movieIndex, `movieStreams, `nextMovieStreamId
      ensures MoviesHold(es + [entry])
    {
      var id: nat;
      LabelIsCategoryName(entry, Movie);
      LabelsSnoc(es, entry, Movie);
      StreamsSnoc(c, es, entry, Movie);
      movieOrder, movieIndex, id := CommitCategory(movieOrder, movieIndex, Label(entry, Movie), Labels(es, Movie));
      movieStreams := movieStreams
        + [Stream(nextMovieStreamId, entry.displayTitle, entry.logo, id, c.extension(entry.url), Some(entry.url))];
      nextMovieStreamId := nextMovieStreamId + 1;
    }

    method AddSeries(entry: Entry, marker: Marker, ghost ms: seq<Marked>) returns (key: string)
      requires SeriesHold(ms)
      modifies `seriesOrder, `seriesIndex, `accumOrder, `accum
      ensures SeriesHold(ms + [Marked(entry, marker)]) && key == KeyOf(Marked(entry, marker))
    {
      hide Distinct, AccumMap, IndexMap;
      var id: nat;
      ghost var m := Marked(entry, marker);
      LabelIsCategoryName(entry, Series);
      MarkedSnoc(ms, m);
      seriesOrder, seriesIndex, id := CommitCategory(seriesOrder, seriesIndex, Label(entry, Series), SeriesLabels(ms));
      var seriesTitle := SeriesTitle(entry, marker);
      key := GroupKey(entry.groupTitle, seriesTitle);
      DistinctSnoc(Keys(ms), key);
      AccumMapSnoc(ms, m);
      AccumMapKeys(ms, key);
      if key !in accum {
        accumOrder, accum := accumOrder + [key], accum[key := Accumulator(id, seriesTitle, entry.logo)];
      }
    }

    method AddEpisode(entry: Entry, marker: Marker, key: string, ghost ms: seq<Marked>)
      requires EpisodesHold(ms) && key == KeyOf(Marked(entry, marker))
      modifies `episodeDedupe, `seriesEpisodes
      ensures EpisodesHold(ms + [Marked(entry, marker)])
    {
      ghost var m := Marked(entry, marker);
      EpisodesSnoc(ms, m);
      DedupeSnoc(ms, m);
      DedupeFinds(ms, m);
      var episodeKey := EpisodeKey(key, marker.season, marker.episode);
      assert episodeKey == KeyOfIdentity(IdentityOf(m));
      if episodeKey in episodeDedupe {
        assert episodeDedupe + {episodeKey} == episodeDedupe;
        return;
      }
      episodeDedupe := episodeDedupe + {episodeKey};
      seriesEpisodes := seriesEpisodes
        + [Episode(key, marker.season, marker.episode, entry.displayTitle, entry.logo, entry.url)];
    }

    ghost predicate Holds(parsed: seq<Entry>)
      reads this
    {
      && LiveHolds(Select(c, parsed, Live)) && MoviesHold(Select(c, parsed, Movie))
      && SeriesHold(SelectMarked(c, parsed)) && EpisodesHold(SelectMarked(c, parsed))
    }

    /** One turn of the factory's loop. */
    method Add(entry: Entry, ghost before: seq<Entry>)
      requires Holds(before)
      modifies this
      ensures Holds(before + [entry])
    {
      hide LiveHolds, MoviesHold, SeriesHold, EpisodesHold;
      SelectSnoc(c, before, entry);
      var marker := c.marker(entry.displayTitle);
      if marker.Some? {
        ghost var series := SelectMarked(c, before);
        assert SelectMarked(c, before + [entry]) == series + [Marked(entry, marker.value)];
        var key := AddSeries(entry, marker.value, series);
        AddEpisode(entry, marker.value, key, series);
        return;
      }
      if c.movieLike(entry.groupTitle, entry.url) {
        AddMovie(entry, Select(c, before, Movie));
        return;
      }
      AddLive(entry, Select(c, before, Live));
    }

    method Finish(ghost parsed: seq<Entry>) returns (catalog: Catalog)
      requires Holds(parsed)
      ensures catalog == CatalogOf(c, parsed)
    {
      ghost var series := SelectMarked(c, parsed);
      var seriesStreams := SeriesStreamsFrom(accumOrder, accum, series);
      var liveCategories := CategoriesFromOrder(liveOrder, Labels(Select(c, parsed, Live), Live));
      var movieCategories := CategoriesFromOrder(movieOrder, Labels(Select(c, parsed, Movie), Movie));
      var seriesCategories := CategoriesFromOrder(seriesOrder, SeriesLabels(series));
      catalog := Catalog(liveCategories, liveStreams, movieCategories, movieStreams,
                         seriesCategories, seriesStreams, seriesEpisodes);
    }
  }

  method SeriesStreamsFrom(order: seq<string>, accum: map<string, Accumulator>, ghost ms: seq<Marked>)
      returns (ss: seq<SeriesStream>)
    requires order == Distinct(Keys(ms)) && accum == AccumMap(ms)
    ensures ss == SeriesStreams(ms)
  {
    hide SeriesOf, AccumMap, Keys, Distinct;
    SeriesFromAccumulators(ms);
    ss := seq(|order|, i requires 0 <= i < |order| && order[i] in accum => AsSeries(order[i], accum[order[i]], i + 1));
  }

  method BuildCatalog(c: Classifiers, parsed: seq<Entry>) returns (catalog: Catalog)
    ensures catalog == CatalogOf(c, parsed)
  {
    hide *;
    var b := new CatalogBuilder(c);
    assert parsed[..0] == [];
    for i := 0 to |parsed|
      invariant b.c == c && b.Holds(parsed[..i])
    {
      assert parsed[..i + 1] == parsed[..i] + [parsed[i]];
      b.Add(parsed[i], parsed[..i]);
    }
    assert parsed[..|parsed|] == parsed;
    catalog := b.Finish(parsed);
  }
}

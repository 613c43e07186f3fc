/** What the catalog of a playlist keeps: nothing lost, nothing twice, order, and closed references. */
module DirectCatalogLaws {
  import opened Wrappers
  import opened FirstOccurrences
  import opened Playlist
  import opened DirectCatalog

  /** How many entries of its own kind stand before entry `i`. */
  ghost function Position(c: Classifiers, parsed: seq<Entry>, i: nat): nat
    requires i < |parsed|
  {
    |Select(c, parsed[..i], KindOf(c, parsed[i]))|
  }

  lemma {:induction false} SelectMonotone(c: Classifiers, parsed: seq<Entry>, n: nat, kind: Kind)
    requires n <= |parsed|
    ensures Select(c, parsed[..n], kind) <= Select(c, parsed, kind)
    decreases |parsed|
  {
    if n == |parsed| {
      assert parsed[..n] == parsed;
    } else {
      var rest := parsed[..|parsed| - 1];
      assert rest[..n] == parsed[..n];
      SelectMonotone(c, rest, n, kind);
    }
  }

  lemma SelectTakes(c: Classifiers, parsed: seq<Entry>, i: nat)
    requires i < |parsed|
    ensures Select(c, parsed[..i + 1], KindOf(c, parsed[i])) == Select(c, parsed[..i], KindOf(c, parsed[i])) + [parsed[i]]
  {
    assert parsed[..i + 1][..i] == parsed[..i];
  }

  /** Every entry is in its section, at its position. */
  lemma EntryIsSelected(c: Classifiers, parsed: seq<Entry>, i: nat)
    requires i < |parsed|
    ensures var es := Select(c, parsed, KindOf(c, parsed[i]));
            Position(c, parsed, i) < |es| && es[Position(c, parsed, i)] == parsed[i]
  {
    SelectTakes(c, parsed, i);
    SelectMonotone(c, parsed, i + 1, KindOf(c, parsed[i]));
  }

  /** Entries of a kind keep their order, so no two share a position. */
  lemma PositionsIncrease(c: Classifiers, parsed: seq<Entry>, i: nat, j: nat)
    requires i < j < |parsed| && KindOf(c, parsed[i]) == KindOf(c, parsed[j])
    ensures Position(c, parsed, i) < Position(c, parsed, j)
  {
    SelectTakes(c, parsed, i);
    assert parsed[..j][..i + 1] == parsed[..i + 1];
    SelectMonotone(c, parsed[..j], i + 1, KindOf(c, parsed[i]));
  }

  /** Every place of a section is some entry's position. */
  lemma {:induction false} PositionIsTaken(c: Classifiers, parsed: seq<Entry>, kind: Kind, r: nat) returns (i: nat)
    requires r < |Select(c, parsed, kind)|
    ensures i < |parsed| && KindOf(c, parsed[i]) == kind && Position(c, parsed, i) == r
    decreases |parsed|
  {
    var n := |parsed| - 1;
    var rest := parsed[..n];
    if r < |Select(c, rest, kind)| {
      i := PositionIsTaken(c, rest, kind, r);
      assert rest[..i] == parsed[..i];
    } else {
      i := n;
    }
  }

  lemma {:induction false} MarkedAreSelected(c: Classifiers, parsed: seq<Entry>)
    ensures var ms, es := SelectMarked(c, parsed), Select(c, parsed, Series);
            |ms| == |es| && forall i :: 0 <= i < |ms| ==>
              ms[i].entry == es[i] && c.marker(es[i].displayTitle) == Some(ms[i].marker)
  {
    if parsed == [] {
    } else {
      MarkedAreSelected(c, parsed[..|parsed| - 1]);
    }
  }

  lemma {:induction false} KindsPartition(c: Classifiers, parsed: seq<Entry>)
    ensures |Select(c, parsed, Live)| + |Select(c, parsed, Movie)| + |Select(c, parsed, Series)| == |parsed|
  {
    if parsed == [] {
    } else {
      KindsPartition(c, parsed[..|parsed| - 1]);
    }
  }

  // Live and movie sections

  /** The stream an entry became: numbered by its position, filed under its own label. */
  ghost predicate Shows(c: Classifiers, e: Entry, kind: Kind, s: Stream, streamId: nat, cats: seq<Category>) {
    && s.streamId == streamId && s.name == e.displayTitle && s.icon == e.logo && s.extension == c.extension(e.url)
    && s.data == (if kind == Movie then Some(e.url) else None)
    && 1 <= s.providerCategoryId <= |cats|
    && cats[s.providerCategoryId - 1] == Category(Label(e, kind), s.providerCategoryId)
  }

  lemma StreamShowsEntry(c: Classifiers, es: seq<Entry>, kind: Kind, i: nat)
    requires i < |es|
    ensures |Streams(c, es, kind)| == |es|
    ensures Shows(c, es[i], kind, Streams(c, es, kind)[i], i + 1, Categories(Labels(es, kind)))
  {
    hide Distinct, IndexOf;
    assert Labels(es, kind)[i] in Distinct(Labels(es, kind));
  }

  ghost function StreamsOf(catalog: Catalog, kind: Kind): seq<Stream>
    requires kind != Series
  {
    if kind == Live then catalog.liveStreams else catalog.movieStreams
  }

  ghost function CategoriesOf(catalog: Catalog, kind: Kind): seq<Category> {
    match kind
    case Live => catalog.liveCategories
    case Movie => catalog.movieCategories
    case Series => catalog.seriesCategories
  }

  /**
   * No live or movie entry is lost: entry `i` is the stream at its position, with that position
   * as stream id, under the category named by its own label.
   */
  lemma EntryBecomesItsStream(c: Classifiers, parsed: seq<Entry>, i: nat)
    requires i < |parsed| && KindOf(c, parsed[i]) != Series
    ensures var kind, catalog := KindOf(c, parsed[i]), CatalogOf(c, parsed);
            var r := Position(c, parsed, i);
            r < |StreamsOf(catalog, kind)|
            && Shows(c, parsed[i], kind, StreamsOf(catalog, kind)[r], r + 1, CategoriesOf(catalog, kind))
  {
    hide Shows, Labels, Categories, Streams, SeriesLabels, SeriesStreams, Episodes, SelectMarked, Select;
    EntryIsSelected(c, parsed, i);
    StreamShowsEntry(c, Select(c, parsed, KindOf(c, parsed[i])), KindOf(c, parsed[i]), Position(c, parsed, i));
  }

  /** No live or movie stream is invented: each one is some entry's. */
  lemma StreamComesFromAnEntry(c: Classifiers, parsed: seq<Entry>, kind: Kind, r: nat) returns (i: nat)
    requires kind != Series && r < |StreamsOf(CatalogOf(c, parsed), kind)|
    ensures i < |parsed| && KindOf(c, parsed[i]) == kind && Position(c, parsed, i) == r
  {
    i := PositionIsTaken(c, parsed, kind, r);
  }

  lemma CategoriesOfLabels(labels: seq<string>, k: nat)
    requires k < |Categories(labels)|
    ensures Categories(labels)[k].providerCategoryId == k + 1 && Categories(labels)[k].name in labels
    ensures forall j :: 0 <= j < |Categories(labels)| && Categories(labels)[j].name == Categories(labels)[k].name ==> j == k
  {
    hide Distinct, IndexOf;
    DistinctHasNoDuplicates(labels);
    assert Distinct(labels)[k] in labels;
  }

  lemma LabelIsSomeEntrys(c: Classifiers, parsed: seq<Entry>, kind: Kind, name: string) returns (e: Entry)
    requires name in if kind == Series then SeriesLabels(SelectMarked(c, parsed)) else Labels(Select(c, parsed, kind), kind)
    ensures e in Select(c, parsed, kind) && Label(e, kind) == name
  {
    var es := Select(c, parsed, kind);
    MarkedAreSelected(c, parsed);
    var labels := if kind == Series then SeriesLabels(SelectMarked(c, parsed)) else Labels(es, kind);
    var i :| 0 <= i < |labels| && labels[i] == name;
    e := es[i];
  }

  /** Categories: numbered from 1, no name twice, none without an entry. */
  lemma CategoriesAreInUse(c: Classifiers, parsed: seq<Entry>, kind: Kind, k: nat) returns (e: Entry)
    requires k < |CategoriesOf(CatalogOf(c, parsed), kind)|
    ensures var cats := CategoriesOf(CatalogOf(c, parsed), kind);
            && cats[k].providerCategoryId == k + 1
            && (forall j :: 0 <= j < |cats| && cats[j].name == cats[k].name ==> j == k)
            && e in Select(c, parsed, kind) && Label(e, kind) == cats[k].name
  {
    hide Categories, SeriesLabels, Labels, SelectMarked, Select, Streams, SeriesStreams, Episodes;
    CategoriesOfLabels(
      if kind == Series then SeriesLabels(SelectMarked(c, parsed)) else Labels(Select(c, parsed, kind), kind), k);
    e := LabelIsSomeEntrys(c, parsed, kind, CategoriesOf(CatalogOf(c, parsed), kind)[k].name);
  }

  // The series section

  ghost function IdentityOfEpisode(ep: Episode): Identity {
    Identity(ep.groupKey, ep.season, ep.episode)
  }

  /** The first entry that announces the same episode as entry `i`. */
  ghost function FirstLike(ms: seq<Marked>, i: nat): (k: nat)
    requires i < |ms|
    ensures k <= i && IdentityOf(ms[k]) == IdentityOf(ms[i])
    ensures forall j :: 0 <= j < k ==> IdentityOf(ms[j]) != IdentityOf(ms[i])
  {
    hide Distinct;
    var ids := Identities(ms);
    assert ids[i] in ids;
    var k := IndexOf(ids, ids[i]);
    assert forall j :: 0 <= j < k ==> ids[..k][j] == ids[j];
    IndexOfIsFirst(ids, i);
    k
  }

  /** Exactly one episode for what entry `i` announces, and it is the first such entry's. */
  lemma OneEpisodeForAnEntry(ms: seq<Marked>, i: nat)
    requires i < |ms|
    ensures exists j :: 0 <= j < |Episodes(ms)| && Episodes(ms)[j] == EpisodeOf(ms[FirstLike(ms, i)])
              && forall k :: 0 <= k < |Episodes(ms)| ==> (IdentityOfEpisode(Episodes(ms)[k]) == IdentityOf(ms[i]) <==> k == j)
  {
    hide Distinct, IndexOf;
    var ids := Identities(ms);
    assert ids[i] in ids;
    DistinctHasNoDuplicates(ids);
    var j :| 0 <= j < |Distinct(ids)| && Distinct(ids)[j] == ids[i];
    SameFirst(ms, i);
    forall k | 0 <= k < |Episodes(ms)|
      ensures IdentityOfEpisode(Episodes(ms)[k]) == Distinct(ids)[k]
    {
      assert Distinct(ids)[k] in ids;
      assert ids[IndexOf(ids, Distinct(ids)[k])] == Distinct(ids)[k];
    }
  }

  lemma SameFirst(ms: seq<Marked>, i: nat)
    requires i < |ms|
    ensures Identities(ms)[i] in Identities(ms) && FirstLike(ms, i) == IndexOf(Identities(ms), Identities(ms)[i])
  {
    assert Identities(ms)[i] in Identities(ms);
  }

  /** No two episodes agree on series, season and episode number. */
  lemma EpisodesAreDistinct(ms: seq<Marked>, j: nat, k: nat)
    requires j < k < |Episodes(ms)|
    ensures IdentityOfEpisode(Episodes(ms)[j]) != IdentityOfEpisode(Episodes(ms)[k])
  {
    hide Distinct, IndexOf;
    var ids := Identities(ms);
    DistinctHasNoDuplicates(ids);
    assert Distinct(ids)[j] in ids && Distinct(ids)[k] in ids;
    assert ids[IndexOf(ids, Distinct(ids)[j])] == Distinct(ids)[j];
    assert ids[IndexOf(ids, Distinct(ids)[k])] == Distinct(ids)[k];
  }

  /** Episodes keep the order of the entries they were made from. */
  lemma EpisodesKeepOrder(ms: seq<Marked>, i: nat, k: nat)
    requires i < |ms| && k < |ms|
    ensures var ids := Identities(ms);
            ids[i] in ids && ids[k] in ids
            && (IndexOf(Distinct(ids), ids[i]) < IndexOf(Distinct(ids), ids[k]) <==> FirstLike(ms, i) < FirstLike(ms, k))
  {
    SameFirst(ms, i);
    SameFirst(ms, k);
    DistinctKeepsOrder(Identities(ms), Identities(ms)[i], Identities(ms)[k]);
  }

  /** The series rows: one for each key, filed under the label of the key's first entry. */
  lemma OneSeriesForAKey(ms: seq<Marked>, i: nat)
    requires i < |ms|
    ensures exists j :: 0 <= j < |SeriesStreams(ms)| && SeriesStreams(ms)[j].groupKey == KeyOf(ms[i])
              && forall k :: 0 <= k < |SeriesStreams(ms)| ==> (SeriesStreams(ms)[k].groupKey == KeyOf(ms[i]) <==> k == j)
  {
    hide Distinct, IndexOf, SeriesLabels;
    assert Keys(ms)[i] in Keys(ms);
    DistinctHasNoDuplicates(Keys(ms));
    var j :| 0 <= j < |Distinct(Keys(ms))| && Distinct(Keys(ms))[j] == Keys(ms)[i];
    assert SeriesStreams(ms)[j].groupKey == KeyOf(ms[i]);
  }

  lemma SeriesFiledByFirstEntry(ms: seq<Marked>, j: nat)
    requires j < |SeriesStreams(ms)|
    ensures var s := SeriesStreams(ms)[j];
            var cats := Categories(SeriesLabels(ms));
            s.groupKey in Keys(ms) && 1 <= s.stream.providerCategoryId <= |cats| && s.stream.streamId == j + 1
            && var first := ms[IndexOf(Keys(ms), s.groupKey)];
               && s.stream.name == SeriesTitle(first.entry, first.marker) && s.stream.icon == first.entry.logo
               && cats[s.stream.providerCategoryId - 1] == Category(Label(first.entry, Series), s.stream.providerCategoryId)
  {
    hide Distinct, IndexOf;
    var key := Distinct(Keys(ms))[j];
    assert key in Keys(ms);
    var labels, first := SeriesLabels(ms), IndexOf(Keys(ms), key);
    assert labels[first] in Distinct(labels);
  }

  // Conservation

  /** Series entries that announce an episode an earlier entry announced. */
  ghost function Duplicates(ms: seq<Marked>): nat {
    if ms == [] then 0
    else
      var rest, m := ms[..|ms| - 1], ms[|ms| - 1];
      Duplicates(rest) + if IdentityOf(m) in Identities(rest) then 1 else 0
  }

  lemma {:induction false} EpisodesAndDuplicates(ms: seq<Marked>)
    ensures |Distinct(Identities(ms))| + Duplicates(ms) == |ms|
  {
    if ms == [] {
    } else {
      var rest, m := ms[..|ms| - 1], ms[|ms| - 1];
      EpisodesAndDuplicates(rest);
      assert Identities(ms) == Identities(rest) + [IdentityOf(m)];
      DistinctSnoc(Identities(rest), IdentityOf(m));
    }
  }

  /** Every parsed entry is one live stream, one movie, one episode or a duplicate episode. */
  lemma NothingIsLost(c: Classifiers, parsed: seq<Entry>)
    ensures var catalog := CatalogOf(c, parsed);
            |catalog.liveStreams| + |catalog.movieStreams| + |catalog.seriesEpisodes| + Duplicates(SelectMarked(c, parsed))
              == |parsed|
  {
    KindsPartition(c, parsed);
    MarkedAreSelected(c, parsed);
    EpisodesAndDuplicates(SelectMarked(c, parsed));
  }
}

/**
 * Where each entry of a playlist ends up, said of the entry's own text: its section, its number,
 * its category's name, its series and its episode.
 */
module DirectFiling {
  import opened Wrappers
  import opened FirstOccurrences
  import opened Playlist
  import opened PlaylistLines
  import opened DirectCatalog
  import opened DirectCatalogLaws

  // Sections

  predicate IsSeries(c: Classifiers, e: Entry) {
    c.marker(e.displayTitle).Some?
  }

  predicate IsMovie(c: Classifiers, e: Entry) {
    c.marker(e.displayTitle).None? && c.movieLike(e.groupTitle, e.url)
  }

  predicate IsLive(c: Classifiers, e: Entry) {
    c.marker(e.displayTitle).None? && !c.movieLike(e.groupTitle, e.url)
  }

  predicate IsA(c: Classifiers, e: Entry, kind: Kind) {
    match kind
    case Live => IsLive(c, e)
    case Movie => IsMovie(c, e)
    case Series => IsSeries(c, e)
  }

  /** How many of the first `n` entries are of the kind. */
  ghost function Before(c: Classifiers, parsed: seq<Entry>, n: nat, kind: Kind): nat
    requires n <= |parsed|
  {
    if n == 0 then 0 else Before(c, parsed, n - 1, kind) + if IsA(c, parsed[n - 1], kind) then 1 else 0
  }

  lemma KindIs(c: Classifiers, e: Entry, kind: Kind)
    ensures KindOf(c, e) == kind <==> IsA(c, e, kind)
  {
  }

  lemma {:induction false} SelectedBefore(c: Classifiers, parsed: seq<Entry>, n: nat, kind: Kind)
    requires n <= |parsed|
    ensures |Select(c, parsed[..n], kind)| == Before(c, parsed, n, kind)
  {
    if n == 0 {
    } else {
      SelectedBefore(c, parsed, n - 1, kind);
      KindIs(c, parsed[n - 1], kind);
      assert parsed[..n][..n - 1] == parsed[..n - 1];
    }
  }

  // Categories

  /** A category's name: the group without white space around it, or the section's own name for none. */
  ghost predicate IsFiledUnder(group: Option<string>, own: string, name: string) {
    if group.Some? && !Blank(group.value) then name != "" && IsTrimOf(group.value, name) else name == own
  }

  lemma LabelIsFiled(e: Entry, kind: Kind)
    ensures IsFiledUnder(e.groupTitle, match kind case Live => "Live" case Movie => "Movies" case Series => "Series", Label(e, kind))
  {
    hide White, Trim;
    TrimIs(e.groupTitle.GetOr(""));
  }

  /** The category with that id has such a name. */
  ghost predicate InCategory(cats: seq<Category>, id: int, group: Option<string>, own: string) {
    1 <= id <= |cats| && cats[id - 1].providerCategoryId == id && IsFiledUnder(group, own, cats[id - 1].name)
  }

  // Live channels and movies

  /**
   * A live entry is the live stream with the number it has among live entries, with its title, logo
   * and extension, under its group or "Live"; there are as many streams as live entries.
   */
  lemma LiveEntryIsFiled(c: Classifiers, parsed: seq<Entry>, i: nat)
    requires i < |parsed| && IsLive(c, parsed[i])
    ensures var catalog, e, r := CatalogOf(c, parsed), parsed[i], Before(c, parsed, i, Live);
            && r < |catalog.liveStreams| == Before(c, parsed, |parsed|, Live)
            && var s := catalog.liveStreams[r];
               && s == Stream(r + 1, e.displayTitle, e.logo, s.providerCategoryId, c.extension(e.url), None)
               && InCategory(catalog.liveCategories, s.providerCategoryId, e.groupTitle, "Live")
  {
    hide White, Trim, Select, Labels, Categories, SelectMarked, SeriesStreams, Episodes, SeriesLabels, IsFiledUnder, IsTrimOf,
         Streams, Label;
    KindIs(c, parsed[i], Live);
    SelectedBefore(c, parsed, i, Live);
    EntryBecomesItsStream(c, parsed, i);
    LabelIsFiled(parsed[i], Live);
    StreamCounts(c, parsed, Live);
  }

  lemma StreamCounts(c: Classifiers, parsed: seq<Entry>, kind: Kind)
    requires kind != Series
    ensures |DirectCatalogLaws.StreamsOf(CatalogOf(c, parsed), kind)| == Before(c, parsed, |parsed|, kind)
  {
    hide Labels, Categories, SelectMarked, SeriesStreams, Episodes, SeriesLabels;
    SelectedBefore(c, parsed, |parsed|, kind);
    assert parsed[..|parsed|] == parsed;
  }

  /** The same for movies, which also keep their URL. */
  lemma MovieEntryIsFiled(c: Classifiers, parsed: seq<Entry>, i: nat)
    requires i < |parsed| && IsMovie(c, parsed[i])
    ensures var catalog, e, r := CatalogOf(c, parsed), parsed[i], Before(c, parsed, i, Movie);
            && r < |catalog.movieStreams| == Before(c, parsed, |parsed|, Movie)
            && var s := catalog.movieStreams[r];
               && s == Stream(r + 1, e.displayTitle, e.logo, s.providerCategoryId, c.extension(e.url), Some(e.url))
               && InCategory(catalog.movieCategories, s.providerCategoryId, e.groupTitle, "Movies")
  {
    hide White, Trim, Select, Labels, Categories, SelectMarked, SeriesStreams, Episodes, SeriesLabels, IsFiledUnder, IsTrimOf,
         Streams, Label;
    KindIs(c, parsed[i], Movie);
    SelectedBefore(c, parsed, i, Movie);
    EntryBecomesItsStream(c, parsed, i);
    LabelIsFiled(parsed[i], Movie);
    StreamCounts(c, parsed, Movie);
  }

  // Series

  /** The name of the series an entry belongs to: the title without its marker, else the group, else the title. */
  ghost predicate IsSeriesName(e: Entry, m: Marker, name: string) {
    if m.hint != "" then name == m.hint
    else if e.groupTitle.Some? && !Blank(e.groupTitle.value) then name != "" && IsTrimOf(e.groupTitle.value, name)
    else name == e.displayTitle
  }

  lemma SeriesTitleIs(e: Entry, m: Marker)
    ensures IsSeriesName(e, m, SeriesTitle(e, m))
  {
    hide White, Trim;
    TrimIs(e.groupTitle.GetOr(""));
  }

  ghost predicate IsKeyOf(e: Entry, name: string, key: string) {
    key == (if e.groupTitle.Some? then e.groupTitle.value else "") + ['\0'] + name
  }

  /** Where entry `i` stands among the series entries. */
  ghost function MarkedPosition(c: Classifiers, parsed: seq<Entry>, i: nat): nat
    requires i <= |parsed|
  {
    Before(c, parsed, i, Series)
  }

  lemma {:induction false} MarkedAt(c: Classifiers, parsed: seq<Entry>, i: nat)
    requires i < |parsed| && IsSeries(c, parsed[i])
    ensures var k, ms := MarkedPosition(c, parsed, i), SelectMarked(c, parsed);
            k < |ms| && ms[k] == Marked(parsed[i], c.marker(parsed[i].displayTitle).value)
  {
    KindIs(c, parsed[i], Series);
    SelectedBefore(c, parsed, i, Series);
    EntryIsSelected(c, parsed, i);
    MarkedAreSelected(c, parsed);
  }

  /** Every series entry comes from an entry of the playlist. */
  lemma MarkedComesFrom(c: Classifiers, parsed: seq<Entry>, k: nat) returns (i: nat)
    requires k < |SelectMarked(c, parsed)|
    ensures i < |parsed| && IsSeries(c, parsed[i]) && MarkedPosition(c, parsed, i) == k
    ensures SelectMarked(c, parsed)[k] == Marked(parsed[i], c.marker(parsed[i].displayTitle).value)
  {
    MarkedAreSelected(c, parsed);
    i := PositionIsTaken(c, parsed, Series, k);
    KindIs(c, parsed[i], Series);
    SelectedBefore(c, parsed, i, Series);
    MarkedAt(c, parsed, i);
  }

  lemma {:induction false} BeforeGrows(c: Classifiers, parsed: seq<Entry>, i: nat, j: nat, kind: Kind)
    requires i <= j <= |parsed|
    ensures Before(c, parsed, i, kind) <= Before(c, parsed, j, kind)
    ensures i < j && IsA(c, parsed[i], kind) ==> Before(c, parsed, i, kind) < Before(c, parsed, j, kind)
    decreases j
  {
    if i == j {
    } else {
      BeforeGrows(c, parsed, i, j - 1, kind);
    }
  }

  /** The series row `s`, number `j + 1`, says what entry `f` says. */
  ghost predicate SeriesRowFrom(c: Classifiers, parsed: seq<Entry>, f: nat, s: SeriesStream, j: nat, cats: seq<Category>) {
    && f < |parsed| && IsSeries(c, parsed[f])
    && var e := parsed[f];
       && IsSeriesName(e, c.marker(e.displayTitle).value, s.stream.name) && IsKeyOf(e, s.stream.name, s.groupKey)
       && s.stream == Stream(j + 1, s.stream.name, e.logo, s.stream.providerCategoryId, None, None)
       && InCategory(cats, s.stream.providerCategoryId, e.groupTitle, "Series")
  }

  /** The episode is the one entry `f` announces. */
  ghost predicate EpisodeFrom(c: Classifiers, parsed: seq<Entry>, f: nat, ep: Episode) {
    && f < |parsed| && IsSeries(c, parsed[f])
    && var e := parsed[f];
       var m := c.marker(e.displayTitle).value;
       && ep == Episode(ep.groupKey, m.season, m.episode, e.displayTitle, e.logo, e.url)
       && BelongsTo(e, m, ep.groupKey)
  }

  ghost predicate BelongsTo(e: Entry, m: Marker, key: string) {
    exists name: string :: IsSeriesName(e, m, name) && IsKeyOf(e, name, key)
  }

  lemma KeyBelongs(x: Marked)
    ensures BelongsTo(x.entry, x.marker, KeyOf(x))
    ensures IsKeyOf(x.entry, SeriesTitle(x.entry, x.marker), KeyOf(x))
  {
    SeriesTitleIs(x.entry, x.marker);
    assert IsKeyOf(x.entry, SeriesTitle(x.entry, x.marker), KeyOf(x));
  }

  lemma RowOfEntry(c: Classifiers, parsed: seq<Entry>, i: nat) returns (j: nat, f: nat)
    requires i < |parsed| && IsSeries(c, parsed[i])
    ensures var catalog, ms := CatalogOf(c, parsed), SelectMarked(c, parsed);
            && MarkedPosition(c, parsed, i) < |ms|
            && f <= i && j < |catalog.seriesStreams|
            && SeriesRowFrom(c, parsed, f, catalog.seriesStreams[j], j, catalog.seriesCategories)
            && catalog.seriesStreams[j].groupKey == KeyOf(ms[MarkedPosition(c, parsed, i)])
  {
    hide White, Trim, Select, Labels, Streams, SelectMarked, Episodes, IsFiledUnder, IsTrimOf, IsSeriesName, Distinct, IndexOf,
         Label, SeriesLabels, Categories, KindOf, KeyOf;
    var ms, k := SelectMarked(c, parsed), MarkedPosition(c, parsed, i);
    MarkedAt(c, parsed, i);
    OneSeriesForAKey(ms, k);
    j :| 0 <= j < |SeriesStreams(ms)| && SeriesStreams(ms)[j].groupKey == KeyOf(ms[k]);
    SeriesFiledByFirstEntry(ms, j);
    var first := IndexOf(Keys(ms), SeriesStreams(ms)[j].groupKey);
    IndexOfIsFirst(Keys(ms), k);
    f := MarkedComesFrom(c, parsed, first);
    if i < f {
      BeforeGrows(c, parsed, i, f, Series);
    }
    KeyBelongs(ms[first]);
    SeriesTitleIs(ms[first].entry, ms[first].marker);
    LabelIsFiled(ms[first].entry, Series);
  }

  lemma EpisodeOfEntry(c: Classifiers, parsed: seq<Entry>, i: nat) returns (q: nat, g: nat)
    requires i < |parsed| && IsSeries(c, parsed[i])
    ensures var catalog, ms := CatalogOf(c, parsed), SelectMarked(c, parsed);
            && MarkedPosition(c, parsed, i) < |ms|
            && g <= i && q < |catalog.seriesEpisodes| && EpisodeFrom(c, parsed, g, catalog.seriesEpisodes[q])
            && var ep, m := catalog.seriesEpisodes[q], c.marker(parsed[i].displayTitle).value;
               && ep.groupKey == KeyOf(ms[MarkedPosition(c, parsed, i)]) && ep.season == m.season && ep.episode == m.episode
  {
    hide White, Trim, Select, Labels, Streams, SelectMarked, Episodes, SeriesStreams, IsTrimOf, IsSeriesName, Distinct, IndexOf,
         SeriesLabels, Categories, KindOf, KeyOf, BelongsTo;
    var ms, k := SelectMarked(c, parsed), MarkedPosition(c, parsed, i);
    MarkedAt(c, parsed, i);
    OneEpisodeForAnEntry(ms, k);
    var first := FirstLike(ms, k);
    q :| 0 <= q < |Episodes(ms)| && Episodes(ms)[q] == EpisodeOf(ms[first]);
    g := MarkedComesFrom(c, parsed, first);
    if i < g {
      BeforeGrows(c, parsed, i, g, Series);
    }
    KeyBelongs(ms[first]);
  }

  /**
   * A series entry has its series row and its episode, under one key made of its own group and
   * series name; each says what the first entry it was made from says.
   */
  lemma SeriesEntryIsFiled(c: Classifiers, parsed: seq<Entry>, i: nat) returns (j: nat, f: nat, q: nat, g: nat)
    requires i < |parsed| && IsSeries(c, parsed[i])
    ensures var catalog, e, m := CatalogOf(c, parsed), parsed[i], c.marker(parsed[i].displayTitle).value;
            && f <= i && g <= i && j < |catalog.seriesStreams| && q < |catalog.seriesEpisodes|
            && var s, ep := catalog.seriesStreams[j], catalog.seriesEpisodes[q];
               && SeriesRowFrom(c, parsed, f, s, j, catalog.seriesCategories) && EpisodeFrom(c, parsed, g, ep)
               && s.groupKey == ep.groupKey && BelongsTo(e, m, ep.groupKey)
               && ep.season == m.season && ep.episode == m.episode
  {
    hide SeriesRowFrom, EpisodeFrom, CatalogOf, SelectMarked, KeyOf, BelongsTo;
    j, f := RowOfEntry(c, parsed, i);
    q, g := EpisodeOfEntry(c, parsed, i);
    MarkedAt(c, parsed, i);
    KeyBelongs(SelectMarked(c, parsed)[MarkedPosition(c, parsed, i)]);
  }
}

/**
 * The catalog of a playlist, said without loops: which entries each section holds, in which
 * order, under which category, and which episodes are duplicates.
 */
module DirectCatalog {
  import opened Wrappers
  import opened FirstOccurrences
  import opened Playlist
  import Decimal

  /** The season and episode a title announces; `hint` is the title without them. */
  datatype Marker = Marker(season: nat, episode: nat, hint: string)

  /** The regular expressions and the URL library the factory consults. */
  datatype Classifiers = Classifiers(
    marker: string -> Option<Marker>,
    movieLike: (Option<string>, string) -> bool,
    extension: string -> Option<string>)

  datatype Category = Category(name: string, providerCategoryId: int)

  datatype Stream = Stream(
    streamId: int, name: string, icon: Option<string>, providerCategoryId: int,
    extension: Option<string>, data: Option<string>)

  datatype SeriesStream = SeriesStream(groupKey: string, stream: Stream)

  datatype Episode = Episode(
    groupKey: string, season: nat, episode: nat, title: string, thumbnail: Option<string>, url: string)

  datatype Catalog = Catalog(
    liveCategories: seq<Category>, liveStreams: seq<Stream>,
    movieCategories: seq<Category>, movieStreams: seq<Stream>,
    seriesCategories: seq<Category>, seriesStreams: seq<SeriesStream>, seriesEpisodes: seq<Episode>)

  // One entry

  datatype Kind = Live | Movie | Series

  function KindOf(c: Classifiers, e: Entry): Kind {
    if c.marker(e.displayTitle).Some? then Series
    else if c.movieLike(e.groupTitle, e.url) then Movie
    else Live
  }

  function OrElse(s: string, fallback: string): string {
    if s != "" then s else fallback
  }

  function Fallback(kind: Kind): string {
    match kind
    case Live => "Live"
    case Movie => "Movies"
    case Series => "Series"
  }

  function Label(e: Entry, kind: Kind): string {
    OrElse(Trim(e.groupTitle.GetOr("")), Fallback(kind))
  }

  function CategoryName(text: string): string {
    OrElse(Trim(text), "Uncategorized")
  }

  function SeriesTitle(e: Entry, m: Marker): string {
    OrElse(m.hint, OrElse(Trim(e.groupTitle.GetOr("")), e.displayTitle))
  }

  function GroupKey(groupTitle: Option<string>, seriesTitle: string): string {
    groupTitle.GetOr("") + ['\0'] + seriesTitle
  }

  function EpisodeKey(groupKey: string, season: nat, episode: nat): string {
    groupKey + ['\0'] + Decimal.Print(season) + ['\0'] + Decimal.Print(episode)
  }

  /** The episode key tells group key, season and episode apart, whatever the group key holds. */
  lemma EpisodeKeyInjective(k: string, s: nat, e: nat, k': string, s': nat, e': nat)
    requires EpisodeKey(k, s, e) == EpisodeKey(k', s', e')
    ensures k == k' && s == s' && e == e'
  {
    Decimal.SplitLastNumeral(k + ['\0'] + Decimal.Print(s), e, k' + ['\0'] + Decimal.Print(s'), e', '\0');
    Decimal.SplitLastNumeral(k, s, k', s', '\0');
  }

  /** No other group and title have this key. An absent group and an empty one are the same. */
  ghost predicate Unambiguous(group: string, title: string) {
    forall g: string, t: string :: GroupKey(Some(g), t) == GroupKey(Some(group), title) ==> g == group && t == title
  }

  /** The group key tells group and title apart exactly when neither holds the separator. */
  lemma GroupKeyUnambiguousIff(group: string, title: string)
    ensures Unambiguous(group, title) <==> '\0' !in group && '\0' !in title
  {
    var key := GroupKey(Some(group), title);
    if '\0' in group {
      var i :| 0 <= i < |group| && group[i] == '\0';
      var rest := group[i + 1..] + ['\0'] + title;
      assert group == group[..i] + ['\0'] + group[i + 1..];
      assert GroupKey(Some(group[..i]), rest) == key;
    } else if '\0' in title {
      var i :| 0 <= i < |title| && title[i] == '\0';
      assert title == title[..i] + ['\0'] + title[i + 1..];
      assert GroupKey(Some(group + ['\0'] + title[..i]), title[i + 1..]) == key;
    } else {
      forall g: string, t: string | GroupKey(Some(g), t) == key
        ensures g == group && t == title
      {
        OneSeparator(group, title, g, t);
      }
    }
  }

  lemma OneSeparator(group: string, title: string, g: string, t: string)
    requires '\0' !in group && '\0' !in title && GroupKey(Some(g), t) == GroupKey(Some(group), title)
    ensures g == group && t == title
  {
    var key := GroupKey(Some(group), title);
    assert key == GroupKey(Some(g), t) && key[|g|] == '\0';
    assert forall i :: 0 <= i < |group| ==> key[i] == group[i];
    assert forall i :: |group| < i < |key| ==> key[i] == title[i - |group| - 1] && key[i] in title;
    assert key[..|g|] == g && key[..|group|] == group && key[|g| + 1..] == t && key[|group| + 1..] == title;
  }

  /** The factory's last fallback is never taken: a label is a category name already. */
  lemma LabelIsCategoryName(e: Entry, kind: Kind)
    ensures CategoryName(Label(e, kind)) == Label(e, kind)
  {
    TrimIsTrimmed(e.groupTitle.GetOr(""));
    TrimTrimmed(Fallback(kind));
  }

  // Sections

  /** The entries of one kind, in playlist order. */
  ghost function Select(c: Classifiers, parsed: seq<Entry>, kind: Kind): seq<Entry> {
    if parsed == [] then []
    else
      var rest, e := Select(c, parsed[..|parsed| - 1], kind), parsed[|parsed| - 1];
      if KindOf(c, e) == kind then rest + [e] else rest
  }

  ghost function Labels(es: seq<Entry>, kind: Kind): (ls: seq<string>)
    ensures |ls| == |es| && forall i :: 0 <= i < |es| ==> ls[i] == Label(es[i], kind)
  {
    seq(|es|, i requires 0 <= i < |es| => Label(es[i], kind))
  }

  /** One category for each label, numbered from 1 in the order of first use. */
  ghost function Categories(labels: seq<string>): seq<Category> {
    seq(|Distinct(labels)|, i requires 0 <= i < |Distinct(labels)| => Category(Distinct(labels)[i], i + 1))
  }

  ghost function CategoryId(labels: seq<string>, text: string): nat
    requires text in labels
  {
    IndexOf(Distinct(labels), text) + 1
  }

  ghost function StreamOf(c: Classifiers, es: seq<Entry>, kind: Kind, i: nat): Stream
    requires i < |es|
  {
    Stream(i + 1, es[i].displayTitle, es[i].logo, CategoryId(Labels(es, kind), Labels(es, kind)[i]),
           c.extension(es[i].url), if kind == Movie then Some(es[i].url) else None)
  }

  ghost function Streams(c: Classifiers, es: seq<Entry>, kind: Kind): seq<Stream> {
    seq(|es|, i requires 0 <= i < |es| => StreamOf(c, es, kind, i))
  }

  // The series section

  /** An entry whose title announces an episode. */
  datatype Marked = Marked(entry: Entry, marker: Marker)

  ghost function SelectMarked(c: Classifiers, parsed: seq<Entry>): seq<Marked> {
    if parsed == [] then []
    else
      var rest, e := SelectMarked(c, parsed[..|parsed| - 1]), parsed[|parsed| - 1];
      match c.marker(e.displayTitle)
      case Some(m) => rest + [Marked(e, m)]
      case None => rest
  }

  ghost function SeriesLabels(ms: seq<Marked>): (ls: seq<string>)
    ensures |ls| == |ms| && forall i :: 0 <= i < |ms| ==> ls[i] == Label(ms[i].entry, Series)
  {
    seq(|ms|, i requires 0 <= i < |ms| => Label(ms[i].entry, Series))
  }

  function KeyOf(m: Marked): string {
    GroupKey(m.entry.groupTitle, SeriesTitle(m.entry, m.marker))
  }

  ghost function Keys(ms: seq<Marked>): (ks: seq<string>)
    ensures |ks| == |ms| && forall i :: 0 <= i < |ms| ==> ks[i] == KeyOf(ms[i])
  {
    seq(|ms|, i requires 0 <= i < |ms| => KeyOf(ms[i]))
  }

  /** What two entries must share to be the same episode. */
  datatype Identity = Identity(groupKey: string, season: nat, episode: nat)

  function IdentityOf(m: Marked): Identity {
    Identity(KeyOf(m), m.marker.season, m.marker.episode)
  }

  ghost function Identities(ms: seq<Marked>): (ids: seq<Identity>)
    ensures |ids| == |ms| && forall i :: 0 <= i < |ms| ==> ids[i] == IdentityOf(ms[i])
  {
    seq(|ms|, i requires 0 <= i < |ms| => IdentityOf(ms[i]))
  }

  /** Series `i`: named, iconed and filed after the first entry with its key. */
  ghost function SeriesOf(ms: seq<Marked>, i: nat): SeriesStream
    requires i < |Distinct(Keys(ms))|
  {
    var key := Distinct(Keys(ms))[i];
    var first := IndexOf(Keys(ms), key);
    var m := ms[first];
    SeriesStream(key, Stream(i + 1, SeriesTitle(m.entry, m.marker), m.entry.logo,
                             CategoryId(SeriesLabels(ms), SeriesLabels(ms)[first]), None, None))
  }

  ghost function SeriesStreams(ms: seq<Marked>): seq<SeriesStream> {
    seq(|Distinct(Keys(ms))|, i requires 0 <= i < |Distinct(Keys(ms))| => SeriesOf(ms, i))
  }

  function EpisodeOf(m: Marked): Episode {
    Episode(KeyOf(m), m.marker.season, m.marker.episode, m.entry.displayTitle, m.entry.logo, m.entry.url)
  }

  /** One episode for each identity: the first entry that has it. */
  ghost function Episodes(ms: seq<Marked>): seq<Episode> {
    var ids := Identities(ms);
    seq(|Distinct(ids)|, i requires 0 <= i < |Distinct(ids)| => EpisodeOf(ms[IndexOf(ids, Distinct(ids)[i])]))
  }

  ghost function CatalogOf(c: Classifiers, parsed: seq<Entry>): Catalog {
    var live, movies, series := Select(c, parsed, Live), Select(c, parsed, Movie), SelectMarked(c, parsed);
    Catalog(
      Categories(Labels(live, Live)), Streams(c, live, Live),
      Categories(Labels(movies, Movie)), Streams(c, movies, Movie),
      Categories(SeriesLabels(series)), SeriesStreams(series), Episodes(series))
  }
}

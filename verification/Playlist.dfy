/**
 * The M3U playlist reader: what one line says, the loop over the lines, and what the playlist
 * as a whole means. Lines are given as the line reader delivers them.
 */
module Playlist {
  import opened Wrappers

  datatype Entry = Entry(displayTitle: string, groupTitle: Option<string>, logo: Option<string>, url: string)

  const EXTINF := "#EXTINF"
  const GROUP_TITLE := "group-title"
  const TVG_LOGO := "tvg-logo"

  // Text

  /** The characters of a regular expression's `\s`. */
  predicate IsSpace(c: char) {
    var n := c as int;
    || 0x09 <= n <= 0x0D || n == 0x20 || n == 0xA0 || n == 0x1680 || 0x2000 <= n <= 0x200A
    || n == 0x2028 || n == 0x2029 || n == 0x202F || n == 0x205F || n == 0x3000 || n == 0xFEFF
  }

  function SkipSpaces(s: string): string {
    if s != "" && IsSpace(s[0]) then SkipSpaces(s[1..]) else s
  }

  function DropTrailingSpaces(s: string): string {
    if s != "" && IsSpace(s[|s| - 1]) then DropTrailingSpaces(s[..|s| - 1]) else s
  }

  function Trim(s: string): string {
    SkipSpaces(DropTrailingSpaces(s))
  }

  function Lower(c: char): char {
    if 'A' <= c <= 'Z' then (c as int + 32) as char else c
  }

  predicate StartsWithIgnoringCase(s: string, prefix: string) {
    |prefix| <= |s| && forall i :: 0 <= i < |prefix| ==> Lower(s[i]) == Lower(prefix[i])
  }

  /** The text before the first occurrence of `c`. */
  function UpTo(s: string, c: char): Option<string> {
    if s == "" then None
    else if s[0] == c then Some("")
    else match UpTo(s[1..], c)
      case Some(t) => Some([s[0]] + t)
      case None => None
  }

  /** The text after the last occurrence of `c`. */
  function AfterLast(s: string, c: char): Option<string> {
    if s == "" then None
    else match AfterLast(s[1..], c)
      case Some(t) => Some(t)
      case None => if s[0] == c then Some(s[1..]) else None
  }

  // One line

  /** The quoted value of the attribute `name`, if `s` starts with it. */
  function AttributeHere(s: string, name: string): Option<string> {
    if !StartsWithIgnoringCase(s, name) then None
    else
      var t := SkipSpaces(s[|name|..]);
      if t == "" || t[0] != '=' then None
      else
        var u := SkipSpaces(t[1..]);
        if u == "" || u[0] != '"' then None else UpTo(u[1..], '"')
  }

  /** The value of the first attribute `name` in the line. */
  function Attribute(s: string, name: string): Option<string> {
    match AttributeHere(s, name)
    case Some(v) => Some(v)
    case None => if s == "" then None else Attribute(s[1..], name)
  }

  function SkipWord(s: string): string {
    if s != "" && !IsSpace(s[0]) then SkipWord(s[1..]) else s
  }

  /** Without a comma the title is what follows the duration. */
  function WithoutDuration(line: string): string {
    if !(EXTINF <= line) then line
    else
      var t := SkipSpaces(line[|EXTINF|..]);
      if t == "" || t[0] != ':' then line
      else
        var u := SkipSpaces(t[1..]);
        if u == "" then line else SkipSpaces(SkipWord(u))
  }

  function DisplayTitle(line: string): string {
    match AfterLast(line, ',')
    case Some(t) => Trim(t)
    case None => Trim(WithoutDuration(line))
  }

  /** A word in lower case matches letters of either case. */
  predicate Looks(s: string, word: string) {
    |word| <= |s|
    && forall i :: 0 <= i < |word| ==> s[i] == word[i] || ('a' <= word[i] <= 'z' && s[i] as int == word[i] as int - 32)
  }

  predicate HasScheme(t: string) {
    Looks(t, "http://") || Looks(t, "https://") || "rtmp://" <= t || "rtsp://" <= t
  }

  predicate IsStreamUrl(line: string) {
    var t := Trim(line);
    && t != "" && t[0] != '#'
    && (|| StartsWithIgnoringCase(t, "http://") || StartsWithIgnoringCase(t, "https://")
        || "rtmp://" <= t || "rtsp://" <= t)
  }

  function EntryOf(extinf: string, url: string): Entry {
    Entry(DisplayTitle(extinf), Attribute(extinf, GROUP_TITLE), Attribute(extinf, TVG_LOGO), Trim(url))
  }

  // The whole playlist

  predicate IsExtinf(line: string) {
    EXTINF <= Trim(line)
  }

  /** A blank line or a directive other than #EXTINF: it stands between nothing. */
  predicate IsTransparent(line: string) {
    Trim(line) == "" || (Trim(line)[0] == '#' && !IsExtinf(line))
  }

  predicate IsUrlLine(line: string) {
    !IsExtinf(line) && !IsTransparent(line) && IsStreamUrl(Trim(line))
  }

  /** The #EXTINF that describes line `i`: the nearest one above, over transparent lines only. */
  function Header(lines: seq<string>, i: nat): (j: Option<nat>)
    requires i <= |lines|
    ensures j.Some? ==> j.value < i
  {
    if i == 0 then None
    else if IsExtinf(lines[i - 1]) then Some(i - 1)
    else if IsTransparent(lines[i - 1]) then Header(lines, i - 1)
    else None
  }

  ghost predicate Describes(lines: seq<string>, j: nat, i: nat)
    requires i <= |lines|
  {
    j < i && IsExtinf(lines[j]) && forall k :: j < k < i ==> IsTransparent(lines[k])
  }

  lemma {:induction false} HeaderDescribes(lines: seq<string>, i: nat, j: nat)
    requires i <= |lines|
    ensures Header(lines, i) == Some(j) <==> Describes(lines, j, i)
  {
    if i > 0 && IsTransparent(lines[i - 1]) {
      HeaderDescribes(lines, i - 1, j);
    }
  }

  /** The playlist's entries: one for each URL line with a header, in playlist order. */
  function Entries(lines: seq<string>): seq<Entry> {
    if lines == [] then []
    else
      var i := |lines| - 1;
      var above := Entries(lines[..i]);
      match Header(lines, i)
      case Some(j) => if IsUrlLine(lines[i]) then above + [EntryOf(Trim(lines[j]), Trim(lines[i]))] else above
      case None => above
  }

  /** No #EXTINF describes two URL lines. */
  lemma HeaderUsedOnce(lines: seq<string>, i: nat, k: nat)
    requires i < |lines| && k < |lines| && IsUrlLine(lines[i]) && IsUrlLine(lines[k])
    requires Header(lines, i).Some? && Header(lines, i) == Header(lines, k)
    ensures i == k
  {
    HeaderDescribes(lines, i, Header(lines, i).value);
    HeaderDescribes(lines, k, Header(lines, k).value);
  }

  lemma {:induction false} HeaderOfPrefix(lines: seq<string>, n: nat, i: nat)
    requires i <= n <= |lines|
    ensures Header(lines[..n], i) == Header(lines, i)
  {
    if i == 0 {
    } else {
      HeaderOfPrefix(lines, n, i - 1);
    }
  }

  function Pending(lines: seq<string>, i: nat): Option<string>
    requires i <= |lines|
  {
    match Header(lines, i)
    case Some(j) => Some(Trim(lines[j]))
    case None => None
  }

  lemma EntriesStep(lines: seq<string>, i: nat)
    requires i < |lines|
    ensures Entries(lines[..i + 1]) == Entries(lines[..i]) +
              if Pending(lines, i).Some? && IsUrlLine(lines[i])
              then [EntryOf(Pending(lines, i).value, Trim(lines[i]))] else []
  {
    assert lines[..i + 1][..i] == lines[..i];
    HeaderOfPrefix(lines, i + 1, i);
  }

  /** The reader: one pass with the pending #EXTINF, cleared by a line that is no URL. */
  method ParseEntries(lines: seq<string>) returns (entries: seq<Entry>)
    ensures entries == Entries(lines)
  {
    entries := [];
    var pending: Option<string> := None;
    for i := 0 to |lines|
      invariant entries == Entries(lines[..i])
      invariant pending == Pending(lines, i)
    {
      EntriesStep(lines, i);
      var line := Trim(lines[i]);
      if line == "" {
        continue;
      }
      if EXTINF <= line {
        pending := Some(line);
        continue;
      }
      if line[0] == '#' {
        continue;
      }
      if pending.None? {
        continue;
      }
      if !IsStreamUrl(line) {
        pending := None;
        continue;
      }
      entries := entries + [EntryOf(pending.value, line)];
      pending := None;
    }
    assert lines[..|lines|] == lines;
  }

  // Round trip

  function PrintAttribute(name: string, value: Option<string>): string {
    match value
    case Some(v) => " " + name + "=\"" + v + "\""
    case None => ""
  }

  function PrintExtinf(e: Entry): string {
    "#EXTINF:-1" + (PrintAttribute("group-title", e.groupTitle) + (PrintAttribute("tvg-logo", e.logo) + ("," + e.displayTitle)))
  }

  function Print(entries: seq<Entry>): seq<string> {
    if entries == [] then []
    else
      var last := entries[|entries| - 1];
      Print(entries[..|entries| - 1]) + [PrintExtinf(last), last.url]
  }

  ghost predicate Mentions(s: string, name: string) {
    exists p: nat :: p <= |s| && StartsWithIgnoringCase(s[p..], name)
  }

  ghost predicate Trimmed(s: string) {
    s == "" || (!IsSpace(s[0]) && !IsSpace(s[|s| - 1]))
  }

  /**
   * What the format can carry: no quote inside an attribute, no comma in the title, no title,
   * group or logo that holds an attribute's name where the reader looks for that attribute.
   */
  ghost predicate Printable(e: Entry) {
    && Trimmed(e.displayTitle) && ',' !in e.displayTitle
    && Trimmed(e.url) && HasScheme(e.url)
    && '"' !in e.groupTitle.GetOr("") && '"' !in e.logo.GetOr("")
    && !Mentions(e.groupTitle.GetOr(""), TVG_LOGO)
    && (e.groupTitle.None? ==> !Mentions(e.logo.GetOr(""), GROUP_TITLE) && !Mentions(e.displayTitle, GROUP_TITLE))
    && (e.logo.None? ==> !Mentions(e.displayTitle, TVG_LOGO))
  }

  lemma TrimTrimmed(s: string)
    requires Trimmed(s)
    ensures Trim(s) == s
  {
  }

  lemma TrimIsTrimmed(s: string)
    ensures Trimmed(Trim(s)) && Trim(Trim(s)) == Trim(s)
  {
    SkipEndsInside(DropTrailingSpaces(s));
    DropEndsInside(s);
    TrimTrimmed(Trim(s));
  }

  lemma {:induction false} DropEndsInside(s: string)
    ensures var t := DropTrailingSpaces(s); t == "" || !IsSpace(t[|t| - 1])
  {
    if s != "" && IsSpace(s[|s| - 1]) {
      DropEndsInside(s[..|s| - 1]);
    }
  }

  lemma {:induction false} SkipEndsInside(s: string)
    ensures var t := SkipSpaces(s); t == "" || (!IsSpace(t[0]) && t[|t| - 1] == s[|s| - 1])
  {
    if s != "" && IsSpace(s[0]) {
      SkipEndsInside(s[1..]);
    }
  }

  ghost predicate Outside(c: char, name: string) {
    forall k :: 0 <= k < |name| ==> Lower(name[k]) != Lower(c)
  }

  lemma {:induction false} NotMentioned(s: string, name: string)
    requires !Mentions(s, name)
    ensures Attribute(s, name) == None
    decreases |s|
  {
    assert s[0..] == s;
    if s != "" {
      forall p: nat | p <= |s[1..]|
        ensures !StartsWithIgnoringCase(s[1..][p..], name)
      {
        assert s[1..][p..] == s[p + 1..];
      }
      NotMentioned(s[1..], name);
    }
  }

  lemma NotAtFront(a: string, c: char, rest: string, name: string)
    requires !Mentions(a, name) && Outside(c, name)
    ensures !StartsWithIgnoringCase(a + [c] + rest, name)
  {
    var s := a + [c] + rest;
    if |name| <= |a| {
      assert a[0..] == a;
      var i :| 0 <= i < |name| && Lower(a[i]) != Lower(name[i]);
      assert s[i] == a[i];
    } else {
      assert s[|a|] == c && Lower(name[|a|]) != Lower(c);
    }
  }

  /** The search passes over text that does not mention the name, up to a character outside it. */
  lemma {:induction false} SearchPasses(a: string, c: char, rest: string, name: string)
    requires !Mentions(a, name) && Outside(c, name)
    ensures Attribute(a + [c] + rest, name) == Attribute(rest, name)
    decreases |a|
  {
    var s := a + [c] + rest;
    NotAtFront(a, c, rest, name);
    if a == "" {
      assert s[1..] == rest;
    } else {
      assert s[1..] == a[1..] + [c] + rest;
      forall p: nat | p <= |a[1..]|
        ensures !StartsWithIgnoringCase(a[1..][p..], name)
      {
        assert a[1..][p..] == a[p + 1..];
      }
      SearchPasses(a[1..], c, rest, name);
    }
  }

  lemma {:induction false} UpToFound(v: string, c: char, rest: string)
    requires c !in v
    ensures UpTo(v + [c] + rest, c) == Some(v)
  {
    if v != "" {
      assert (v + [c] + rest)[1..] == v[1..] + [c] + rest;
      UpToFound(v[1..], c, rest);
      assert v == [v[0]] + v[1..];
    }
  }

  lemma SearchFinds(name: string, v: string, rest: string)
    requires '"' !in v
    ensures Attribute(name + "=\"" + v + "\"" + rest, name) == Some(v)
  {
    var s := name + "=\"" + v + "\"" + rest;
    assert s[|name|..] == "=\"" + v + "\"" + rest;
    assert s[|name|..][1..] == "\"" + v + "\"" + rest;
    assert s[|name|..][1..][1..] == v + ['"'] + rest;
    UpToFound(v, '"', rest);
  }

  lemma NotMentionedWithoutItsStart(s: string, name: string)
    requires |name| >= 2
    requires forall p :: 0 <= p < |s| - 1 ==> Lower(s[p]) != Lower(name[0]) || Lower(s[p + 1]) != Lower(name[1])
    ensures !Mentions(s, name)
  {
    forall p: nat | p <= |s|
      ensures !StartsWithIgnoringCase(s[p..], name)
    {
      if p + 1 < |s| {
        assert s[p..][0] == s[p] && s[p..][1] == s[p + 1];
      }
    }
  }

  /** No part of the printed line other than the attribute itself can be taken for it. */
  ghost predicate Apart(name: string, other: string) {
    && !Mentions("#EXTINF:-1", name) && !Mentions(other + "=", name) && !Mentions("", name)
    && Outside(' ', name) && Outside('"', name) && Outside(',', name)
  }

  lemma GroupTitleApart()
    ensures Apart(GROUP_TITLE, TVG_LOGO)
  {
    NotMentionedWithoutItsStart("#EXTINF:-1", GROUP_TITLE);
    NotMentionedWithoutItsStart(TVG_LOGO + "=", GROUP_TITLE);
    NotMentionedWithoutItsStart("", GROUP_TITLE);
  }

  lemma TvgLogoApart()
    ensures Apart(TVG_LOGO, GROUP_TITLE)
  {
    NotMentionedWithoutItsStart("#EXTINF:-1", TVG_LOGO);
    NotMentionedWithoutItsStart(GROUP_TITLE + "=", TVG_LOGO);
    NotMentionedWithoutItsStart("", TVG_LOGO);
  }

  lemma PrintedShape(other: string, v: string, tail: string)
    ensures PrintAttribute(other, Some(v)) + tail == "" + [' '] + (other + "=" + ['"'] + (v + ['"'] + tail))
  {
  }

  lemma PassQuoted(other: string, v: string, tail: string, name: string)
    requires Apart(name, other) && !Mentions(v, name)
    ensures Attribute(PrintAttribute(other, Some(v)) + tail, name) == Attribute(tail, name)
  {
    var quoted := v + ['"'] + tail;
    var spaced := other + "=" + ['"'] + quoted;
    PrintedShape(other, v, tail);
    SearchPasses("", ' ', spaced, name);
    SearchPasses(other + "=", '"', quoted, name);
    SearchPasses(v, '"', tail, name);
  }

  /** Past one printed attribute, or past none. */
  lemma PassAttribute(other: string, value: Option<string>, tail: string, name: string)
    requires Apart(name, other) && !Mentions(value.GetOr(""), name)
    ensures Attribute(PrintAttribute(other, value) + tail, name) == Attribute(tail, name)
  {
    match value
    case None => assert PrintAttribute(other, value) + tail == tail;
    case Some(v) => PassQuoted(other, v, tail, name);
  }

  lemma FindsPrinted(name: string, other: string, v: string, rest: string)
    requires Apart(name, other) && '"' !in v
    ensures Attribute(PrintAttribute(name, Some(v)) + rest, name) == Some(v)
  {
    var found := name + "=\"" + v + "\"" + rest;
    assert PrintAttribute(name, Some(v)) + rest == "" + [' '] + found;
    SearchPasses("", ' ', found, name);
    SearchFinds(name, v, rest);
  }

  lemma PassComma(name: string, other: string, title: string)
    requires Apart(name, other)
    ensures Attribute("," + title, name) == Attribute(title, name)
  {
    assert "," + title == "" + [','] + title;
    SearchPasses("", ',', title, name);
  }

  lemma ReachesAttribute(name: string, other: string, value: Option<string>, title: string)
    requires Apart(name, other) && '"' !in value.GetOr("") && (value.None? ==> !Mentions(title, name))
    ensures Attribute(PrintAttribute(name, value) + ("," + title), name) == value
  {
    match value
    case Some(v) => FindsPrinted(name, other, v, "," + title);
    case None =>
      assert PrintAttribute(name, value) + ("," + title) == "," + title;
      PassComma(name, other, title);
      NotMentioned(title, name);
  }

  /** The text before the attributes does not matter to a search for one of them. */
  lemma PassDuration(name: string, other: string, s: string)
    requires Apart(name, other) && s != "" && Outside(s[0], name)
    ensures Attribute("#EXTINF:-1" + s, name) == Attribute(s, name)
  {
    hide Attribute, Mentions, Outside;
    assert "#EXTINF:-1" + s == "#EXTINF:-1" + [s[0]] + s[1..];
    SearchPasses("#EXTINF:-1", s[0], s[1..], name);
    assert s == "" + [s[0]] + s[1..];
    SearchPasses("", s[0], s[1..], name);
  }

  /** The second attribute of a line is found past the first. */
  lemma FindsSecond(name: string, other: string, first: Option<string>, value: Option<string>, title: string)
    requires Apart(name, other) && '"' !in value.GetOr("")
    requires !Mentions(first.GetOr(""), name) && (value.None? ==> !Mentions(title, name))
    ensures Attribute("#EXTINF:-1" + (PrintAttribute(other, first) + (PrintAttribute(name, value) + ("," + title))), name)
         == value
  {
    var tail := PrintAttribute(name, value) + ("," + title);
    ReachesAttribute(name, other, value, title);
    PassAttribute(other, first, tail, name);
    PassDuration(name, other, PrintAttribute(other, first) + tail);
  }

  /** The first attribute of a line is found unless it is absent and something after it mentions it. */
  lemma FindsFirst(name: string, other: string, value: Option<string>, second: Option<string>, title: string)
    requires Apart(name, other) && '"' !in value.GetOr("")
    requires value.None? ==> !Mentions(second.GetOr(""), name) && !Mentions(title, name)
    ensures Attribute("#EXTINF:-1" + (PrintAttribute(name, value) + (PrintAttribute(other, second) + ("," + title))), name)
         == value
  {
    var tail := PrintAttribute(other, second) + ("," + title);
    PassDuration(name, other, PrintAttribute(name, value) + tail);
    match value
    case Some(v) => FindsPrinted(name, other, v, tail);
    case None =>
      assert PrintAttribute(name, value) + tail == tail;
      PassAttribute(other, second, "," + title, name);
      PassComma(name, other, title);
      NotMentioned(title, name);
  }

  lemma AttributesReadBack(e: Entry)
    requires Printable(e)
    ensures Attribute(PrintExtinf(e), GROUP_TITLE) == e.groupTitle
    ensures Attribute(PrintExtinf(e), TVG_LOGO) == e.logo
  {
    GroupTitleApart();
    TvgLogoApart();
    FindsFirst(GROUP_TITLE, TVG_LOGO, e.groupTitle, e.logo, e.displayTitle);
    FindsSecond(TVG_LOGO, GROUP_TITLE, e.groupTitle, e.logo, e.displayTitle);
  }

  lemma {:induction false} NothingAfter(s: string, c: char)
    requires c !in s
    ensures AfterLast(s, c) == None
  {
    if s != "" {
      NothingAfter(s[1..], c);
    }
  }

  lemma {:induction false} AfterLastFound(a: string, c: char, rest: string)
    requires c !in rest
    ensures AfterLast(a + [c] + rest, c) == Some(rest)
    decreases |a|
  {
    if a == "" {
      NothingAfter(rest, c);
      assert ("" + [c] + rest)[1..] == rest;
    } else {
      assert (a + [c] + rest)[1..] == a[1..] + [c] + rest;
      AfterLastFound(a[1..], c, rest);
    }
  }

  lemma TitleReadsBack(e: Entry)
    requires Printable(e)
    ensures DisplayTitle(PrintExtinf(e)) == e.displayTitle
  {
    var before := "#EXTINF:-1" + PrintAttribute(GROUP_TITLE, e.groupTitle) + PrintAttribute(TVG_LOGO, e.logo);
    assert PrintExtinf(e) == before + [','] + e.displayTitle;
    AfterLastFound(before, ',', e.displayTitle);
    TrimTrimmed(e.displayTitle);
  }

  lemma PrintedIsExtinf(e: Entry)
    requires Printable(e)
    ensures IsExtinf(PrintExtinf(e)) && Trim(PrintExtinf(e)) == PrintExtinf(e)
  {
    TrimTrimmed(PrintExtinf(e));
  }

  /** Two more lines, a header and its URL, are one more entry. */
  lemma HeaderAndUrl(above: seq<string>, extinf: string, url: string)
    requires IsExtinf(extinf) && IsUrlLine(url)
    ensures Entries(above + [extinf, url]) == Entries(above) + [EntryOf(Trim(extinf), Trim(url))]
  {
    hide IsExtinf, IsTransparent, IsStreamUrl, EntryOf;
    assert !IsUrlLine(extinf) && !IsExtinf(url) by {
      assert IsUrlLine(url);
    }
    var n := |above|;
    var lines := above + [extinf, url];
    assert lines[..n + 1] == above + [extinf];
    assert (above + [extinf])[..n] == above;
    assert Header(lines, n + 1) == Some(n);
  }

  lemma LooksIff(s: string, word: string)
    requires forall i :: 0 <= i < |word| ==> !('A' <= word[i] <= 'Z')
    ensures StartsWithIgnoringCase(s, word) <==> Looks(s, word)
  {
  }

  /** A line is a stream URL if the text in it starts with one of four schemes. */
  lemma StreamUrlIff(line: string)
    ensures IsStreamUrl(line) <==> HasScheme(Trim(line))
  {
    LooksIff(Trim(line), "http://");
    LooksIff(Trim(line), "https://");
  }

  lemma StreamUrlIsUrlLine(url: string)
    requires Trimmed(url) && HasScheme(url)
    ensures Trim(url) == url && IsUrlLine(url)
  {
    TrimTrimmed(url);
    StreamUrlIff(url);
  }

  lemma EntryReadsBack(above: seq<string>, e: Entry)
    requires Printable(e)
    ensures Entries(above + [PrintExtinf(e), e.url]) == Entries(above) + [e]
  {
    hide Attribute, DisplayTitle, Trim, IsExtinf, IsUrlLine, Mentions, Entries, PrintExtinf;
    AttributesReadBack(e);
    TitleReadsBack(e);
    PrintedIsExtinf(e);
    StreamUrlIsUrlLine(e.url);
    HeaderAndUrl(above, PrintExtinf(e), e.url);
  }

  ghost predicate AllPrintable(entries: seq<Entry>) {
    forall i :: 0 <= i < |entries| ==> Printable(entries[i])
  }

  lemma LastPrintable(entries: seq<Entry>)
    requires AllPrintable(entries) && entries != []
    ensures AllPrintable(entries[..|entries| - 1]) && Printable(entries[|entries| - 1])
  {
  }

  lemma PrintLast(entries: seq<Entry>, e: Entry)
    ensures Print(entries + [e]) == Print(entries) + [PrintExtinf(e), e.url]
  {
    assert (entries + [e])[..|entries|] == entries;
  }

  lemma OneMoreReadsBack(entries: seq<Entry>, e: Entry)
    requires Printable(e) && Entries(Print(entries)) == entries
    ensures Entries(Print(entries + [e])) == entries + [e]
  {
    hide *;
    PrintLast(entries, e);
    EntryReadsBack(Print(entries), e);
  }

  lemma NothingReadsBack(entries: seq<Entry>)
    requires entries == []
    ensures Entries(Print(entries)) == entries
  {
  }

  /** A printed playlist reads back as its entries. */
  lemma {:induction false} PrintReadsBack(entries: seq<Entry>)
    requires AllPrintable(entries)
    ensures Entries(Print(entries)) == entries
  {
    hide *;
    if entries == [] {
      NothingReadsBack(entries);
    } else {
      var rest, last := entries[..|entries| - 1], entries[|entries| - 1];
      LastPrintable(entries);
      PrintReadsBack(rest);
      OneMoreReadsBack(rest, last);
      assert entries == rest + [last];
    }
  }
}

/**
 * What a playlist says, line by line: which lines are headers, blank or directives, and URLs, what a
 * header says of its entry, and which lines make which entry.
 */
module PlaylistLines {
  import opened Wrappers
  import opened Playlist

  /** The 25 characters that are trimmed. */
  const WHITE: string :=
    "\t\n\U{000B}\U{000C}\r \U{00A0}\U{1680}\U{2000}\U{2001}\U{2002}\U{2003}\U{2004}\U{2005}\U{2006}\U{2007}\U{2008}"
    + "\U{2009}\U{200A}\U{2028}\U{2029}\U{202F}\U{205F}\U{3000}\U{FEFF}"

  predicate White(c: char) {
    c in WHITE
  }

  lemma SpaceIff(c: char)
    ensures IsSpace(c) <==> White(c)
  {
    if IsSpace(c) {
      var n := c as int;
      var k := if n <= 0x0D then n - 9 else if n == 0x20 then 5 else if n == 0xA0 then 6 else if n == 0x1680 then 7
               else if n <= 0x200A then n - 0x2000 + 8 else if n == 0x2028 then 19 else if n == 0x2029 then 20
               else if n == 0x202F then 21 else if n == 0x205F then 22 else if n == 0x3000 then 23 else 24;
      assert WHITE[k] == c;
    }
  }

  predicate Blank(s: string) {
    forall i :: 0 <= i < |s| ==> White(s[i])
  }

  /** `t` is `s` without the white space around it. */
  ghost predicate IsTrimOf(s: string, t: string) {
    && (exists pre: string, post: string :: s == pre + t + post && Blank(pre) && Blank(post))
    && (t != "" ==> !White(t[0]) && !White(t[|t| - 1]))
  }

  lemma {:induction false} DroppedAreSpaces(s: string) returns (post: string)
    ensures s == DropTrailingSpaces(s) + post && Blank(post)
  {
    hide White, IsSpace;
    if s == "" || !IsSpace(s[|s| - 1]) {
      post := "";
    } else {
      post := DroppedAreSpaces(s[..|s| - 1]);
      SpaceIff(s[|s| - 1]);
      post := post + [s[|s| - 1]];
    }
  }

  lemma {:induction false} SkippedAreSpaces(s: string) returns (pre: string)
    ensures s == pre + SkipSpaces(s) && Blank(pre)
  {
    hide White, IsSpace;
    if s == "" || !IsSpace(s[0]) {
      pre := "";
    } else {
      pre := SkippedAreSpaces(s[1..]);
      SpaceIff(s[0]);
      pre := [s[0]] + pre;
    }
  }

  /** Trimming takes the white space around a text and nothing else. */
  lemma TrimIs(s: string)
    ensures IsTrimOf(s, Trim(s)) && (Trim(s) == "" <==> Blank(s))
  {
    hide White, IsSpace;
    var post := DroppedAreSpaces(s);
    var pre := SkippedAreSpaces(DropTrailingSpaces(s));
    assert s == pre + Trim(s) + post;
    TrimIsTrimmed(s);
    if Trim(s) != "" {
      SpaceIff(Trim(s)[0]);
      SpaceIff(Trim(s)[|Trim(s)| - 1]);
      assert s[|pre|] == Trim(s)[0];
    }
  }

  lemma {:induction false} SkipOver(a: string, rest: string)
    requires Blank(a) && (rest == "" || !White(rest[0]))
    ensures SkipSpaces(a + rest) == rest
  {
    hide White, IsSpace;
    if a == "" {
      assert a + rest == rest;
      if rest != "" {
        SpaceIff(rest[0]);
      }
    } else {
      SpaceIff(a[0]);
      assert (a + rest)[1..] == a[1..] + rest;
      SkipOver(a[1..], rest);
    }
  }

  lemma {:induction false} DropOver(rest: string, post: string)
    requires Blank(post) && (rest == "" || !White(rest[|rest| - 1]))
    ensures DropTrailingSpaces(rest + post) == rest
  {
    hide White, IsSpace;
    if post == "" {
      assert rest + post == rest;
      if rest != "" {
        SpaceIff(rest[|rest| - 1]);
      }
    } else {
      var n := |post| - 1;
      SpaceIff(post[n]);
      assert (rest + post)[..|rest| + n] == rest + post[..n];
      DropOver(rest, post[..n]);
    }
  }

  /** A text has one trimmed form. */
  lemma TrimUnique(s: string, t: string)
    requires IsTrimOf(s, t)
    ensures t == Trim(s)
  {
    hide White;
    var pre, post :| s == pre + t + post && Blank(pre) && Blank(post);
    if t == "" {
      assert Blank(s);
      TrimIs(s);
    } else {
      assert White((pre + t)[|pre + t| - 1]) == White(t[|t| - 1]);
      DropOver(pre + t, post);
      SkipOver(pre, t);
    }
  }

  // Attributes

  /** White space, `=`, white space, and the value in quotes. */
  predicate Quoted(t: string, a: string, b: string, v: string, rest: string) {
    t == a + "=" + b + "\"" + v + "\"" + rest && Blank(a) && Blank(b) && '"' !in v
  }

  ghost predicate HasHere(s: string, name: string, v: string) {
    Looks(s, name) && exists a, b, rest :: Quoted(s[|name|..], a, b, v, rest)
  }

  ghost predicate NoneBefore(s: string, n: nat, name: string) {
    forall p: nat, v | p < n && p <= |s| :: !HasHere(s[p..], name, v)
  }

  /** The value of the leftmost attribute of that name, the name in letters of either case. */
  ghost predicate IsAttribute(s: string, name: string, value: Option<string>) {
    match value
    case Some(v) => exists p: nat :: p <= |s| && HasHere(s[p..], name, v) && NoneBefore(s, p, name)
    case None => NoneBefore(s, |s| + 1, name)
  }

  lemma {:induction false} UpToIs(u: string, c: char)
    ensures match UpTo(u, c)
            case Some(v) => |v| < |u| && u == v + [c] + u[|v| + 1..] && c !in v
            case None => c !in u
  {
    if u != "" && u[0] != c {
      UpToIs(u[1..], c);
      if UpTo(u, c).Some? {
        var v := UpTo(u[1..], c).value;
        assert u == [u[0]] + (v + [c] + u[1..][|v| + 1..]);
      }
    }
  }

  /** What follows a name: the reader's steps over the same text. */
  lemma QuotedIs(t: string, v: string)
    requires var u := SkipSpaces(t);
             u != "" && u[0] == '=' && SkipSpaces(u[1..]) != "" && SkipSpaces(u[1..])[0] == '"'
             && UpTo(SkipSpaces(u[1..])[1..], '"') == Some(v)
    ensures exists a, b, rest :: Quoted(t, a, b, v, rest)
  {
    hide White, Blank, SkipSpaces, UpTo;
    var u := SkipSpaces(t);
    var w := SkipSpaces(u[1..]);
    var a := SkippedAreSpaces(t);
    var b := SkippedAreSpaces(u[1..]);
    UpToIs(w[1..], '"');
    var rest := w[1..][|v| + 1..];
    assert u == "=" + (b + w) && w == "\"" + (v + "\"" + rest);
    assert t == a + "=" + b + "\"" + v + "\"" + rest;
    assert Quoted(t, a, b, v, rest);
  }

  lemma QuotedReads(t: string, a: string, b: string, v: string, rest: string)
    requires Quoted(t, a, b, v, rest)
    ensures var u := SkipSpaces(t);
            && u != "" && u[0] == '=' && SkipSpaces(u[1..]) != "" && SkipSpaces(u[1..])[0] == '"'
            && UpTo(SkipSpaces(u[1..])[1..], '"') == Some(v)
  {
    hide SkipSpaces, UpTo, Blank;
    var w := "\"" + v + "\"" + rest;
    assert t == a + ("=" + b + w);
    assert !White('=') && !White('"');
    hide White;
    SkipOver(a, "=" + b + w);
    assert ("=" + b + w)[1..] == b + w;
    SkipOver(b, w);
    assert w[1..] == v + ['"'] + rest;
    UpToFound(v, '"', rest);
  }

  lemma ReadHere(s: string, name: string, v: string)
    requires forall i :: 0 <= i < |name| ==> !('A' <= name[i] <= 'Z')
    requires AttributeHere(s, name) == Some(v)
    ensures HasHere(s, name, v)
  {
    hide White, Quoted, SkipSpaces, UpTo;
    LooksIff(s, name);
    QuotedIs(s[|name|..], v);
  }

  lemma FoundHere(s: string, name: string, v: string)
    requires forall i :: 0 <= i < |name| ==> !('A' <= name[i] <= 'Z')
    requires HasHere(s, name, v)
    ensures AttributeHere(s, name) == Some(v)
  {
    hide SkipSpaces, UpTo, Quoted;
    LooksIff(s, name);
    var a, b, rest :| Quoted(s[|name|..], a, b, v, rest);
    QuotedReads(s[|name|..], a, b, v, rest);
  }

  lemma HereIff(s: string, name: string)
    requires forall i :: 0 <= i < |name| ==> !('A' <= name[i] <= 'Z')
    ensures forall v :: HasHere(s, name, v) <==> AttributeHere(s, name) == Some(v)
  {
    forall v
      ensures HasHere(s, name, v) <==> AttributeHere(s, name) == Some(v)
    {
      if HasHere(s, name, v) {
        FoundHere(s, name, v);
      }
      if AttributeHere(s, name) == Some(v) {
        ReadHere(s, name, v);
      }
    }
  }

  lemma {:induction false} AttributeIs(s: string, name: string)
    requires forall i :: 0 <= i < |name| ==> !('A' <= name[i] <= 'Z')
    ensures IsAttribute(s, name, Attribute(s, name))
  {
    hide HasHere, AttributeHere;
    HereIff(s, name);
    assert s[0..] == s;
    if AttributeHere(s, name).None? && s != "" {
      var rest := s[1..];
      AttributeIs(rest, name);
      assert forall p: nat {:trigger s[p..]} | 1 <= p <= |s| :: s[p..] == rest[p - 1..];
      match Attribute(s, name)
      case Some(v) =>
        var q: nat :| q <= |rest| && HasHere(rest[q..], name, v) && NoneBefore(rest, q, name);
        assert rest[q..] == s[q + 1..];
        assert NoneBefore(s, q + 1, name);
      case None =>
    }
  }

  // Titles

  /** `rest` follows the header's name, a colon and the word that gives the duration. */
  predicate PastDuration(line: string, a: string, b: string, word: string, rest: string) {
    && line == "#EXTINF" + a + ":" + b + word + rest && Blank(a) && Blank(b)
    && word != "" && (forall i :: 0 <= i < |word| ==> !White(word[i])) && (rest == "" || White(rest[0]))
  }

  ghost predicate HasDuration(line: string) {
    exists a, b, word, rest :: PastDuration(line, a, b, word, rest)
  }

  /** The text after the last comma; without a comma, after the duration; without either, all of it. */
  ghost predicate IsTitle(line: string, title: string) {
    if ',' in line then exists a, b :: line == a + "," + b && ',' !in b && IsTrimOf(b, title)
    else if HasDuration(line) then
      exists a, b, word, rest :: PastDuration(line, a, b, word, rest) && IsTrimOf(rest, title)
    else IsTrimOf(line, title)
  }

  lemma {:induction false} AfterLastIs(s: string, c: char)
    ensures match AfterLast(s, c)
            case Some(t) => |t| < |s| && s == s[..|s| - |t| - 1] + [c] + t && c !in t
            case None => c !in s
  {
    if s != "" {
      AfterLastIs(s[1..], c);
    }
  }

  lemma {:induction false} SkipWordIs(s: string) returns (word: string)
    ensures s == word + SkipWord(s) && (SkipWord(s) == "" || White(SkipWord(s)[0]))
    ensures forall i :: 0 <= i < |word| ==> !White(word[i])
    ensures s != "" && !White(s[0]) ==> word != ""
  {
    hide White, IsSpace;
    if s == "" {
      word := "";
    } else {
      SpaceIff(s[0]);
      if IsSpace(s[0]) {
        word := "";
      } else {
        word := SkipWordIs(s[1..]);
        word := [s[0]] + word;
      }
    }
  }

  lemma {:induction false} SkipWordOver(word: string, rest: string)
    requires forall i :: 0 <= i < |word| ==> !White(word[i])
    requires rest == "" || White(rest[0])
    ensures SkipWord(word + rest) == rest
  {
    hide White, IsSpace;
    if word == "" {
      assert word + rest == rest;
      if rest != "" {
        SpaceIff(rest[0]);
      }
    } else {
      SpaceIff(word[0]);
      assert (word + rest)[1..] == word[1..] + rest;
      SkipWordOver(word[1..], rest);
    }
  }

  /** Leading white space makes no difference to what is trimmed. */
  lemma TrimOfSkipped(s: string)
    ensures IsTrimOf(s, Trim(SkipSpaces(s)))
  {
    hide White, Trim, SkipSpaces;
    var u := SkipSpaces(s);
    var first := SkippedAreSpaces(s);
    TrimIs(u);
    var pre, post :| u == pre + Trim(u) + post && Blank(pre) && Blank(post);
    assert s == (first + pre) + Trim(u) + post;
  }

  lemma DurationIsPassed(line: string, a: string, b: string, word: string, rest: string)
    requires PastDuration(line, a, b, word, rest)
    ensures WithoutDuration(line) == SkipSpaces(rest)
  {
    hide SkipSpaces, SkipWord, Blank;
    var u := word + rest;
    assert line == "#EXTINF" + (a + (":" + (b + u)));
    assert line[7..] == a + (":" + (b + u)) && (":" + (b + u))[1..] == b + u;
    assert !White(':') && u[0] == word[0];
    hide White;
    SkipOver(a, ":" + (b + u));
    SkipOver(b, u);
    SkipWordOver(word, rest);
  }

  lemma PassedIsDuration(line: string)
    requires "#EXTINF" <= line
    requires var t := SkipSpaces(line[7..]); t != "" && t[0] == ':' && SkipSpaces(t[1..]) != ""
    ensures HasDuration(line)
  {
    hide White, Blank, SkipSpaces, SkipWord;
    var t := SkipSpaces(line[7..]);
    var u := SkipSpaces(t[1..]);
    var a := SkippedAreSpaces(line[7..]);
    var b := SkippedAreSpaces(t[1..]);
    FirstIsNoSpace(t[1..]);
    var word := SkipWordIs(u);
    var rest := SkipWord(u);
    assert t == ":" + t[1..];
    assert line == "#EXTINF" + a + ":" + b + word + rest;
    assert PastDuration(line, a, b, word, rest);
  }

  lemma FirstIsNoSpace(s: string)
    requires SkipSpaces(s) != ""
    ensures !White(SkipSpaces(s)[0])
  {
    hide White, SkipSpaces;
    SkipEndsInside(s);
    SpaceIff(SkipSpaces(s)[0]);
  }

  lemma TitleIs(line: string)
    ensures IsTitle(line, DisplayTitle(line))
  {
    hide White, Blank, SkipSpaces, SkipWord, Trim, IsTrimOf, PastDuration, AfterLast;
    AfterLastIs(line, ',');
    match AfterLast(line, ',')
    case Some(t) =>
      TrimIs(t);
      assert line == line[..|line| - |t| - 1] + "," + t;
    case None =>
      if HasDuration(line) {
        var a, b, word, rest :| PastDuration(line, a, b, word, rest);
        DurationIsPassed(line, a, b, word, rest);
        TrimOfSkipped(rest);
      } else {
        if WithoutDuration(line) != line {
          PassedIsDuration(line);
        }
        TrimIs(line);
      }
  }

  // Lines

  ghost predicate IsHeader(line: string) {
    exists t :: IsTrimOf(line, t) && "#EXTINF" <= t
  }

  /** Blank, or a directive or comment that is no header. */
  ghost predicate IsNoise(line: string) {
    Blank(line) || exists t :: IsTrimOf(line, t) && t != "" && t[0] == '#' && !("#EXTINF" <= t)
  }

  ghost predicate IsUrl(line: string) {
    exists t :: IsTrimOf(line, t) && HasScheme(t)
  }

  lemma KindsOfLine(line: string)
    ensures IsExtinf(line) <==> IsHeader(line)
    ensures IsTransparent(line) <==> IsNoise(line)
    ensures IsUrlLine(line) <==> IsUrl(line)
  {
    hide White, Trim, IsTrimOf, Looks;
    TrimIs(line);
    TrimIsTrimmed(line);
    StreamUrlIff(Trim(line));
    forall t | IsTrimOf(line, t)
      ensures t == Trim(line)
    {
      TrimUnique(line, t);
    }
    SchemeStart(Trim(line));
  }

  lemma SchemeStart(t: string)
    ensures HasScheme(t) ==> t != "" && t[0] != '#'
  {
  }

  /** Line `j` is the header of the URL on line `i`: there is nothing but noise between them. */
  ghost predicate Announces(lines: seq<string>, j: nat, i: nat) {
    j < i < |lines| && IsHeader(lines[j]) && IsUrl(lines[i]) && forall k :: j < k < i ==> IsNoise(lines[k])
  }

  ghost predicate IsAnnounced(lines: seq<string>, i: nat) {
    exists j: nat :: Announces(lines, j, i)
  }

  /** How many of the first `n` lines are URLs with a header. */
  ghost function EntriesBefore(lines: seq<string>, n: nat): nat
    requires n <= |lines|
  {
    if n == 0 then 0
    else EntriesBefore(lines, n - 1) + if IsAnnounced(lines, n - 1) then 1 else 0
  }

  /** What a header and a URL line say together. */
  ghost predicate IsEntryOf(header: string, url: string, e: Entry) {
    && IsTrimOf(url, e.url)
    && exists h :: IsTrimOf(header, h) && IsTitle(h, e.displayTitle)
                && IsAttribute(h, "group-title", e.groupTitle) && IsAttribute(h, "tvg-logo", e.logo)
  }

  lemma EntryIs(header: string, url: string)
    ensures IsEntryOf(header, url, EntryOf(Trim(header), Trim(url)))
  {
    hide White, Trim, Attribute, DisplayTitle, IsTrimOf, IsTitle, IsAttribute;
    TrimIs(header);
    TrimIs(url);
    TrimIsTrimmed(url);
    TitleIs(Trim(header));
    AttributeIs(Trim(header), GROUP_TITLE);
    AttributeIs(Trim(header), TVG_LOGO);
  }

  lemma AnnouncesIff(lines: seq<string>, j: nat, i: nat)
    requires i < |lines|
    ensures Announces(lines, j, i) <==> Header(lines, i) == Some(j) && IsUrlLine(lines[i])
  {
    hide Header, IsExtinf, IsTransparent, IsUrlLine, IsHeader, IsNoise, IsUrl;
    HeaderDescribes(lines, i, j);
    forall k | 0 <= k < |lines|
      ensures IsExtinf(lines[k]) <==> IsHeader(lines[k])
      ensures IsTransparent(lines[k]) <==> IsNoise(lines[k])
      ensures IsUrlLine(lines[k]) <==> IsUrl(lines[k])
    {
      KindsOfLine(lines[k]);
    }
  }

  lemma AnnouncedIff(lines: seq<string>, i: nat)
    requires i < |lines|
    ensures IsAnnounced(lines, i) <==> Pending(lines, i).Some? && IsUrlLine(lines[i])
  {
    hide Header, IsUrlLine, Announces;
    forall j: nat
      ensures Announces(lines, j, i) <==> Header(lines, i) == Some(j) && IsUrlLine(lines[i])
    {
      AnnouncesIff(lines, j, i);
    }
  }

  lemma {:induction false} CountsUrls(lines: seq<string>, n: nat)
    requires n <= |lines|
    ensures |Entries(lines[..n])| == EntriesBefore(lines, n)
  {
    hide Header, IsUrlLine, IsAnnounced, EntryOf, Trim, Pending;
    if n == 0 {
    } else {
      CountsUrls(lines, n - 1);
      EntriesStep(lines, n - 1);
      AnnouncedIff(lines, n - 1);
    }
  }

  lemma {:induction false} EarlierEntriesStay(lines: seq<string>, i: nat, n: nat)
    requires i <= n <= |lines|
    ensures Entries(lines[..i]) <= Entries(lines[..n])
    decreases n
  {
    hide Header, IsUrlLine, EntryOf, Trim, Pending;
    if i == n {
    } else {
      EarlierEntriesStay(lines, i, n - 1);
      EntriesStep(lines, n - 1);
    }
  }

  /** Every URL with a header is one entry, in its place, that says what the two lines say; there are no others. */
  lemma EntryOfLines(lines: seq<string>, j: nat, i: nat)
    requires i < |lines| && Announces(lines, j, i)
    ensures j < |lines| && EntriesBefore(lines, i) < |Entries(lines)| == EntriesBefore(lines, |lines|)
    ensures IsEntryOf(lines[j], lines[i], Entries(lines)[EntriesBefore(lines, i)])
  {
    hide Header, IsUrlLine, EntryOf, Trim, Announces, IsEntryOf, Entries, EntriesBefore;
    assert lines[..|lines|] == lines;
    AnnouncesIff(lines, j, i);
    EntriesStep(lines, i);
    CountsUrls(lines, i);
    CountsUrls(lines, |lines|);
    EarlierEntriesStay(lines, i + 1, |lines|);
    EntryIs(lines[j], lines[i]);
  }
}

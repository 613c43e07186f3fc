/**
 * What the canonical JSON text of a value looks like, unit by unit: literals, numerals, string
 * escapes, and the order in which an object lists its members. With it, the preimages of the two
 * kinds of config are written out.
 */
module JsonShape {
  import opened Wrappers
  import opened JsonText
  import opened CanonicalJson
  import opened ConfigIdentity

  // Key order

  /** The texts agree up to `p`, where `a` ends or has the lower unit. */
  predicate DiffersAt(a: Text, b: Text, p: nat) {
    p <= |a| && p < |b| && a[..p] == b[..p] && (p == |a| || a[p] < b[p])
  }

  ghost predicate KeyBefore(a: Text, b: Text) {
    exists p: nat :: DiffersAt(a, b, p)
  }

  lemma {:induction false} LessDiffers(a: Text, b: Text) returns (p: nat)
    requires Less(a, b)
    ensures DiffersAt(a, b, p)
  {
    if a == [] || a[0] != b[0] {
      p := 0;
    } else {
      p := LessDiffers(a[1..], b[1..]);
      assert a[..p + 1] == [a[0]] + a[1..][..p] && b[..p + 1] == [b[0]] + b[1..][..p];
      p := p + 1;
    }
  }

  lemma {:induction false} DiffersLess(a: Text, b: Text, p: nat)
    requires DiffersAt(a, b, p)
    ensures Less(a, b)
  {
    if p > 0 {
      assert a[0] == a[..p][0] == b[..p][0] == b[0];
      assert a[1..][..p - 1] == a[..p][1..] && b[1..][..p - 1] == b[..p][1..];
      DiffersLess(a[1..], b[1..], p - 1);
    }
  }

  /** A key comes first if it is a prefix of the other, or has the lower code unit where they first differ. */
  lemma LessIff(a: Text, b: Text)
    ensures Less(a, b) <==> exists p: nat :: p <= |a| && p < |b| && a[..p] == b[..p] && (p == |a| || a[p] < b[p])
  {
    if Less(a, b) {
      var p := LessDiffers(a, b);
      assert p <= |a| && p < |b| && a[..p] == b[..p] && (p == |a| || a[p] < b[p]);
    }
    if p: nat :| p <= |a| && p < |b| && a[..p] == b[..p] && (p == |a| || a[p] < b[p]) {
      DiffersLess(a, b, p);
    }
  }

  // Lists

  /** The texts with a comma between each two. */
  function Commas(parts: seq<Text>): Text {
    if parts == [] then []
    else if |parts| == 1 then parts[0]
    else Commas(parts[..|parts| - 1]) + [0x2C] + parts[|parts| - 1]
  }

  lemma {:induction false} CommasFromFront(parts: seq<Text>)
    requires |parts| >= 2
    ensures Commas(parts) == parts[0] + [0x2C] + Commas(parts[1..])
  {
    var n := |parts| - 1;
    var last := parts[n];
    if n == 1 {
      assert parts[..1] == [parts[0]] && parts[1..] == [last];
    } else {
      CommasFromFront(parts[..n]);
      assert parts[..n][1..] == parts[1..][..n - 1] && parts[1..][n - 1] == last;
      var middle := Commas(parts[1..][..n - 1]);
      assert parts[0] + [0x2C] + middle + [0x2C] + last == parts[0] + [0x2C] + (middle + [0x2C] + last);
    }
  }

  lemma {:induction false} JoinIsCommas(parts: seq<Text>)
    ensures Join(parts) == Commas(parts)
  {
    if |parts| >= 2 {
      JoinIsCommas(parts[1..]);
      CommasFromFront(parts);
    }
  }

  lemma {:induction false} PrintedItems(vs: seq<Json>)
    ensures |PrintItems(vs)| == |vs| && forall i :: 0 <= i < |vs| ==> PrintItems(vs)[i] == StableStringify(vs[i])
  {
    if vs == [] {
    } else {
      PrintedItems(vs[1..]);
      assert forall i :: 1 <= i < |vs| ==> vs[i] == vs[1..][i - 1];
    }
  }

  /** A member's text: the key as a string literal, a colon, the value. */
  predicate IsMemberText(m: Member, t: Text) {
    t == Quote(m.key) + [0x3A] + StableStringify(m.value)
  }

  lemma {:induction false} PrintedMembers(ms: seq<Member>, owner: Json)
    requires forall m | m in ms :: m.value < owner
    ensures |PrintMembers(ms, owner)| == |ms|
    ensures forall i :: 0 <= i < |ms| ==> IsMemberText(ms[i], PrintMembers(ms, owner)[i])
    decreases |ms|
  {
    hide StableStringify, Quote;
    if ms == [] {
    } else {
      PrintedMembers(ms[1..], owner);
      assert forall i :: 1 <= i < |ms| ==> ms[i] == ms[1..][i - 1];
    }
  }

  /** An array's text: the items' texts in their order. */
  lemma ArrayText(items: seq<Json>) returns (parts: seq<Text>)
    ensures StableStringify(Arr(items)) == [0x5B] + Commas(parts) + [0x5D]
    ensures |parts| == |items| && forall i :: 0 <= i < |items| ==> parts[i] == StableStringify(items[i])
  {
    parts := PrintItems(items);
    PrintedItems(items);
    JoinIsCommas(parts);
  }

  /** An object's text: each member once, the keys ascending by code unit. */
  lemma ObjectText(ms: seq<Member>) returns (order: seq<Member>, parts: seq<Text>)
    requires DistinctKeys(ms)
    ensures StableStringify(Obj(ms)) == [0x7B] + Commas(parts) + [0x7D]
    ensures |order| == |ms| && forall m :: m in order <==> m in ms
    ensures forall i, j :: 0 <= i < j < |order| ==> KeyBefore(order[i].key, order[j].key)
    ensures |parts| == |order| && forall i :: 0 <= i < |order| ==> IsMemberText(order[i], parts[i])
  {
    hide IsMemberText, KeyBefore, Less;
    order := SortByKey(ms);
    parts := PrintMembers(order, Obj(ms));
    PrintedMembers(order, Obj(ms));
    JoinIsCommas(parts);
    SortByKeySorted(ms);
    forall i, j | 0 <= i < j < |order|
      ensures KeyBefore(order[i].key, order[j].key)
    {
      KeyOrder(order[i].key, order[j].key);
    }
  }

  lemma KeyOrder(a: Text, b: Text)
    requires Less(a, b)
    ensures KeyBefore(a, b)
  {
    var p := LessDiffers(a, b);
  }

  // Scalars

  /** `null`, also for `undefined`, `true` and `false`. */
  lemma WordText(b: bool)
    ensures StableStringify(Null) == StableStringify(Undefined) == Ascii("null")
    ensures StableStringify(Bool(b)) == Ascii(if b then "true" else "false")
  {
  }

  /** A text given by its characters; one past ASCII counts as the replacement character. */
  function Ascii(s: string): (t: Text)
    ensures |t| == |s|
  {
    seq(|s|, i requires 0 <= i < |s| => if s[i] as int < 0x80 then s[i] as int else 0xFFFD)
  }

  /** An integer's text: its decimal digits, the last one last, behind a minus sign if it is negative. */
  lemma NumberText(n: int)
    ensures 0 <= n < 10 ==> StableStringify(Num(n)) == [0x30 + n]
    ensures n >= 10 ==> StableStringify(Num(n)) == StableStringify(Num(n / 10)) + [0x30 + n % 10]
    ensures n < 0 ==> StableStringify(Num(n)) == [0x2D] + StableStringify(Num(-n))
  {
  }

  // Strings

  /** A surrogate that is not half of a pair. */
  predicate IsLone(s: Text, i: nat)
    requires i < |s|
  {
    || (0xD800 <= s[i] <= 0xDBFF && !(i + 1 < |s| && 0xDC00 <= s[i + 1] <= 0xDFFF))
    || (0xDC00 <= s[i] <= 0xDFFF && !(i > 0 && 0xD800 <= s[i - 1] <= 0xDBFF))
  }

  predicate IsHex(d: int, u: CodeUnit) {
    0 <= d < 16 && "0123456789abcdef"[d] as int == u
  }

  /** A backslash, `u` and the unit as four lower-case hexadecimal digits. */
  ghost predicate IsHexEscape(u: CodeUnit, t: Text) {
    && |t| == 6 && t[0] == 0x5C && t[1] == 0x75
    && exists a, b, c, d :: IsHex(a, t[2]) && IsHex(b, t[3]) && IsHex(c, t[4]) && IsHex(d, t[5])
                         && u == 0x1000 * a + 0x100 * b + 0x10 * c + d
  }

  /** What stands for the string's unit at `i`: halves of a pair and ordinary units stand for themselves. */
  ghost predicate SpelledAt(s: Text, i: nat, t: Text)
    requires i < |s|
  {
    if s[i] == 0x22 || s[i] == 0x5C then t == [0x5C, s[i]]
    else if s[i] == 0x08 then t == Ascii("\\b")
    else if s[i] == 0x09 then t == Ascii("\\t")
    else if s[i] == 0x0A then t == Ascii("\\n")
    else if s[i] == 0x0C then t == Ascii("\\f")
    else if s[i] == 0x0D then t == Ascii("\\r")
    else if s[i] < 0x20 || IsLone(s, i) then IsHexEscape(s[i], t)
    else t == [s[i]]
  }

  function Concat(parts: seq<Text>): Text {
    if parts == [] then [] else parts[0] + Concat(parts[1..])
  }

  lemma HexEscaped(u: CodeUnit)
    ensures IsHexEscape(u, [0x5C, 0x75, HexUnit(u / 16 / 16 / 16), HexUnit(u / 16 / 16 % 16), HexUnit(u / 16 % 16), HexUnit(u % 16)])
  {
    HexDigits(u);
    HexUnitIsHex(u / 16 / 16 / 16);
    HexUnitIsHex(u / 16 / 16 % 16);
    HexUnitIsHex(u / 16 % 16);
    HexUnitIsHex(u % 16);
    var t := [0x5C, 0x75, HexUnit(u / 16 / 16 / 16), HexUnit(u / 16 / 16 % 16), HexUnit(u / 16 % 16), HexUnit(u % 16)];
    assert IsHex(u / 16 / 16 / 16, t[2]) && IsHex(u / 16 / 16 % 16, t[3]) && IsHex(u / 16 % 16, t[4]) && IsHex(u % 16, t[5]);
  }

  lemma HexUnitIsHex(d: int)
    requires 0 <= d < 16
    ensures IsHex(d, HexUnit(d))
  {
  }

  lemma UnitSpelled(s: Text, i: nat)
    requires i < |s| && (IsHighSurrogate(s[i]) || IsLowSurrogate(s[i]) ==> IsLone(s, i))
    ensures SpelledAt(s, i, EscapeUnit(s[i]))
  {
    hide IsHexEscape, HexUnit;
    HexEscaped(s[i]);
  }

  /** The scan stands between two units that are not a pair. */
  predicate Between(s: Text, k: nat) {
    0 < k < |s| && IsHighSurrogate(s[k - 1]) ==> !IsLowSurrogate(s[k])
  }

  lemma {:induction false} Spelled(s: Text, k: nat) returns (parts: seq<Text>)
    requires k <= |s| && Between(s, k)
    ensures Escape(s[k..]) == Concat(parts)
    ensures |parts| == |s| - k && forall i :: 0 <= i < |parts| ==> SpelledAt(s, k + i, parts[i])
    decreases |s| - k
  {
    hide SpelledAt, EscapeUnit;
    if k == |s| {
      parts := [];
    } else if k + 1 < |s| && IsHighSurrogate(s[k]) && IsLowSurrogate(s[k + 1]) {
      var rest := Spelled(s, k + 2);
      assert s[k..][..2] == [s[k]] + [s[k + 1]] && s[k..][2..] == s[k + 2..];
      PairSpelled(s, k);
      parts := [[s[k]]] + ([[s[k + 1]]] + rest);
      assert parts[1..] == [[s[k + 1]]] + rest;
      assert Concat(parts) == [s[k]] + ([s[k + 1]] + Concat(rest));
    } else {
      var rest := Spelled(s, k + 1);
      assert s[k..][1..] == s[k + 1..];
      UnitSpelled(s, k);
      parts := [EscapeUnit(s[k])] + rest;
    }
  }

  lemma PairSpelled(s: Text, k: nat)
    requires k + 1 < |s| && IsHighSurrogate(s[k]) && IsLowSurrogate(s[k + 1])
    ensures SpelledAt(s, k, [s[k]]) && SpelledAt(s, k + 1, [s[k + 1]])
  {
  }

  /** A string's text: between quotes, the spelling of each of its units in their order. */
  lemma StringText(s: Text) returns (parts: seq<Text>)
    ensures StableStringify(Str(s)) == Quote(s) == [0x22] + Concat(parts) + [0x22]
    ensures |parts| == |s| && forall i :: 0 <= i < |s| ==> SpelledAt(s, i, parts[i])
  {
    hide SpelledAt;
    parts := Spelled(s, 0);
    assert s[0..] == s;
  }

  // Preimages

  /** A member of an object, the key given by its characters. */
  function MemberAs(key: string, value: Text): Text
  {
    [0x22] + Ascii(key) + [0x22, 0x3A] + value
  }

  predicate IsPlain(t: Text) {
    forall i :: 0 <= i < |t| ==> 0x20 <= t[i] < 0x7F && t[i] != QUOTE && t[i] != BACKSLASH
  }

  lemma {:induction false} PlainIsItself(t: Text)
    requires IsPlain(t)
    ensures Escape(t) == t
  {
    if t == [] {
    } else {
      PlainIsItself(t[1..]);
      assert t == [t[0]] + t[1..];
    }
  }

  lemma MemberTextAs(m: Member, key: string)
    requires m.key == Ascii(key) && IsPlain(m.key)
    ensures IsMemberText(m, MemberAs(key, StableStringify(m.value)))
  {
    hide StableStringify;
    PlainIsItself(m.key);
    var v := StableStringify(m.value);
    assert [0x22] + m.key + [0x22] + [0x3A] + v == [0x22] + m.key + [0x22, 0x3A] + v;
  }

  lemma {:induction false} AscendingIsSorted(ms: seq<Member>)
    requires forall i, j :: 0 <= i && j == i + 1 && j < |ms| ==> Less(ms[i].key, ms[j].key)
    ensures Sorted(ms)
  {
    hide Less;
    if ms == [] {
    } else {
      AscendingIsSorted(ms[1..]);
      forall i, j | 0 <= i < j < |ms|
        ensures Less(ms[i].key, ms[j].key)
      {
        assert ms[j] == ms[1..][j - 1];
        if i > 0 {
          assert ms[i] == ms[1..][i - 1];
        } else if j > 1 {
          assert ms[1] == ms[1..][0];
          LessTransitive(ms[0].key, ms[1].key, ms[j].key);
        }
      }
    }
  }

  lemma SameMemberTexts(ms: seq<Member>, parts: seq<Text>, others: seq<Text>)
    requires |parts| == |others| == |ms|
    requires forall i :: 0 <= i < |ms| ==> IsMemberText(ms[i], parts[i]) && IsMemberText(ms[i], others[i])
    ensures parts == others
  {
    hide StableStringify, Quote;
  }

  lemma SortedObjectText(ms: seq<Member>, parts: seq<Text>)
    requires Sorted(ms) && |parts| == |ms| && forall i :: 0 <= i < |ms| ==> IsMemberText(ms[i], parts[i])
    ensures StableStringify(Obj(ms)) == [0x7B] + Commas(parts) + [0x7D]
  {
    hide Sorted, IsMemberText, Commas, Join;
    SortOfSorted(ms);
    PrintedMembers(ms, Obj(ms));
    SameMemberTexts(ms, parts, PrintMembers(ms, Obj(ms)));
    JoinIsCommas(parts);
  }

  lemma KeysAscend()
    ensures Less(KEY_CUSTOM_EPG, KEY_EPG_OFFSET) && Less(KEY_EPG_OFFSET, KEY_EPG_URL) && Less(KEY_EPG_URL, KEY_HAS_CUSTOM_EPG)
    ensures Less(KEY_HAS_CUSTOM_EPG, KEY_M3U_URL) && Less(KEY_M3U_URL, KEY_V)
    ensures Less(KEY_HAS_CUSTOM_EPG, KEY_PANEL_PASSWORD) && Less(KEY_PANEL_PASSWORD, KEY_PANEL_USERNAME)
    ensures Less(KEY_PANEL_USERNAME, KEY_URL) && Less(KEY_URL, KEY_V)
  {
    hide Less;
    DiffersLess(KEY_CUSTOM_EPG, KEY_EPG_OFFSET, 0);
    DiffersLess(KEY_EPG_OFFSET, KEY_EPG_URL, 4);
    DiffersLess(KEY_EPG_URL, KEY_HAS_CUSTOM_EPG, 0);
    DiffersLess(KEY_HAS_CUSTOM_EPG, KEY_M3U_URL, 0);
    DiffersLess(KEY_M3U_URL, KEY_V, 0);
    DiffersLess(KEY_HAS_CUSTOM_EPG, KEY_PANEL_PASSWORD, 0);
    DiffersLess(KEY_PANEL_PASSWORD, KEY_PANEL_USERNAME, 6);
    DiffersLess(KEY_PANEL_USERNAME, KEY_URL, 0);
    DiffersLess(KEY_URL, KEY_V, 0);
  }

  /** A direct config's members: only the two URLs' escapes and the offset's digits are left open. */
  function DirectMembers(input: DirectInput, normalizeUrl: Text -> Text): seq<Text> {
    [ MemberAs("epg_offset", StableStringify(Num(input.epgOffset))),
      MemberAs("epg_url", Quote(normalizeUrl(input.epgUrl.GetOr([])))),
      MemberAs("has_custom_epg", Ascii(if input.hasCustomEpg then "true" else "false")),
      MemberAs("m3u_url", Quote(normalizeUrl(input.m3uUrl))),
      MemberAs("v", Ascii("1")) ]
  }

  function XtreamMembers(input: XtreamInput, normalizeUrl: Text -> Text): seq<Text> {
    [ MemberAs("custom_epg", Quote(input.customEpg.GetOr([]))),
      MemberAs("epg_offset", StableStringify(Num(input.epgOffset))),
      MemberAs("epg_url", Quote(normalizeUrl(input.epgUrl.GetOr([])))),
      MemberAs("has_custom_epg", Ascii(if input.hasCustomEpg then "true" else "false")),
      MemberAs("panel_password", Quote(input.panelPassword)),
      MemberAs("panel_username", Quote(input.panelUsername)),
      MemberAs("url", Quote(normalizeUrl(input.panelUrl))),
      MemberAs("v", Ascii("1")) ]
  }

  lemma SharedKeysReadAs()
    ensures KEY_EPG_OFFSET == Ascii("epg_offset") && IsPlain(KEY_EPG_OFFSET)
    ensures KEY_EPG_URL == Ascii("epg_url") && IsPlain(KEY_EPG_URL)
    ensures KEY_V == Ascii("v") && IsPlain(KEY_V)
  {
  }

  lemma DirectKeysReadAs()
    ensures KEY_HAS_CUSTOM_EPG == Ascii("has_custom_epg") && IsPlain(KEY_HAS_CUSTOM_EPG)
    ensures KEY_M3U_URL == Ascii("m3u_url") && IsPlain(KEY_M3U_URL)
  {
  }

  lemma PanelKeysReadAs()
    ensures KEY_PANEL_PASSWORD == Ascii("panel_password") && IsPlain(KEY_PANEL_PASSWORD)
    ensures KEY_PANEL_USERNAME == Ascii("panel_username") && IsPlain(KEY_PANEL_USERNAME)
  {
  }

  lemma OtherKeysReadAs()
    ensures KEY_CUSTOM_EPG == Ascii("custom_epg") && IsPlain(KEY_CUSTOM_EPG)
    ensures KEY_URL == Ascii("url") && IsPlain(KEY_URL)
  {
  }

  lemma ScalarTexts(b: bool, s: Text)
    ensures StableStringify(Num(1)) == Ascii("1")
    ensures StableStringify(Bool(b)) == Ascii(if b then "true" else "false")
    ensures StableStringify(Str(s)) == Quote(s)
  {
    NumberText(1);
    WordText(b);
  }

  lemma DirectMembersPrint(input: DirectInput, normalizeUrl: Text -> Text)
    ensures var ms, parts := DirectPayload(input, normalizeUrl).members, DirectMembers(input, normalizeUrl);
            |parts| == |ms| && forall i :: 0 <= i < |ms| ==> IsMemberText(ms[i], parts[i])
  {
    hide Less, IsMemberText, MemberAs, Ascii, IsPlain, StableStringify, Quote;
    var ms := DirectPayload(input, normalizeUrl).members;
    SharedKeysReadAs();
    DirectKeysReadAs();
    ScalarTexts(input.hasCustomEpg, normalizeUrl(input.epgUrl.GetOr([])));
    ScalarTexts(input.hasCustomEpg, normalizeUrl(input.m3uUrl));
    MemberTextAs(ms[0], "epg_offset");
    MemberTextAs(ms[1], "epg_url");
    MemberTextAs(ms[2], "has_custom_epg");
    MemberTextAs(ms[3], "m3u_url");
    MemberTextAs(ms[4], "v");
  }

  lemma XtreamMembersPrint(input: XtreamInput, normalizeUrl: Text -> Text)
    ensures var ms, parts := XtreamPayload(input, normalizeUrl).members, XtreamMembers(input, normalizeUrl);
            |parts| == |ms| && forall i :: 0 <= i < |ms| ==> IsMemberText(ms[i], parts[i])
  {
    hide Less, IsMemberText, MemberAs, Ascii, IsPlain, StableStringify, Quote;
    var ms := XtreamPayload(input, normalizeUrl).members;
    SharedKeysReadAs();
    DirectKeysReadAs();
    PanelKeysReadAs();
    OtherKeysReadAs();
    ScalarTexts(input.hasCustomEpg, input.customEpg.GetOr([]));
    ScalarTexts(input.hasCustomEpg, normalizeUrl(input.epgUrl.GetOr([])));
    ScalarTexts(input.hasCustomEpg, input.panelPassword);
    ScalarTexts(input.hasCustomEpg, input.panelUsername);
    ScalarTexts(input.hasCustomEpg, normalizeUrl(input.panelUrl));
    MemberTextAs(ms[0], "custom_epg");
    MemberTextAs(ms[1], "epg_offset");
    MemberTextAs(ms[2], "epg_url");
    MemberTextAs(ms[3], "has_custom_epg");
    MemberTextAs(ms[4], "panel_password");
    MemberTextAs(ms[5], "panel_username");
    MemberTextAs(ms[6], "url");
    MemberTextAs(ms[7], "v");
  }

  /** A direct config's preimage, unit by unit. */
  lemma DirectPreimageText(input: DirectInput, normalizeUrl: Text -> Text)
    ensures DirectPreimage(input, normalizeUrl) == [0x7B] + Commas(DirectMembers(input, normalizeUrl)) + [0x7D]
  {
    hide Less, IsMemberText, DirectMembers, StableStringify;
    var ms := DirectPayload(input, normalizeUrl).members;
    KeysAscend();
    AscendingIsSorted(ms);
    DirectMembersPrint(input, normalizeUrl);
    SortedObjectText(ms, DirectMembers(input, normalizeUrl));
  }

  /** An Xtream config's preimage, unit by unit. */
  lemma XtreamPreimageText(input: XtreamInput, normalizeUrl: Text -> Text)
    ensures XtreamPreimage(input, normalizeUrl) == [0x7B] + Commas(XtreamMembers(input, normalizeUrl)) + [0x7D]
  {
    hide Less, IsMemberText, XtreamMembers, StableStringify;
    var ms := XtreamPayload(input, normalizeUrl).members;
    KeysAscend();
    AscendingIsSorted(ms);
    XtreamMembersPrint(input, normalizeUrl);
    SortedObjectText(ms, XtreamMembers(input, normalizeUrl));
  }
}

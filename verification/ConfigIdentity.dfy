/**
 * The objects whose canonical text is hashed into a config's identity. Hashing itself and
 * URL normalization are outside this model: the latter is a parameter.
 */
module ConfigIdentity {
  import opened Wrappers
  import opened JsonText
  import opened CanonicalJson

  datatype XtreamInput = XtreamInput(
    panelUrl: Text, hasCustomEpg: bool, customEpg: Option<Text>, epgUrl: Option<Text>, epgOffset: int,
    panelUsername: Text, panelPassword: Text)

  datatype DirectInput = DirectInput(m3uUrl: Text, hasCustomEpg: bool, epgUrl: Option<Text>, epgOffset: int)

  const KEY_CUSTOM_EPG: Text := [0x63, 0x75, 0x73, 0x74, 0x6F, 0x6D, 0x5F, 0x65, 0x70, 0x67]
  const KEY_EPG_OFFSET: Text := [0x65, 0x70, 0x67, 0x5F, 0x6F, 0x66, 0x66, 0x73, 0x65, 0x74]
  const KEY_EPG_URL: Text := [0x65, 0x70, 0x67, 0x5F, 0x75, 0x72, 0x6C]
  const KEY_HAS_CUSTOM_EPG: Text :=
    [0x68, 0x61, 0x73, 0x5F, 0x63, 0x75, 0x73, 0x74, 0x6F, 0x6D, 0x5F, 0x65, 0x70, 0x67]
  const KEY_M3U_URL: Text := [0x6D, 0x33, 0x75, 0x5F, 0x75, 0x72, 0x6C]
  const KEY_PANEL_PASSWORD: Text :=
    [0x70, 0x61, 0x6E, 0x65, 0x6C, 0x5F, 0x70, 0x61, 0x73, 0x73, 0x77, 0x6F, 0x72, 0x64]
  const KEY_PANEL_USERNAME: Text :=
    [0x70, 0x61, 0x6E, 0x65, 0x6C, 0x5F, 0x75, 0x73, 0x65, 0x72, 0x6E, 0x61, 0x6D, 0x65]
  const KEY_URL: Text := [0x75, 0x72, 0x6C]
  const KEY_V: Text := [0x76]

  function XtreamPayload(input: XtreamInput, normalizeUrl: Text -> Text): Json {
    Obj([
      Member(KEY_CUSTOM_EPG, Str(input.customEpg.GetOr([]))),
      Member(KEY_EPG_OFFSET, Num(input.epgOffset)),
      Member(KEY_EPG_URL, Str(normalizeUrl(input.epgUrl.GetOr([])))),
      Member(KEY_HAS_CUSTOM_EPG, Bool(input.hasCustomEpg)),
      Member(KEY_PANEL_PASSWORD, Str(input.panelPassword)),
      Member(KEY_PANEL_USERNAME, Str(input.panelUsername)),
      Member(KEY_URL, Str(normalizeUrl(input.panelUrl))),
      Member(KEY_V, Num(1))
    ])
  }

  function DirectPayload(input: DirectInput, normalizeUrl: Text -> Text): Json {
    Obj([
      Member(KEY_EPG_OFFSET, Num(input.epgOffset)),
      Member(KEY_EPG_URL, Str(normalizeUrl(input.epgUrl.GetOr([])))),
      Member(KEY_HAS_CUSTOM_EPG, Bool(input.hasCustomEpg)),
      Member(KEY_M3U_URL, Str(normalizeUrl(input.m3uUrl))),
      Member(KEY_V, Num(1))
    ])
  }

  /** The text the identity hash is taken of. */
  function XtreamPreimage(input: XtreamInput, normalizeUrl: Text -> Text): Text {
    StableStringify(XtreamPayload(input, normalizeUrl))
  }

  function DirectPreimage(input: DirectInput, normalizeUrl: Text -> Text): Text {
    StableStringify(DirectPayload(input, normalizeUrl))
  }

  /** Same provider account and settings, as far as identity goes. */
  ghost predicate SameXtreamConfig(a: XtreamInput, b: XtreamInput, normalizeUrl: Text -> Text) {
    && normalizeUrl(a.panelUrl) == normalizeUrl(b.panelUrl)
    && normalizeUrl(a.epgUrl.GetOr([])) == normalizeUrl(b.epgUrl.GetOr([]))
    && a.customEpg.GetOr([]) == b.customEpg.GetOr([])
    && a.hasCustomEpg == b.hasCustomEpg
    && a.epgOffset == b.epgOffset
    && a.panelUsername == b.panelUsername
    && a.panelPassword == b.panelPassword
  }

  ghost predicate SameDirectConfig(a: DirectInput, b: DirectInput, normalizeUrl: Text -> Text) {
    && normalizeUrl(a.m3uUrl) == normalizeUrl(b.m3uUrl)
    && normalizeUrl(a.epgUrl.GetOr([])) == normalizeUrl(b.epgUrl.GetOr([]))
    && a.hasCustomEpg == b.hasCustomEpg
    && a.epgOffset == b.epgOffset
  }

  /** No two of the nine keys are equal. */
  lemma KeysDiffer()
    ensures var ks := [KEY_CUSTOM_EPG, KEY_EPG_OFFSET, KEY_EPG_URL, KEY_HAS_CUSTOM_EPG, KEY_M3U_URL,
                       KEY_PANEL_PASSWORD, KEY_PANEL_USERNAME, KEY_URL, KEY_V];
            forall i, j :: 0 <= i < j < |ks| ==> ks[i] != ks[j]
  {
    assert KEY_CUSTOM_EPG[0] == 0x63 && KEY_EPG_OFFSET[4] == 0x6F && KEY_EPG_URL[4] == 0x75;
    assert KEY_HAS_CUSTOM_EPG[0] == 0x68 && KEY_M3U_URL[0] == 0x6D;
    assert KEY_PANEL_PASSWORD[6] == 0x70 && KEY_PANEL_USERNAME[6] == 0x75;
    assert KEY_URL[0] == 0x75 && KEY_V[0] == 0x76;
  }

  lemma XtreamWellFormed(input: XtreamInput, normalizeUrl: Text -> Text)
    ensures WellFormed(XtreamPayload(input, normalizeUrl))
  {
    KeysDiffer();
  }

  lemma DirectWellFormed(input: DirectInput, normalizeUrl: Text -> Text)
    ensures WellFormed(DirectPayload(input, normalizeUrl))
  {
    KeysDiffer();
  }

  /** Two objects with the same keys in the same places and scalar values, the values pairwise equal. */
  ghost predicate SameScalars(pa: Json, pb: Json) {
    pa.Obj? && pb.Obj? && |pa.members| == |pb.members|
    && forall i :: 0 <= i < |pa.members| ==> pa.members[i] == pb.members[i]
  }

  ghost predicate ScalarMembers(p: Json) {
    p.Obj? && forall i :: 0 <= i < |p.members| ==>
      p.members[i].value.Str? || p.members[i].value.Num? || p.members[i].value.Bool?
  }

  ghost predicate SameKeys(pa: Json, pb: Json) {
    pa.Obj? && pb.Obj? && |pa.members| == |pb.members|
    && forall i :: 0 <= i < |pa.members| ==> pa.members[i].key == pb.members[i].key
  }

  lemma ScalarsAgree(pa: Json, pb: Json)
    requires WellFormed(pa) && WellFormed(pb) && StableStringify(pa) == StableStringify(pb)
    requires SameKeys(pa, pb) && ScalarMembers(pa) && ScalarMembers(pb)
    ensures SameScalars(pa, pb)
  {
    SameTextIffEquivalent(pa, pb);
    forall i | 0 <= i < |pa.members|
      ensures pa.members[i] == pb.members[i]
    {
      assert pa.members[i] in pa.members && pb.members[i] in pb.members;
      assert Equivalent(pa.members[i].value, pb.members[i].value);
    }
  }

  lemma XtreamShape(a: XtreamInput, b: XtreamInput, normalizeUrl: Text -> Text)
    ensures SameKeys(XtreamPayload(a, normalizeUrl), XtreamPayload(b, normalizeUrl))
    ensures ScalarMembers(XtreamPayload(a, normalizeUrl))
  {
  }

  lemma DirectShape(a: DirectInput, b: DirectInput, normalizeUrl: Text -> Text)
    ensures SameKeys(DirectPayload(a, normalizeUrl), DirectPayload(b, normalizeUrl))
    ensures ScalarMembers(DirectPayload(a, normalizeUrl))
  {
  }

  lemma XtreamPayloadsAgree(pa: Json, pb: Json, a: XtreamInput, b: XtreamInput, normalizeUrl: Text -> Text)
    requires pa == XtreamPayload(a, normalizeUrl) && pb == XtreamPayload(b, normalizeUrl)
    requires SameScalars(pa, pb)
    ensures SameXtreamConfig(a, b, normalizeUrl)
  {
    assert pa.members[0] == pb.members[0] && pa.members[1] == pb.members[1];
    assert pa.members[2] == pb.members[2] && pa.members[3] == pb.members[3];
    assert pa.members[4] == pb.members[4] && pa.members[5] == pb.members[5];
    assert pa.members[6] == pb.members[6];
  }

  lemma DirectPayloadsAgree(pa: Json, pb: Json, a: DirectInput, b: DirectInput, normalizeUrl: Text -> Text)
    requires pa == DirectPayload(a, normalizeUrl) && pb == DirectPayload(b, normalizeUrl)
    requires SameScalars(pa, pb)
    ensures SameDirectConfig(a, b, normalizeUrl)
  {
    assert pa.members[0] == pb.members[0] && pa.members[1] == pb.members[1];
    assert pa.members[2] == pb.members[2] && pa.members[3] == pb.members[3];
  }

  lemma PayloadKindsDiffer(px: Json, pd: Json, x: XtreamInput, d: DirectInput, normalizeUrl: Text -> Text)
    requires px == XtreamPayload(x, normalizeUrl) && pd == DirectPayload(d, normalizeUrl)
    ensures !Equivalent(px, pd)
  {
    KeysDiffer();
    assert px.members[0] in px.members && px.members[0].key in KeySet(px.members);
    assert forall i :: 0 <= i < |pd.members| ==> pd.members[i].key != KEY_CUSTOM_EPG;
    assert KEY_CUSTOM_EPG !in KeySet(pd.members);
  }

  /** Equal Xtream preimages mean equal configs, and the other way round. */
  lemma XtreamIdentity(a: XtreamInput, b: XtreamInput, normalizeUrl: Text -> Text)
    ensures XtreamPreimage(a, normalizeUrl) == XtreamPreimage(b, normalizeUrl)
       <==> SameXtreamConfig(a, b, normalizeUrl)
  {
    var pa, pb := XtreamPayload(a, normalizeUrl), XtreamPayload(b, normalizeUrl);
    XtreamWellFormed(a, normalizeUrl);
    XtreamWellFormed(b, normalizeUrl);
    XtreamShape(a, b, normalizeUrl);
    XtreamShape(b, a, normalizeUrl);
    if StableStringify(pa) == StableStringify(pb) {
      ScalarsAgree(pa, pb);
      XtreamPayloadsAgree(pa, pb, a, b, normalizeUrl);
    }
  }

  /** Equal Direct preimages mean equal configs, and the other way round. */
  lemma DirectIdentity(a: DirectInput, b: DirectInput, normalizeUrl: Text -> Text)
    ensures DirectPreimage(a, normalizeUrl) == DirectPreimage(b, normalizeUrl)
       <==> SameDirectConfig(a, b, normalizeUrl)
  {
    var pa, pb := DirectPayload(a, normalizeUrl), DirectPayload(b, normalizeUrl);
    DirectWellFormed(a, normalizeUrl);
    DirectWellFormed(b, normalizeUrl);
    DirectShape(a, b, normalizeUrl);
    DirectShape(b, a, normalizeUrl);
    if StableStringify(pa) == StableStringify(pb) {
      ScalarsAgree(pa, pb);
      DirectPayloadsAgree(pa, pb, a, b, normalizeUrl);
    }
  }

  /** A Direct config and an Xtream config never share a preimage. */
  lemma KindsNeverCollide(x: XtreamInput, d: DirectInput, normalizeUrl: Text -> Text)
    ensures XtreamPreimage(x, normalizeUrl) != DirectPreimage(d, normalizeUrl)
  {
    var px, pd := XtreamPayload(x, normalizeUrl), DirectPayload(d, normalizeUrl);
    PayloadKindsDiffer(px, pd, x, d, normalizeUrl);
    XtreamWellFormed(x, normalizeUrl);
    DirectWellFormed(d, normalizeUrl);
    if StableStringify(px) == StableStringify(pd) {
      SameTextEquivalent(px, pd);
    }
  }

  lemma SameTextEquivalent(a: Json, b: Json)
    requires WellFormed(a) && WellFormed(b) && StableStringify(a) == StableStringify(b)
    ensures Equivalent(a, b)
  {
    SameTextIffEquivalent(a, b);
  }
}

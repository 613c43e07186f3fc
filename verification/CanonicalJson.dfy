/**
 * `stableStringify`: JSON text with the members of every object in key order, the preimage
 * of a config's identity hash. A reader that undoes it shows the text is canonical.
 */
module CanonicalJson {
  import opened Wrappers
  import opened JsonText

  /** A JavaScript value as it reaches the printer; numbers are integers. */
  datatype Json =
    | Null
    | Undefined
    | Bool(b: bool)
    | Num(n: int)
    | Str(s: Text)
    | Arr(items: seq<Json>)
    | Obj(members: seq<Member>)

  datatype Member = Member(key: Text, value: Json)

  const NULL_TEXT: Text := [0x6E, 0x75, 0x6C, 0x6C]
  const TRUE_TEXT: Text := [0x74, 0x72, 0x75, 0x65]
  const FALSE_TEXT: Text := [0x66, 0x61, 0x6C, 0x73, 0x65]
  const COMMA: CodeUnit := 0x2C
  const COLON: CodeUnit := 0x3A
  const OPEN_ARRAY: CodeUnit := 0x5B
  const CLOSE_ARRAY: CodeUnit := 0x5D
  const OPEN_OBJECT: CodeUnit := 0x7B
  const CLOSE_OBJECT: CodeUnit := 0x7D

  ghost predicate DistinctKeys(ms: seq<Member>) {
    forall i, j :: 0 <= i < j < |ms| ==> ms[i].key != ms[j].key
  }

  /** A JavaScript object never holds the same key twice. */
  ghost predicate WellFormed(v: Json) {
    match v
    case Arr(items) => forall x | x in items :: WellFormed(x)
    case Obj(ms) => DistinctKeys(ms) && forall m | m in ms :: WellFormed(m.value)
    case _ => true
  }

  ghost function KeySet(ms: seq<Member>): set<Text> {
    set m | m in ms :: m.key
  }

  /** Equal up to the order of object members at every level; `undefined` counts as `null`. */
  ghost predicate Equivalent(a: Json, b: Json)
    decreases a
  {
    match (a, b)
    case (Bool(x), Bool(y)) => x == y
    case (Num(x), Num(y)) => x == y
    case (Str(x), Str(y)) => x == y
    case (Arr(xs), Arr(ys)) => |xs| == |ys| && forall i :: 0 <= i < |xs| ==> Equivalent(xs[i], ys[i])
    case (Obj(xs), Obj(ys)) =>
      KeySet(xs) == KeySet(ys)
      && forall x, y | x in xs && y in ys && x.key == y.key :: Equivalent(x.value, y.value)
    case _ => (a.Null? || a.Undefined?) && (b.Null? || b.Undefined?)
  }

  function Insert(m: Member, ms: seq<Member>): (r: seq<Member>)
    ensures |r| == |ms| + 1 && forall x :: x in r <==> x == m || x in ms
  {
    if ms == [] || !Less(ms[0].key, m.key) then [m] + ms
    else [ms[0]] + Insert(m, ms[1..])
  }

  /** The members in key order; entries with equal keys would keep their order. */
  function SortByKey(ms: seq<Member>): (r: seq<Member>)
    ensures |r| == |ms| && forall x :: x in r <==> x in ms
  {
    if ms == [] then [] else Insert(ms[0], SortByKey(ms[1..]))
  }

  function Join(parts: seq<Text>): Text {
    if parts == [] then []
    else if |parts| == 1 then parts[0]
    else parts[0] + [COMMA] + Join(parts[1..])
  }

  function StableStringify(v: Json): Text
    decreases v
  {
    match v
    case Null => NULL_TEXT
    case Undefined => NULL_TEXT
    case Bool(b) => if b then TRUE_TEXT else FALSE_TEXT
    case Num(n) => PrintInt(n)
    case Str(s) => Quote(s)
    case Arr(items) => [OPEN_ARRAY] + Join(PrintItems(items)) + [CLOSE_ARRAY]
    case Obj(ms) => [OPEN_OBJECT] + Join(PrintMembers(SortByKey(ms), v)) + [CLOSE_OBJECT]
  }

  function PrintItems(vs: seq<Json>): (r: seq<Text>)
    ensures |r| == |vs|
    decreases vs
  {
    if vs == [] then [] else [StableStringify(vs[0])] + PrintItems(vs[1..])
  }

  /** One `key:value` text per member; `owner` is the object the members come from. */
  function PrintMembers(ms: seq<Member>, ghost owner: Json): (r: seq<Text>)
    requires forall m | m in ms :: m.value < owner
    ensures |r| == |ms|
    decreases owner, |ms|
  {
    if ms == [] then []
    else [Quote(ms[0].key) + [COLON] + StableStringify(ms[0].value)] + PrintMembers(ms[1..], owner)
  }

  /** The value the text stands for: members sorted everywhere, `undefined` read as `null`. */
  ghost function Canon(v: Json): Json
    decreases v
  {
    match v
    case Undefined => Null
    case Arr(items) => Arr(CanonItems(items))
    case Obj(ms) => Obj(CanonMembers(SortByKey(ms), v))
    case _ => v
  }

  ghost function CanonItems(vs: seq<Json>): (r: seq<Json>)
    ensures |r| == |vs| && forall i :: 0 <= i < |vs| ==> r[i] == Canon(vs[i])
    decreases vs
  {
    if vs == [] then [] else [Canon(vs[0])] + CanonItems(vs[1..])
  }

  ghost function CanonMembers(ms: seq<Member>, owner: Json): (r: seq<Member>)
    requires forall m | m in ms :: m.value < owner
    ensures |r| == |ms|
    ensures forall i :: 0 <= i < |ms| ==> r[i] == Member(ms[i].key, Canon(ms[i].value))
    decreases owner, |ms|
  {
    if ms == [] then []
    else [Member(ms[0].key, Canon(ms[0].value))] + CanonMembers(ms[1..], owner)
  }

  // Sorting

  ghost predicate Sorted(ms: seq<Member>) {
    forall i, j :: 0 <= i < j < |ms| ==> Less(ms[i].key, ms[j].key)
  }

  lemma {:induction false} InsertSorted(m: Member, ms: seq<Member>)
    requires Sorted(ms) && forall x | x in ms :: x.key != m.key
    ensures Sorted(Insert(m, ms))
  {
    if ms == [] {
    } else {
      LessTotal(ms[0].key, m.key);
      if Less(ms[0].key, m.key) {
        InsertSorted(m, ms[1..]);
        var r := Insert(m, ms[1..]);
        forall j | 0 <= j < |r|
          ensures Less(ms[0].key, r[j].key)
        {
          assert r[j] in r;
        }
      } else {
        forall j | 0 <= j < |ms|
          ensures Less(m.key, ms[j].key)
        {
          if j > 0 {
            LessTransitive(m.key, ms[0].key, ms[j].key);
          }
        }
      }
    }
  }

  lemma {:induction false} SortByKeySorted(ms: seq<Member>)
    requires DistinctKeys(ms)
    ensures Sorted(SortByKey(ms))
  {
    if ms == [] {
    } else {
      SortByKeySorted(ms[1..]);
      InsertSorted(ms[0], SortByKey(ms[1..]));
    }
  }

  /** In key order a member list is determined by its keys. */
  lemma {:induction false} SortedKeysUnique(xs: seq<Member>, ys: seq<Member>)
    requires Sorted(xs) && Sorted(ys) && KeySet(xs) == KeySet(ys)
    ensures |xs| == |ys| && forall i :: 0 <= i < |xs| ==> xs[i].key == ys[i].key
  {
    assert xs != [] ==> xs[0].key in KeySet(xs);
    assert ys != [] ==> ys[0].key in KeySet(ys);
    if xs != [] && ys != [] {
      FirstKeyLeast(xs, ys);
      FirstKeyLeast(ys, xs);
      LessTotal(xs[0].key, ys[0].key);
      RestKeys(xs);
      RestKeys(ys);
      SortedKeysUnique(xs[1..], ys[1..]);
    }
  }

  lemma FirstKeyLeast(xs: seq<Member>, ys: seq<Member>)
    requires Sorted(ys) && KeySet(xs) == KeySet(ys) && xs != [] && ys != []
    ensures !Less(xs[0].key, ys[0].key)
  {
    assert xs[0].key in KeySet(ys);
    var j :| 0 <= j < |ys| && ys[j].key == xs[0].key;
    LessTotal(xs[0].key, ys[0].key);
    if j > 0 {
      LessTotal(ys[0].key, ys[j].key);
    }
  }

  lemma RestKeys(xs: seq<Member>)
    requires Sorted(xs) && xs != []
    ensures KeySet(xs[1..]) == KeySet(xs) - {xs[0].key}
  {
    forall i | 0 < i < |xs|
      ensures xs[i].key != xs[0].key
    {
      LessTotal(xs[0].key, xs[i].key);
    }
    assert xs == [xs[0]] + xs[1..];
    forall k | k in KeySet(xs[1..])
      ensures k in KeySet(xs) - {xs[0].key}
    {
      var i :| 0 <= i < |xs[1..]| && xs[1..][i].key == k;
      assert xs[1..][i] == xs[i + 1];
    }
  }

  lemma SameKeySet(ms: seq<Member>)
    ensures KeySet(SortByKey(ms)) == KeySet(ms)
  {
  }

  // Canonical forms and equivalence

  /** Canonical forms are equal exactly for equivalent values. */
  lemma {:induction false} CanonCharacterizesEquivalence(a: Json, b: Json)
    requires WellFormed(a) && WellFormed(b)
    ensures Canon(a) == Canon(b) <==> Equivalent(a, b)
    decreases a
  {
    match (a, b)
    case (Arr(xs), Arr(ys)) =>
      forall i | 0 <= i < |xs| && i < |ys|
        ensures Canon(xs[i]) == Canon(ys[i]) <==> Equivalent(xs[i], ys[i])
      {
        CanonCharacterizesEquivalence(xs[i], ys[i]);
      }
      assert CanonItems(xs) == CanonItems(ys)
        <==> |xs| == |ys| && forall i :: 0 <= i < |xs| ==> CanonItems(xs)[i] == CanonItems(ys)[i];
    case (Obj(xs), Obj(ys)) =>
      forall x, y | x in xs && y in ys
        ensures Canon(x.value) == Canon(y.value) <==> Equivalent(x.value, y.value)
      {
        CanonCharacterizesEquivalence(x.value, y.value);
      }
      SortByKeySorted(xs);
      SortByKeySorted(ys);
      SameKeySet(xs);
      SameKeySet(ys);
      if Canon(a) == Canon(b) {
        EqualCanonMembers(xs, ys, a, b);
      } else if Equivalent(a, b) {
        EqualMembers(SortByKey(xs), SortByKey(ys), a, b);
      }
    case _ =>
  }

  lemma SameKeysInOrder(sx: seq<Member>, sy: seq<Member>)
    requires |sx| == |sy| && forall i :: 0 <= i < |sx| ==> sx[i].key == sy[i].key
    ensures KeySet(sx) <= KeySet(sy)
  {
    forall k | k in KeySet(sx)
      ensures k in KeySet(sy)
    {
      var i :| 0 <= i < |sx| && sx[i].key == k;
      assert sy[i] in sy;
    }
  }

  lemma PositionOfKey(ms: seq<Member>, i: nat, m: Member)
    requires Sorted(ms) && i < |ms| && m in ms && m.key == ms[i].key
    ensures m == ms[i]
  {
    var j :| 0 <= j < |ms| && ms[j] == m;
    LessTotal(ms[i].key, ms[j].key);
  }

  lemma EqualCanonMembers(xs: seq<Member>, ys: seq<Member>, a: Json, b: Json)
    requires a == Obj(xs) && b == Obj(ys)
    requires Sorted(SortByKey(ys))
    requires Canon(a) == Canon(b)
    ensures KeySet(xs) == KeySet(ys)
    ensures forall x, y | x in xs && y in ys && x.key == y.key :: Canon(x.value) == Canon(y.value)
  {
    var sx, sy := SortByKey(xs), SortByKey(ys);
    PairwiseEqual(sx, sy, CanonMembers(sx, a), CanonMembers(sy, b));
    SameKeySet(xs);
    SameKeySet(ys);
    MatchingMembers(sx, sy);
  }

  lemma MatchingMembers(sx: seq<Member>, sy: seq<Member>)
    requires Sorted(sy) && |sx| == |sy|
    requires forall i :: 0 <= i < |sx| ==> sx[i].key == sy[i].key && Canon(sx[i].value) == Canon(sy[i].value)
    ensures KeySet(sx) == KeySet(sy)
    ensures forall x, y | x in sx && y in sy && x.key == y.key :: Canon(x.value) == Canon(y.value)
  {
    SameKeysInOrder(sx, sy);
    SameKeysInOrder(sy, sx);
    forall x, y | x in sx && y in sy && x.key == y.key
      ensures Canon(x.value) == Canon(y.value)
    {
      SameValueAtKey(sx, sy, x, y);
    }
  }

  lemma PairwiseEqual(sx: seq<Member>, sy: seq<Member>, cx: seq<Member>, cy: seq<Member>)
    requires |cx| == |sx| && forall i :: 0 <= i < |sx| ==> cx[i] == Member(sx[i].key, Canon(sx[i].value))
    requires |cy| == |sy| && forall i :: 0 <= i < |sy| ==> cy[i] == Member(sy[i].key, Canon(sy[i].value))
    requires cx == cy
    ensures |sx| == |sy|
    ensures forall i :: 0 <= i < |sx| ==> sx[i].key == sy[i].key && Canon(sx[i].value) == Canon(sy[i].value)
  {
    forall i | 0 <= i < |sx|
      ensures sx[i].key == sy[i].key && Canon(sx[i].value) == Canon(sy[i].value)
    {
      assert cx[i] == cy[i];
    }
  }

  lemma SameValueAtKey(sx: seq<Member>, sy: seq<Member>, x: Member, y: Member)
    requires Sorted(sy) && |sx| == |sy|
    requires forall i :: 0 <= i < |sx| ==> sx[i].key == sy[i].key && Canon(sx[i].value) == Canon(sy[i].value)
    requires x in sx && y in sy && x.key == y.key
    ensures Canon(x.value) == Canon(y.value)
  {
    var i :| 0 <= i < |sx| && sx[i] == x;
    PositionOfKey(sy, i, y);
  }

  lemma EqualMembers(sx: seq<Member>, sy: seq<Member>, a: Json, b: Json)
    requires forall m | m in sx :: m.value < a
    requires forall m | m in sy :: m.value < b
    requires Sorted(sx) && Sorted(sy) && KeySet(sx) == KeySet(sy)
    requires forall x, y | x in sx && y in sy && x.key == y.key :: Canon(x.value) == Canon(y.value)
    ensures CanonMembers(sx, a) == CanonMembers(sy, b)
  {
    ValuesAtSameKeys(sx, sy);
    CanonListsEqual(sx, sy, CanonMembers(sx, a), CanonMembers(sy, b));
  }

  lemma ValuesAtSameKeys(sx: seq<Member>, sy: seq<Member>)
    requires Sorted(sx) && Sorted(sy) && KeySet(sx) == KeySet(sy)
    requires forall x, y | x in sx && y in sy && x.key == y.key :: Canon(x.value) == Canon(y.value)
    ensures |sx| == |sy|
    ensures forall i :: 0 <= i < |sx| ==> sx[i].key == sy[i].key && Canon(sx[i].value) == Canon(sy[i].value)
  {
    SortedKeysUnique(sx, sy);
    forall i | 0 <= i < |sx|
      ensures Canon(sx[i].value) == Canon(sy[i].value)
    {
      assert sx[i] in sx && sy[i] in sy;
    }
  }

  lemma CanonListsEqual(sx: seq<Member>, sy: seq<Member>, cx: seq<Member>, cy: seq<Member>)
    requires |cx| == |sx| && forall i :: 0 <= i < |sx| ==> cx[i] == Member(sx[i].key, Canon(sx[i].value))
    requires |cy| == |sy| && forall i :: 0 <= i < |sy| ==> cy[i] == Member(sy[i].key, Canon(sy[i].value))
    requires |sx| == |sy|
    requires forall i :: 0 <= i < |sx| ==> sx[i].key == sy[i].key && Canon(sx[i].value) == Canon(sy[i].value)
    ensures cx == cy
  {
    forall i | 0 <= i < |sx|
      ensures cx[i] == cy[i]
    {
      assert cx[i] == Member(sx[i].key, Canon(sx[i].value));
    }
  }

  // The reader

  /** Reads one value; yields it and what follows. */
  function ReadValue(t: Text): (r: Option<(Json, Text)>)
    ensures r.Some? ==> |r.value.1| < |t|
    decreases |t|, 0
  {
    if t == [] then None
    else if NULL_TEXT <= t then Some((Null, t[4..]))
    else if TRUE_TEXT <= t then Some((Bool(true), t[4..]))
    else if FALSE_TEXT <= t then Some((Bool(false), t[5..]))
    else if t[0] == QUOTE then
      match ReadBody(t[1..])
      case None => None
      case Some((s, rest)) => Some((Str(s), rest))
    else if t[0] == MINUS then
      match ReadNat(t[1..])
      case None => None
      case Some((n, rest)) => Some((Num(0 - n), rest))
    else if t[0] == OPEN_ARRAY then
      if |t| >= 2 && t[1] == CLOSE_ARRAY then Some((Arr([]), t[2..]))
      else
        match ReadItems(t[1..])
        case None => None
        case Some((vs, rest)) => Some((Arr(vs), rest))
    else if t[0] == OPEN_OBJECT then
      if |t| >= 2 && t[1] == CLOSE_OBJECT then Some((Obj([]), t[2..]))
      else
        match ReadMembers(t[1..])
        case None => None
        case Some((ms, rest)) => Some((Obj(ms), rest))
    else
      match ReadNat(t)
      case None => None
      case Some((n, rest)) => Some((Num(n), rest))
  }

  /** Reads a non-empty, comma-separated list of values and the closing bracket. */
  function ReadItems(t: Text): (r: Option<(seq<Json>, Text)>)
    ensures r.Some? ==> |r.value.1| < |t|
    decreases |t|, 1
  {
    match ReadValue(t)
    case None => None
    case Some((v, rest)) =>
      if rest == [] then None
      else if rest[0] == CLOSE_ARRAY then Some(([v], rest[1..]))
      else if rest[0] != COMMA then None
      else
        match ReadItems(rest[1..])
        case None => None
        case Some((vs, after)) => Some(([v] + vs, after))
  }

  function ReadMember(t: Text): (r: Option<(Member, Text)>)
    ensures r.Some? ==> |r.value.1| < |t|
    decreases |t|, 1
  {
    if t == [] || t[0] != QUOTE then None
    else
      match ReadBody(t[1..])
      case None => None
      case Some((key, rest)) =>
        if rest == [] || rest[0] != COLON then None
        else
          match ReadValue(rest[1..])
          case None => None
          case Some((v, after)) => Some((Member(key, v), after))
  }

  /** Reads a non-empty, comma-separated list of members and the closing brace. */
  function ReadMembers(t: Text): (r: Option<(seq<Member>, Text)>)
    ensures r.Some? ==> |r.value.1| < |t|
    decreases |t|, 2
  {
    match ReadMember(t)
    case None => None
    case Some((m, rest)) =>
      if rest == [] then None
      else if rest[0] == CLOSE_OBJECT then Some(([m], rest[1..]))
      else if rest[0] != COMMA then None
      else
        match ReadMembers(rest[1..])
        case None => None
        case Some((ms, after)) => Some(([m] + ms, after))
  }

  lemma FirstUnit(v: Json)
    ensures StableStringify(v) != []
    ensures StableStringify(v)[0] != CLOSE_ARRAY
  {
    if v.Num? {
      assert PrintInt(v.n) != [];
    }
  }

  /** Reading printed text gives the canonical value and stops where the text ends. */
  lemma {:induction false} ReadUndoesPrint(v: Json, rest: Text)
    requires NoDigitFirst(rest)
    ensures ReadValue(StableStringify(v) + rest) == Some((Canon(v), rest))
    decreases v, 1
  {
    var t := StableStringify(v) + rest;
    match v
    case Null => assert t[4..] == rest;
    case Undefined => assert t[4..] == rest;
    case Bool(b) => ReadUndoesBool(b, rest);
    case Num(n) => ReadUndoesInt(n, rest);
    case Str(s) => ReadUndoesString(s, rest);
    case Arr(items) => ReadUndoesArray(v, rest);
    case Obj(ms) => ReadUndoesObject(v, rest);
  }

  lemma ReadUndoesBool(b: bool, rest: Text)
    ensures ReadValue(StableStringify(Bool(b)) + rest) == Some((Bool(b), rest))
  {
    var t := StableStringify(Bool(b)) + rest;
    if b {
      assert t[0] == 0x74 && t[..4] == TRUE_TEXT && t[4..] == rest;
    } else {
      assert t[0] == 0x66 && t[..5] == FALSE_TEXT && t[5..] == rest;
    }
  }

  lemma ReadUndoesString(s: Text, rest: Text)
    ensures ReadValue(Quote(s) + rest) == Some((Str(s), rest))
  {
    var body := Escape(s) + [QUOTE] + rest;
    ReadBodyUndoesEscape(s, rest);
    assert Quote(s) + rest == [QUOTE] + body;
    ReadStringLiteral(body, s, rest);
  }

  lemma ReadStringLiteral(body: Text, s: Text, rest: Text)
    requires ReadBody(body) == Some((s, rest))
    ensures ReadValue([QUOTE] + body) == Some((Str(s), rest))
  {
    var t := [QUOTE] + body;
    assert t[0] != NULL_TEXT[0] && t[0] != TRUE_TEXT[0] && t[0] != FALSE_TEXT[0];
    assert t[1..] == body;
  }

  lemma ReadUndoesInt(n: int, rest: Text)
    requires NoDigitFirst(rest)
    ensures ReadValue(PrintInt(n) + rest) == Some((Num(n), rest))
  {
    if n < 0 {
      ReadNatUndoesPrint(-n, rest);
      assert PrintInt(n) + rest == [MINUS] + (PrintNat(-n) + rest);
      ReadNegativeLiteral(PrintNat(-n) + rest, -n, rest);
    } else {
      ReadNatUndoesPrint(n, rest);
      assert (PrintNat(n) + rest)[0] == PrintNat(n)[0];
      ReadPositiveLiteral(PrintNat(n) + rest, n, rest);
    }
  }

  lemma ReadNegativeLiteral(t: Text, n: nat, rest: Text)
    requires ReadNat(t) == Some((n, rest))
    ensures ReadValue([MINUS] + t) == Some((Num(0 - n), rest))
  {
    var u := [MINUS] + t;
    assert u[0] != NULL_TEXT[0] && u[0] != TRUE_TEXT[0] && u[0] != FALSE_TEXT[0];
    assert u[1..] == t;
  }

  lemma ReadPositiveLiteral(t: Text, n: nat, rest: Text)
    requires t != [] && IsDigit(t[0]) && ReadNat(t) == Some((n, rest))
    ensures ReadValue(t) == Some((Num(n), rest))
  {
    assert t[0] != NULL_TEXT[0] && t[0] != TRUE_TEXT[0] && t[0] != FALSE_TEXT[0];
  }

  lemma {:induction false} ReadUndoesArray(v: Json, rest: Text)
    requires v.Arr?
    requires NoDigitFirst(rest)
    ensures ReadValue(StableStringify(v) + rest) == Some((Canon(v), rest))
    decreases v, 0
  {
    var body := Join(PrintItems(v.items)) + [CLOSE_ARRAY] + rest;
    assert StableStringify(v) + rest == [OPEN_ARRAY] + body;
    if v.items == [] {
      assert [OPEN_ARRAY] + body == [OPEN_ARRAY, CLOSE_ARRAY] + rest;
      ReadEmptyContainers(rest);
    } else {
      ReadUndoesItems(v.items, rest);
      FirstUnit(v.items[0]);
      assert body[0] == StableStringify(v.items[0])[0];
      ReadNonEmptyArray(body, CanonItems(v.items), rest);
    }
  }

  lemma ReadEmptyContainers(rest: Text)
    ensures ReadValue([OPEN_ARRAY, CLOSE_ARRAY] + rest) == Some((Arr([]), rest))
    ensures ReadValue([OPEN_OBJECT, CLOSE_OBJECT] + rest) == Some((Obj([]), rest))
  {
    var a, o := [OPEN_ARRAY, CLOSE_ARRAY] + rest, [OPEN_OBJECT, CLOSE_OBJECT] + rest;
    assert a[0] != NULL_TEXT[0] && a[0] != TRUE_TEXT[0] && a[0] != FALSE_TEXT[0];
    assert o[0] != NULL_TEXT[0] && o[0] != TRUE_TEXT[0] && o[0] != FALSE_TEXT[0];
    assert a[1] == CLOSE_ARRAY && o[1] == CLOSE_OBJECT;
    assert a[2..] == rest && o[2..] == rest;
  }

  lemma ReadNonEmptyArray(t: Text, vs: seq<Json>, rest: Text)
    requires t != [] && t[0] != CLOSE_ARRAY && ReadItems(t) == Some((vs, rest))
    ensures ReadValue([OPEN_ARRAY] + t) == Some((Arr(vs), rest))
  {
    var u := [OPEN_ARRAY] + t;
    assert u[0] != NULL_TEXT[0] && u[0] != TRUE_TEXT[0] && u[0] != FALSE_TEXT[0];
    assert u[1..] == t;
  }

  lemma {:induction false} ReadUndoesItems(vs: seq<Json>, rest: Text)
    requires vs != []
    ensures ReadItems(Join(PrintItems(vs)) + [CLOSE_ARRAY] + rest) == Some((CanonItems(vs), rest))
    decreases vs
  {
    var first := StableStringify(vs[0]);
    var t := Join(PrintItems(vs)) + [CLOSE_ARRAY] + rest;
    if |vs| == 1 {
      assert t == first + ([CLOSE_ARRAY] + rest);
      ReadUndoesPrint(vs[0], [CLOSE_ARRAY] + rest);
      assert ([CLOSE_ARRAY] + rest)[1..] == rest;
      assert CanonItems(vs) == [Canon(vs[0])];
    } else {
      var more := Join(PrintItems(vs[1..])) + [CLOSE_ARRAY] + rest;
      assert t == first + ([COMMA] + more);
      ReadUndoesPrint(vs[0], [COMMA] + more);
      assert ([COMMA] + more)[1..] == more;
      ReadUndoesItems(vs[1..], rest);
    }
  }

  lemma {:induction false} ReadUndoesObject(v: Json, rest: Text)
    requires v.Obj?
    requires NoDigitFirst(rest)
    ensures ReadValue(StableStringify(v) + rest) == Some((Canon(v), rest))
    decreases v, 0
  {
    var sorted := SortByKey(v.members);
    var inner := Join(PrintMembers(sorted, v));
    assert StableStringify(v) + rest == [OPEN_OBJECT] + (inner + [CLOSE_OBJECT] + rest);
    if sorted == [] {
      assert [OPEN_OBJECT] + (inner + [CLOSE_OBJECT] + rest) == [OPEN_OBJECT, CLOSE_OBJECT] + rest;
      ReadEmptyContainers(rest);
    } else {
      ReadUndoesMembers(sorted, v, rest);
      assert (inner + [CLOSE_OBJECT] + rest)[0] == QUOTE;
      ReadNonEmptyObject(inner + [CLOSE_OBJECT] + rest, CanonMembers(sorted, v), rest);
    }
  }

  lemma ReadNonEmptyObject(t: Text, ms: seq<Member>, rest: Text)
    requires t != [] && t[0] == QUOTE && ReadMembers(t) == Some((ms, rest))
    ensures ReadValue([OPEN_OBJECT] + t) == Some((Obj(ms), rest))
  {
    var u := [OPEN_OBJECT] + t;
    assert u[0] != NULL_TEXT[0] && u[0] != TRUE_TEXT[0] && u[0] != FALSE_TEXT[0];
    assert u[1..] == t;
  }

  lemma {:induction false} ReadUndoesMember(m: Member, rest: Text)
    requires NoDigitFirst(rest)
    ensures ReadMember(Quote(m.key) + [COLON] + StableStringify(m.value) + rest)
         == Some((Member(m.key, Canon(m.value)), rest))
    decreases m.value, 2
  {
    var u := StableStringify(m.value) + rest;
    var body := Escape(m.key) + [QUOTE] + ([COLON] + u);
    ReadBodyUndoesEscape(m.key, [COLON] + u);
    ReadUndoesPrint(m.value, rest);
    ReadMemberParts(body, m.key, u, Canon(m.value), rest);
    MemberTextShape(m.key, StableStringify(m.value), rest);
  }

  lemma MemberTextShape(key: Text, value: Text, rest: Text)
    ensures Quote(key) + [COLON] + value + rest
         == [QUOTE] + (Escape(key) + [QUOTE] + ([COLON] + (value + rest)))
  {
  }

  lemma ReadMemberParts(t: Text, key: Text, u: Text, v: Json, rest: Text)
    requires ReadBody(t) == Some((key, [COLON] + u)) && ReadValue(u) == Some((v, rest))
    ensures ReadMember([QUOTE] + t) == Some((Member(key, v), rest))
  {
    assert ([QUOTE] + t)[1..] == t;
    assert ([COLON] + u)[1..] == u;
  }

  lemma {:induction false} ReadUndoesMembers(ms: seq<Member>, owner: Json, rest: Text)
    requires ms != [] && forall m | m in ms :: m.value < owner
    ensures ReadMembers(Join(PrintMembers(ms, owner)) + [CLOSE_OBJECT] + rest)
         == Some((CanonMembers(ms, owner), rest))
    decreases owner, 0, |ms|
  {
    var first := Quote(ms[0].key) + [COLON] + StableStringify(ms[0].value);
    var t := Join(PrintMembers(ms, owner)) + [CLOSE_OBJECT] + rest;
    var head := Member(ms[0].key, Canon(ms[0].value));
    if |ms| == 1 {
      assert t == first + ([CLOSE_OBJECT] + rest);
      ReadUndoesMember(ms[0], [CLOSE_OBJECT] + rest);
      ReadLastMember(t, head, rest);
      assert CanonMembers(ms, owner) == [head];
    } else {
      var more := Join(PrintMembers(ms[1..], owner)) + [CLOSE_OBJECT] + rest;
      assert t == first + ([COMMA] + more);
      ReadUndoesMember(ms[0], [COMMA] + more);
      ReadUndoesMembers(ms[1..], owner, rest);
      ReadOneMember(t, head, more, CanonMembers(ms[1..], owner), rest);
    }
  }

  lemma ReadLastMember(t: Text, m: Member, rest: Text)
    requires ReadMember(t) == Some((m, [CLOSE_OBJECT] + rest))
    ensures ReadMembers(t) == Some(([m], rest))
  {
    assert ([CLOSE_OBJECT] + rest)[1..] == rest;
  }

  lemma ReadOneMember(t: Text, m: Member, more: Text, ms: seq<Member>, rest: Text)
    requires ReadMember(t) == Some((m, [COMMA] + more))
    requires ReadMembers(more) == Some((ms, rest))
    ensures ReadMembers(t) == Some(([m] + ms, rest))
  {
    assert ([COMMA] + more)[1..] == more;
  }

  /** The reader inverts the printer up to equivalence. */
  lemma PrintedTextReadsBack(v: Json)
    requires WellFormed(v)
    ensures ReadValue(StableStringify(v)).Some?
    ensures ReadValue(StableStringify(v)).value.1 == []
    ensures Equivalent(v, ReadValue(StableStringify(v)).value.0)
  {
    assert StableStringify(v) + [] == StableStringify(v);
    ReadUndoesPrint(v, []);
    CanonEquivalent(v);
  }

  lemma {:induction false} CanonEquivalent(v: Json)
    requires WellFormed(v)
    ensures Equivalent(v, Canon(v))
    decreases v
  {
    match v
    case Arr(items) =>
      forall i | 0 <= i < |items|
        ensures Equivalent(items[i], CanonItems(items)[i])
      {
        CanonEquivalent(items[i]);
      }
    case Obj(ms) =>
      forall m | m in ms
        ensures Equivalent(m.value, Canon(m.value))
      {
        CanonEquivalent(m.value);
      }
      CanonObjectEquivalent(v);
    case _ =>
  }

  lemma CanonObjectEquivalent(v: Json)
    requires v.Obj? && DistinctKeys(v.members)
    requires forall m | m in v.members :: Equivalent(m.value, Canon(m.value))
    ensures Equivalent(v, Canon(v))
  {
    var sorted := SortByKey(v.members);
    var canon := CanonMembers(sorted, v);
    SortByKeySorted(v.members);
    SameKeySet(v.members);
    MatchingCanon(sorted, canon);
  }

  lemma MatchingCanon(sorted: seq<Member>, canon: seq<Member>)
    requires Sorted(sorted) && forall m | m in sorted :: Equivalent(m.value, Canon(m.value))
    requires |canon| == |sorted|
    requires forall i :: 0 <= i < |sorted| ==> canon[i] == Member(sorted[i].key, Canon(sorted[i].value))
    ensures KeySet(sorted) == KeySet(canon)
    ensures forall x, y | x in sorted && y in canon && x.key == y.key :: Equivalent(x.value, y.value)
  {
    SameKeysInOrder(sorted, canon);
    SameKeysInOrder(canon, sorted);
    forall x, y | x in sorted && y in canon && x.key == y.key
      ensures Equivalent(x.value, y.value)
    {
      var i :| 0 <= i < |canon| && canon[i] == y;
      PositionOfKey(sorted, i, x);
    }
  }

  lemma {:induction false} SortOfSorted(ms: seq<Member>)
    requires Sorted(ms)
    ensures SortByKey(ms) == ms
  {
    if ms == [] {
    } else {
      SortOfSorted(ms[1..]);
      if |ms| > 1 {
        LessTotal(ms[0].key, ms[1].key);
      }
    }
  }

  /** A value and its canonical form print alike. */
  lemma {:induction false} CanonPrintsTheSame(v: Json)
    requires WellFormed(v)
    ensures StableStringify(Canon(v)) == StableStringify(v)
    decreases v
  {
    match v
    case Arr(items) => CanonItemsPrintTheSame(items);
    case Obj(ms) =>
      var sorted := SortByKey(ms);
      SortByKeySorted(ms);
      SortOfSorted(CanonMembers(sorted, v));
      CanonMembersPrintTheSame(sorted, v, Canon(v));
    case _ =>
  }

  lemma {:induction false} CanonItemsPrintTheSame(vs: seq<Json>)
    requires forall v | v in vs :: WellFormed(v)
    ensures PrintItems(CanonItems(vs)) == PrintItems(vs)
    decreases vs
  {
    if vs == [] {
    } else {
      CanonPrintsTheSame(vs[0]);
      CanonItemsPrintTheSame(vs[1..]);
    }
  }

  lemma {:induction false} CanonMembersPrintTheSame(ms: seq<Member>, owner: Json, canonOwner: Json)
    requires forall m | m in ms :: m.value < owner && WellFormed(m.value)
    requires forall m | m in CanonMembers(ms, owner) :: m.value < canonOwner
    ensures PrintMembers(CanonMembers(ms, owner), canonOwner) == PrintMembers(ms, owner)
    decreases owner, |ms|
  {
    if ms == [] {
    } else {
      CanonPrintsTheSame(ms[0].value);
      assert CanonMembers(ms, owner)[1..] == CanonMembers(ms[1..], owner);
      CanonMembersPrintTheSame(ms[1..], owner, canonOwner);
    }
  }

  /** Two values print to the same text exactly when they are equivalent. */
  lemma SameTextIffEquivalent(a: Json, b: Json)
    requires WellFormed(a) && WellFormed(b)
    ensures StableStringify(a) == StableStringify(b) <==> Equivalent(a, b)
  {
    assert StableStringify(a) + [] == StableStringify(a);
    assert StableStringify(b) + [] == StableStringify(b);
    ReadUndoesPrint(a, []);
    ReadUndoesPrint(b, []);
    CanonCharacterizesEquivalence(a, b);
    CanonPrintsTheSame(a);
    CanonPrintsTheSame(b);
  }
}

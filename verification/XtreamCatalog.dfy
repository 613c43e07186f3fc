/**
 * The category lists of an Xtream panel: the panel's own categories, then one for every id its
 * streams need. With them the catalog writer passes over no stream.
 */
module XtreamCatalog {
  import opened Wrappers
  import opened FirstOccurrences
  import opened Playlist
  import opened PlaylistLines
  import opened DirectCatalog
  import opened CatalogTables
  import opened CatalogDb
  import opened CatalogLaws
  import opened CatalogListing
  import Decimal

  const FALLBACK_CATEGORY_ID := 0 - 999999

  /** A panel row: its id as a number, `None` when it is not finite, and its raw name. */
  datatype PanelRow = PanelRow(id: Option<int>, name: string)

  /** A JavaScript `Map`: setting a present key keeps its place. */
  datatype OrderedMap = OrderedMap(keys: seq<int>, values: map<int, Category>)

  function Empty(): OrderedMap {
    OrderedMap([], map[])
  }

  function Put(m: OrderedMap, k: int, v: Category): OrderedMap {
    OrderedMap(if k in m.values then m.keys else m.keys + [k], m.values[k := v])
  }

  ghost predicate Consistent(m: OrderedMap) {
    && NoDuplicates(m.keys)
    && (forall i :: 0 <= i < |m.keys| ==> m.keys[i] in m.values)
    && (forall k :: k in m.values ==> k in m.keys)
    && (forall k :: k in m.values ==> m.values[k].providerCategoryId == k)
  }

  function Values(m: OrderedMap): seq<Category>
    requires forall i :: 0 <= i < |m.keys| ==> m.keys[i] in m.values
  {
    seq(|m.keys|, i requires 0 <= i < |m.keys| && m.keys[i] in m.values => m.values[m.keys[i]])
  }

  function PanelName(row: PanelRow): string {
    OrElse(Trim(row.name), "Unknown")
  }

  function PrintInt(n: int): string {
    if n < 0 then "-" + Decimal.Print(0 - n) else Decimal.Print(n)
  }

  function SyntheticName(id: int, uncategorized: string): string {
    if id == FALLBACK_CATEGORY_ID then uncategorized else "Category " + PrintInt(id)
  }

  // What the two lists should hold

  /** The name the panel's last row with the id gives it. */
  function LastPanelName(rows: seq<PanelRow>, id: int): Option<string> {
    if rows == [] then None
    else if rows[|rows| - 1].id == Some(id) then Some(PanelName(rows[|rows| - 1]))
    else LastPanelName(rows[..|rows| - 1], id)
  }

  /** The ids of a panel's rows, in the order they first appear. */
  ghost function PanelIds(rows: seq<PanelRow>): seq<int> {
    if rows == [] then []
    else
      var rest := PanelIds(rows[..|rows| - 1]);
      match rows[|rows| - 1].id
      case Some(id) => if id in rest then rest else rest + [id]
      case None => rest
  }

  ghost predicate Lists(cats: seq<Category>, ids: seq<int>, rows: seq<PanelRow>) {
    && |cats| == |ids|
    && forall i :: 0 <= i < |ids| ==>
         LastPanelName(rows, ids[i]).Some? && cats[i] == Category(LastPanelName(rows, ids[i]).value, ids[i])
  }

  lemma PutConsistent(m: OrderedMap, k: int, v: Category)
    requires Consistent(m) && v.providerCategoryId == k
    ensures Consistent(Put(m, k, v))
  {
  }

  lemma {:induction false} PanelIdsNamed(rows: seq<PanelRow>, id: int)
    ensures id in PanelIds(rows) <==> LastPanelName(rows, id).Some?
  {
    if rows == [] {
    } else {
      PanelIdsNamed(rows[..|rows| - 1], id);
    }
  }

  /** What the map holds after the rows. */
  ghost predicate Holds(m: OrderedMap, rows: seq<PanelRow>) {
    && Consistent(m) && m.keys == PanelIds(rows)
    && forall k :: k in m.values ==> LastPanelName(rows, k) == Some(m.values[k].name)
  }

  lemma HoldsStep(m: OrderedMap, rows: seq<PanelRow>, row: PanelRow)
    requires Holds(m, rows)
    ensures row.id.None? ==> Holds(m, rows + [row])
    ensures row.id.Some? ==> Holds(Put(m, row.id.value, Category(PanelName(row), row.id.value)), rows + [row])
  {
    assert (rows + [row])[..|rows|] == rows;
  }

  method CategoriesFromPanel(rows: seq<PanelRow>) returns (cats: seq<Category>)
    ensures Lists(cats, PanelIds(rows), rows)
    ensures NoDuplicates(PanelIds(rows))
  {
    var byId := Empty();
    for i := 0 to |rows|
      invariant Holds(byId, rows[..i])
    {
      assert rows[..i + 1] == rows[..i] + [rows[i]];
      HoldsStep(byId, rows[..i], rows[i]);
      var row := rows[i];
      if row.id.None? {
        continue;
      }
      byId := Put(byId, row.id.value, Category(PanelName(row), row.id.value));
    }
    assert rows[..|rows|] == rows;
    cats := Values(byId);
  }

  /** The panel's categories, then a synthetic one for each needed id that is still missing. */
  function Completed(m: OrderedMap, needed: seq<int>, uncategorized: string): OrderedMap {
    if needed == [] then m
    else
      var rest, id := Completed(m, needed[..|needed| - 1], uncategorized), needed[|needed| - 1];
      if id in rest.values then rest else Put(rest, id, Category(SyntheticName(id, uncategorized), id))
  }

  function FromList(cats: seq<Category>): OrderedMap {
    if cats == [] then Empty()
    else Put(FromList(cats[..|cats| - 1]), cats[|cats| - 1].providerCategoryId, cats[|cats| - 1])
  }

  lemma {:induction false} FromListHolds(cats: seq<Category>, k: int)
    ensures Consistent(FromList(cats))
    ensures k in FromList(cats).values <==> NamedCategory(cats, k).Some?
    ensures k in FromList(cats).values ==> NamedCategory(cats, k) == Some(FromList(cats).values[k].name)
  {
    if cats == [] {
    } else {
      FromListHolds(cats[..|cats| - 1], k);
    }
  }

  lemma {:induction false} CompletedHolds(m: OrderedMap, needed: seq<int>, uncategorized: string, k: int)
    requires Consistent(m)
    ensures var r := Completed(m, needed, uncategorized);
            && Consistent(r) && m.keys <= r.keys
            && (k in r.values <==> k in m.values || k in needed)
            && (k in m.values ==> r.values[k] == m.values[k])
            && (k in needed && k !in m.values ==> r.values[k] == Category(SyntheticName(k, uncategorized), k))
  {
    if needed == [] {
    } else {
      CompletedHolds(m, needed[..|needed| - 1], uncategorized, k);
    }
  }

  method CategoriesForIds(fromPanel: seq<Category>, needed: seq<int>, uncategorized: string) returns (cats: seq<Category>)
    ensures Consistent(Completed(FromList(fromPanel), needed, uncategorized))
    ensures cats == Values(Completed(FromList(fromPanel), needed, uncategorized))
  {
    var byId := Empty();
    for i := 0 to |fromPanel|
      invariant byId == FromList(fromPanel[..i])
    {
      assert fromPanel[..i + 1][..i] == fromPanel[..i];
      byId := Put(byId, fromPanel[i].providerCategoryId, fromPanel[i]);
    }
    assert fromPanel[..|fromPanel|] == fromPanel;
    for i := 0 to |needed|
      invariant byId == Completed(FromList(fromPanel), needed[..i], uncategorized)
    {
      assert needed[..i + 1][..i] == needed[..i];
      if needed[i] in byId.values {
        continue;
      }
      byId := Put(byId, needed[i], Category(SyntheticName(needed[i], uncategorized), needed[i]));
    }
    assert needed[..|needed|] == needed;
    FromListHolds(fromPanel, 0);
    CompletedHolds(FromList(fromPanel), needed, uncategorized, 0);
    cats := Values(byId);
  }

  lemma ConsistentKeys(m: OrderedMap)
    requires Consistent(m)
    ensures forall i :: 0 <= i < |m.keys| ==> m.keys[i] in m.values
    ensures forall i :: 0 <= i < |m.keys| ==> m.values[m.keys[i]].providerCategoryId == m.keys[i]
    ensures m.keys == [] ==> forall k :: k !in m.values
    ensures forall k :: k in m.values ==> k in m.keys
  {
  }

  lemma RestConsistent(m: OrderedMap, rest: OrderedMap)
    requires Consistent(m) && m.keys != []
    requires rest.keys == m.keys[..|m.keys| - 1]
    requires rest.values == map key | key in m.values && key != m.keys[|m.keys| - 1] :: m.values[key]
    ensures Consistent(rest)
  {
    var n := |m.keys| - 1;
    forall k | k in rest.values
      ensures k in rest.keys
    {
      assert k in m.keys;
      var i :| 0 <= i < |m.keys| && m.keys[i] == k;
      assert rest.keys[i] == k;
    }
    forall k | k in rest.keys
      ensures k in rest.values
    {
      var i :| 0 <= i < |rest.keys| && rest.keys[i] == k;
      assert m.keys[i] == k && m.keys[i] != m.keys[n];
      assert k in m.keys;
    }
  }

  lemma LastValue(m: OrderedMap, rest: OrderedMap)
    requires Consistent(m) && m.keys != []
    requires rest.keys == m.keys[..|m.keys| - 1]
    requires rest.values == map key | key in m.values && key != m.keys[|m.keys| - 1] :: m.values[key]
    ensures Consistent(rest) && m.keys[|m.keys| - 1] in m.values
    ensures Values(m) == Values(rest) + [m.values[m.keys[|m.keys| - 1]]]
    ensures m.values[m.keys[|m.keys| - 1]].providerCategoryId == m.keys[|m.keys| - 1]
  {
    RestConsistent(m, rest);
  }

  /** The list of a consistent map names each key once. */
  lemma {:induction false} ValuesName(m: OrderedMap, k: int)
    requires Consistent(m)
    ensures NamedCategory(Values(m), k) == if k in m.values then Some(m.values[k].name) else None
    decreases |m.keys|
  {
    if m.keys == [] {
    } else {
      hide Consistent, Values;
      var n := |m.keys| - 1;
      var rest := OrderedMap(m.keys[..n], map key | key in m.values && key != m.keys[n] :: m.values[key]);
      ConsistentKeys(m);
      LastValue(m, rest);
      ConsistentKeys(rest);
      ValuesName(rest, k);
      assert Values(m)[..|Values(m)| - 1] == Values(rest);
    }
  }

  /** The ids of a section's streams. */
  function NeededIds(streams: seq<Stream>): seq<int> {
    seq(|streams|, i requires 0 <= i < |streams| => streams[i].providerCategoryId)
  }

  /**
   * Closure: whatever the panel sends, each needed id is listed, with the name of the panel's
   * last row for it, or a synthetic name when the panel has none; no other id is invented.
   */
  lemma EveryIdIsNamed(rows: seq<PanelRow>, fromPanel: seq<Category>, needed: seq<int>, uncategorized: string, k: int)
    requires Lists(fromPanel, PanelIds(rows), rows) && NoDuplicates(PanelIds(rows))
    ensures Consistent(Completed(FromList(fromPanel), needed, uncategorized))
    ensures NamedCategory(Values(Completed(FromList(fromPanel), needed, uncategorized)), k) ==
              if LastPanelName(rows, k).Some? then LastPanelName(rows, k)
              else if k in needed then Some(SyntheticName(k, uncategorized))
              else None
  {
    FromListHolds(fromPanel, k);
    CompletedHolds(FromList(fromPanel), needed, uncategorized, k);
    ValuesName(Completed(FromList(fromPanel), needed, uncategorized), k);
    PanelListNames(rows, fromPanel, k);
  }

  // The order of the lists

  ghost predicate IsFirstRow(rows: seq<PanelRow>, id: int, i: nat) {
    i < |rows| && rows[i].id == Some(id) && forall k :: 0 <= k < i ==> rows[k].id != Some(id)
  }

  lemma {:induction false} ListedIff(rows: seq<PanelRow>, id: int)
    ensures id in PanelIds(rows) <==> exists i :: 0 <= i < |rows| && rows[i].id == Some(id)
  {
    if rows == [] {
    } else {
      var rest := rows[..|rows| - 1];
      ListedIff(rest, id);
      assert forall i :: 0 <= i < |rest| ==> rest[i] == rows[i];
      assert id in PanelIds(rows) <==> id in PanelIds(rest) || rows[|rows| - 1].id == Some(id);
    }
  }

  /** The panel's categories stand in the order in which their ids first come up. */
  lemma {:induction false} PanelOrder(rows: seq<PanelRow>, a: nat, b: nat, i: nat, j: nat)
    requires a < b < |PanelIds(rows)| && IsFirstRow(rows, PanelIds(rows)[a], i) && IsFirstRow(rows, PanelIds(rows)[b], j)
    ensures i < j
  {
    var rest, ids := rows[..|rows| - 1], PanelIds(rows);
    ListedIff(rest, ids[a]);
    ListedIff(rest, ids[b]);
    assert ids[a] == PanelIds(rest)[a] && ids[a] in PanelIds(rest);
    if b < |PanelIds(rest)| {
      assert ids[b] == PanelIds(rest)[b] && ids[b] in PanelIds(rest);
      PanelOrder(rest, a, b, i, j);
    } else {
      assert ids[b] !in PanelIds(rest) && rows[|rows| - 1].id == Some(ids[b]);
    }
  }

  ghost predicate IsFirstNeed(needed: seq<int>, id: int, i: nat) {
    i < |needed| && needed[i] == id && forall k :: 0 <= k < i ==> needed[k] != id
  }

  lemma {:induction false} CompletedKeys(m: OrderedMap, needed: seq<int>, uncategorized: string, a: nat)
    requires Consistent(m)
    ensures var r := Completed(m, needed, uncategorized);
            Consistent(r) && m.keys <= r.keys && (|m.keys| <= a < |r.keys| ==> r.keys[a] in needed)
  {
    if needed == [] {
    } else {
      CompletedKeys(m, needed[..|needed| - 1], uncategorized, a);
    }
  }

  /** The missing ones follow the listed ones, in the order in which they are first needed. */
  lemma {:induction false} NeedOrder(m: OrderedMap, needed: seq<int>, uncategorized: string, a: nat, b: nat, i: nat, j: nat)
    requires Consistent(m) && |m.keys| <= a < b < |Completed(m, needed, uncategorized).keys|
    requires var keys := Completed(m, needed, uncategorized).keys;
             IsFirstNeed(needed, keys[a], i) && IsFirstNeed(needed, keys[b], j)
    ensures i < j
  {
    hide NoDuplicates, SyntheticName;
    var rest := needed[..|needed| - 1];
    var before, keys := Completed(m, rest, uncategorized), Completed(m, needed, uncategorized).keys;
    CompletedKeys(m, rest, uncategorized, a);
    CompletedKeys(m, rest, uncategorized, b);
    assert keys[a] == before.keys[a] && keys[a] in rest;
    if b < |before.keys| {
      assert keys[b] == before.keys[b] && keys[b] in rest;
      NeedOrder(m, rest, uncategorized, a, b, i, j);
    } else {
      CompletedHolds(m, rest, uncategorized, keys[b]);
    }
  }

  // Names, said of the panel's rows

  /** The panel's raw name without white space around it, or "Unknown" when nothing is left. */
  ghost predicate IsPanelName(raw: string, name: string) {
    if Blank(raw) then name == "Unknown" else name != "" && IsTrimOf(raw, name)
  }

  ghost predicate IsLastRow(rows: seq<PanelRow>, id: int, i: nat) {
    i < |rows| && rows[i].id == Some(id) && forall k :: i < k < |rows| ==> rows[k].id != Some(id)
  }

  /** An id's name: that of the panel's last row for it; for an id the panel does not list, a made-up one. */
  ghost predicate IsNameOf(rows: seq<PanelRow>, id: int, uncategorized: string, name: string) {
    if exists i :: 0 <= i < |rows| && rows[i].id == Some(id)
    then exists i: nat :: IsLastRow(rows, id, i) && IsPanelName(rows[i].name, name)
    else name == if id == -999999 then uncategorized else "Category " + PrintInt(id)
  }

  /** An id's numeral: its decimal digits, the last one last, behind a minus sign if it is negative. */
  lemma IdNumeral(n: int)
    ensures 0 <= n < 10 ==> PrintInt(n) == [(48 + n) as char]
    ensures n >= 10 ==> PrintInt(n) == PrintInt(n / 10) + [(48 + n % 10) as char]
    ensures n < 0 ==> PrintInt(n) == "-" + PrintInt(-n)
  {
    hide Decimal.Print;
    if n >= 0 {
      Decimal.PrintIs(n);
    }
  }

  lemma {:induction false} LastNameIs(rows: seq<PanelRow>, id: int)
    ensures match LastPanelName(rows, id)
            case Some(name) => exists i: nat :: IsLastRow(rows, id, i) && IsPanelName(rows[i].name, name)
            case None => forall i :: 0 <= i < |rows| ==> rows[i].id != Some(id)
  {
    hide Blank, IsTrimOf, Trim;
    if rows == [] {
    } else {
      var n := |rows| - 1;
      if rows[n].id == Some(id) {
        TrimIs(rows[n].name);
        assert IsLastRow(rows, id, n);
      } else {
        LastNameIs(rows[..n], id);
        match LastPanelName(rows, id)
        case Some(name) =>
          var i: nat :| IsLastRow(rows[..n], id, i) && IsPanelName(rows[..n][i].name, name);
          assert IsLastRow(rows, id, i);
        case None =>
      }
    }
  }

  lemma NameIs(rows: seq<PanelRow>, id: int, uncategorized: string)
    ensures IsNameOf(rows, id, uncategorized,
                     if LastPanelName(rows, id).Some? then LastPanelName(rows, id).value else SyntheticName(id, uncategorized))
  {
    hide IsPanelName, PrintInt;
    LastNameIs(rows, id);
  }

  lemma PanelListNames(rows: seq<PanelRow>, cats: seq<Category>, k: int)
    requires Lists(cats, PanelIds(rows), rows) && NoDuplicates(PanelIds(rows))
    ensures NamedCategory(cats, k) == LastPanelName(rows, k)
  {
    var ids := PanelIds(rows);
    PanelIdsNamed(rows, k);
    if k in ids {
      var i :| 0 <= i < |ids| && ids[i] == k;
      NamedAt(cats, i);
    } else {
      NotNamed(cats, k);
    }
  }

  lemma {:induction false} NamedAt(cats: seq<Category>, i: nat)
    requires i < |cats|
    requires forall a, b :: 0 <= a < b < |cats| ==> cats[a].providerCategoryId != cats[b].providerCategoryId
    ensures NamedCategory(cats, cats[i].providerCategoryId) == Some(cats[i].name)
  {
    if i < |cats| - 1 {
      NamedAt(cats[..|cats| - 1], i);
    }
  }

  lemma {:induction false} NotNamed(cats: seq<Category>, k: int)
    requires forall i :: 0 <= i < |cats| ==> cats[i].providerCategoryId != k
    ensures NamedCategory(cats, k) == None
  {
    if cats == [] {
    } else {
      NotNamed(cats[..|cats| - 1], k);
    }
  }

  /** So the replacement stores every stream of the section, each under its category's name. */
  lemma EveryStreamIsStored(db: Db, hash: string, catalog: Catalog, kind: Kind,
                            rows: seq<PanelRow>, fromPanel: seq<Category>, uncategorized: string)
    requires DbOk(db)
    requires Lists(fromPanel, PanelIds(rows), rows) && NoDuplicates(PanelIds(rows))
    requires Consistent(Completed(FromList(fromPanel), NeededIds(StreamsIn(catalog, kind)), uncategorized))
    requires CategoriesIn(catalog, kind)
          == Values(Completed(FromList(fromPanel), NeededIds(StreamsIn(catalog, kind)), uncategorized))
    ensures var streams, listing := StreamsIn(catalog, kind), Listing(SectionOf(Replaced(db, hash, catalog), kind), hash);
            && |listing| == |streams|
            && forall i :: 0 <= i < |streams| ==>
                 && listing[i].stream == streams[i] && listing[i].category.Some?
                 && IsNameOf(rows, streams[i].providerCategoryId, uncategorized, listing[i].category.value)
  {
    hide DbOk, Replaced, Listing, Expected, NamedCategory, LastPanelName, PanelIds, Completed, FromList, Consistent, Lists,
         SyntheticName, IsNameOf;
    var streams := StreamsIn(catalog, kind);
    ReplacedLists(db, hash, catalog, kind);
    forall i | 0 <= i < |streams|
      ensures NamedCategory(CategoriesIn(catalog, kind), streams[i].providerCategoryId).Some?
      ensures IsNameOf(rows, streams[i].providerCategoryId, uncategorized,
                       NamedCategory(CategoriesIn(catalog, kind), streams[i].providerCategoryId).value)
      ensures NamedCategory(CategoriesIn(catalog, kind), streams[i].providerCategoryId) ==
                if LastPanelName(rows, streams[i].providerCategoryId).Some? then LastPanelName(rows, streams[i].providerCategoryId)
                else Some(SyntheticName(streams[i].providerCategoryId, uncategorized))
    {
      assert NeededIds(streams)[i] == streams[i].providerCategoryId;
      EveryIdIsNamed(rows, fromPanel, NeededIds(streams), uncategorized, streams[i].providerCategoryId);
      NameIs(rows, streams[i].providerCategoryId, uncategorized);
    }
    NothingPassedOver(CategoriesIn(catalog, kind), streams);
  }
}

/** Grouping of the measurement panel's items by display set
    (`groupByDisplaySet`): measurements are gathered into one group record
    per distinct `displaySetInstanceUID`, in an insertion-ordered map whose
    keys follow the first appearance of each display set in the input. */
module SeriesMeasurements {

  /** A measurement item; `uid` identifies the measurement itself. */
  datatype Measurement = Measurement(uid: string, displaySetInstanceUID: string)

  /** The JavaScript values a group record's properties can hold. `Obj` is an
      opaque object reference (a display set, a component, a menu). */
  datatype JsValue =
    | Undefined
    | Null
    | Bool(b: bool)
    | Str(s: string)
    | Num(n: int)
    | Obj(ref: nat)
    | List(elements: seq<Measurement>)

  /** An object as its own enumerable properties. */
  type JsObject = map<string, JsValue>

  /** The properties of a group record that `groupByDisplaySet` writes
      itself; the rest are copied from the `grouping` object. */
  const Written: set<string> := {"header", "isSelected", "items", "key", "title", "displaySet"}

  const SeriesTitle: string := "Series Measurements"

  /** One group record. */
  datatype Group = Group(
    header: JsValue,
    isSelected: JsValue,
    extra: JsObject,
    items: seq<Measurement>,
    key: string,
    title: string,
    displaySet: JsValue)

  /** The group record as the JavaScript object it is: the properties
      copied from `grouping`, under the six it writes itself. */
  function Record(g: Group): JsObject {
    g.extra
    + map["header" := g.header, "isSelected" := g.isSelected, "items" := List(g.items),
          "key" := Str(g.key), "title" := Str(g.title), "displaySet" := g.displaySet]
  }

  /** `grouping.activeDisplaySetInstanceUID`. */
  function ActiveUid(grouping: JsObject): JsValue {
    if "activeDisplaySetInstanceUID" in grouping then grouping["activeDisplaySetInstanceUID"] else Undefined
  }

  /** The record created for a display set seen for the first time. */
  function NewGroup(grouping: JsObject, key: string, displaySet: JsValue): (g: Group)
    ensures g.key == key && g.title == SeriesTitle && g.items == [] && g.displaySet == displaySet
  {
    Group(
      if "header" in grouping then grouping["header"] else Null,
      if "isSelected" in grouping then grouping["isSelected"] else Bool(ActiveUid(grouping) == Str(key)),
      grouping,
      [], key, SeriesTitle, displaySet)
  }

  /** A new record is the spread of `grouping` between two layers: `header`
      (null) and `isSelected` (whether the key is the active display set) are
      defaults that `grouping` overrides; `items` (empty), `key`, `title` and
      `displaySet` override `grouping`; every other property of `grouping`
      is copied. */
  lemma NewGroupIsSpread(grouping: JsObject, key: string, displaySet: JsValue)
    ensures Record(NewGroup(grouping, key, displaySet))
         == (map["header" := Null, "isSelected" := Bool(ActiveUid(grouping) == Str(key))] + grouping)
            + map["items" := List([]), "key" := Str(key), "title" := Str(SeriesTitle),
                  "displaySet" := displaySet]
  {
  }

  /** Unless `grouping` sets `isSelected`, a group is selected exactly when
      its key is the active display set. */
  lemma SelectedIffActive(grouping: JsObject, key: string, displaySet: JsValue)
    requires "isSelected" !in grouping
    ensures Record(NewGroup(grouping, key, displaySet))["isSelected"] == Bool(true)
        <==> ActiveUid(grouping) == Str(key)
  {
  }

  // ---------------------------------------------------------------------
  // The grouping, as a reference definition

  /** A `Map` keeping the order in which its keys were first set. */
  datatype GroupMap = GroupMap(order: seq<string>, entries: map<string, Group>)

  predicate Distinct(s: seq<string>) {
    forall a, b | 0 <= a < b < |s| :: s[a] != s[b]
  }

  /** The display set of some item. */
  predicate HasKey(items: seq<Measurement>, k: string) {
    exists j :: 0 <= j < |items| && items[j].displaySetInstanceUID == k
  }

  /** The distinct display sets of `items`, in order of first appearance. */
  function FirstAppearance(items: seq<Measurement>): (keys: seq<string>)
    ensures Distinct(keys)
  {
    if items == [] then []
    else
      var keys := FirstAppearance(items[..|items| - 1]);
      var k := items[|items| - 1].displaySetInstanceUID;
      if k in keys then keys else keys + [k]
  }

  /** The keys listed are exactly the display sets of the items. */
  lemma {:induction false} FirstAppearanceKeys(items: seq<Measurement>, k: string)
    ensures k in FirstAppearance(items) <==> HasKey(items, k)
  {
    if items != [] {
      var init := items[..|items| - 1];
      FirstAppearanceKeys(init, k);
      if HasKey(items, k) && k != items[|items| - 1].displaySetInstanceUID {
        var j :| 0 <= j < |items| && items[j].displaySetInstanceUID == k;
        assert init[j] == items[j];
      }
      if HasKey(init, k) {
        var j :| 0 <= j < |init| && init[j].displaySetInstanceUID == k;
        assert items[j] == init[j];
      }
    }
  }

  /** The items of display set `k`, in input order. */
  function ItemsFor(items: seq<Measurement>, k: string): (group: seq<Measurement>)
    ensures |group| <= |items|
    ensures forall t | 0 <= t < |group| :: group[t].displaySetInstanceUID == k
  {
    if items == [] then []
    else
      var last := items[|items| - 1];
      ItemsFor(items[..|items| - 1], k) + (if last.displaySetInstanceUID == k then [last] else [])
  }

  /** What `groupByDisplaySet(items, grouping, ...)` returns, the display-set
      service being the function `lookup`. */
  function Grouped(items: seq<Measurement>, grouping: JsObject, lookup: string -> JsValue): GroupMap {
    var keys := FirstAppearance(items);
    GroupMap(keys, map k | k in keys :: NewGroup(grouping, k, lookup(k)).(items := ItemsFor(items, k)))
  }

  // ---------------------------------------------------------------------
  // The loop

  /** `groupByDisplaySet`: one pass over `items`, creating a record the first
      time a display set is seen and appending every item to its record.
      `lookups` records the calls made to the display-set service. */
  method GroupByDisplaySet(items: seq<Measurement>, grouping: JsObject, lookup: string -> JsValue)
    returns (groups: GroupMap, ghost lookups: seq<string>)
    ensures groups == Grouped(items, grouping, lookup)
    ensures lookups == groups.order
  {
    var order: seq<string> := [];
    var entries: map<string, Group> := map[];
    lookups := [];
    var i := 0;
    while i < |items|
      invariant 0 <= i <= |items|
      invariant GroupMap(order, entries) == Steps(items[..i], grouping, lookup)
      invariant lookups == order
    {
      var item := items[i];
      var key := item.displaySetInstanceUID;
      ghost var next := AddItem(GroupMap(order, entries), item, grouping, lookup);
      if key !in entries {
        var displaySet := lookup(key);
        lookups := lookups + [key];
        entries := entries[key := NewGroup(grouping, key, displaySet)];
        order := order + [key];
      }
      var g := entries[key];
      entries := entries[key := g.(items := g.items + [item])];
      assert GroupMap(order, entries) == next;
      assert items[..i + 1][..i] == items[..i];
      i := i + 1;
    }
    assert items[..i] == items;
    groups := GroupMap(order, entries);
    StepsAreGrouped(items, grouping, lookup);
  }

  /** One step of the loop on a grouping: a new key is appended with a new
      record, and the item is appended to its key's record. */
  function AddItem(m: GroupMap, x: Measurement, grouping: JsObject, lookup: string -> JsValue): GroupMap {
    var k := x.displaySetInstanceUID;
    var g := if k in m.entries then m.entries[k] else NewGroup(grouping, k, lookup(k));
    GroupMap(if k in m.entries then m.order else m.order + [k], m.entries[k := g.(items := g.items + [x])])
  }

  /** The loop's steps applied to every item in turn. */
  function Steps(items: seq<Measurement>, grouping: JsObject, lookup: string -> JsValue): GroupMap {
    if items == [] then GroupMap([], map[])
    else AddItem(Steps(items[..|items| - 1], grouping, lookup), items[|items| - 1], grouping, lookup)
  }

  /** Taking the steps one by one yields the grouping described by first
      appearance and per-key item lists. */
  lemma {:induction false} StepsAreGrouped(items: seq<Measurement>, grouping: JsObject, lookup: string -> JsValue)
    ensures Steps(items, grouping, lookup) == Grouped(items, grouping, lookup)
  {
    if items != [] {
      var n := |items| - 1;
      StepsAreGrouped(items[..n], grouping, lookup);
      GroupedStep(items, n, grouping, lookup);
      assert items[..n + 1] == items;
    }
  }

  /** Grouping one more item is one loop step. */
  lemma GroupedStep(items: seq<Measurement>, i: int, grouping: JsObject, lookup: string -> JsValue)
    requires 0 <= i < |items|
    ensures Grouped(items[..i + 1], grouping, lookup)
         == AddItem(Grouped(items[..i], grouping, lookup), items[i], grouping, lookup)
  {
    var before := Grouped(items[..i], grouping, lookup);
    var after := Grouped(items[..i + 1], grouping, lookup);
    var expected := AddItem(before, items[i], grouping, lookup);
    FirstAppearanceStep(items, i);
    assert after.entries.Keys == expected.entries.Keys;
    forall k | k in after.entries ensures after.entries[k] == expected.entries[k] {
      EntryStep(items, i, grouping, lookup, k);
    }
  }

  lemma FirstAppearanceStep(items: seq<Measurement>, i: int)
    requires 0 <= i < |items|
    ensures var keys, k := FirstAppearance(items[..i]), items[i].displaySetInstanceUID;
      FirstAppearance(items[..i + 1]) == if k in keys then keys else keys + [k]
  {
    assert items[..i + 1][..i] == items[..i];
  }

  lemma ItemsForStep(items: seq<Measurement>, i: int, k: string)
    requires 0 <= i < |items|
    ensures ItemsFor(items[..i + 1], k)
         == ItemsFor(items[..i], k) + (if items[i].displaySetInstanceUID == k then [items[i]] else [])
  {
    assert items[..i + 1][..i] == items[..i];
  }

  /** The record of key `k` after one more item. */
  lemma EntryStep(items: seq<Measurement>, i: int, grouping: JsObject, lookup: string -> JsValue, k: string)
    requires 0 <= i < |items|
    requires k in Grouped(items[..i + 1], grouping, lookup).entries
    ensures k in AddItem(Grouped(items[..i], grouping, lookup), items[i], grouping, lookup).entries
    ensures Grouped(items[..i + 1], grouping, lookup).entries[k]
         == AddItem(Grouped(items[..i], grouping, lookup), items[i], grouping, lookup).entries[k]
  {
    FirstAppearanceStep(items, i);
    ItemsForStep(items, i, k);
    if k !in FirstAppearance(items[..i]) {
      UnlistedKeyHasNoItems(items[..i], k);
    }
  }

  /** A display set not among the keys has no items. */
  lemma {:induction false} UnlistedKeyHasNoItems(items: seq<Measurement>, k: string)
    requires k !in FirstAppearance(items)
    ensures ItemsFor(items, k) == []
  {
    if items != [] {
      UnlistedKeyHasNoItems(items[..|items| - 1], k);
    }
  }

  // ---------------------------------------------------------------------
  // Properties of the grouping

  /** No items, no groups. */
  lemma EmptyInputNoGroups(grouping: JsObject, lookup: string -> JsValue)
    ensures Grouped([], grouping, lookup) == GroupMap([], map[])
  {
  }

  /** The keys are distinct, are exactly the display sets of the input, and
      each key's record is keyed by it. */
  lemma KeysAreTheDisplaySets(items: seq<Measurement>, grouping: JsObject, lookup: string -> JsValue)
    ensures var r := Grouped(items, grouping, lookup);
      && Distinct(r.order)
      && r.entries.Keys == (set j | 0 <= j < |items| :: items[j].displaySetInstanceUID)
      && (forall k | k in r.entries :: r.entries[k].key == k && r.entries[k].title == SeriesTitle)
  {
    var r := Grouped(items, grouping, lookup);
    var displaySets := set j | 0 <= j < |items| :: items[j].displaySetInstanceUID;
    forall k ensures k in r.entries.Keys <==> k in displaySets {
      FirstAppearanceKeys(items, k);
      if HasKey(items, k) {
        var j :| 0 <= j < |items| && items[j].displaySetInstanceUID == k;
        assert items[j].displaySetInstanceUID in displaySets;
      }
    }
  }

  /** Some item of display set `k` comes before position `q`. */
  predicate AppearsBefore(items: seq<Measurement>, k: string, q: int) {
    exists p :: 0 <= p < q && p < |items| && items[p].displaySetInstanceUID == k
  }

  /** The keys follow first appearance: every item of a later key comes
      after some item of each earlier key. */
  lemma {:induction false} KeysInFirstAppearanceOrder(items: seq<Measurement>, a: int, b: int, q: int)
    requires 0 <= a < b < |FirstAppearance(items)|
    requires 0 <= q < |items| && items[q].displaySetInstanceUID == FirstAppearance(items)[b]
    ensures AppearsBefore(items, FirstAppearance(items)[a], q)
  {
    var init, last := items[..|items| - 1], items[|items| - 1];
    var keys, prev := FirstAppearance(items), FirstAppearance(init);
    assert forall j | 0 <= j < |init| :: init[j] == items[j];
    if q < |init| {
      assert HasKey(init, keys[b]) by { assert init[q] == items[q]; }
      FirstAppearanceKeys(init, keys[b]);
      assert keys[b] == prev[b] && keys[a] == prev[a];
      KeysInFirstAppearanceOrder(init, a, b, q);
      var p :| 0 <= p < q && p < |init| && init[p].displaySetInstanceUID == prev[a];
      assert items[p] == init[p];
    } else if b < |prev| {
      assert keys == prev && last.displaySetInstanceUID == prev[b];
      FirstAppearanceKeys(init, prev[b]);
      var q' :| 0 <= q' < |init| && init[q'].displaySetInstanceUID == prev[b];
      KeysInFirstAppearanceOrder(init, a, b, q');
      var p :| 0 <= p < q' && p < |init| && init[p].displaySetInstanceUID == prev[a];
      assert items[p] == init[p];
    } else {
      assert keys[a] == prev[a];
      FirstAppearanceKeys(init, prev[a]);
      var p :| 0 <= p < |init| && init[p].displaySetInstanceUID == prev[a];
      assert items[p] == init[p];
    }
  }

  /** The positions of display set `k`'s items, ascending. */
  function Positions(items: seq<Measurement>, k: string): seq<int> {
    if items == [] then []
    else
      var n := |items| - 1;
      Positions(items[..n], k) + (if items[n].displaySetInstanceUID == k then [n] else [])
  }

  /** A group's items are exactly the input items of its display set, taken
      at ascending positions: relative input order is kept and none is
      missed or repeated. */
  lemma {:induction false} ItemsForKeepsOrder(items: seq<Measurement>, k: string)
    ensures var pos := Positions(items, k);
      && |ItemsFor(items, k)| == |pos|
      && (forall t | 0 <= t < |pos| :: 0 <= pos[t] < |items| && ItemsFor(items, k)[t] == items[pos[t]])
      && (forall s, t | 0 <= s < t < |pos| :: pos[s] < pos[t])
      && (forall j | 0 <= j < |items| :: j in pos <==> items[j].displaySetInstanceUID == k)
  {
    if items != [] {
      var n := |items| - 1;
      var init := items[..n];
      ItemsForKeepsOrder(init, k);
      assert forall j | 0 <= j < n :: init[j] == items[j];
    }
  }

  /** Every item is in the group of its own display set and in no other. */
  lemma {:induction false} EachItemInItsOwnGroup(items: seq<Measurement>, grouping: JsObject,
                                                 lookup: string -> JsValue, j: int)
    requires 0 <= j < |items|
    ensures var r := Grouped(items, grouping, lookup);
      var k := items[j].displaySetInstanceUID;
      && k in r.entries && items[j] in r.entries[k].items
      && forall k' | k' in r.entries && k' != k :: items[j] !in r.entries[k'].items
  {
    var k := items[j].displaySetInstanceUID;
    FirstAppearanceKeys(items, k);
    ItemsForKeepsOrder(items, k);
    var pos := Positions(items, k);
    var t :| 0 <= t < |pos| && pos[t] == j;
    assert ItemsFor(items, k)[t] == items[j];
  }

  /** The sizes of the groups listed in `keys`. */
  function TotalSize(keys: seq<string>, items: seq<Measurement>): nat {
    if keys == [] then 0 else |ItemsFor(items, keys[0])| + TotalSize(keys[1..], items)
  }

  /** Appending an item grows the total by one if its display set is listed
      (once) in `keys`, and by nothing otherwise. */
  lemma {:induction false} TotalSizeSnoc(keys: seq<string>, items: seq<Measurement>, x: Measurement)
    requires Distinct(keys)
    ensures TotalSize(keys, items + [x])
         == TotalSize(keys, items) + (if x.displaySetInstanceUID in keys then 1 else 0)
  {
    assert (items + [x])[..|items|] == items;
    if keys != [] {
      assert Distinct(keys[1..]) by {
        forall a, b | 0 <= a < b < |keys[1..]| ensures keys[1..][a] != keys[1..][b] {
          assert keys[1..][a] == keys[a + 1] && keys[1..][b] == keys[b + 1];
        }
      }
      assert x.displaySetInstanceUID in keys <==>
        x.displaySetInstanceUID == keys[0] || x.displaySetInstanceUID in keys[1..];
      assert x.displaySetInstanceUID == keys[0] ==> x.displaySetInstanceUID !in keys[1..];
      TotalSizeSnoc(keys[1..], items, x);
    }
  }

  /** Appending a key not among `keys` adds that key's group size. */
  lemma {:induction false} TotalSizeAppendKey(keys: seq<string>, k: string, items: seq<Measurement>)
    ensures TotalSize(keys + [k], items) == TotalSize(keys, items) + |ItemsFor(items, k)|
  {
    if keys != [] {
      assert (keys + [k])[1..] == keys[1..] + [k];
      TotalSizeAppendKey(keys[1..], k, items);
    }
  }

  /** The sizes of the records listed in `keys`. */
  function GroupSizes(keys: seq<string>, entries: map<string, Group>): nat {
    if keys == [] then 0
    else (if keys[0] in entries then |entries[keys[0]].items| else 0) + GroupSizes(keys[1..], entries)
  }

  /** The sizes of the returned groups add up to the number of items. */
  lemma GroupSizesSumToInput(items: seq<Measurement>, grouping: JsObject, lookup: string -> JsValue)
    ensures var r := Grouped(items, grouping, lookup);
      GroupSizes(r.order, r.entries) == |items|
  {
    var r := Grouped(items, grouping, lookup);
    GroupSizesAreTotal(r.order, items, grouping, lookup);
    TotalSizeIsLength(items);
  }

  /** Over listed keys, the records' sizes are the sizes of `ItemsFor`. */
  lemma {:induction false} GroupSizesAreTotal(keys: seq<string>, items: seq<Measurement>,
                                              grouping: JsObject, lookup: string -> JsValue)
    requires forall k | k in keys :: k in FirstAppearance(items)
    ensures GroupSizes(keys, Grouped(items, grouping, lookup).entries) == TotalSize(keys, items)
  {
    if keys != [] {
      GroupSizesAreTotal(keys[1..], items, grouping, lookup);
    }
  }

  /** Summed over the first-appearance keys, the `ItemsFor` sizes are the
      number of items. */
  lemma {:induction false} TotalSizeIsLength(items: seq<Measurement>)
    ensures TotalSize(FirstAppearance(items), items) == |items|
  {
    if items != [] {
      var n := |items| - 1;
      var init, last := items[..n], items[n];
      var prev := FirstAppearance(init);
      assert items == init + [last];
      TotalSizeIsLength(init);
      TotalSizeSnoc(prev, init, last);
      if last.displaySetInstanceUID !in prev {
        TotalSizeAppendKey(prev, last.displaySetInstanceUID, items);
        UnlistedKeyHasNoItems(init, last.displaySetInstanceUID);
      }
    }
  }
}

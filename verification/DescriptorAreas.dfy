/**
 The SQL descriptor areas of an SQL-connection, by name. A name is of a module, or of every module
 when it's GLOBAL.
 */
module DescriptorAreas {
  import opened Wrappers
  import opened SqlCli
  import opened Utf8
  import opened Retrieval
  import opened Descriptors

  function KeyOf(d: Descriptor): Key {
    Key(d.owner, d.name)
  }

  // No two areas have the same name, or share memory.
  ghost predicate Distinct(list: seq<Descriptor>) {
    forall i, j | 0 <= i < j < |list| :: Apart(list[i], list[j])
  }

  ghost predicate Apart(d: Descriptor, e: Descriptor) {
    d != e && d.items != e.items && KeyOf(d) != KeyOf(e)
  }

  lemma RemoveArea(list: seq<Descriptor>, k: nat)
    requires Distinct(list) && k < |list|
    ensures var after := list[..k] + list[k + 1..];
      && Distinct(after) && forall d :: d in after <==> d in list && KeyOf(d) != KeyOf(list[k])
  {
    var after := list[..k] + list[k + 1..];
    forall i, j | 0 <= i < j < |after| ensures Apart(after[i], after[j]) {
      var i', j' := if i < k then i else i + 1, if j < k then j else j + 1;
      assert after[i] == list[i'] && after[j] == list[j'];
    }
    forall d | d in list && KeyOf(d) != KeyOf(list[k]) ensures d in after {
      var i :| 0 <= i < |list| && list[i] == d;
      assert after[if i < k then i else i - 1] == d;
    }
    forall d | d in after ensures d in list && KeyOf(d) != KeyOf(list[k]) {
      var i :| 0 <= i < |after| && after[i] == d;
      var i' := if i < k then i else i + 1;
      assert list[i'] == d && (if i' < k then Apart(list[i'], list[k]) else Apart(list[k], list[i']));
    }
  }

  // What the names of a list of areas are of.
  function ByKey(pairs: seq<(Key, Image)>): map<Key, Image> {
    if pairs == [] then map[] else ByKey(pairs[1..])[pairs[0].0 := pairs[0].1]
  }

  ghost predicate DistinctKeys(pairs: seq<(Key, Image)>) {
    forall i, j | 0 <= i < j < |pairs| :: pairs[i].0 != pairs[j].0
  }

  lemma {:induction false} KeyIn(pairs: seq<(Key, Image)>, key: Key)
    ensures key in ByKey(pairs) <==> exists i :: 0 <= i < |pairs| && pairs[i].0 == key
  {
    if pairs != [] {
      KeyIn(pairs[1..], key);
      assert forall i | 0 < i < |pairs| :: pairs[i] == pairs[1..][i - 1];
    }
  }

  lemma {:induction false} KeyAt(pairs: seq<(Key, Image)>, k: nat)
    requires DistinctKeys(pairs) && k < |pairs|
    ensures pairs[k].0 in ByKey(pairs) && ByKey(pairs)[pairs[k].0] == pairs[k].1
  {
    if k > 0 {
      KeyAt(pairs[1..], k - 1);
    }
  }

  lemma FirstKey(pairs: seq<(Key, Image)>)
    requires DistinctKeys(pairs) && pairs != []
    ensures ByKey(pairs[1..]) == ByKey(pairs) - {pairs[0].0}
  {
    KeyIn(pairs[1..], pairs[0].0);
    assert forall i | 0 <= i < |pairs| - 1 :: pairs[1..][i] == pairs[i + 1];
  }

  lemma OtherKey(m: map<Key, Image>, k: Key, image: Image, other: Key)
    requires k != other
    ensures m[k := image] - {other} == (m - {other})[k := image]
  {
  }

  lemma {:induction false} KeyWithout(pairs: seq<(Key, Image)>, k: nat)
    requires DistinctKeys(pairs) && k < |pairs|
    ensures ByKey(pairs[..k] + pairs[k + 1..]) == ByKey(pairs) - {pairs[k].0}
  {
    var tail, after := pairs[1..], pairs[..k] + pairs[k + 1..];
    if k == 0 {
      assert after == tail;
      FirstKey(pairs);
    } else {
      assert tail[k - 1] == pairs[k];
      KeyWithout(tail, k - 1);
      assert after[1..] == tail[..k - 1] + tail[k..] && after[0] == pairs[0];
      OtherKey(ByKey(tail), pairs[0].0, pairs[0].1, pairs[k].0);
    }
  }

  lemma {:induction false} KeyWith(pairs: seq<(Key, Image)>, k: nat, image: Image)
    requires DistinctKeys(pairs) && k < |pairs|
    ensures ByKey(pairs[k := (pairs[k].0, image)]) == ByKey(pairs)[pairs[k].0 := image]
  {
    var tail, after := pairs[1..], pairs[k := (pairs[k].0, image)];
    if k == 0 {
      assert after[1..] == tail;
    } else {
      KeyWith(tail, k - 1, image);
      assert after[1..] == tail[k - 1 := (tail[k - 1].0, image)] && after[0] == pairs[0];
    }
  }

  const MAX_OCCURRENCES := 32767

  datatype Key = Key(owner: Option<nat>, name: string)

  datatype Call =
    | Allocate(max: int)
    | Deallocate
    | SetCount(count: int)
    | SetNumber(n: int, component: nat, value: int)
    | SetString(n: int, component: nat, text: string)
    | SetData(n: int, t: HostType, length: int, data: HostValue)
    | Describe(columns: seq<Description>)
    | Into(row: seq<Column>, varying: set<nat>)
  {
    // What the generated procedures make sure of.
    ghost predicate Possible() {
      match this
      case SetNumber(_, component, _) => component < NUMBERS
      case SetString(_, component, _) => component < STRINGS
      case SetData(_, t, _, data) => data.Of(t)
      case _ => true
    }
  }

  // SET DESCRIPTOR of item n: it's within the maximum, and no other item changes.
  ghost predicate ItemSet(a: Image, n: int, b: Image, status: SqlState) {
    if n < 1 || n > |a.items| then status == INVALID_INDEX && b == a
    else b == a.(items := b.items) && Only(a.items, b.items, n - 1)
  }

  ghost predicate NumberSet(a: Item, component: nat, value: int, b: Item, status: SqlState)
    requires component < NUMBERS
  {
    && status == (if !InRange(value, INTEGER_LIMIT) then OUT_OF_RANGE
                  else if component == LEVEL && value != 0 then INVALID_LEVEL
                  else if component == DATETIME_INTERVAL_CODE
                          && !(a.number[TYPE] == SQL_DATETIME && SQL_CODE_DATE <= value <= 5) then INVALID_DATETIME_CODE
                  else SUCCESSFUL)
    && b.data == None && (status != SUCCESSFUL ==> b == a.(data := None))
    && (status == SUCCESSFUL ==>
          && b.number[component] == value
          && (component == TYPE ==> b == OfType(value))
          && (component != TYPE ==>
                && b.text == a.text
                && forall k | 0 <= k < NUMBERS && k != component && k != PRECISION :: b.number[k] == a.number[k]))
  }

  ghost predicate DataSet(a: Item, t: HostType, length: int, value: HostValue, b: Item, status: SqlState)
    requires value.Of(t)
  {
    if !a.Matches(t, length, false) then status == ERROR_IN_ASSIGNMENT && b == a
    else if t.IntegerHost? && !InRange(value.n, INTEGER_LIMIT) then status == OUT_OF_RANGE && b == a
    else status == SUCCESSFUL && b == a.(data := Some(ToData(t, value)))
  }

  // DESCRIBE sets COUNT, and all items or none.
  ghost predicate WasDescribed(a: Image, columns: seq<Description>, b: Image, status: SqlState) {
    && b.count == b.topLevelCount == |columns| && |b.items| == |a.items|
    && status == (if |columns| > |a.items| then TOO_FEW_ITEMS else SUCCESSFUL)
    && forall k | 0 <= k < |a.items| ::
         b.items[k] == if |columns| <= |a.items| && k < |columns| then Described(columns[k]) else a.items[k]
  }

  // The row that was fetched, into the items.
  ghost predicate WasAssigned(a: Image, row: seq<Column>, varying: set<nat>, b: Image, status: SqlState) {
    && b == a.(items := b.items) && |b.items| == |a.items|
    && if !(0 <= a.count <= |a.items|) then status == INVALID_COUNT && b == a
       else if a.count != |row| || exists k | 0 <= k < a.count :: !a.items[k].IsComplete() then
         status == OUTPUT_MISMATCH && b == a
       else
         && status in {SUCCESSFUL, RIGHT_TRUNCATION}
         && (forall k | a.count <= k < |a.items| :: b.items[k] == a.items[k])
         && ((forall k | 0 <= k < a.count :: !Failed(GotCode(a.items[k], row[k]))) ==>
               forall k | 0 <= k < a.count :: Got(a.items[k], row[k], k + 1 in varying, b.items[k]))
  }

  // What a statement does to the area that it names, and its status.
  ghost predicate WasChanged(a: Image, call: Call, b: Image, status: SqlState)
    requires call.Possible() && !call.Allocate? && !call.Deallocate?
  {
    match call
    case SetCount(n) =>
      if InRange(n, INTEGER_LIMIT) then status == SUCCESSFUL && b == a.(count := n)
      else status == OUT_OF_RANGE && b == a
    case SetNumber(n, component, value) =>
      && ItemSet(a, n, b, status)
      && (1 <= n <= |a.items| ==> NumberSet(a.items[n - 1], component, value, b.items[n - 1], status))
    case SetString(n, component, text) =>
      && ItemSet(a, n, b, status)
      && (1 <= n <= |a.items| ==>
            status == SUCCESSFUL && b.items[n - 1] == a.items[n - 1].SetText(component, text).(data := None))
    case SetData(n, t, length, data) =>
      && ItemSet(a, n, b, status)
      && (1 <= n <= |a.items| ==> DataSet(a.items[n - 1], t, length, data, b.items[n - 1], status))
    case Describe(columns) => WasDescribed(a, columns, b, status)
    case Into(row, varying) => WasAssigned(a, row, varying, b, status)
  }

  // What a statement does to the areas of an SQL-connection.
  ghost predicate Next(before: map<Key, Image>, key: Key, call: Call, after: map<Key, Image>, status: SqlState)
    requires call.Possible()
  {
    match call
    case Allocate(max) =>
      if max < 1 || max > MAX_OCCURRENCES then status == INVALID_INDEX && after == before
      else if key in before then status == INVALID_DESCRIPTOR_NAME && after == before
      else status == SUCCESSFUL && after == before[key := Image(0, 0, seq(max, _ => Empty()))]
    case Deallocate =>
      status == (if key in before then SUCCESSFUL else INVALID_DESCRIPTOR_NAME) && after == before - {key}
    case _ =>
      if key !in before then status == INVALID_DESCRIPTOR_NAME && after == before
      else key in after && after == before[key := after[key]] && WasChanged(before[key], call, after[key], status)
  }

  // Item n has DATA for a host parameter of the type.
  predicate CanGet(a: Image, n: int, t: HostType, length: int, indicator: bool) {
    && 1 <= n <= |a.items| && n <= a.count && a.items[n - 1].Matches(t, length, true)
    && (indicator || a.items[n - 1].number[INDICATOR] >= 0)
  }

  class Areas {
    var list: seq<Descriptor>

    ghost predicate Valid()
      reads this, list, set d | d in list :: d.items
    {
      && (forall d | d in list :: d.Valid())
      && Distinct(list)
    }

    ghost function Contents(): map<Key, Image>
      reads this, list, set d | d in list :: d.items
    {
      ByKey(Pairs())
    }

    ghost function Pairs(): seq<(Key, Image)>
      reads this, list, set d | d in list :: d.items
    {
      seq(|list|, i requires 0 <= i < |list| reads this, list, set d | d in list :: d.items =>
        (KeyOf(list[i]), list[i].Values()))
    }

    lemma PairsApart()
      requires Valid()
      ensures DistinctKeys(Pairs())
    {
      forall i, j | 0 <= i < j < |list| ensures Pairs()[i].0 != Pairs()[j].0 {
        assert Apart(list[i], list[j]);
      }
    }

    constructor ()
      ensures Valid() && list == []
    {
      list := [];
    }

    lemma KeyInContents(key: Key)
      ensures key in Contents() <==> exists d :: d in list && KeyOf(d) == key
    {
      KeyIn(Pairs(), key);
      if i :| 0 <= i < |list| && KeyOf(list[i]) == key {
        assert Pairs()[i].0 == key;
      }
    }

    // The place of the area with the name, or the length.
    method Find(key: Key) returns (k: nat)
      ensures k <= |list| && (k < |list| ==> KeyOf(list[k]) == key)
      ensures k == |list| ==> forall d | d in list :: KeyOf(d) != key
    {
      k := 0;
      while k < |list| && KeyOf(list[k]) != key
        invariant k <= |list| && forall i | 0 <= i < k :: KeyOf(list[i]) != key
      {
        k := k + 1;
      }
    }

    method Allocate(key: Key, max: int) returns (status: SqlState)
      requires Valid()
      modifies this
      ensures Valid()
      ensures status == INVALID_INDEX <==> max < 1 || max > MAX_OCCURRENCES
      ensures status == INVALID_DESCRIPTOR_NAME <==>
        1 <= max <= MAX_OCCURRENCES && exists d :: d in old(list) && KeyOf(d) == key
      ensures status in {SUCCESSFUL, INVALID_INDEX, INVALID_DESCRIPTOR_NAME}
      ensures status != SUCCESSFUL ==> list == old(list)
      ensures status == SUCCESSFUL ==>
        && |list| == |old(list)| + 1 && list[1..] == old(list) && fresh(list[0]) && fresh(list[0].items)
        && KeyOf(list[0]) == key && list[0].max == max == list[0].items.Length
        && list[0].count == list[0].topLevelCount == 0
        && forall k | 0 <= k < max :: list[0].items[k] == Empty()
      ensures Next(old(Contents()), key, Call.Allocate(max), Contents(), status)
    {
      if max < 1 || max > MAX_OCCURRENCES {
        return INVALID_INDEX;
      }
      var k := Find(key);
      KeyInContents(key);
      if k < |list| {
        assert list[k] in list;
        return INVALID_DESCRIPTOR_NAME;
      }
      var d := new Descriptor(key.owner, key.name, max);
      assert forall k | 0 <= k < max :: d.items[k] == Empty();
      ghost var before, pairs := list, Pairs();
      list := [d] + list;
      assert d.Values() == Image(0, 0, seq(max, _ => Empty()));
      assert list[1..] == before && Pairs() == [(key, d.Values())] + pairs;
      return SUCCESSFUL;
    }

    method Deallocate(key: Key) returns (status: SqlState)
      requires Valid()
      modifies this
      ensures Valid()
      ensures status == if exists d :: d in old(list) && KeyOf(d) == key then SUCCESSFUL else INVALID_DESCRIPTOR_NAME
      ensures forall d :: d in list <==> d in old(list) && KeyOf(d) != key
      ensures Next(old(Contents()), key, Call.Deallocate, Contents(), status)
    {
      var k := Find(key);
      KeyInContents(key);
      if k == |list| {
        return INVALID_DESCRIPTOR_NAME;
      }
      PairsApart();
      KeyWithout(Pairs(), k);
      ghost var pairs := Pairs();
      RemoveArea(list, k);
      assert list[k] in list;
      list := list[..k] + list[k + 1..];
      assert Pairs() == pairs[..k] + pairs[k + 1..];
      return SUCCESSFUL;
    }

    // The area is changed, and no other one is.
    method Change(d: Descriptor, call: Call) returns (status: SqlState)
      requires Valid() && d in list && call.Possible() && !call.Allocate? && !call.Deallocate?
      modifies d, d.items
      ensures Valid()
      ensures forall e | e in list && e != d :: unchanged(e) && unchanged(e.items)
      ensures WasChanged(old(d.Values()), call, d.Values(), status)
    {
      ghost var k :| 0 <= k < |list| && list[k] == d;
      OthersApart(list, k);
      match call {
        case SetCount(count) =>
          status := d.SetCount(count);
        case SetNumber(n, component, value) =>
          status := d.SetItem(n);
          if status == SUCCESSFUL {
            status := d.SetNumber(n - 1, component, value);
          }
        case SetString(n, component, text) =>
          status := d.SetItem(n);
          if status == SUCCESSFUL {
            d.SetString(n - 1, component, text);
          }
        case SetData(n, t, length, data) =>
          status := d.SetItem(n);
          if status == SUCCESSFUL {
            status := d.SetData(n - 1, t, length, data);
          }
        case Describe(columns) =>
          status := d.Describe(columns);
        case Into(columns, varying) =>
          var row := new Row(columns, varying);
          var rc;
          rc, status := d.Into(row);
      }
    }

    method ChangeNamed(key: Key, call: Call) returns (status: SqlState)
      requires Valid() && call.Possible() && !call.Allocate? && !call.Deallocate?
      modifies list, set d | d in list :: d.items
      ensures Valid()
      ensures Next(old(Contents()), key, call, Contents(), status)
    {
      hide WasChanged;
      var k := Find(key);
      KeyInContents(key);
      if k == |list| {
        return INVALID_DESCRIPTOR_NAME;
      }
      var d := list[k];
      assert d in list;
      PairsApart();
      ghost var pairs := Pairs();
      KeyAt(pairs, k);
      OthersApart(list, k);
      status := Change(d, call);
      KeyWith(pairs, k, d.Values());
      assert Pairs() == pairs[k := (key, d.Values())];
    }

    method Perform(key: Key, call: Call) returns (status: SqlState)
      requires Valid() && call.Possible()
      modifies this, list, set d | d in list :: d.items
      ensures Valid()
      ensures Next(old(Contents()), key, call, Contents(), status)
      ensures fresh(set d | d in list && d !in old(list))
      ensures fresh(set d | d in list && d !in old(list) :: d.items)
    {
      hide Next;
      match call {
        case Allocate(max) =>
          status := Allocate(key, max);
        case Deallocate =>
          status := Deallocate(key);
        case _ =>
          status := ChangeNamed(key, call);
      }
    }

    // GET DESCRIPTOR of DATA into a host parameter that isn't a string.
    method GetValue(key: Key, n: int, t: HostType, length: int, indicator: bool)
      returns (status: SqlState, value: Option<HostValue>)
      requires Valid() && !t.CharHost? && !t.VarcharHost?
      ensures status == SUCCESSFUL <==> key in Contents() && CanGet(Contents()[key], n, t, length, indicator)
      ensures key !in Contents() ==> status == INVALID_DESCRIPTOR_NAME
      ensures status == SUCCESSFUL ==>
        var item := Contents()[key].items[n - 1];
        value == if item.data.None? || item.number[INDICATOR] < 0 then None else Some(FromData(t, item.data.value))
    {
      var k := Find(key);
      KeyInContents(key);
      value := None;
      if k == |list| {
        return INVALID_DESCRIPTOR_NAME, None;
      }
      PairsApart();
      KeyAt(Pairs(), k);
      var d := list[k];
      assert d in list;
      status := d.GetItem(n, Some((t, length)), indicator);
      if status == SUCCESSFUL {
        value := d.GetData(n - 1, t, length);
      }
    }

    // A value that was set is the one that's retrieved.
    method SetThenGetValue(key: Key, n: int, t: HostType, length: int, value: HostValue)
      returns (set_: SqlState, get: SqlState, got: Option<HostValue>)
      requires Valid() && value.Of(t) && !t.CharHost? && !t.VarcharHost?
      modifies this, list, set d | d in list :: d.items
      ensures Valid()
      ensures set_ == SUCCESSFUL ==>
        && key in old(Contents()) && 1 <= n <= |old(Contents())[key].items|
        && (get == SUCCESSFUL <==> n <= old(Contents())[key].count)
        && (get == SUCCESSFUL && old(Contents())[key].items[n - 1].number[INDICATOR] >= 0 ==>
              got == Some(if t.BooleanHost? then HostInteger(if value.n != 0 then 1 else 0) else value))
    {
      set_ := Perform(key, SetData(n, t, length, value));
      SetThenGet(t, value);
      get, got := GetValue(key, n, t, length, true);
    }
  }

  lemma OthersApart(list: seq<Descriptor>, k: nat)
    requires Distinct(list) && k < |list|
    ensures forall i | 0 <= i < |list| && i != k ::
      list[i] != list[k] && list[i].items != list[k].items && KeyOf(list[i]) != KeyOf(list[k])
  {
    forall i | 0 <= i < |list| && i != k
      ensures list[i] != list[k] && list[i].items != list[k].items && KeyOf(list[i]) != KeyOf(list[k])
    {
      assert if i < k then Apart(list[i], list[k]) else Apart(list[k], list[i]);
    }
  }

  // DATA is laid out as it's read for every host parameter that matches the item.
  ghost predicate Readable(item: Item) {
    forall t, length, target | item.Matches(t, length, target) && item.data.Some? && item.number[INDICATOR] >= 0 ::
      item.data.value.Is(t.Layout())
  }

  lemma ItemsReadable(d: Descriptor)
    requires d.Valid()
    ensures forall k | 0 <= k < d.max :: Readable(d.items[k]) && d.items[k].number[LEVEL] == 0
  {
    forall k, t, length, target | 0 <= k < d.max && d.items[k].Matches(t, length, target)
      ensures t.Layout() == LayoutOf(d.items[k].number[TYPE])
    {
      MatchesLayout(d.items[k], t, length, target);
    }
  }

  // A number that was set is what the item has, and a DATA that was set too.
  lemma LastIsSet(before: map<Key, Image>, key: Key, call: Call, after: map<Key, Image>)
    requires call.Possible() && Next(before, key, call, after, SUCCESSFUL) && (call.SetNumber? || call.SetData?)
    ensures key in after && 1 <= call.n <= |after[key].items|
    ensures call.SetNumber? ==> after[key].items[call.n - 1].number[call.component] == call.value
    ensures call.SetData? ==> after[key].items[call.n - 1].data == Some(ToData(call.t, call.data))
  {
  }

  // Whatever is done with the areas of an SQL-connection, each statement does what it should. DATA
  // is only read as what it was written as, and the names refer to one area each.
  method Run(calls: seq<(Key, Call)>)
    returns (areas: Areas, statuses: seq<SqlState>, ghost trace: seq<map<Key, Image>>)
    requires forall k | 0 <= k < |calls| :: calls[k].1.Possible()
    ensures |statuses| == |calls| && |trace| == |calls| + 1 && trace[0] == map[] && trace[|calls|] == areas.Contents()
    ensures forall k | 0 <= k < |calls| :: Next(trace[k], calls[k].0, calls[k].1, trace[k + 1], statuses[k])
    ensures forall d | d in areas.list :: d.items.Length == d.max
    ensures forall d, k | d in areas.list && 0 <= k < d.max :: Readable(d.items[k]) && d.items[k].number[LEVEL] == 0
    ensures forall i, j | 0 <= i < j < |areas.list| :: KeyOf(areas.list[i]) != KeyOf(areas.list[j])
  {
    hide Next;
    areas := new Areas();
    statuses, trace := [], [areas.Contents()];
    var i := 0;
    while i < |calls|
      invariant 0 <= i <= |calls| && areas.Valid() && fresh(areas)
      invariant |statuses| == i && |trace| == i + 1 && trace[0] == map[] && trace[i] == areas.Contents()
      invariant forall k | 0 <= k < i :: Next(trace[k], calls[k].0, calls[k].1, trace[k + 1], statuses[k])
      invariant fresh(set d | d in areas.list) && fresh(set d | d in areas.list :: d.items)
    {
      var status := areas.Perform(calls[i].0, calls[i].1);
      statuses, trace := statuses + [status], trace + [areas.Contents()];
      i := i + 1;
    }
    forall d | d in areas.list
      ensures d.items.Length == d.max && forall k | 0 <= k < d.max ::
        && Readable(d.items[k])
        && d.items[k].number[LEVEL] == 0
    {
      ItemsReadable(d);
    }
    assert forall i, j | 0 <= i < j < |areas.list| :: Apart(areas.list[i], areas.list[j]);
  }
}

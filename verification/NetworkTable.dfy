/** The table of network handles that each network report inherits from the one before it. */
module NetworkTable {

  const MAX_NETWORK_HANDLES := 10
  const MAX_ITEM := 5
  const UNKNOWN_HANDLE: nat := 0xFFFF_FFFF_FFFF_FFFF
  const TYPE_MOBILE := 0
  const TYPE_UNKNOWN := 10

  datatype Entry = Entry(handle: nat, netType: int)

  const NOBODY := Entry(UNKNOWN_HANDLE, TYPE_UNKNOWN)

  type Table = seq<Entry>

  /** What arrives: `initialType` is the type the item's own type bit is made from, `mType` the type
      it was constructed with. */
  datatype Item = Item(handle: nat, mType: int, initialType: int, connected: bool, apn: string)

  /** What a stored report keeps and passes on. Type bits are a set of bit numbers. */
  datatype Info = Info(allTypes: set<int>, table: Table, connected: bool, apn: string, handle: nat, mType: int)

  function TypeBits(t: int): set<int> {
    if t >= TYPE_UNKNOWN || t < TYPE_MOBILE then {} else {t}
  }

  function NormalizedType(raw: int): int {
    match raw
    case 100 => 1
    case 101 => 2
    case 102 => 3
    case 201 => 0
    case 202 => 6
    case 203 => 7
    case 204 => 4
    case 205 => 5
    case 220 => 8
    case _ => TYPE_UNKNOWN
  }

  /** An item from the framework normalises its type; one from a connection event does not. */
  predicate FromFramework(it: Item) {
    it.initialType == NormalizedType(it.mType)
  }

  predicate FromEvent(it: Item) {
    it.initialType == it.mType
  }

  // ---------------------------------------------------------------- the table

  /** The length of the prefix in use. */
  function Used(t: Table): (n: nat)
    ensures n <= |t|
    ensures forall i :: 0 <= i < n ==> t[i].handle != UNKNOWN_HANDLE
    ensures n < |t| ==> t[n].handle == UNKNOWN_HANDLE
  {
    if t == [] || t[0].handle == UNKNOWN_HANDLE then 0 else 1 + Used(t[1..])
  }

  predicate HasHandle(t: Table, h: nat) {
    exists i :: 0 <= i < Used(t) && t[i].handle == h
  }

  function Inserted(t: Table, h: nat, netType: int): Table {
    if h == UNKNOWN_HANDLE || HasHandle(t, h) || Used(t) == |t| then t else t[Used(t) := Entry(h, netType)]
  }

  /** The last position below n that holds an entry, or n. */
  function LastIndex(t: Table, n: nat, e: Entry): (d: nat)
    requires n <= |t|
    ensures d <= n
    ensures d < n ==> t[d] == e
    ensures forall i :: 0 <= i < n && t[i] == e ==> i <= d < n
  {
    if n == 0 then 0
    else if t[n - 1] == e then n - 1
    else
      var d := LastIndex(t, n - 1, e);
      if d == n - 1 then n else d
  }

  /** The last entry in use takes the place of the removed one. */
  function Removed(t: Table, h: nat, netType: int): Table {
    var n := Used(t);
    var d := LastIndex(t, n, Entry(h, netType));
    if d == n then t else t[d := t[n - 1]][n - 1 := NOBODY]
  }

  predicate OtherOfType(t: Table, h: nat, netType: int) {
    exists i :: 0 <= i < Used(t) && t[i].netType == netType && t[i].handle != h
  }

  function Collated(cur: Info, it: Item): Info {
    var own := TypeBits(it.initialType);
    var apn := if it.mType != TYPE_MOBILE && cur.apn != "" then cur.apn else it.apn;
    if it.connected then
      Info(own + cur.allTypes, Inserted(cur.table, it.handle, it.mType), true, apn, it.handle, it.mType)
    else if own != {} then
      Info(if OtherOfType(cur.table, it.handle, it.mType) then own else cur.allTypes - own,
           Removed(cur.table, it.handle, it.mType), false, apn, it.handle, it.mType)
    else Info({}, cur.table, false, apn, it.handle, it.mType)
  }

  /** The first report is stored as it is constructed, connected or not. */
  function First(it: Item): Info {
    Info(TypeBits(it.initialType),
         seq(MAX_NETWORK_HANDLES, i => if i == 0 then Entry(it.handle, it.initialType) else NOBODY),
         it.connected, it.apn, it.handle, it.mType)
  }

  // ---------------------------------------------------------------- the history

  predicate SameReport(a: Info, b: Info) {
    a.allTypes == b.allTypes && a.connected == b.connected && a.table == b.table && a.apn == b.apn
  }

  function Pushed(report: seq<Info>, s: Info): seq<Info> {
    var longer := report + [s];
    if |longer| > MAX_ITEM then longer[1..] else longer
  }

  function SetItem(report: seq<Info>, it: Item): seq<Info> {
    if report == [] then Pushed(report, First(it))
    else
      var s := Collated(report[|report| - 1], it);
      if SameReport(report[|report| - 1], s) then report else Pushed(report, s)
  }

  function History(items: seq<Item>): seq<Info> {
    if items == [] then [] else SetItem(History(items[..|items| - 1]), items[|items| - 1])
  }

  /** The state that collations alone build up. */
  function Fold(items: seq<Item>): Info
    requires items != []
  {
    if |items| == 1 then First(items[0]) else Collated(Fold(items[..|items| - 1]), items[|items| - 1])
  }

  lemma CollateIgnoresTheRest(a: Info, b: Info, it: Item)
    requires SameReport(a, b)
    ensures Collated(a, it) == Collated(b, it)
  {
  }

  lemma SetItemEnds(report: seq<Info>, it: Item)
    requires 1 <= |report| <= MAX_ITEM
    ensures var r := SetItem(report, it);
      1 <= |r| <= MAX_ITEM && SameReport(r[|r| - 1], Collated(report[|report| - 1], it))
  {
  }

  /** Dropping repeated reports loses nothing: the bounded history always ends with the bits, table,
      connection flag and APN that collating every item would give. */
  lemma {:induction false} HistoryEndsWithFold(items: seq<Item>)
    requires items != []
    ensures var r := History(items); 1 <= |r| <= MAX_ITEM && SameReport(r[|r| - 1], Fold(items))
  {
    var n, last := |items| - 1, items[|items| - 1];
    if n == 0 {
      assert items[..0] == [] && History(items) == [First(last)];
    } else {
      HistoryEndsWithFold(items[..n]);
      var r := History(items[..n]);
      SetItemEnds(r, last);
      CollateIgnoresTheRest(r[|r| - 1], Fold(items[..n]), last);
    }
  }

  // ---------------------------------------------------------------- the map it refines

  /** Entries in use first, with distinct handles. */
  ghost predicate Packed(t: Table) {
    && |t| == MAX_NETWORK_HANDLES
    && (forall i :: Used(t) <= i < |t| ==> t[i].handle == UNKNOWN_HANDLE)
    && (forall i, j :: 0 <= i < j < Used(t) ==> t[i].handle != t[j].handle)
  }

  /** An entry of the table, as handle and type. */
  predicate Holds(t: Table, h: nat, netType: int) {
    exists i :: 0 <= i < Used(t) && t[i] == Entry(h, netType)
  }

  /** The table represents the map. */
  ghost predicate Represents(t: Table, m: map<nat, int>) {
    && Packed(t)
    && |m| == Used(t)
    && forall h, netType :: Holds(t, h, netType) <==> h in m && m[h] == netType
  }

  function MapStep(m: map<nat, int>, it: Item): map<nat, int> {
    if it.connected then
      if it.handle == UNKNOWN_HANDLE || it.handle in m || |m| == MAX_NETWORK_HANDLES then m
      else m[it.handle := it.mType]
    else if TypeBits(it.initialType) != {} && it.handle in m && m[it.handle] == it.mType then m - {it.handle}
    else m
  }

  function MapRun(m: map<nat, int>, items: seq<Item>): map<nat, int> {
    if items == [] then m else MapStep(MapRun(m, items[..|items| - 1]), items[|items| - 1])
  }

  function Run(s: Info, items: seq<Item>): Info {
    if items == [] then s else Collated(Run(s, items[..|items| - 1]), items[|items| - 1])
  }

  lemma UsedIs(t: Table, n: nat)
    requires n <= |t| && (forall i :: 0 <= i < n ==> t[i].handle != UNKNOWN_HANDLE)
    requires n < |t| ==> t[n].handle == UNKNOWN_HANDLE
    ensures Used(t) == n
  {
  }

  lemma RepresentedHandle(t: Table, m: map<nat, int>, h: nat)
    requires Represents(t, m)
    ensures HasHandle(t, h) <==> h in m
  {
    if i :| 0 <= i < Used(t) && t[i].handle == h {
      assert Holds(t, h, t[i].netType);
    }
    if h in m {
      assert Holds(t, h, m[h]);
    }
  }

  lemma InsertRefines(t: Table, m: map<nat, int>, it: Item)
    requires Represents(t, m) && it.connected
    ensures Represents(Inserted(t, it.handle, it.mType), MapStep(m, it))
  {
    RepresentedHandle(t, m, it.handle);
    var r, n := Inserted(t, it.handle, it.mType), Used(t);
    if r != t {
      var m' := m[it.handle := it.mType];
      UsedIs(r, n + 1);
      forall h, k ensures Holds(r, h, k) <==> h in m' && m'[h] == k {
        if i :| 0 <= i < n && t[i] == Entry(h, k) { assert r[i] == Entry(h, k); }
        if h == it.handle { assert r[n].handle == h; }
        assert Holds(r, h, k) <==> Holds(t, h, k) || (h == it.handle && k == it.mType);
      }
    }
  }

  lemma RemovedEntries(t: Table, h: nat, netType: int, h2: nat, k: int)
    requires Packed(t) && Holds(t, h, netType)
    ensures var r := Removed(t, h, netType);
      && Packed(r) && Used(r) == Used(t) - 1
      && (Holds(r, h2, k) <==> Holds(t, h2, k) && h2 != h)
  {
    var r, n := Removed(t, h, netType), Used(t);
    var d := LastIndex(t, n, Entry(h, netType));
    assert d < n;
    UsedIs(r, n - 1);
    if i :| 0 <= i < n && t[i] == Entry(h2, k) {
      if h2 != h {
        assert i != d;
        assert if i == n - 1 then r[d] == Entry(h2, k) else r[i] == Entry(h2, k);
      }
    }
    if i :| 0 <= i < n - 1 && r[i] == Entry(h2, k) {
      assert if i == d then t[n - 1] == Entry(h2, k) else t[i] == Entry(h2, k);
    }
  }

  lemma RemoveRefines(t: Table, m: map<nat, int>, it: Item)
    requires Represents(t, m) && !it.connected && TypeBits(it.initialType) != {}
    ensures Represents(Removed(t, it.handle, it.mType), MapStep(m, it))
  {
    var h, n := it.handle, Used(t);
    var d := LastIndex(t, n, Entry(h, it.mType));
    if d < n {
      assert Holds(t, h, it.mType);
      var r, m' := Removed(t, h, it.mType), m - {h};
      forall h2, k ensures Holds(r, h2, k) <==> h2 in m' && m'[h2] == k {
        RemovedEntries(t, h, it.mType, h2, k);
      }
      RemovedEntries(t, h, it.mType, h, it.mType);
      assert m == m'[h := it.mType];
    } else {
      assert !Holds(t, h, it.mType);
    }
  }

  lemma CollateRefines(s: Info, m: map<nat, int>, it: Item)
    requires Represents(s.table, m)
    ensures Represents(Collated(s, it).table, MapStep(m, it))
  {
    if it.connected {
      InsertRefines(s.table, m, it);
    } else if TypeBits(it.initialType) != {} {
      RemoveRefines(s.table, m, it);
    }
  }

  /** Over every sequence of collations the table stays packed and distinct, and holds exactly the map
      that "insert on connect if absent and room, remove matching handle and type on disconnect" gives. */
  lemma {:induction false} RunRefinesMap(s: Info, m: map<nat, int>, items: seq<Item>)
    requires Represents(s.table, m)
    ensures Represents(Run(s, items).table, MapRun(m, items))
  {
    if items != [] {
      var n := |items| - 1;
      RunRefinesMap(s, m, items[..n]);
      CollateRefines(Run(s, items[..n]), MapRun(m, items[..n]), items[n]);
    }
  }

  function FirstMap(it: Item): map<nat, int> {
    if it.handle == UNKNOWN_HANDLE then map[] else map[it.handle := it.initialType]
  }

  lemma FirstRepresents(it: Item)
    ensures Represents(First(it).table, FirstMap(it))
  {
    var t := First(it).table;
    if it.handle == UNKNOWN_HANDLE {
      UsedIs(t, 0);
    } else {
      UsedIs(t, 1);
      assert forall h, k :: Holds(t, h, k) <==> t[0] == Entry(h, k);
    }
  }

  // ---------------------------------------------------------------- the APN and the last item

  /** The items from the latest mobile one on; all, if none is mobile. */
  function FromLatestMobile(items: seq<Item>): seq<Item> {
    if items == [] then []
    else
      var it := items[|items| - 1];
      if it.mType == TYPE_MOBILE then [it] else FromLatestMobile(items[..|items| - 1]) + [it]
  }

  /** The first APN that is not empty, if there is one. */
  function FirstNamed(items: seq<Item>): string {
    if items == [] then "" else if items[0].apn != "" then items[0].apn else FirstNamed(items[1..])
  }

  lemma {:induction false} FirstNamedGoesOn(items: seq<Item>, it: Item)
    ensures FirstNamed(items + [it]) == if FirstNamed(items) != "" then FirstNamed(items) else it.apn
  {
    if items == [] {
      assert items + [it] == [it] && [it][1..] == [];
    } else {
      assert (items + [it])[0] == items[0] && (items + [it])[1..] == items[1..] + [it];
      FirstNamedGoesOn(items[1..], it);
    }
  }

  /** Over every sequence of reports: the APN is the first one given from the latest mobile report on; and
      connection, handle and raw type are those of the latest report. */
  lemma {:induction false} ApnExactly(items: seq<Item>)
    requires items != []
    ensures var s, last := Fold(items), items[|items| - 1];
      && s.apn == FirstNamed(FromLatestMobile(items))
      && s.connected == last.connected && s.handle == last.handle && s.mType == last.mType
  {
    var n := |items| - 1;
    FirstNamedGoesOn([], items[n]);
    assert [] + [items[n]] == [items[n]];
    if n > 0 {
      ApnExactly(items[..n]);
      FirstNamedGoesOn(FromLatestMobile(items[..n]), items[n]);
    } else {
      assert items[..n] == [];
    }
  }

  // ---------------------------------------------------------------- bits over connections

  function AllBits(items: seq<Item>): set<int> {
    set it, b | it in items && b in TypeBits(it.initialType) :: b
  }

  /** Connections only add bits: after any sequence of them, from any state, the bits are those there were
      and those of the items. */
  lemma {:induction false} ConnectionsAddBits(s: Info, items: seq<Item>)
    requires forall it :: it in items ==> it.connected
    ensures Run(s, items).allTypes == s.allTypes + AllBits(items)
  {
    if items != [] {
      var n := |items| - 1;
      assert items == items[..n] + [items[n]] && items[n] in items;
      ConnectionsAddBits(s, items[..n]);
      assert AllBits(items) == AllBits(items[..n]) + TypeBits(items[n].initialType);
    }
  }

  /** From the first report on, too. */
  lemma {:induction false} ConnectionsHaveTheirBits(items: seq<Item>)
    requires items != [] && forall it :: it in items ==> it.connected
    ensures Fold(items).allTypes == AllBits(items)
  {
    var n := |items| - 1;
    assert items == items[..n] + [items[n]] && items[n] in items;
    if n > 0 {
      ConnectionsHaveTheirBits(items[..n]);
      assert AllBits(items) == AllBits(items[..n]) + TypeBits(items[n].initialType);
    }
  }

  /** A disconnect without a known type takes all bits away. One with a type takes its bit away and leaves the
      others, if no other handle has its raw type; if one has, its bit is the only one left. */
  lemma DisconnectBitsExactly(s: Info, m: map<nat, int>, it: Item, b: int)
    requires Represents(s.table, m) && !it.connected
    ensures b in Collated(s, it).allTypes <==>
      && TypeBits(it.initialType) != {}
      && if exists h :: h in m && h != it.handle && m[h] == it.mType then b == it.initialType
         else b in s.allTypes && b != it.initialType
  {
    if i :| 0 <= i < Used(s.table) && s.table[i].netType == it.mType && s.table[i].handle != it.handle {
      assert Holds(s.table, s.table[i].handle, it.mType);
    }
    if h :| h in m && h != it.handle && m[h] == it.mType {
      assert Holds(s.table, h, m[h]);
    }
  }

  /** A handle that connects and disconnects again, under a raw type of its own, leaves bits and table as
      they were. */
  lemma ConnectThenDisconnect(s: Info, it: Item)
    requires Packed(s.table) && it.connected && FromEvent(it) && TypeBits(it.mType) != {}
    requires it.handle != UNKNOWN_HANDLE && !HasHandle(s.table, it.handle) && Used(s.table) < |s.table|
    requires it.mType !in s.allTypes && forall i :: 0 <= i < Used(s.table) ==> s.table[i].netType != it.mType
    requires s.table[Used(s.table)] == NOBODY
    ensures var r := Collated(Collated(s, it), it.(connected := false));
      r.table == s.table && r.allTypes == s.allTypes && !r.connected
  {
    var n, up := Used(s.table), Collated(s, it);
    UsedIs(up.table, n + 1);
    assert up.table[n] == Entry(it.handle, it.mType);
    assert !OtherOfType(up.table, it.handle, it.mType);
    assert LastIndex(up.table, n + 1, Entry(it.handle, it.mType)) == n;
    var down := Collated(up, it.(connected := false));
    assert down.table == s.table;
  }

  // ---------------------------------------------------------------- type bits

  /** The bit that a stored type stands for: event types are bit numbers, framework types are not. */
  function BitsOfStored(t: int): set<int> {
    if TypeBits(t) != {} then TypeBits(t) else TypeBits(NormalizedType(t))
  }

  predicate LiveBit(t: Table, b: int) {
    exists i :: 0 <= i < Used(t) && b in BitsOfStored(t[i].netType)
  }

  /** Every type bit has a live handle of that type. */
  ghost predicate NoDanglingBit(s: Info) {
    forall b :: b in s.allTypes ==> LiveBit(s.table, b)
  }

  /** The condition under which a collation cannot leave a bit without a handle: the item is not a
      connect, or its bit has a live handle already, or its handle is new and there is room. */
  predicate BitIsBacked(s: Info, it: Item) {
    it.connected ==>
      || (forall b :: b in TypeBits(it.initialType) ==> LiveBit(s.table, b))
      || (it.handle != UNKNOWN_HANDLE && !HasHandle(s.table, it.handle) && Used(s.table) < |s.table|)
  }

  lemma InsertKeepsLive(t: Table, h: nat, netType: int, b: int)
    requires Packed(t)
    ensures var inserts := h != UNKNOWN_HANDLE && !HasHandle(t, h) && Used(t) < |t|;
      LiveBit(Inserted(t, h, netType), b) <==> LiveBit(t, b) || (inserts && b in BitsOfStored(netType))
  {
    var r, n := Inserted(t, h, netType), Used(t);
    if h != UNKNOWN_HANDLE && !HasHandle(t, h) && n < |t| {
      UsedIs(r, n + 1);
      if i :| 0 <= i < n && b in BitsOfStored(t[i].netType) { assert r[i] == t[i]; }
      assert r[n] == Entry(h, netType);
    }
  }

  lemma RemoveKeepsOtherBits(t: Table, h: nat, netType: int, b: int)
    requires Packed(t) && LiveBit(t, b) && b !in BitsOfStored(netType)
    ensures LiveBit(Removed(t, h, netType), b)
  {
    var r, n := Removed(t, h, netType), Used(t);
    var d := LastIndex(t, n, Entry(h, netType));
    if d < n {
      UsedIs(r, n - 1);
      var i :| 0 <= i < n && b in BitsOfStored(t[i].netType);
      assert if i == n - 1 then r[d] == t[i] else r[i] == t[i];
    }
  }

  lemma RemoveKeepsOtherHandles(t: Table, h: nat, netType: int, b: int)
    requires Packed(t) && OtherOfType(t, h, netType) && b in BitsOfStored(netType)
    ensures LiveBit(Removed(t, h, netType), b)
  {
    var r, n := Removed(t, h, netType), Used(t);
    var d := LastIndex(t, n, Entry(h, netType));
    var i :| 0 <= i < n && t[i].netType == netType && t[i].handle != h;
    if d < n {
      UsedIs(r, n - 1);
      assert if i == n - 1 then r[d] == t[i] else r[i] == t[i];
    }
  }

  /** A collation leaves no type bit without a live handle of that type, if and only if the bit of a
      connecting item is backed; disconnects never do. */
  lemma NoBitWithoutHandle(s: Info, it: Item)
    requires Packed(s.table) && NoDanglingBit(s) && (FromFramework(it) || FromEvent(it))
    ensures NoDanglingBit(Collated(s, it)) <==> BitIsBacked(s, it)
  {
    var r, own := Collated(s, it), TypeBits(it.initialType);
    if it.connected {
      var inserts := it.handle != UNKNOWN_HANDLE && !HasHandle(s.table, it.handle) && Used(s.table) < |s.table|;
      forall b ensures LiveBit(r.table, b) <==> (LiveBit(s.table, b) || (inserts && b in BitsOfStored(it.mType))) {
        InsertKeepsLive(s.table, it.handle, it.mType, b);
      }
    } else if own != {} {
      assert own == BitsOfStored(it.mType);
      forall b | b in r.allTypes ensures LiveBit(r.table, b) {
        if OtherOfType(s.table, it.handle, it.mType) {
          RemoveKeepsOtherHandles(s.table, it.handle, it.mType, b);
        } else {
          RemoveKeepsOtherBits(s.table, it.handle, it.mType, b);
        }
      }
    }
  }

  predicate AllBacked(s: Info, items: seq<Item>) {
    items == [] ||
    var n := |items| - 1;
    && AllBacked(s, items[..n]) && BitIsBacked(Run(s, items[..n]), items[n])
    && (FromFramework(items[n]) || FromEvent(items[n]))
  }

  lemma {:induction false} NoBitWithoutHandleOverRuns(s: Info, m: map<nat, int>, items: seq<Item>)
    requires Represents(s.table, m) && NoDanglingBit(s) && AllBacked(s, items)
    ensures NoDanglingBit(Run(s, items))
  {
    if items != [] {
      var n := |items| - 1;
      NoBitWithoutHandleOverRuns(s, m, items[..n]);
      RunRefinesMap(s, m, items[..n]);
      NoBitWithoutHandle(Run(s, items[..n]), items[n]);
    }
  }

  /** Room and one type per handle are enough for a connect to be backed. */
  lemma RoomAndFixedTypeSuffice(s: Info, it: Item)
    requires it.connected && it.handle != UNKNOWN_HANDLE && (FromFramework(it) || FromEvent(it))
    requires !HasHandle(s.table, it.handle) ==> Used(s.table) < |s.table|
    requires forall i :: 0 <= i < Used(s.table) && s.table[i].handle == it.handle ==>
      BitsOfStored(s.table[i].netType) == BitsOfStored(it.mType)
    ensures BitIsBacked(s, it)
  {
    if i :| 0 <= i < Used(s.table) && s.table[i].handle == it.handle {
      forall b | b in TypeBits(it.initialType) ensures LiveBit(s.table, b) {
        assert b in BitsOfStored(s.table[i].netType);
      }
    }
  }

  function Handles(items: seq<Item>): set<nat> {
    set it | it in items && it.handle != UNKNOWN_HANDLE :: it.handle
  }

  /** Items that cannot leave a bit without a handle, whatever their order: those that carry a type have a
      handle, no handle carries two types, and there are no more handles than the table has room for. */
  predicate FewFixedHandles(items: seq<Item>) {
    && |Handles(items)| <= MAX_NETWORK_HANDLES
    && (forall a :: a in items ==> FromFramework(a) || FromEvent(a))
    && (forall a :: a in items && TypeBits(a.initialType) != {} ==> a.handle != UNKNOWN_HANDLE)
    && forall a, b :: a in items && b in items && a.handle == b.handle ==>
         TypeBits(a.initialType) == TypeBits(b.initialType)
  }

  /** The handle came with some item, and the stored type stands for the bit of that item. */
  predicate CameWith(h: nat, stored: int, items: seq<Item>) {
    h != UNKNOWN_HANDLE && exists a :: a in items && a.handle == h && TypeBits(a.initialType) <= BitsOfStored(stored)
  }

  ghost predicate ComesFrom(m: map<nat, int>, items: seq<Item>) {
    forall h :: h in m ==> CameWith(h, m[h], items)
  }

  lemma MapStepComesFrom(m: map<nat, int>, items: seq<Item>, it: Item)
    requires ComesFrom(m, items) && (FromFramework(it) || FromEvent(it))
    ensures ComesFrom(MapStep(m, it), items + [it])
  {
    var m' := MapStep(m, it);
    forall h | h in m' ensures CameWith(h, m'[h], items + [it]) {
      if h in m && m'[h] == m[h] {
        assert CameWith(h, m[h], items);
      } else {
        assert it in items + [it] && it.handle == h;
      }
    }
  }

  /** A connecting item of such a run always finds its handle, or room for it. */
  lemma FewHandlesAreBacked(s: Info, m: map<nat, int>, items: seq<Item>, it: Item)
    requires FewFixedHandles(items + [it]) && Represents(s.table, m) && ComesFrom(m, items)
    ensures BitIsBacked(s, it)
  {
    var all := items + [it];
    assert it in all;
    RepresentedHandle(s.table, m, it.handle);
    if it.handle in m {
      assert CameWith(it.handle, m[it.handle], items);
      var a :| a in items && a.handle == it.handle && TypeBits(a.initialType) <= BitsOfStored(m[it.handle]);
      assert a in all;
      assert Holds(s.table, it.handle, m[it.handle]);
    } else if it.handle != UNKNOWN_HANDLE {
      HasRoom(m, items, it);
    }
  }

  lemma HasRoom(m: map<nat, int>, items: seq<Item>, it: Item)
    requires ComesFrom(m, items) && it.handle !in m && it.handle != UNKNOWN_HANDLE
    ensures |m| < |Handles(items + [it])|
  {
    var all := items + [it];
    forall h | h in m.Keys ensures h in Handles(all) - {it.handle} {
      assert CameWith(h, m[h], items);
      var a :| a in items && a.handle == h;
      assert a in all;
    }
    assert it in all && it.handle in Handles(all);
    SubsetSize(m.Keys, Handles(all) - {it.handle});
    assert |m| == |m.Keys|;
  }

  lemma {:induction false} SubsetSize(a: set<nat>, b: set<nat>)
    requires a <= b
    ensures |a| <= |b|
  {
    if x :| x in a {
      SubsetSize(a - {x}, b - {x});
    }
  }

  lemma FewerItems(items: seq<Item>, n: nat)
    requires n <= |items| && FewFixedHandles(items)
    ensures FewFixedHandles(items[..n])
  {
    assert forall a :: a in items[..n] ==> a in items;
    SubsetSize(Handles(items[..n]), Handles(items));
  }

  lemma OneMoreIsLive(s: Info, before: map<nat, int>, items: seq<Item>, it: Item)
    requires FewFixedHandles(items + [it])
    requires Represents(s.table, before) && ComesFrom(before, items) && NoDanglingBit(s)
    ensures var m, r := MapStep(before, it), Collated(s, it);
      Represents(r.table, m) && ComesFrom(m, items + [it]) && NoDanglingBit(r)
  {
    assert it in items + [it];
    CollateRefines(s, before, it);
    MapStepComesFrom(before, items, it);
    FewHandlesAreBacked(s, before, items, it);
    NoBitWithoutHandle(s, it);
  }

  lemma AllButLast(items: seq<Item>)
    requires items != []
    ensures items == items[..|items| - 1] + [items[|items| - 1]]
  {
  }

  lemma {:induction false} FoldIsLive(items: seq<Item>) returns (m: map<nat, int>)
    requires items != [] && FewFixedHandles(items)
    ensures Represents(Fold(items).table, m) && ComesFrom(m, items) && NoDanglingBit(Fold(items))
  {
    var n := |items| - 1;
    var it := items[n];
    AllButLast(items);
    if n == 0 {
      m := FirstMap(it);
      assert it in items;
      FirstRepresents(it);
      FirstIsLive(it);
    } else {
      FewerItems(items, n);
      var before := FoldIsLive(items[..n]);
      m := MapStep(before, it);
      OneMoreIsLive(Fold(items[..n]), before, items[..n], it);
    }
  }

  lemma FirstIsLive(it: Item)
    requires TypeBits(it.initialType) != {} ==> it.handle != UNKNOWN_HANDLE
    ensures NoDanglingBit(First(it))
  {
    var t := First(it).table;
    if it.handle != UNKNOWN_HANDLE {
      UsedIs(t, 1);
      assert t[0] == Entry(it.handle, it.initialType);
    }
  }

  /** From the first report on, with a condition on the items alone: no bit of the last report in the
      history is without a live handle of its type. */
  lemma HistoryHasNoDanglingBit(items: seq<Item>)
    requires items != [] && FewFixedHandles(items)
    ensures var r := History(items); r != [] && NoDanglingBit(r[|r| - 1])
  {
    HistoryEndsWithFold(items);
    var _ := FoldIsLive(items);
  }

  // ---------------------------------------------------------------- the first report of the framework

  /** A typed framework item is never stored under its own raw type when it comes first. */
  lemma FirstStoresAnotherType(it: Item)
    requires FromFramework(it) && TypeBits(it.initialType) != {}
    ensures it.initialType != it.mType
  {
  }

  /** No later disconnect removes the handle of such a first report: the table keeps the normalised
      type, and the disconnect is compared by raw type. */
  lemma {:induction false} FirstHandleIsNeverRemoved(first: Item, items: seq<Item>)
    requires FromFramework(first) && TypeBits(first.initialType) != {} && first.handle != UNKNOWN_HANDLE
    requires forall it :: it in items && it.handle == first.handle ==> it.mType == first.mType
    ensures Holds(Run(First(first), items).table, first.handle, first.initialType)
  {
    FirstRepresents(first);
    RunRefinesMap(First(first), FirstMap(first), items);
    StaysInMap(first, items);
  }

  lemma {:induction false} StaysInMap(first: Item, items: seq<Item>)
    requires FromFramework(first) && TypeBits(first.initialType) != {} && first.handle != UNKNOWN_HANDLE
    requires forall it :: it in items && it.handle == first.handle ==> it.mType == first.mType
    ensures var m := MapRun(FirstMap(first), items); first.handle in m && m[first.handle] == first.initialType
  {
    if items != [] {
      var n := |items| - 1;
      StaysInMap(first, items[..n]);
      FirstStoresAnotherType(first);
      assert items[n] in items;
    }
  }

  /** In general a disconnect that carries a type takes out its handle exactly when the handle is
      stored with the raw type of the disconnect. */
  lemma DisconnectRemovesExactly(s: Info, m: map<nat, int>, it: Item)
    requires Represents(s.table, m) && it.handle in m && !it.connected && TypeBits(it.initialType) != {}
    ensures !HasHandle(Collated(s, it).table, it.handle) <==> m[it.handle] == it.mType
  {
    CollateRefines(s, m, it);
    RepresentedHandle(Collated(s, it).table, MapStep(m, it), it.handle);
  }
}

/** The network report that edits its own copy of the table, and the bounded history of reports. */
module NetworkReports {
  import opened NetworkTable

  class SystemStatusNetworkInfo {
    var mAllTypes: set<int>
    const mType: int
    const mConnected: bool
    const mNetworkHandle: nat
    var mApn: string
    const mAllNetworkHandles: array<Entry>

    function View(): Info
      reads this, mAllNetworkHandles
    {
      Info(mAllTypes, mAllNetworkHandles[..], mConnected, mApn, mNetworkHandle, mType)
    }

    constructor (it: Item)
      ensures View() == First(it) && fresh(mAllNetworkHandles)
    {
      mAllTypes, mType, mConnected := TypeBits(it.initialType), it.mType, it.connected;
      mNetworkHandle, mApn := it.handle, it.apn;
      mAllNetworkHandles := new Entry[MAX_NETWORK_HANDLES](
        i => if i == 0 then Entry(it.handle, it.initialType) else NOBODY);
      new;
      assert mAllNetworkHandles[..] == First(it).table;
    }

    /** Looks for the handle or the first free entry, whichever comes first. */
    method InsertHandle()
      modifies mAllNetworkHandles
      ensures mAllNetworkHandles[..] == Inserted(old(mAllNetworkHandles[..]), mNetworkHandle, mType)
    {
      ghost var t := mAllNetworkHandles[..];
      var i := 0;
      while i < mAllNetworkHandles.Length
        invariant 0 <= i <= Used(t) && mAllNetworkHandles[..] == t
        invariant forall k :: 0 <= k < i ==> t[k].handle != mNetworkHandle
      {
        if mNetworkHandle == mAllNetworkHandles[i].handle {
          assert t[i].handle == mNetworkHandle;
          assert i < Used(t) ==> HasHandle(t, mNetworkHandle);
          return;
        }
        if UNKNOWN_HANDLE == mAllNetworkHandles[i].handle {
          assert i == Used(t);
          mAllNetworkHandles[i] := Entry(mNetworkHandle, mType);
          return;
        }
        i := i + 1;
      }
    }

    /** One pass over the entries in use: the entry to delete, and the other handles of its type. */
    method RemoveHandle() returns (typeCount: nat)
      modifies mAllNetworkHandles
      ensures mAllNetworkHandles[..] == Removed(old(mAllNetworkHandles[..]), mNetworkHandle, mType)
      ensures typeCount > 0 <==> OtherOfType(old(mAllNetworkHandles[..]), mNetworkHandle, mType)
    {
      ghost var t := mAllNetworkHandles[..];
      var deletedIndex, lastValidIndex := mAllNetworkHandles.Length, 0;
      typeCount := 0;
      ghost var e := Entry(mNetworkHandle, mType);
      while lastValidIndex < mAllNetworkHandles.Length && UNKNOWN_HANDLE != mAllNetworkHandles[lastValidIndex].handle
        invariant 0 <= lastValidIndex <= Used(t) && mAllNetworkHandles[..] == t
        invariant deletedIndex ==
          (if LastIndex(t, lastValidIndex, e) == lastValidIndex then |t| else LastIndex(t, lastValidIndex, e))
        invariant typeCount > 0 <==>
          exists k :: 0 <= k < lastValidIndex && t[k].netType == mType && t[k].handle != mNetworkHandle
      {
        var entry := mAllNetworkHandles[lastValidIndex];
        assert entry == t[lastValidIndex];
        if mType == entry.netType {
          if mNetworkHandle == entry.handle {
            deletedIndex := lastValidIndex;
          } else {
            typeCount := typeCount + 1;
          }
        }
        lastValidIndex := lastValidIndex + 1;
      }
      assert lastValidIndex == Used(t);
      if lastValidIndex > 0 {
        lastValidIndex := lastValidIndex - 1;
      }
      if deletedIndex != mAllNetworkHandles.Length {
        mAllNetworkHandles[deletedIndex] := mAllNetworkHandles[lastValidIndex];
        mAllNetworkHandles[lastValidIndex] := NOBODY;
      }
    }

    /** `it` is the item this report was constructed from. */
    method Collate(curInfo: Info, ghost it: Item)
      requires |curInfo.table| == mAllNetworkHandles.Length && View() == First(it)
      modifies this, mAllNetworkHandles
      ensures View() == Collated(curInfo, it)
    {
      var allTypes, apn := curInfo.allTypes, curInfo.apn;
      forall i | 0 <= i < mAllNetworkHandles.Length {
        mAllNetworkHandles[i] := curInfo.table[i];
      }
      assert mAllNetworkHandles[..] == curInfo.table;
      if TYPE_MOBILE != mType && apn != "" {
        mApn := apn;
      }
      if mConnected {
        mAllTypes := mAllTypes + allTypes;
        InsertHandle();
      } else if mAllTypes != {} {
        var typeCount := RemoveHandle();
        if typeCount == 0 {
          mAllTypes := allTypes - mAllTypes;
        }
      }
    }
  }

  class SystemStatus {
    var mNetworkInfo: seq<Info>

    ghost predicate Valid()
      reads this
    {
      |mNetworkInfo| <= MAX_ITEM && forall r :: r in mNetworkInfo ==> |r.table| == MAX_NETWORK_HANDLES
    }

    constructor ()
      ensures Valid() && mNetworkInfo == []
    {
      mNetworkInfo := [];
    }

    method SetItemInReport(it: Item) returns (updated: bool)
      requires Valid()
      modifies this
      ensures Valid() && mNetworkInfo == SetItem(old(mNetworkInfo), it)
      ensures var r := old(mNetworkInfo);
        updated <==> r == [] || !SameReport(r[|r| - 1], Collated(r[|r| - 1], it))
    {
      var s := new SystemStatusNetworkInfo(it);
      if mNetworkInfo != [] {
        var back := mNetworkInfo[|mNetworkInfo| - 1];
        s.Collate(back, it);
        var same := ReportsEqual(back, s.View());
        if same {
          return false;
        }
      }
      ghost var pushed := mNetworkInfo + [s.View()];
      mNetworkInfo := mNetworkInfo + [s.View()];
      if |mNetworkInfo| > MAX_ITEM {
        mNetworkInfo := mNetworkInfo[1..];
      }
      assert forall r :: r in mNetworkInfo ==> r in pushed;
      updated := true;
    }

    /** Compares the tables entry by entry. */
    method ReportsEqual(a: Info, peer: Info) returns (rtv: bool)
      requires |a.table| == |peer.table| == MAX_NETWORK_HANDLES
      ensures rtv <==> SameReport(a, peer)
    {
      rtv := a.allTypes == peer.allTypes && a.connected == peer.connected;
      var i := 0;
      while rtv && i < MAX_NETWORK_HANDLES
        invariant 0 <= i <= MAX_NETWORK_HANDLES
        invariant rtv ==> a.allTypes == peer.allTypes && a.connected == peer.connected
        invariant rtv ==> a.table[..i] == peer.table[..i]
        invariant !rtv ==> !SameReport(a, peer)
      {
        rtv := a.table[i] == peer.table[i] && rtv;
        i := i + 1;
      }
      assert i == MAX_NETWORK_HANDLES ==> a.table[..i] == a.table && peer.table[..i] == peer.table;
      rtv := rtv && peer.apn == a.apn;
    }
  }
}
